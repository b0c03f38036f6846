/**
 * JavaScript values as the handlers see them: what `JSON.parse` yields for a request
 * body or a stored file, plus `undefined` for a missing property, and the implicit
 * coercions the code applies to them (`||`, `??`, `?.`, `String(v)`, `Number(v)`).
 */
module Js {
  import opened JsText
  import opened Wrappers

  /** A JSON value or `undefined`. JSON numbers are integers in this model. */
  datatype Value =
    | Undefined
    | Null
    | Bool(b: bool)
    | Num(n: int)
    | Str(s: string)
    | Arr(elems: seq<Value>)
    | Obj(fields: map<string, Value>)

  /** JavaScript truthiness: `undefined`, `null`, `false`, `0` and `""` are the falsy values. */
  predicate Truthy(v: Value) {
    match v
    case Undefined => false
    case Null => false
    case Bool(b) => b
    case Num(n) => n != 0
    case Str(s) => s != []
    case Arr(_) => true
    case Obj(_) => true
  }

  /** `undefined` or `null`: the values `??` and `?.` skip. */
  predicate Nullish(v: Value) {
    v.Undefined? || v.Null?
  }

  /** `a || b` */
  function Or(a: Value, b: Value): Value {
    if Truthy(a) then a else b
  }

  /** `a ?? b` */
  function Coalesce(a: Value, b: Value): Value {
    if Nullish(a) then b else a
  }

  /** `v?.[key]`: an object's own property, and `undefined` on anything that has none. */
  function Get(v: Value, key: string): Value {
    if v.Obj? && key in v.fields then v.fields[key] else Undefined
  }

  /** `String(v)`; an array is joined with `,`, its `null`/`undefined` elements written as `""`. */
  function ToStr(v: Value): string
    decreases v
  {
    match v
    case Undefined => "undefined"
    case Null => "null"
    case Bool(b) => if b then "true" else "false"
    case Num(n) => IntToDecimal(n)
    case Str(s) => s
    case Arr(es) =>
      JoinWith(seq(|es|, i requires 0 <= i < |es| => if Nullish(es[i]) then "" else ToStr(es[i])), ",")
    case Obj(_) => "[object Object]"
  }

  /** `String(v || "")`: the string form of a truthy value, `""` for a falsy one. */
  function StrOrEmpty(v: Value): (r: string)
    ensures !Truthy(v) ==> r == []
    ensures v.Str? ==> r == v.s
  {
    ToStr(Or(v, Str("")))
  }

  /** `String(v || "").trim()`: the trimmed string form of a truthy value, `""` for a falsy one. */
  function TrimmedText(v: Value): (r: string)
    ensures IsTrimmed(r)
    ensures !Truthy(v) ==> r == []
    ensures v.Str? ==> r == Trim(v.s)
  {
    TrimIsTrimmed(StrOrEmpty(v));
    Trim(StrOrEmpty(v))
  }

  /** A string already trimmed is its own trimmed text. */
  lemma TrimmedTextOfTrimmed(s: string)
    requires IsTrimmed(s)
    ensures TrimmedText(Str(s)) == s
  {
    TrimIdentity(s);
  }

  /** The result of `Number(v)`: a finite number or NaN. */
  datatype Number = Finite(value: int) | NaN

  /**
   * `Number(s)` for a string: surrounding white space is ignored, the empty string is 0,
   * an optionally signed run of decimal digits is its value; everything else is NaN here.
   */
  function StrToNumber(s: string): Number {
    var t := Trim(s);
    if t == [] then Finite(0)
    else if t[0] == '-' || t[0] == '+' then
      var digits := t[1..];
      if digits != [] && AllDigits(digits) then
        Finite(if t[0] == '-' then 0 - DigitsValue(digits) else DigitsValue(digits))
      else NaN
    else if AllDigits(t) then Finite(DigitsValue(t))
    else NaN
  }

  /** `Number(v)`: arrays and objects are converted through their string form. */
  function ToNumber(v: Value): Number {
    match v
    case Undefined => NaN
    case Null => Finite(0)
    case Bool(b) => Finite(if b then 1 else 0)
    case Num(n) => Finite(n)
    case Str(s) => StrToNumber(s)
    case Arr(_) => StrToNumber(ToStr(v))
    case Obj(_) => StrToNumber(ToStr(v))
  }

  /** `Number(String(n))` is `n`: the decimal form of an integer converts back to it. */
  lemma {:induction false} NumberOfDecimal(n: int)
    ensures ToNumber(Str(IntToDecimal(n))) == Finite(n)
  {
    if n < 0 {
      NegativeDecimalShape(n);
      NumberOfSignedDigits(IntToDecimal(n));
    } else {
      DecimalRoundTrip(n);
      NumberOfDigits(IntToDecimal(n));
    }
  }

  lemma NegativeDecimalShape(n: int)
    requires n < 0
    ensures var t := IntToDecimal(n);
      |t| > 1 && t[0] == '-' && AllDigits(t[1..]) && DigitsValue(t[1..]) == -n
  {
    var t := IntToDecimal(n);
    DecimalRoundTrip(-n);
    assert t[1..] == NatToDecimal(-n);
  }

  lemma NumberOfDigits(t: string)
    requires t != [] && AllDigits(t)
    ensures StrToNumber(t) == Finite(DigitsValue(t))
  {
    assert IsTrimmed(t) by { assert IsDigit(t[0]) && IsDigit(t[|t| - 1]); }
    TrimIdentity(t);
  }

  lemma NumberOfSignedDigits(t: string)
    requires |t| > 1 && t[0] == '-' && AllDigits(t[1..])
    ensures StrToNumber(t) == Finite(0 - DigitsValue(t[1..]))
  {
    assert IsTrimmed(t) by { assert IsDigit(t[1..][|t| - 2]); }
    TrimIdentity(t);
  }

  /** `await req.json().catch(() => fallback)`: `None` stands for a body that is not JSON. */
  function BodyOr(body: Option<Value>, fallback: Value): Value {
    match body
    case Some(v) => v
    case None => fallback
  }

  /** `m.get(key) || 0` on a `Map<string, number>`: the stored number, 0 for a missing key. */
  function StampOrZero(m: map<string, int>, key: string): int {
    if key in m then m[key] else 0
  }

  /** `xf.split(",")[0].trim()`: the first entry of an `x-forwarded-for` list. */
  function FirstForwarded(xf: string): (ip: string)
    ensures IsTrimmed(ip)
  {
    TrimIsTrimmed(SplitAny(xf, {','})[0]);
    Trim(SplitAny(xf, {','})[0])
  }

  /** A chain `client, proxy, …` is attributed to its first entry, trimmed. */
  lemma FirstForwardedOfChain(first: string, others: string)
    requires ',' !in first
    ensures FirstForwarded(first + [','] + others) == Trim(first)
  {
    SplitAnyCons(first, ',', others, {','});
  }

  /** A single entry is used trimmed. */
  lemma FirstForwardedOfSingle(ip: string)
    requires ',' !in ip
    ensures FirstForwarded(ip) == Trim(ip)
  {
    SplitAnyNoSep(ip, {','});
  }

  /** An HTTP request as the handlers read it: lower-case header names and the parsed body. */
  datatype Request = Request(headers: map<string, string>, body: Option<Value>)

  /** `req.headers.get(name)`: `None` when the header is absent. */
  function Header(req: Request, name: string): Option<string> {
    if name in req.headers then Some(req.headers[name]) else None
  }
}
