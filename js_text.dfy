/**
 * The JavaScript string operations the handlers and pages rely on, on `seq<char>`:
 * `trim`, `startsWith`, `slice(0, n)`, `split` on separator characters, `join`,
 * `padStart` and the decimal rendering of integers done by `String(n)`.
 */
module JsText {

  /** ECMAScript WhiteSpace and LineTerminator code points: what `trim()` removes. */
  predicate IsSpace(c: char) {
    || c == ' ' || c == '\t' || c == '\n' || c == '\r' || c == '\U{000B}' || c == '\U{000C}'
    || c == '\U{00A0}' || c == '\U{1680}' || ('\U{2000}' <= c <= '\U{200A}')
    || c == '\U{2028}' || c == '\U{2029}' || c == '\U{202F}' || c == '\U{205F}'
    || c == '\U{3000}' || c == '\U{FEFF}'
  }

  predicate AllSpace(s: string) {
    forall i :: 0 <= i < |s| ==> IsSpace(s[i])
  }

  /** Neither end of `s` is white space: the shape of every `trim()` result. */
  predicate IsTrimmed(s: string) {
    s == [] || (!IsSpace(s[0]) && !IsSpace(s[|s| - 1]))
  }

  /** `s.trimStart()`: drops the leading white space and nothing else. */
  function TrimStart(s: string): string
    decreases |s|
  {
    if s != [] && IsSpace(s[0]) then TrimStart(s[1..]) else s
  }

  /** `trimStart()` keeps a suffix, cuts only white space and stops at a non-space. */
  lemma {:induction false} TrimStartShape(s: string)
    ensures |TrimStart(s)| <= |s| && TrimStart(s) == s[|s| - |TrimStart(s)|..]
    ensures AllSpace(s[..|s| - |TrimStart(s)|])
    ensures TrimStart(s) == [] || !IsSpace(TrimStart(s)[0])
    decreases |s|
  {
    if s != [] && IsSpace(s[0]) {
      TrimStartShape(s[1..]);
      var k := |s| - |TrimStart(s)|;
      assert s[1..][k - 1..] == s[k..];
      assert s[..k] == [s[0]] + s[1..][..k - 1];
    }
  }

  /** `s.trimEnd()`: drops the trailing white space and nothing else. */
  function TrimEnd(s: string): string
    decreases |s|
  {
    if s != [] && IsSpace(s[|s| - 1]) then TrimEnd(s[..|s| - 1]) else s
  }

  /** `trimEnd()` keeps a prefix, cuts only white space and stops at a non-space. */
  lemma {:induction false} TrimEndShape(s: string)
    ensures |TrimEnd(s)| <= |s| && TrimEnd(s) == s[..|TrimEnd(s)|]
    ensures AllSpace(s[|TrimEnd(s)|..])
    ensures TrimEnd(s) == [] || !IsSpace(TrimEnd(s)[|TrimEnd(s)| - 1])
    decreases |s|
  {
    if s != [] && IsSpace(s[|s| - 1]) {
      var u := s[..|s| - 1];
      TrimEndShape(u);
      var k := |TrimEnd(s)|;
      assert u[..k] == s[..k];
      assert forall i :: 0 <= i < |u| - k ==> u[k..][i] == s[k..][i];
    }
  }

  /** `s.trim()`. */
  function Trim(s: string): string {
    TrimEnd(TrimStart(s))
  }

  /**
   * What `trim()` promises: the result is a contiguous slice of `s` with only
   * white space cut on either side.
   */
  lemma {:induction false} TrimSpec(s: string)
    ensures |TrimStart(s)| <= |s|
    ensures |s| - |TrimStart(s)| + |Trim(s)| <= |s|
    ensures Trim(s) == s[|s| - |TrimStart(s)|..|s| - |TrimStart(s)| + |Trim(s)|]
    ensures AllSpace(s[..|s| - |TrimStart(s)|])
    ensures AllSpace(s[|s| - |TrimStart(s)| + |Trim(s)|..])
  {
    var t := TrimStart(s);
    TrimStartShape(s);
    TrimEndShape(t);
    TrimSlices(s, t, |s| - |t|, TrimEnd(t));
  }

  /** Neither end of a `trim()` result is white space. */
  lemma TrimIsTrimmed(s: string)
    ensures IsTrimmed(Trim(s))
  {
    TrimStartShape(s);
    TrimEndKeepsTrimmedStart(TrimStart(s));
  }

  lemma TrimSlices(s: string, t: string, i: nat, r: string)
    requires i <= |s| && t == s[i..]
    requires |r| <= |t| && r == t[..|r|] && AllSpace(t[|r|..])
    ensures r == s[i..i + |r|] && AllSpace(s[i + |r|..])
  {
    assert s[i + |r|..] == t[|r|..];
  }

  lemma TrimEndKeepsTrimmedStart(t: string)
    requires t == [] || !IsSpace(t[0])
    ensures IsTrimmed(TrimEnd(t))
  {
    var r := TrimEnd(t);
    TrimEndShape(t);
    if r != [] {
      assert r[0] == t[0];
    }
  }

  /** A string consisting of white space only trims to the empty string, and only such a string does. */
  lemma TrimEmptyIff(s: string)
    ensures Trim(s) == [] <==> AllSpace(s)
  {
    var t := TrimStart(s);
    TrimSpec(s);
    if Trim(s) == [] {
      assert s[..|s|] == s;
    } else {
      var i := |s| - |t|;
      TrimIsTrimmed(s);
      assert s[i] == Trim(s)[0];
    }
  }

  /** `trim()` is the identity on a string that is already trimmed. */
  lemma TrimIdentity(s: string)
    requires IsTrimmed(s)
    ensures Trim(s) == s
  {
    assert TrimStart(s) == s;
  }

  /** `trim()` is idempotent. */
  lemma TrimIdempotent(s: string)
    ensures Trim(Trim(s)) == Trim(s)
  {
    TrimIsTrimmed(s);
    TrimIdentity(Trim(s));
  }

  /** `s.startsWith(p)`. */
  predicate StartsWith(s: string, p: string) {
    |p| <= |s| && s[..|p|] == p
  }

  /** `s.slice(0, n)` for `n >= 0`: the first `n` characters, or all of `s` when it is shorter. */
  function Take(s: string, n: nat): (r: string)
    ensures |r| == if |s| < n then |s| else n
    ensures r == s[..|r|]
  {
    if |s| > n then s[..n] else s
  }

  /** A prefix of a trimmed string that is not empty starts with a non-space. */
  lemma TakeOfTrimmedStartsTrimmed(s: string, n: nat)
    requires IsTrimmed(s)
    ensures Take(s, n) == [] || !IsSpace(Take(s, n)[0])
  {
  }

  /**
   * `s.split(re)` where `re` matches exactly one character of `seps`: the pieces of
   * `s` between separators, always at least one (`"".split(",")` is `[""]`).
   */
  function SplitAny(s: string, seps: set<char>): (parts: seq<string>)
    ensures |parts| >= 1
    ensures forall k :: 0 <= k < |parts| ==> forall c :: c in seps ==> c !in parts[k]
    decreases |s|
  {
    if s == [] then [[]]
    else
      var rest := SplitAny(s[1..], seps);
      if s[0] in seps then [[]] + rest
      else [[s[0]] + rest[0]] + rest[1..]
  }

  /** A non-empty sequence is its head followed by its tail. */
  lemma HeadTail<T>(s: seq<T>)
    requires s != []
    ensures s == [s[0]] + s[1..]
  {
  }

  /** `xs.join(sep)`; the join of no strings is the empty string. */
  function JoinWith(xs: seq<string>, sep: string): string
    decreases |xs|
  {
    if xs == [] then []
    else if |xs| == 1 then xs[0]
    else xs[0] + sep + JoinWith(xs[1..], sep)
  }

  /** A string without separators is its own only piece. */
  lemma {:induction false} SplitAnyNoSep(s: string, seps: set<char>)
    requires forall c :: c in seps ==> c !in s
    ensures SplitAny(s, seps) == [s]
    decreases |s|
  {
    if s != [] {
      SplitAnyNoSep(s[1..], seps);
      assert [s[0]] + s[1..] == s;
    }
  }

  /** Splitting never introduces a character: what `s` lacks, every piece lacks. */
  lemma {:induction false} SplitAnyKeepsAbsent(s: string, seps: set<char>, c: char)
    ensures c !in s ==> forall k :: 0 <= k < |SplitAny(s, seps)| ==> c !in SplitAny(s, seps)[k]
    decreases |s|
  {
    if s != [] && c !in s {
      SplitAnyKeepsAbsent(s[1..], seps, c);
      var rest := SplitAny(s[1..], seps);
      assert c !in s[1..];
      if s[0] !in seps {
        assert c !in [s[0]] + rest[0];
      }
    }
  }

  /** A string holding a separator splits into at least two pieces. */
  lemma {:induction false} SplitAnyAtSep(s: string, seps: set<char>, i: nat)
    requires i < |s| && s[i] in seps
    ensures |SplitAny(s, seps)| >= 2
    decreases |s|
  {
    if s[0] !in seps {
      SplitAnyAtSep(s[1..], seps, i - 1);
    }
  }

  lemma {:induction false} SplitAnyCons(x: string, c: char, t: string, seps: set<char>)
    requires c in seps
    requires forall d :: d in seps ==> d !in x
    ensures SplitAny(x + [c] + t, seps) == [x] + SplitAny(t, seps)
    decreases |x|
  {
    var s := x + [c] + t;
    if x == [] {
      assert s[1..] == t;
    } else {
      assert s[1..] == x[1..] + [c] + t;
      SplitAnyCons(x[1..], c, t, seps);
      assert [x[0]] + x[1..] == x;
    }
  }

  /** Joining pieces free of the separator and splitting again gives the pieces back. */
  lemma {:induction false} SplitJoinRoundTrip(xs: seq<string>, c: char)
    requires xs != []
    requires forall k :: 0 <= k < |xs| ==> c !in xs[k]
    ensures SplitAny(JoinWith(xs, [c]), {c}) == xs
    decreases |xs|
  {
    if |xs| == 1 {
      SplitAnyNoSep(xs[0], {c});
    } else {
      SplitJoinRoundTrip(xs[1..], c);
      SplitAnyCons(xs[0], c, JoinWith(xs[1..], [c]), {c});
    }
  }

  /** `s.split(/\r?\n/)`: the lines of `s`; a `\r` right before a `\n` belongs to the line break. */
  function SplitLines(s: string): (lines: seq<string>)
    ensures |lines| >= 1
    ensures forall k :: 0 <= k < |lines| ==> '\n' !in lines[k]
    decreases |s|
  {
    if s == [] then [[]]
    else if s[0] == '\n' then [[]] + SplitLines(s[1..])
    else if s[0] == '\r' && |s| > 1 && s[1] == '\n' then [[]] + SplitLines(s[2..])
    else
      var rest := SplitLines(s[1..]);
      [[s[0]] + rest[0]] + rest[1..]
  }

  /** A line ending the string is its own only line. */
  lemma {:induction false} SplitLinesSingle(x: string)
    requires '\n' !in x
    ensures SplitLines(x) == [x]
    decreases |x|
  {
    if x != [] {
      SplitLinesSingle(x[1..]);
      assert [x[0]] + x[1..] == x;
    }
  }

  /** A line followed by `\n` is cut off exactly, unless it ends in the `\r` of a `\r\n`. */
  lemma {:induction false} SplitLinesCons(x: string, t: string)
    requires '\n' !in x
    requires x == [] || x[|x| - 1] != '\r'
    ensures SplitLines(x + "\n" + t) == [x] + SplitLines(t)
    decreases |x|
  {
    var s := x + "\n" + t;
    if x == [] {
      assert s[1..] == t;
    } else {
      assert s[1..] == x[1..] + "\n" + t;
      if x[0] == '\r' {
        assert |x| > 1;
        assert s[1] == x[1];
      }
      SplitLinesCons(x[1..], t);
      assert [x[0]] + x[1..] == x;
    }
  }

  /** Writing lines one per line and splitting the text again gives the lines back. */
  lemma {:induction false} SplitLinesJoinRoundTrip(xs: seq<string>)
    requires xs != []
    requires forall k :: 0 <= k < |xs| ==> '\n' !in xs[k]
    requires forall k :: 0 <= k < |xs| ==> xs[k] == [] || xs[k][|xs[k]| - 1] != '\r'
    ensures SplitLines(JoinWith(xs, "\n")) == xs
    decreases |xs|
  {
    if |xs| == 1 {
      SplitLinesSingle(xs[0]);
    } else {
      var t := JoinWith(xs[1..], "\n");
      assert JoinWith(xs, "\n") == xs[0] + "\n" + t;
      SplitLinesJoinRoundTrip(xs[1..]);
      SplitLinesCons(xs[0], t);
      HeadTail(xs);
    }
  }

  /** Trimming never introduces a character: what `s` lacks, `trim(s)` lacks. */
  lemma TrimKeepsAbsent(s: string, c: char)
    ensures c !in s ==> c !in Trim(s)
  {
    TrimSpec(s);
  }

  /** `s.padStart(width, [pad])`: never truncates, fills on the left up to `width`. */
  function PadStart(s: string, width: nat, pad: char): (r: string)
    ensures |r| == if |s| < width then width else |s|
    ensures r[|r| - |s|..] == s
    ensures forall k :: 0 <= k < |r| - |s| ==> r[k] == pad
  {
    if |s| < width then seq(width - |s|, _ => pad) + s else s
  }

  // ---- decimal rendering: String(n) for integers ----

  predicate IsDigit(c: char) {
    '0' <= c <= '9'
  }

  predicate AllDigits(s: string) {
    forall i :: 0 <= i < |s| ==> IsDigit(s[i])
  }

  function DigitChar(d: nat): (c: char)
    requires d < 10
    ensures IsDigit(c)
  {
    ('0' as int + d) as char
  }

  /** The value of a string of decimal digits, read most significant first. */
  function DigitsValue(s: string): nat
    requires AllDigits(s)
    decreases |s|
  {
    if s == [] then 0 else DigitsValue(s[..|s| - 1]) * 10 + (s[|s| - 1] as int - '0' as int)
  }

  /** `String(n)` for a natural number: digits only, no leading zero. */
  function NatToDecimal(n: nat): (r: string)
    ensures |r| >= 1 && AllDigits(r)
    ensures |r| > 1 ==> r[0] != '0'
    decreases n
  {
    if n < 10 then [DigitChar(n)] else NatToDecimal(n / 10) + [DigitChar(n % 10)]
  }

  /** `String(i)` for an integer. */
  function IntToDecimal(i: int): string {
    if i < 0 then "-" + NatToDecimal(-i) else NatToDecimal(i)
  }

  /** A number below 100 is written with at most two digits. */
  lemma ShortDecimal(n: nat)
    requires n < 100
    ensures |NatToDecimal(n)| <= 2
  {
    if n >= 10 {
      assert NatToDecimal(n / 10) == [DigitChar(n / 10)];
    }
  }

  /** Reading back the digits `String(n)` writes gives `n`. */
  lemma {:induction false} DecimalRoundTrip(n: nat)
    ensures DigitsValue(NatToDecimal(n)) == n
    decreases n
  {
    if n >= 10 {
      DecimalRoundTrip(n / 10);
      var s := NatToDecimal(n);
      assert s[..|s| - 1] == NatToDecimal(n / 10);
    }
  }

  /** Leading zeros do not change the value of a digit string. */
  lemma {:induction false} LeadingZerosValue(z: nat, s: string)
    requires AllDigits(s)
    ensures AllDigits(seq(z, _ => '0') + s)
    ensures DigitsValue(seq(z, _ => '0') + s) == DigitsValue(s)
    decreases |s|
  {
    var zs := seq(z, _ => '0');
    var t := zs + s;
    if s == [] {
      ZerosValue(z);
      assert t == zs;
    } else {
      LeadingZerosValue(z, s[..|s| - 1]);
      assert t[..|t| - 1] == zs + s[..|s| - 1];
    }
  }

  lemma {:induction false} ZerosValue(z: nat)
    ensures AllDigits(seq(z, _ => '0'))
    ensures DigitsValue(seq(z, _ => '0')) == 0
    decreases z
  {
    if z > 0 {
      ZerosValue(z - 1);
      assert seq(z, _ => '0')[..z - 1] == seq(z - 1, _ => '0');
    }
  }

  /** Padding the decimal form of `n` with zeros keeps its value: `String(n).padStart(w, "0")` reads as `n`. */
  lemma PaddedDecimalValue(n: nat, width: nat)
    ensures AllDigits(PadStart(NatToDecimal(n), width, '0'))
    ensures DigitsValue(PadStart(NatToDecimal(n), width, '0')) == n
  {
    var d := NatToDecimal(n);
    DecimalRoundTrip(n);
    if |d| < width {
      LeadingZerosValue(width - |d|, d);
    }
  }
}
