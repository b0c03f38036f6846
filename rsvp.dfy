/**
 * `/api/rsvp` (app/api/rsvp/route.ts): an answer to the invitation is cleaned field by
 * field, checked in a fixed order, and on success becomes exactly one stored record.
 */
module Rsvp {
  import opened Wrappers
  import opened JsText
  import opened Js

  /** `String(v ?? "").trim()`: the trimmed string form, `""` for a missing or null field. */
  function FieldText(v: Value): (s: string)
    ensures IsTrimmed(s)
    ensures Nullish(v) ==> s == []
    ensures v.Str? ==> s == Trim(v.s)
  {
    TrimIsTrimmed(ToStr(Coalesce(v, Str(""))));
    Trim(ToStr(Coalesce(v, Str(""))))
  }

  /** `cleanStr(v, max)`: the trimmed string form, cut to at most `max` characters. */
  function CleanStr(v: Value, max: nat): (s: string)
    ensures |s| <= max
    ensures s <= FieldText(v)
    ensures |FieldText(v)| <= max ==> s == FieldText(v)
  {
    Take(FieldText(v), max)
  }

  /** A string that is already trimmed and short enough comes out of `cleanStr` as it went in. */
  lemma CleanStrOfClean(s: string, max: nat)
    requires IsTrimmed(s) && |s| <= max
    ensures CleanStr(Str(s), max) == s
  {
    TrimIdentity(s);
  }

  /** Cleaning keeps the longest prefix of the trimmed text that fits: nothing else is cut. */
  lemma CleanStrCuts(v: Value, max: nat)
    requires |FieldText(v)| > max
    ensures CleanStr(v, max) == FieldText(v)[..max]
  {
  }

  /** The field caps of `POST`. */
  const NameMax: nat := 80
  const PhoneMax: nat := 40
  const NoteMax: nat := 300
  const StatusMax: nat := 10

  /** The three accepted answers. */
  predicate IsStatus(s: string) {
    s in ["yes", "maybe", "no"]
  }

  /** `Number(body.guests ?? 1)`: a missing or null count means one guest. */
  function Guests(body: Value): Number {
    ToNumber(Coalesce(Get(body, "guests"), Num(1)))
  }

  /** `Number.isFinite(guests) && 1 <= guests <= 6` */
  predicate GuestsOk(n: Number) {
    n.Finite? && 1 <= n.value <= 6
  }

  /** The row `prisma.rsvp.create` receives: empty phone and note become `null` (`None`). */
  datatype Record = Record(name: string, phone: Option<string>, note: Option<string>, status: string, guests: int)

  /** The answers of `POST`: `Created` is `{ ok: true }`, every rejection has status 400. */
  datatype Reply = Created(record: Record) | Rejected(error: string)

  /** The status literal each `return` of `POST` writes. */
  function StatusCode(reply: Reply): int {
    if reply.Created? then 200 else 400
  }

  const NameRequired := "Nom requis."
  const BadStatus := "Statut invalide."
  const BadGuests := "Invit\U{00E9}s: 1 \U{00E0} 6."
  const BadRequest := "Requ\U{00EA}te invalide."

  /** `phone || null` */
  function Nullable(s: string): (r: Option<string>)
    ensures r.None? <==> s == []
    ensures r.Some? ==> r.value == s
  {
    if s == [] then None else Some(s)
  }

  /**
   * `POST` on a request whose body parsed to `body` (`None`: not JSON). A `null` body
   * throws on the first property access and lands in the catch, as a body that is not
   * JSON does.
   */
  function Post(body: Option<Value>): Reply {
    match body
    case None => Rejected(BadRequest)
    case Some(b) =>
      if b.Null? then Rejected(BadRequest)
      else
        var name := CleanStr(Get(b, "name"), NameMax);
        var phone := CleanStr(Get(b, "phone"), PhoneMax);
        var note := CleanStr(Get(b, "note"), NoteMax);
        var status := CleanStr(Get(b, "status"), StatusMax);
        var guests := Guests(b);
        if name == [] then Rejected(NameRequired)
        else if !IsStatus(status) then Rejected(BadStatus)
        else if !GuestsOk(guests) then Rejected(BadGuests)
        else Created(Record(name, Nullable(phone), Nullable(note), status, guests.value))
  }

  /** The list of stored answers after `POST`: exactly one record more on success, none otherwise. */
  function Stored(db: seq<Record>, reply: Reply): seq<Record> {
    if reply.Created? then db + [reply.record] else db
  }

  /** A record is created exactly when the name is there, the status is one of the three and 1 to 6 guests come. */
  lemma PostAccepts(b: Value)
    requires !b.Null?
    ensures Post(Some(b)).Created? <==>
      CleanStr(Get(b, "name"), NameMax) != []
      && IsStatus(CleanStr(Get(b, "status"), StatusMax))
      && GuestsOk(Guests(b))
  {
  }

  /** The checks run in order: a missing name is reported whatever else is wrong. */
  lemma PostNameFirst(b: Value)
    requires !b.Null? && FieldText(Get(b, "name")) == []
    ensures Post(Some(b)) == Rejected(NameRequired)
  {
  }

  /** With a name, a bad status is reported before the guest count is looked at. */
  lemma PostStatusSecond(b: Value)
    requires !b.Null? && FieldText(Get(b, "name")) != []
    requires !IsStatus(CleanStr(Get(b, "status"), StatusMax))
    ensures Post(Some(b)) == Rejected(BadStatus)
  {
  }

  /**
   * Every request is answered 200 or 400, and 200 exactly when the body is a JSON value
   * other than `null` with a name, one of the three statuses and 1 to 6 guests.
   */
  lemma PostStatus(body: Option<Value>)
    ensures StatusCode(Post(body)) in {200, 400}
    ensures StatusCode(Post(body)) == 200 <==>
      body.Some? && !body.value.Null?
      && CleanStr(Get(body.value, "name"), NameMax) != []
      && IsStatus(CleanStr(Get(body.value, "status"), StatusMax))
      && GuestsOk(Guests(body.value))
  {
    if body.Some? && !body.value.Null? {
      PostAccepts(body.value);
    }
  }

  /** A body that is not JSON, or is `null`, is an invalid request. */
  lemma PostInvalidBody(body: Option<Value>)
    requires body.None? || body == Some(Null)
    ensures Post(body) == Rejected(BadRequest)
  {
  }

  /** The stored record holds the cleaned fields, within their caps, with `null` for an empty phone or note. */
  lemma PostRecord(b: Value)
    requires Post(Some(b)).Created?
    ensures var r := Post(Some(b)).record;
      && r.name == CleanStr(Get(b, "name"), NameMax) && r.name != [] && |r.name| <= NameMax
      && (r.phone.None? <==> CleanStr(Get(b, "phone"), PhoneMax) == [])
      && (r.phone.Some? ==> r.phone.value == CleanStr(Get(b, "phone"), PhoneMax) && |r.phone.value| <= PhoneMax)
      && (r.note.None? <==> CleanStr(Get(b, "note"), NoteMax) == [])
      && (r.note.Some? ==> r.note.value == CleanStr(Get(b, "note"), NoteMax) && |r.note.value| <= NoteMax)
      && IsStatus(r.status) && 1 <= r.guests <= 6
  {
  }

  /** Without a `guests` field the answer counts one guest. */
  lemma GuestsDefault(b: Value)
    requires Nullish(Get(b, "guests"))
    ensures Guests(b) == Finite(1) && GuestsOk(Guests(b))
  {
  }

  /** A numeric count is accepted exactly from 1 to 6: 0 and 7 are the nearest refusals. */
  lemma GuestsRange(b: Value, n: int)
    requires Get(b, "guests") == Num(n)
    ensures GuestsOk(Guests(b)) <==> 1 <= n <= 6
  {
  }

  /** A count sent as a decimal string is read as that number. */
  lemma GuestsFromString(b: Value, n: int)
    requires Get(b, "guests") == Str(IntToDecimal(n))
    ensures Guests(b) == Finite(n)
  {
    NumberOfDecimal(n);
  }

  /** Only a successful answer adds to the stored list, and it adds exactly its own record at the end. */
  lemma StoredOne(db: seq<Record>, body: Option<Value>)
    ensures Post(body).Created? ==> Stored(db, Post(body)) == db + [Post(body).record]
    ensures Post(body).Rejected? ==> Stored(db, Post(body)) == db
    ensures |Stored(db, Post(body))| == |db| + (if StatusCode(Post(body)) == 200 then 1 else 0)
  {
  }
}
