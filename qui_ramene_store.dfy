/**
 * The bring list ("qui ramène quoi", lib/quiRameneStore.ts): items guests volunteer to
 * bring, stored in `storage/qui-ramene.json` and normalised every time they are read,
 * with a recovery policy for a missing or damaged file, and the roster of people present
 * read from the first of two candidate text files that lists anyone.
 */
module QuiRameneStore {
  import opened Wrappers
  import opened JsText
  import opened Js

  /** `BringCategory`, in the order of `ALLOWED_CATS`. */
  datatype Category = Softs | Alcool | Nourriture | Materiel

  /** The four categories in `ALLOWED_CATS` order. */
  const AllCategories: seq<Category> := [Softs, Alcool, Nourriture, Materiel]

  /** The category's string in the stored JSON. */
  function CategoryName(c: Category): string {
    match c
    case Softs => "Softs"
    case Alcool => "Alcool"
    case Nourriture => "Nourriture"
    case Materiel => "Mat\U{00E9}riel"
  }

  /** `ALLOWED_CATS.includes(s)`, answering which category `s` names. */
  function CategoryOf(s: string): Option<Category> {
    if s == "Softs" then Some(Softs)
    else if s == "Alcool" then Some(Alcool)
    else if s == "Nourriture" then Some(Nourriture)
    else if s == "Mat\U{00E9}riel" then Some(Materiel)
    else None
  }

  /** Category names and `CategoryOf` are inverse to each other. */
  lemma CategoryNameRoundTrip(c: Category, s: string)
    ensures CategoryOf(CategoryName(c)) == Some(c)
    ensures CategoryOf(s) == Some(c) ==> s == CategoryName(c)
  {
  }

  /** Every category name is a non-empty string without surrounding white space. */
  lemma CategoryNameClean(c: Category)
    ensures CategoryName(c) != [] && IsTrimmed(CategoryName(c))
  {
  }

  /** `normalizeCategory`: the category named by `String(v || "").trim()`, else Nourriture. */
  function NormalizeCategory(v: Value): Category {
    CategoryOf(TrimmedText(v)).GetOr(Nourriture)
  }

  /** A category name, with or without surrounding white space, is kept; anything else is Nourriture. */
  lemma NormalizeCategorySpec(v: Value, c: Category)
    ensures v.Str? && Trim(v.s) == CategoryName(c) ==> NormalizeCategory(v) == c
    ensures (forall d :: TrimmedText(v) != CategoryName(d)) ==> NormalizeCategory(v) == Nourriture
  {
    if TrimmedText(v) == CategoryName(c) {
      CategoryNameRoundTrip(c, TrimmedText(v));
    }
    if CategoryOf(TrimmedText(v)).Some? {
      CategoryNameRoundTrip(CategoryOf(TrimmedText(v)).value, TrimmedText(v));
    }
  }

  /** `isValidCategory`: `String(v)` is exactly one of the four names, untrimmed. */
  predicate IsValidCategory(v: Value) {
    CategoryOf(ToStr(v)).Some?
  }

  /** Exactly the four literal names are valid; surrounding white space makes a name invalid. */
  lemma IsValidCategorySpec(v: Value, s: string)
    ensures IsValidCategory(v) <==> exists c :: ToStr(v) == CategoryName(c)
    ensures IsValidCategory(Str(s)) ==> s == Trim(s)
  {
    if IsValidCategory(v) {
      CategoryNameRoundTrip(CategoryOf(ToStr(v)).value, ToStr(v));
    }
    if exists c :: ToStr(v) == CategoryName(c) {
      var c :| ToStr(v) == CategoryName(c);
      CategoryNameRoundTrip(c, ToStr(v));
    }
    if IsValidCategory(Str(s)) {
      var c := CategoryOf(s).value;
      CategoryNameRoundTrip(c, s);
      CategoryNameClean(c);
      TrimIdentity(s);
    }
  }

  /** `crypto.randomUUID()`: 36 characters. */
  type Uuid = s: string | |s| == 36 witness "00000000-0000-0000-0000-000000000000"

  /** `QuiRameneItem` (`itemLabel` is its `label`); an empty `assignedTo` means nobody has taken the item yet. */
  datatype Item = Item(id: string, itemLabel: string, category: Category, assignedTo: string)

  /** `QuiRameneData` */
  datatype Data = Data(items: seq<Item>, updatedAt: int)

  /** The shape of an item after normalisation, when its id was not lost. */
  predicate Normalised(it: Item) {
    it.id != [] && IsTrimmed(it.itemLabel) && IsTrimmed(it.assignedTo)
  }

  predicate AllNormalised(items: seq<Item>) {
    forall k :: 0 <= k < |items| ==> Normalised(items[k])
  }

  /** `JSON.stringify` of an item. */
  function ItemJson(it: Item): Value {
    Obj(map[
      "id" := Str(it.id),
      "label" := Str(it.itemLabel),
      "category" := Str(CategoryName(it.category)),
      "assignedTo" := Str(it.assignedTo)])
  }

  /** `JSON.stringify` of the whole record. */
  function DataJson(d: Data): Value {
    Obj(map[
      "items" := Arr(seq(|d.items|, k requires 0 <= k < |d.items| => ItemJson(d.items[k]))),
      "updatedAt" := Num(d.updatedAt)])
  }

  /**
   * One element of `parsed.items.map(...)`: the id as a string (a fresh one when
   * falsy), the label and `assignedTo` trimmed, the category normalised.
   */
  function NormalizeItem(v: Value, freshId: Uuid): (it: Item)
    ensures IsTrimmed(it.itemLabel) && IsTrimmed(it.assignedTo)
    ensures !Truthy(Get(v, "id")) ==> it.id == freshId
  {
    Item(
      ToStr(Or(Get(v, "id"), Str(freshId))),
      TrimmedText(Get(v, "label")),
      NormalizeCategory(Get(v, "category")),
      TrimmedText(Get(v, "assignedTo")))
  }

  /** A category's own name normalises to it. */
  lemma NormalizeCategoryOfName(c: Category)
    ensures NormalizeCategory(Str(CategoryName(c))) == c
  {
    CategoryNameClean(c);
    TrimmedTextOfTrimmed(CategoryName(c));
    CategoryNameRoundTrip(c, CategoryName(c));
  }

  /** The JSON of an item holds its four fields under their names. */
  lemma ItemJsonFields(it: Item)
    ensures Get(ItemJson(it), "id") == Str(it.id)
    ensures Get(ItemJson(it), "label") == Str(it.itemLabel)
    ensures Get(ItemJson(it), "category") == Str(CategoryName(it.category))
    ensures Get(ItemJson(it), "assignedTo") == Str(it.assignedTo)
  {
  }

  /** The JSON of a normalised item normalises back to the same item. */
  lemma NormalizeItemIdempotent(it: Item, freshId: Uuid)
    requires Normalised(it)
    ensures NormalizeItem(ItemJson(it), freshId) == it
  {
    ItemJsonFields(it);
    TrimmedTextOfTrimmed(it.itemLabel);
    NormalizeCategoryOfName(it.category);
    TrimmedTextOfTrimmed(it.assignedTo);
  }

  /**
   * A file's text as `safeParseData` sees it after `trim()`: nothing left, something
   * `JSON.parse` rejects, or a JSON value.
   */
  datatype RawFile = Blank | NotJson | JsonText(value: Value)

  /**
   * `safeParseData`: `null` (here `None`) for blank or non-JSON text, a falsy value or
   * a value whose `items` is not an array; otherwise every element normalised, the k-th
   * with the k-th fresh id, and `updatedAt` kept only when it is a number.
   */
  function ParseData(raw: RawFile, now: int, ids: nat -> Uuid): (r: Option<Data>)
    ensures r.Some? ==> raw.JsonText? && Truthy(raw.value) && Get(raw.value, "items").Arr?
    ensures r.Some? ==> |r.value.items| == |Get(raw.value, "items").elems|
    ensures r.Some? ==> forall k :: 0 <= k < |r.value.items| ==>
      r.value.items[k] == NormalizeItem(Get(raw.value, "items").elems[k], ids(k))
    ensures r.Some? ==> forall k :: 0 <= k < |r.value.items| ==>
      IsTrimmed(r.value.items[k].itemLabel) && IsTrimmed(r.value.items[k].assignedTo)
  {
    match raw
    case Blank => None
    case NotJson => None
    case JsonText(v) =>
      if !Truthy(v) || !Get(v, "items").Arr? then None
      else
        var es := Get(v, "items").elems;
        var updatedAt := Get(v, "updatedAt");
        Some(Data(
          seq(|es|, k requires 0 <= k < |es| => NormalizeItem(es[k], ids(k))),
          if updatedAt.Num? then updatedAt.n else now))
  }

  /** Blank text, text that is not JSON and non-array `items` are all corrupt. */
  lemma ParseDataRejects(raw: RawFile, now: int, ids: nat -> Uuid)
    ensures ParseData(raw, now, ids).None? <==>
      raw.Blank? || raw.NotJson? || !Truthy(raw.value) || !Get(raw.value, "items").Arr?
  {
  }

  /** `updatedAt` survives parsing exactly when it is a number, and is replaced by `now` otherwise. */
  lemma ParseDataUpdatedAt(v: Value, now: int, ids: nat -> Uuid)
    requires ParseData(JsonText(v), now, ids).Some?
    ensures ParseData(JsonText(v), now, ids).value.updatedAt ==
      (if Get(v, "updatedAt").Num? then Get(v, "updatedAt").n else now)
  {
  }

  /** Whatever is written parses again: the recovery branch is never taken on our own output. */
  lemma ParseDataOfWritten(d: Data, now: int, ids: nat -> Uuid)
    ensures ParseData(JsonText(DataJson(d)), now, ids).Some?
    ensures ParseData(JsonText(DataJson(d)), now, ids).value.updatedAt == d.updatedAt
  {
  }

  /** A record of normalised items reads back exactly as written. */
  lemma {:induction false} ParseDataRoundTrip(d: Data, now: int, ids: nat -> Uuid)
    requires AllNormalised(d.items)
    ensures ParseData(JsonText(DataJson(d)), now, ids) == Some(d)
  {
    var r := ParseData(JsonText(DataJson(d)), now, ids);
    ParseDataOfWritten(d, now, ids);
    var es := Get(DataJson(d), "items").elems;
    assert |r.value.items| == |d.items|;
    forall k | 0 <= k < |d.items|
      ensures r.value.items[k] == d.items[k]
    {
      assert es[k] == ItemJson(d.items[k]);
      NormalizeItemIdempotent(d.items[k], ids(k));
    }
    assert r.value.items == d.items;
  }

  /** `defaultData`: one unassigned item per category. */
  function DefaultData(now: int, ids: nat -> Uuid): Data {
    Data([
      Item(ids(0), "Softs (coca, oasis...)", Softs, ""),
      Item(ids(1), "Alcool (bi\U{00E8}res / bouteilles)", Alcool, ""),
      Item(ids(2), "Nourriture (snacks, sucr\U{00E9}/sal\U{00E9})", Nourriture, ""),
      Item(ids(3), "Mat\U{00E9}riel (enceinte, multiprise\U{2026})", Materiel, "")],
      now)
  }

  /** The default list has four unassigned, normalised items, in category order, stamped now. */
  lemma DefaultDataShape(now: int, ids: nat -> Uuid)
    ensures |DefaultData(now, ids).items| == 4
    ensures forall k :: 0 <= k < 4 ==>
      DefaultData(now, ids).items[k].category == AllCategories[k]
      && DefaultData(now, ids).items[k].assignedTo == []
    ensures AllNormalised(DefaultData(now, ids).items)
    ensures DefaultData(now, ids).updatedAt == now
  {
    var items := DefaultData(now, ids).items;
    forall k | 0 <= k < 4
      ensures Normalised(items[k])
    {
      assert |items[k].id| == 36;
      assert IsTrimmed(items[k].itemLabel) by {
        var l := items[k].itemLabel;
        assert l[0] in "SANM";
        assert l[|l| - 1] in ").\U{2026}";
      }
    }
  }

  /** `qui-ramene.json`: absent, present but unreadable, or present with some text. */
  datatype DataFile = Absent | Unreadable | Present(raw: RawFile)

  /** The file `writeData` leaves behind. */
  function Written(d: Data): DataFile {
    Present(JsonText(DataJson(d)))
  }

  /** Whether the file holds text that `safeParseData` rejects. */
  predicate Damaged(f: DataFile, now: int, ids: nat -> Uuid) {
    f.Present? && ParseData(f.raw, now, ids).None?
  }

  /** `ensureStorage`: absent, unreadable or damaged files are replaced by the default list. */
  function EnsuredFile(f: DataFile, now: int, ids: nat -> Uuid): DataFile {
    if f.Absent? || f.Unreadable? || Damaged(f, now, ids) then Written(DefaultData(now, ids)) else f
  }

  /** `ensureStorage`'s backup: the text of a damaged file, saved before it is replaced. */
  function BackupOf(f: DataFile, now: int, ids: nat -> Uuid): seq<RawFile> {
    if Damaged(f, now, ids) then [f.raw] else []
  }

  /** `readData`'s answer for a given file. */
  function ReadResult(f: DataFile, now: int, ids: nat -> Uuid): Data {
    var g := EnsuredFile(f, now, ids);
    if g.Present? && ParseData(g.raw, now, ids).Some? then ParseData(g.raw, now, ids).value
    else DefaultData(now, ids)
  }

  /** The file after `readData`. */
  function ReadFileAfter(f: DataFile, now: int, ids: nat -> Uuid): DataFile {
    var g := EnsuredFile(f, now, ids);
    if g.Present? && ParseData(g.raw, now, ids).Some? then g else Written(DefaultData(now, ids))
  }

  /** The default list, once written, reads back as itself. */
  lemma DefaultReadsBack(now: int, ids: nat -> Uuid)
    ensures ParseData(Written(DefaultData(now, ids)).raw, now, ids) == Some(DefaultData(now, ids))
  {
    DefaultDataShape(now, ids);
    ParseDataRoundTrip(DefaultData(now, ids), now, ids);
  }

  /**
   * The recovery policy: a parseable file is read as it is and left alone; anything else
   * yields the default list, which is then what the file holds, and only a damaged text
   * is backed up.
   */
  lemma {:induction false} ReadDataRecovery(f: DataFile, now: int, ids: nat -> Uuid)
    ensures f.Present? && ParseData(f.raw, now, ids).Some? ==>
      ReadResult(f, now, ids) == ParseData(f.raw, now, ids).value && ReadFileAfter(f, now, ids) == f
        && BackupOf(f, now, ids) == []
    ensures !(f.Present? && ParseData(f.raw, now, ids).Some?) ==>
      ReadResult(f, now, ids) == DefaultData(now, ids)
        && ReadFileAfter(f, now, ids) == Written(DefaultData(now, ids))
    ensures |BackupOf(f, now, ids)| == (if Damaged(f, now, ids) then 1 else 0)
  {
    if !(f.Present? && ParseData(f.raw, now, ids).Some?) {
      assert EnsuredFile(f, now, ids) == Written(DefaultData(now, ids));
      DefaultReadsBack(now, ids);
    }
  }

  /**
   * A file text whose reading draws nothing: it parses, every item carries a truthy id,
   * and `updatedAt` is a number. Everything `writeData` writes is settled.
   */
  predicate Settled(raw: RawFile) {
    raw.JsonText? && Truthy(raw.value) && Get(raw.value, "items").Arr?
    && Get(raw.value, "updatedAt").Num?
    && forall k :: 0 <= k < |Get(raw.value, "items").elems| ==> Truthy(Get(Get(raw.value, "items").elems[k], "id"))
  }

  /** A settled text parses to the same record whatever clock and ids the read is given. */
  lemma {:induction false} ParseDataSettled(raw: RawFile, now1: int, ids1: nat -> Uuid, now2: int, ids2: nat -> Uuid)
    requires Settled(raw)
    ensures ParseData(raw, now1, ids1).Some?
    ensures ParseData(raw, now1, ids1) == ParseData(raw, now2, ids2)
  {
    var r1, r2 := ParseData(raw, now1, ids1).value, ParseData(raw, now2, ids2).value;
    var es := Get(raw.value, "items").elems;
    forall k | 0 <= k < |es|
      ensures r1.items[k] == r2.items[k]
    {
      assert Truthy(Get(es[k], "id"));
    }
    assert r1.items == r2.items;
  }

  /** The text `writeData` writes is settled: its ids are non-empty strings and its stamp a number. */
  lemma WrittenSettled(d: Data)
    requires forall k :: 0 <= k < |d.items| ==> d.items[k].id != []
    ensures Settled(Written(d).raw)
  {
    var es := Get(DataJson(d), "items").elems;
    forall k | 0 <= k < |es|
      ensures Truthy(Get(es[k], "id"))
    {
      assert es[k] == ItemJson(d.items[k]);
      ItemJsonFields(d.items[k]);
    }
  }

  /**
   * Once `readData` has run, the file parses, and the next request, with its own clock
   * and ids, reads the same list, provided the file was recovered or was settled.
   */
  lemma {:induction false} ReadDataStable(f: DataFile, now: int, ids: nat -> Uuid, now2: int, ids2: nat -> Uuid)
    requires f.Present? && ParseData(f.raw, now, ids).Some? ==> Settled(f.raw)
    ensures ReadFileAfter(f, now, ids).Present?
    ensures ParseData(ReadFileAfter(f, now, ids).raw, now2, ids2).Some?
    ensures ReadResult(ReadFileAfter(f, now, ids), now2, ids2) == ReadResult(f, now, ids)
  {
    ReadDataRecovery(f, now, ids);
    var g := ReadFileAfter(f, now, ids);
    if f.Present? && ParseData(f.raw, now, ids).Some? {
      ParseDataSettled(f.raw, now, ids, now2, ids2);
    } else {
      DefaultDataShape(now, ids);
      WrittenSettled(DefaultData(now, ids));
      DefaultReadsBack(now, ids);
      ParseDataSettled(g.raw, now, ids, now2, ids2);
    }
    ReadDataRecovery(g, now2, ids2);
  }

  /**
   * `readData` never writes a parseable file back, so an item stored without an id gets
   * a new UUID on every read: two requests drawing different UUIDs see different ids
   * for the same item of `{"items": [{"label": "x"}]}`.
   */
  lemma {:induction false} IdlessItemRedrawn(now: int, ids: nat -> Uuid, now2: int, ids2: nat -> Uuid)
    requires ids(0) != ids2(0)
    ensures ReadResult(ReadFileAfter(IdlessFile, now, ids), now2, ids2).items[0].id == ids2(0)
    ensures ReadResult(IdlessFile, now, ids).items[0].id == ids(0)
    ensures ReadResult(ReadFileAfter(IdlessFile, now, ids), now2, ids2) != ReadResult(IdlessFile, now, ids)
  {
    IdlessFileShape();
    IdlessParse(now, ids);
    IdlessParse(now2, ids2);
    ReadDataRecovery(IdlessFile, now, ids);
    ReadDataRecovery(IdlessFile, now2, ids2);
  }

  /** `{"items": [{"label": "x"}]}`: one item without an id. */
  const IdlessFile := Present(JsonText(Obj(map["items" := Arr([Obj(map["label" := Str("x")])])])))

  lemma IdlessFileShape()
    ensures Get(IdlessFile.raw.value, "items") == Arr([Obj(map["label" := Str("x")])])
    ensures Get(Obj(map["label" := Str("x")]), "id") == Undefined
  {
  }

  lemma IdlessParse(now: int, ids: nat -> Uuid)
    ensures ParseData(IdlessFile.raw, now, ids).Some?
    ensures ParseData(IdlessFile.raw, now, ids).value.items[0].id == ids(0)
  {
    IdlessFileShape();
    var e := Obj(map["label" := Str("x")]);
    assert NormalizeItem(e, ids(0)).id == ids(0);
  }

  /** The shared `qui-ramene.json`, with the backups saved beside it. */
  class BringStore {
    var file: DataFile
    var backups: seq<RawFile>

    constructor (file: DataFile)
      ensures this.file == file && backups == []
    {
      this.file := file;
      backups := [];
    }

    /** `writeData`: stamps the record with `now` and writes it. */
    method WriteData(d: Data, now: int) returns (saved: Data)
      modifies this
      ensures saved == d.(updatedAt := now)
      ensures file == Written(saved) && backups == old(backups)
    {
      saved := d.(updatedAt := now);
      file := Written(saved);
    }

    /** `ensureStorage` */
    method EnsureStorage(now: int, ids: nat -> Uuid)
      modifies this
      ensures file == EnsuredFile(old(file), now, ids)
      ensures backups == old(backups) + BackupOf(old(file), now, ids)
    {
      match file
      case Absent =>
        var _ := WriteData(DefaultData(now, ids), now);
      case Unreadable =>
        var _ := WriteData(DefaultData(now, ids), now);
      case Present(raw) =>
        var parsed := ParseData(raw, now, ids);
        if parsed.None? {
          backups := backups + [raw];
          var _ := WriteData(DefaultData(now, ids), now);
        }
    }

    /** `readData`: the parsed list, after `ensureStorage`; the default list if that still fails. */
    method ReadData(now: int, ids: nat -> Uuid) returns (d: Data)
      modifies this
      ensures d == ReadResult(old(file), now, ids)
      ensures file == ReadFileAfter(old(file), now, ids)
      ensures backups == old(backups) + BackupOf(old(file), now, ids)
    {
      EnsureStorage(now, ids);
      var parsed := if file.Present? then ParseData(file.raw, now, ids) else None;
      if parsed.Some? {
        return parsed.value;
      }
      var defaults := DefaultData(now, ids);
      d := WriteData(defaults, now);
    }
  }

  /** `raw.replace(/^﻿/, "")`: one leading byte-order mark removed. */
  function StripBom(raw: string): (r: string)
    ensures raw != [] && raw[0] == '\U{FEFF}' ==> r == raw[1..]
    ensures !(raw != [] && raw[0] == '\U{FEFF}') ==> r == raw
  {
    if raw != [] && raw[0] == '\U{FEFF}' then raw[1..] else raw
  }

  /** `.flatMap((line) => line.split(/[;,]/g))` */
  function Pieces(lines: seq<string>): (pieces: seq<string>)
    ensures forall k :: 0 <= k < |pieces| ==> ';' !in pieces[k] && ',' !in pieces[k]
    ensures (forall k :: 0 <= k < |lines| ==> '\n' !in lines[k]) ==>
      forall k :: 0 <= k < |pieces| ==> '\n' !in pieces[k]
    decreases |lines|
  {
    if lines == [] then []
    else
      var parts := SplitAny(lines[0], {';', ','});
      SplitAnyKeepsAbsent(lines[0], {';', ','}, '\n');
      parts + Pieces(lines[1..])
  }

  /** What a roster entry looks like. */
  predicate IsEntry(s: string) {
    s != [] && IsTrimmed(s) && !StartsWith(s, "#")
    && ';' !in s && ',' !in s && '\n' !in s
  }

  /** Pieces as the line and `;`/`,` splits leave them: no separator inside any. */
  predicate SeparatorFree(pieces: seq<string>) {
    forall k :: 0 <= k < |pieces| ==> ';' !in pieces[k] && ',' !in pieces[k] && '\n' !in pieces[k]
  }

  /** `.map((s) => s.trim()).filter((s) => s.length > 0 && !s.startsWith("#"))` */
  function Entries(pieces: seq<string>): (names: seq<string>)
    requires SeparatorFree(pieces)
    ensures |names| <= |pieces|
    ensures forall k :: 0 <= k < |names| ==> IsEntry(names[k])
    decreases |pieces|
  {
    if pieces == [] then []
    else
      var t := Trim(pieces[0]);
      TrimIsTrimmed(pieces[0]);
      TrimKeepsAbsent(pieces[0], ';');
      TrimKeepsAbsent(pieces[0], ',');
      TrimKeepsAbsent(pieces[0], '\n');
      var head := if |t| > 0 && !StartsWith(t, "#") then [t] else [];
      assert forall k :: 0 <= k < |head| ==> IsEntry(head[k]);
      head + Entries(pieces[1..])
  }

  /** One piece yields its trimmed text, unless that is blank or a `#` comment. */
  lemma EntriesOne(p: string)
    requires SeparatorFree([p])
    ensures Entries([p]) == if Trim(p) != [] && !StartsWith(Trim(p), "#") then [Trim(p)] else []
  {
    assert [p][1..] == [];
  }

  /** Pieces are filtered one by one: the entries of `a + b` are those of `a`, then those of `b`. */
  lemma {:induction false} EntriesConcat(a: seq<string>, b: seq<string>)
    requires SeparatorFree(a) && SeparatorFree(b)
    ensures Entries(a + b) == Entries(a) + Entries(b)
    decreases |a|
  {
    if a == [] {
      assert a + b == b;
    } else {
      assert (a + b)[1..] == a[1..] + b;
      assert SeparatorFree(a[1..]) by {
        forall k | 0 <= k < |a[1..]| ensures ';' !in a[1..][k] && ',' !in a[1..][k] && '\n' !in a[1..][k] {
          assert a[1..][k] == a[k + 1];
        }
      }
      EntriesConcat(a[1..], b);
    }
  }

  /** Entries pass through unchanged: the filter keeps every entry, in order. */
  lemma {:induction false} EntriesOfEntries(names: seq<string>)
    requires forall k :: 0 <= k < |names| ==> IsEntry(names[k])
    requires SeparatorFree(names)
    ensures Entries(names) == names
    decreases |names|
  {
    if names != [] {
      TrimIdentity(names[0]);
      EntriesOfEntries(names[1..]);
      HeadTail(names);
    }
  }

  /** Lines without `;` or `,` are their own pieces. */
  lemma {:induction false} PiecesOfUnsplit(lines: seq<string>)
    requires forall k :: 0 <= k < |lines| ==> ';' !in lines[k] && ',' !in lines[k]
    ensures Pieces(lines) == lines
    decreases |lines|
  {
    if lines != [] {
      SplitAnyNoSep(lines[0], {';', ','});
      PiecesOfUnsplit(lines[1..]);
      HeadTail(lines);
    }
  }

  /** A file's text starts with its first line. */
  lemma JoinWithStart(names: seq<string>)
    requires names != [] && names[0] != []
    ensures JoinWith(names, "\n") != [] && JoinWith(names, "\n")[0] == names[0][0]
  {
  }

  /** The roster one candidate file's text yields. */
  function Roster(raw: string): (names: seq<string>)
    ensures forall k :: 0 <= k < |names| ==> IsEntry(names[k])
  {
    Entries(Pieces(SplitLines(StripBom(raw))))
  }

  /** A `presents.txt` written one entry per line reads back as exactly those entries. */
  lemma RosterRoundTrip(names: seq<string>)
    requires names != []
    requires forall k :: 0 <= k < |names| ==> IsEntry(names[k])
    ensures Roster(JoinWith(names, "\n")) == names
  {
    var text := JoinWith(names, "\n");
    JoinWithStart(names);
    assert !IsSpace(names[0][0]);
    assert StripBom(text) == text;
    forall k | 0 <= k < |names|
      ensures names[k] == [] || names[k][|names[k]| - 1] != '\r'
    {
      assert !IsSpace(names[k][|names[k]| - 1]);
    }
    SplitLinesJoinRoundTrip(names);
    PiecesOfUnsplit(names);
    EntriesOfEntries(names);
  }

  /** The first non-empty roster of a sequence, or none. */
  function FirstNonEmpty(rosters: seq<seq<string>>): seq<string>
    decreases |rosters|
  {
    if rosters == [] then []
    else if |rosters[0]| > 0 then rosters[0]
    else FirstNonEmpty(rosters[1..])
  }

  /** The answer is the first non-empty roster, and empty exactly when every roster is. */
  lemma {:induction false} FirstNonEmptySpec(rosters: seq<seq<string>>)
    ensures FirstNonEmpty(rosters) == [] <==> forall i :: 0 <= i < |rosters| ==> rosters[i] == []
    ensures FirstNonEmpty(rosters) != [] ==>
      exists i :: 0 <= i < |rosters| && FirstNonEmpty(rosters) == rosters[i]
        && forall j :: 0 <= j < i ==> rosters[j] == []
    decreases |rosters|
  {
    if rosters != [] && |rosters[0]| == 0 {
      var rest := rosters[1..];
      FirstNonEmptySpec(rest);
      if FirstNonEmpty(rest) != [] {
        var i :| 0 <= i < |rest| && FirstNonEmpty(rest) == rest[i]
          && forall j :: 0 <= j < i ==> rest[j] == [];
        assert rosters[i + 1] == rest[i];
        assert forall j :: 0 <= j < i + 1 ==> rosters[j] == [] by {
          forall j | 0 <= j < i + 1 ensures rosters[j] == [] {
            if j > 0 { assert rosters[j] == rest[j - 1]; }
          }
        }
      } else {
        assert forall i :: 0 <= i < |rosters| ==> rosters[i] == [] by {
          forall i | 0 <= i < |rosters| ensures rosters[i] == [] {
            if i > 0 { assert rosters[i] == rest[i - 1]; }
          }
        }
      }
    }
  }

  /** The roster each candidate file yields; nobody for an unreadable one. */
  function Rosters(candidates: seq<Option<string>>): (rosters: seq<seq<string>>)
    ensures |rosters| == |candidates|
    ensures forall i :: 0 <= i < |rosters| ==> forall k :: 0 <= k < |rosters[i]| ==> IsEntry(rosters[i][k])
  {
    seq(|candidates|, i requires 0 <= i < |candidates| =>
      if candidates[i].Some? then Roster(candidates[i].value) else [])
  }

  /** `readPresentPeople`'s answer. */
  function FirstRoster(candidates: seq<Option<string>>): seq<string> {
    FirstNonEmpty(Rosters(candidates))
  }

  /**
   * The answer is the roster of the first candidate that yields somebody, empty exactly
   * when none does, and every entry is a clean name.
   */
  lemma FirstRosterSpec(candidates: seq<Option<string>>)
    ensures FirstRoster(candidates) == [] <==> forall i :: 0 <= i < |candidates| ==> Rosters(candidates)[i] == []
    ensures FirstRoster(candidates) != [] ==>
      exists i :: 0 <= i < |candidates| && candidates[i].Some?
        && FirstRoster(candidates) == Roster(candidates[i].value)
        && forall j :: 0 <= j < i ==> Rosters(candidates)[j] == []
    ensures forall k :: 0 <= k < |FirstRoster(candidates)| ==> IsEntry(FirstRoster(candidates)[k])
  {
    FirstNonEmptySpec(Rosters(candidates));
  }

  /** `readPresentPeople`, over the contents of `presents.txt` then `present.txt` (`None`: unreadable). */
  method ReadPresentPeople(candidates: seq<Option<string>>) returns (people: seq<string>)
    ensures people == FirstRoster(candidates)
  {
    ghost var rosters := Rosters(candidates);
    var i := 0;
    while i < |candidates|
      invariant 0 <= i <= |candidates|
      invariant FirstRoster(candidates) == FirstNonEmpty(rosters[i..])
    {
      assert rosters[i..][0] == rosters[i];
      assert rosters[i..][1..] == rosters[i + 1..];
      if candidates[i].Some? {
        var list := Roster(candidates[i].value);
        if |list| > 0 {
          return list;
        }
      }
      i := i + 1;
    }
    return [];
  }
}
