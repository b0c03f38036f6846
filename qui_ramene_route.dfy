/**
 * `/api/qui-ramene` (app/api/qui-ramene/route.ts): the bring list as an ordered list of
 * items. Anyone may add an item or take/release one; editing a label or a category and
 * deleting need the admin code.
 */
module QuiRameneRoute {
  import opened Wrappers
  import opened JsText
  import opened Js
  import opened QuiRameneStore

  /** `isAdmin`: a non-empty `adminCode` equal to the `ADMIN_CODE` setting (`None`: unset). */
  predicate IsAdmin(body: Value, adminCode: Option<string>) {
    var code := StrOrEmpty(Get(body, "adminCode"));
    |code| > 0 && adminCode == Some(code)
  }

  /** Admin rights need a configured, non-empty code sent back exactly. */
  lemma IsAdminSpec(body: Value, adminCode: Option<string>)
    ensures IsAdmin(body, adminCode) <==>
      adminCode.Some? && adminCode.value != [] && StrOrEmpty(Get(body, "adminCode")) == adminCode.value
    ensures adminCode.None? ==> !IsAdmin(body, adminCode)
    ensures adminCode == Some([]) ==> !IsAdmin(body, adminCode)
    ensures !Truthy(Get(body, "adminCode")) ==> !IsAdmin(body, adminCode)
  {
  }

  /** A reply: the list with the roster (200, `ok: true`), or an error status and message. */
  datatype BringReply = Listed(data: Data, people: seq<string>) | Refused(status: int, error: string)

  /** `String(body?.label || "").trim()` for POST. */
  function PostLabel(body: Value): string {
    TrimmedText(Get(body, "label"))
  }

  /**
   * The category POST stores, as written: the raw `category` value whenever
   * `isValidCategory` accepts it, which compares `String(v)` and so also accepts a
   * one-element array holding a category name.
   */
  function PostedCategoryAsWritten(raw: Value): Value {
    if IsValidCategory(raw) then raw else Str("Nourriture")
  }

  /** `["Softs"]` passes the check and is stored as an array, not as a category name. */
  lemma PostedCategoryArray()
    ensures IsValidCategory(Arr([Str("Softs")]))
    ensures PostedCategoryAsWritten(Arr([Str("Softs")])) == Arr([Str("Softs")])
    ensures forall c :: PostedCategoryAsWritten(Arr([Str("Softs")])) != Str(CategoryName(c))
  {
    var es := [Str("Softs")];
    assert seq(|es|, i requires 0 <= i < |es| => if Nullish(es[i]) then "" else ToStr(es[i])) == ["Softs"];
    assert ToStr(Arr(es)) == "Softs";
  }

  /**
   * The category POST stores, as evidently intended: the category the valid value names,
   * Nourriture otherwise. It agrees with the code on every string.
   */
  function PostedCategory(raw: Value): (c: Category)
    ensures raw.Str? ==> PostedCategoryAsWritten(raw) == Str(CategoryName(c))
    ensures !IsValidCategory(raw) ==> c == Nourriture
    ensures IsValidCategory(raw) ==> ToStr(raw) == CategoryName(c)
  {
    var c := CategoryOf(ToStr(raw)).GetOr(Nourriture);
    CategoryNameRoundTrip(c, ToStr(raw));
    c
  }

  /** POST's effect on the list: the new, unassigned item goes in front. */
  function Prepended(d: Data, id: Uuid, itemLabel: string, category: Category): Data {
    d.(items := [Item(id, itemLabel, category, "")] + d.items)
  }

  /** POST adds exactly one item, first, unassigned, and keeps the others in order. */
  lemma PrependedSpec(d: Data, id: Uuid, itemLabel: string, category: Category)
    ensures |Prepended(d, id, itemLabel, category).items| == |d.items| + 1
    ensures Prepended(d, id, itemLabel, category).items[0] == Item(id, itemLabel, category, "")
    ensures Prepended(d, id, itemLabel, category).items[1..] == d.items
  {
  }

  /** `data.items.find((i) => i.id === id)`, as the index of the first match. */
  function FindIndex(items: seq<Item>, id: string): (r: Option<nat>)
    ensures r.Some? ==> r.value < |items| && items[r.value].id == id
    ensures r.Some? ==> forall j :: 0 <= j < r.value ==> items[j].id != id
    ensures r.None? ==> forall j :: 0 <= j < |items| ==> items[j].id != id
    decreases |items|
  {
    if items == [] then None
    else if items[0].id == id then Some(0)
    else
      var r := FindIndex(items[1..], id);
      if r.Some? then Some(r.value + 1) else None
  }

  /** The outcome of PATCH on the item found: refused (403), or the item as edited. */
  datatype PatchResult = Forbidden | Patched(item: Item)

  /**
   * PATCH's item edit: a string `assignedTo` is taken trimmed by anyone; a string
   * `label` or `category` needs admin rights; an admin's label is taken trimmed and a
   * category only when valid.
   */
  function PatchItem(item: Item, body: Value, admin: bool): PatchResult {
    var assignee := Get(body, "assignedTo");
    var newLabel := Get(body, "label");
    var category := Get(body, "category");
    var taken := if assignee.Str? then item.(assignedTo := Trim(assignee.s)) else item;
    if newLabel.Str? || category.Str? then
      if !admin then Forbidden
      else
        var relabelled := if newLabel.Str? then taken.(itemLabel := Trim(newLabel.s)) else taken;
        Patched(
          if category.Str? && IsValidCategory(category) then relabelled.(category := CategoryOf(category.s).value)
          else relabelled)
    else Patched(taken)
  }

  /** Taking or releasing an item is open to anyone and touches `assignedTo` alone. */
  lemma PatchAssignOnly(item: Item, body: Value, admin: bool, s: string)
    requires Get(body, "assignedTo") == Str(s)
    requires !Get(body, "label").Str? && !Get(body, "category").Str?
    ensures PatchItem(item, body, admin) == Patched(item.(assignedTo := Trim(s)))
  {
  }

  /** An edit of label or category without admin rights is refused, whatever else it carries. */
  lemma PatchNeedsAdmin(item: Item, body: Value)
    requires Get(body, "label").Str? || Get(body, "category").Str?
    ensures PatchItem(item, body, false) == Forbidden
  {
  }

  /** An admin's invalid category is ignored while the label in the same request is applied. */
  lemma PatchInvalidCategoryKept(item: Item, body: Value, s: string)
    requires Get(body, "label") == Str(s)
    requires Get(body, "category").Str? && !IsValidCategory(Get(body, "category"))
    ensures PatchItem(item, body, true).Patched?
    ensures PatchItem(item, body, true).item.category == item.category
    ensures PatchItem(item, body, true).item.itemLabel == Trim(s)
  {
  }

  /** An admin's valid category replaces the old one. */
  lemma PatchValidCategory(item: Item, body: Value, c: Category)
    requires Get(body, "category") == Str(CategoryName(c))
    ensures PatchItem(item, body, true).Patched?
    ensures PatchItem(item, body, true).item.category == c
  {
    CategoryNameRoundTrip(c, CategoryName(c));
  }

  /** An edit never changes the id and keeps a normalised item normalised. */
  lemma PatchKeepsShape(item: Item, body: Value, admin: bool)
    requires PatchItem(item, body, admin).Patched?
    ensures PatchItem(item, body, admin).item.id == item.id
    ensures Normalised(item) ==> Normalised(PatchItem(item, body, admin).item)
  {
    var p := PatchItem(item, body, admin).item;
    var assignee := Get(body, "assignedTo");
    var newLabel := Get(body, "label");
    assert p.assignedTo == (if assignee.Str? then Trim(assignee.s) else item.assignedTo);
    assert p.itemLabel == (if newLabel.Str? then Trim(newLabel.s) else item.itemLabel);
    if assignee.Str? { TrimIsTrimmed(assignee.s); }
    if newLabel.Str? { TrimIsTrimmed(newLabel.s); }
  }

  /** `data.items.filter((i) => i.id !== id)` */
  function RemoveId(items: seq<Item>, id: string): (r: seq<Item>)
    ensures |r| <= |items|
    ensures forall k :: 0 <= k < |r| ==> r[k].id != id && r[k] in items
    decreases |items|
  {
    if items == [] then []
    else if items[0].id == id then RemoveId(items[1..], id)
    else [items[0]] + RemoveId(items[1..], id)
  }

  /** Every item with another id survives the deletion. */
  lemma {:induction false} RemoveIdKeepsOthers(items: seq<Item>, id: string)
    ensures forall k :: 0 <= k < |items| && items[k].id != id ==> items[k] in RemoveId(items, id)
    decreases |items|
  {
    if items != [] {
      RemoveIdKeepsOthers(items[1..], id);
      forall k | 1 <= k < |items| && items[k].id != id
        ensures items[k] in RemoveId(items, id)
      {
        assert items[k] == items[1..][k - 1];
      }
    }
  }

  /** Deletion works piecewise, so the survivors keep their relative order. */
  lemma {:induction false} RemoveIdConcat(a: seq<Item>, b: seq<Item>, id: string)
    ensures RemoveId(a + b, id) == RemoveId(a, id) + RemoveId(b, id)
    decreases |a|
  {
    if a == [] {
      assert a + b == b;
    } else {
      assert (a + b)[1..] == a[1..] + b;
      RemoveIdConcat(a[1..], b, id);
    }
  }

  /** Deleting an id nobody has changes nothing. */
  lemma {:induction false} RemoveIdAbsent(items: seq<Item>, id: string)
    requires forall k :: 0 <= k < |items| ==> items[k].id != id
    ensures RemoveId(items, id) == items
    decreases |items|
  {
    if items != [] {
      RemoveIdAbsent(items[1..], id);
      assert [items[0]] + items[1..] == items;
    }
  }

  /** `GET`: the list and the roster. */
  method GetAll(store: BringStore, now: int, ids: nat -> Uuid, presents: seq<Option<string>>)
    returns (reply: BringReply)
    modifies store
    ensures reply == Listed(ReadResult(old(store.file), now, ids), FirstRoster(presents))
    ensures store.file == ReadFileAfter(old(store.file), now, ids)
    ensures store.backups == old(store.backups) + BackupOf(old(store.file), now, ids)
  {
    var data := store.ReadData(now, ids);
    var people := ReadPresentPeople(presents);
    reply := Listed(data, people);
  }

  /** `POST`: a non-blank label adds a new item in front, with a fresh id. */
  method Post(store: BringStore, body: Option<Value>, now: int, ids: nat -> Uuid, id: Uuid,
              presents: seq<Option<string>>)
    returns (reply: BringReply)
    modifies store
    ensures PostLabel(BodyOr(body, Obj(map[]))) == [] ==>
      reply == Refused(400, "label required") && unchanged(store)
    ensures PostLabel(BodyOr(body, Obj(map[]))) != [] ==>
      var b := BodyOr(body, Obj(map[]));
      var saved := Prepended(ReadResult(old(store.file), now, ids), id, PostLabel(b),
                             PostedCategory(Get(b, "category"))).(updatedAt := now);
      reply == Listed(saved, FirstRoster(presents))
      && store.file == Written(saved)
      && store.backups == old(store.backups) + BackupOf(old(store.file), now, ids)
  {
    var b := BodyOr(body, Obj(map[]));
    var itemLabel := TrimmedText(Get(b, "label"));
    var categoryRaw := Get(b, "category");
    if itemLabel == [] {
      return Refused(400, "label required");
    }
    var category := PostedCategory(categoryRaw);
    var data := store.ReadData(now, ids);
    data := data.(items := [Item(id, itemLabel, category, "")] + data.items);
    var saved := store.WriteData(data, now);
    var people := ReadPresentPeople(presents);
    reply := Listed(saved, people);
  }

  /**
   * `PATCH`: a missing id is refused before anything is read; an unknown id (404) and a
   * refused edit (403) write nothing beyond what reading the list did.
   */
  method Patch(store: BringStore, body: Option<Value>, adminCode: Option<string>, now: int,
               ids: nat -> Uuid, presents: seq<Option<string>>)
    returns (reply: BringReply)
    modifies store
    ensures StrOrEmpty(Get(BodyOr(body, Obj(map[])), "id")) == [] ==>
      reply == Refused(400, "id required") && unchanged(store)
    ensures StrOrEmpty(Get(BodyOr(body, Obj(map[])), "id")) != [] ==>
      var b := BodyOr(body, Obj(map[]));
      var d := ReadResult(old(store.file), now, ids);
      var k := FindIndex(d.items, StrOrEmpty(Get(b, "id")));
      store.backups == old(store.backups) + BackupOf(old(store.file), now, ids)
      && (k.None? ==>
           reply == Refused(404, "not found") && store.file == ReadFileAfter(old(store.file), now, ids))
      && (k.Some? && PatchItem(d.items[k.value], b, IsAdmin(b, adminCode)).Forbidden? ==>
           reply == Refused(403, "admin only") && store.file == ReadFileAfter(old(store.file), now, ids))
      && (k.Some? && PatchItem(d.items[k.value], b, IsAdmin(b, adminCode)).Patched? ==>
           var saved := d.(items := d.items[k.value := PatchItem(d.items[k.value], b, IsAdmin(b, adminCode)).item],
                           updatedAt := now);
           reply == Listed(saved, FirstRoster(presents)) && store.file == Written(saved))
  {
    var b := BodyOr(body, Obj(map[]));
    var id := StrOrEmpty(Get(b, "id"));
    if id == [] {
      return Refused(400, "id required");
    }
    var data := store.ReadData(now, ids);
    var k := FindIndex(data.items, id);
    if k.None? {
      return Refused(404, "not found");
    }
    var result := PatchItem(data.items[k.value], b, IsAdmin(b, adminCode));
    if result.Forbidden? {
      return Refused(403, "admin only");
    }
    data := data.(items := data.items[k.value := result.item]);
    var saved := store.WriteData(data, now);
    var people := ReadPresentPeople(presents);
    reply := Listed(saved, people);
  }

  /** `DELETE`: admin only, checked before the list is read; removes every item with the id. */
  method Delete(store: BringStore, body: Option<Value>, adminCode: Option<string>, now: int,
                ids: nat -> Uuid, presents: seq<Option<string>>)
    returns (reply: BringReply)
    modifies store
    ensures StrOrEmpty(Get(BodyOr(body, Obj(map[])), "id")) == [] ==>
      reply == Refused(400, "id required") && unchanged(store)
    ensures StrOrEmpty(Get(BodyOr(body, Obj(map[])), "id")) != [] && !IsAdmin(BodyOr(body, Obj(map[])), adminCode) ==>
      reply == Refused(403, "admin only") && unchanged(store)
    ensures StrOrEmpty(Get(BodyOr(body, Obj(map[])), "id")) != [] && IsAdmin(BodyOr(body, Obj(map[])), adminCode) ==>
      var d := ReadResult(old(store.file), now, ids);
      var saved := d.(items := RemoveId(d.items, StrOrEmpty(Get(BodyOr(body, Obj(map[])), "id"))), updatedAt := now);
      reply == Listed(saved, FirstRoster(presents))
      && store.file == Written(saved)
      && store.backups == old(store.backups) + BackupOf(old(store.file), now, ids)
  {
    var b := BodyOr(body, Obj(map[]));
    var id := StrOrEmpty(Get(b, "id"));
    if id == [] {
      return Refused(400, "id required");
    }
    if !IsAdmin(b, adminCode) {
      return Refused(403, "admin only");
    }
    var data := store.ReadData(now, ids);
    data := data.(items := RemoveId(data.items, id));
    var saved := store.WriteData(data, now);
    var people := ReadPresentPeople(presents);
    reply := Listed(saved, people);
  }
}
