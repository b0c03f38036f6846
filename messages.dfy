/**
 * The message wall (lib/messages.ts): a JSON array in `storage/messages.json`, newest
 * message first, never longer than 200.
 */
module Messages {
  import opened Js

  /** `MAX_MESSAGES` */
  const MaxMessages := 200

  /** `WallMessage` */
  datatype WallMessage = WallMessage(id: string, name: string, text: string, createdAt: int)

  /** `JSON.stringify` of a message. */
  function MessageJson(m: WallMessage): Value {
    Obj(map["id" := Str(m.id), "name" := Str(m.name), "text" := Str(m.text), "createdAt" := Num(m.createdAt)])
  }

  /** `messages.json`: absent, not JSON, or some JSON value (elements are not checked). */
  datatype MessagesFile = Absent | NotJson | JsonText(value: Value)

  /** `readMessages`' answer: the array when the file holds one, else nothing. */
  function ReadList(f: MessagesFile): seq<Value> {
    if f.JsonText? && f.value.Arr? then f.value.elems else []
  }

  /** `ensureFile`: a missing file is created holding `[]`. */
  function Ensured(f: MessagesFile): MessagesFile {
    if f.Absent? then JsonText(Arr([])) else f
  }

  /** `readMessages` returns nothing unless the content is a JSON array, which it returns whole. */
  lemma ReadListSpec(f: MessagesFile)
    ensures ReadList(Ensured(f)) == ReadList(f)
    ensures !(f.JsonText? && f.value.Arr?) ==> ReadList(f) == []
    ensures forall es :: ReadList(JsonText(Arr(es))) == es
  {
  }

  /** `unshift` then `slice(0, MAX_MESSAGES)`: the new message first, the oldest dropped. */
  function Prepend(list: seq<Value>, m: Value): seq<Value> {
    var all := [m] + list;
    if |all| > MaxMessages then all[..MaxMessages] else all
  }

  /**
   * The new message comes first, the length is `min(|list| + 1, 200)`, and the rest is
   * the previous list in order with only its oldest entries cut.
   */
  lemma PrependSpec(list: seq<Value>, m: Value)
    ensures Prepend(list, m)[0] == m
    ensures |Prepend(list, m)| == if |list| + 1 < MaxMessages then |list| + 1 else MaxMessages
    ensures Prepend(list, m)[1..] == list[..|Prepend(list, m)| - 1]
  {
  }

  /** However many messages are added, the wall never exceeds its cap. */
  lemma {:induction false} PrependBounded(list: seq<Value>, ms: seq<Value>)
    requires |list| <= MaxMessages
    ensures |PrependAll(list, ms)| <= MaxMessages
    ensures ms != [] ==> PrependAll(list, ms)[0] == ms[|ms| - 1]
    decreases |ms|
  {
    if ms != [] {
      PrependBounded(list, ms[..|ms| - 1]);
      PrependSpec(PrependAll(list, ms[..|ms| - 1]), ms[|ms| - 1]);
    }
  }

  /** The wall after posting `ms` in order. */
  function PrependAll(list: seq<Value>, ms: seq<Value>): seq<Value>
    decreases |ms|
  {
    if ms == [] then list else Prepend(PrependAll(list, ms[..|ms| - 1]), ms[|ms| - 1])
  }

  /** The file after `addMessage(m)`. */
  function AfterAdd(f: MessagesFile, m: WallMessage): MessagesFile {
    JsonText(Arr(Prepend(ReadList(f), MessageJson(m))))
  }

  /** Reading after an add returns the capped list with the new message first. */
  lemma ReadAfterAdd(f: MessagesFile, m: WallMessage)
    ensures ReadList(AfterAdd(f, m)) == Prepend(ReadList(f), MessageJson(m))
    ensures ReadList(AfterAdd(f, m))[0] == MessageJson(m)
  {
  }

  /** The shared `messages.json`. */
  class MessageStore {
    var file: MessagesFile

    constructor (file: MessagesFile)
      ensures this.file == file
    {
      this.file := file;
    }

    /** `readMessages` */
    method Read() returns (list: seq<Value>)
      modifies this
      ensures list == ReadList(old(file))
      ensures file == Ensured(old(file))
    {
      if file.Absent? {
        file := JsonText(Arr([]));
      }
      list := if file.JsonText? && file.value.Arr? then file.value.elems else [];
    }

    /** `addMessage`: the whole capped list is written back. */
    method Add(msg: WallMessage)
      modifies this
      ensures file == AfterAdd(old(file), msg)
    {
      var messages := Read();
      messages := [MessageJson(msg)] + messages;
      var trimmed := if |messages| > MaxMessages then messages[..MaxMessages] else messages;
      file := JsonText(Arr(trimmed));
    }
  }
}
