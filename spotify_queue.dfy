/**
 * `/api/spotify/queue` (app/api/spotify/queue/route.ts): a track URI is checked, its id
 * extracted, and the track is queued only when it is neither playing nor already queued.
 * The two calls to the player are abstract: the queue read is an input, the enqueue call
 * an entry in the list of calls made.
 */
module SpotifyQueue {
  import opened Wrappers
  import opened JsText
  import opened Js

  const TrackPrefix := "spotify:track:"

  /** `extractTrackId`: the third piece of a URI, only when splitting on `:` gives exactly three. */
  function ExtractTrackId(uri: string): (id: Option<string>)
    ensures id.Some? <==> |SplitAny(uri, {':'})| == 3
    ensures id.Some? ==> id.value == SplitAny(uri, {':'})[2] && ':' !in id.value
  {
    var parts := SplitAny(uri, {':'});
    if |parts| == 3 then Some(parts[2]) else None
  }

  /** Behind the track prefix, an id is found exactly when the rest holds no further `:`, and it is that rest. */
  lemma ExtractTrackOf(x: string)
    ensures ExtractTrackId(TrackPrefix + x).Some? <==> ':' !in x
    ensures ':' !in x ==> ExtractTrackId(TrackPrefix + x) == Some(x)
  {
    var inner := "track" + [':'] + x;
    assert TrackPrefix + x == "spotify" + [':'] + inner;
    SplitAnyCons("spotify", ':', inner, {':'});
    SplitAnyCons("track", ':', x, {':'});
    if ':' in x {
      var i :| 0 <= i < |x| && x[i] == ':';
      SplitAnyAtSep(x, {':'}, i);
    } else {
      SplitAnyNoSep(x, {':'});
    }
  }

  /** `spotify:track:a:b` has four pieces and is refused. */
  lemma ExtraPieceRejected()
    ensures ExtractTrackId("spotify:track:a:b") == None
  {
    assert "spotify:track:a:b" == TrackPrefix + "a:b";
    ExtractTrackOf("a:b");
  }

  /** `String(v || "")` of a track's `id`, the form both comparisons use. */
  function TrackId(t: Value): string {
    StrOrEmpty(Get(t, "id"))
  }

  /** `String(currentlyId || "") === newId || inQueue` on the player's queue response `q`. */
  predicate IsDuplicate(q: Value, id: string) {
    TrackId(Get(q, "currently_playing")) == id
    || (Get(q, "queue").Arr?
        && exists i :: 0 <= i < |Get(q, "queue").elems| && TrackId(Get(q, "queue").elems[i]) == id)
  }

  /** A call the handler makes to the player. */
  datatype Call = ReadQueue | Enqueue(uri: string)

  /**
   * The answers: `InvalidUri` has status 400; the others are 200 with `ok: false`
   * except `Queued`. `Failed` is the catch of a call that threw.
   */
  datatype Reply = InvalidUri | Duplicate | Queued | Failed

  /** The status literal each `return` of `POST` writes. */
  function StatusCode(reply: Reply): int {
    if reply == InvalidUri then 400 else 200
  }

  /** The reply together with the calls made, in order. */
  datatype Outcome = Outcome(reply: Reply, calls: seq<Call>)

  /** The URI a request asks for: `String(body?.uri || "")`, a body that is not JSON read as `{}`. */
  function RequestedUri(body: Option<Value>): string {
    StrOrEmpty(Get(BodyOr(body, Obj(map[])), "uri"))
  }

  /**
   * The part of `POST` after the URI checks, for the URI `uri` with track id `id`:
   * `queue` is what reading the player's queue yields (`None`: the read threw),
   * `enqueued` whether the enqueue call returned normally.
   */
  function Lookup(queue: Option<Value>, uri: string, id: string, enqueued: bool): Outcome {
    if queue.None? then Outcome(Failed, [ReadQueue])
    else if IsDuplicate(queue.value, id) then Outcome(Duplicate, [ReadQueue])
    else Outcome(if enqueued then Queued else Failed, [ReadQueue, Enqueue(uri)])
  }

  /** `POST`: the prefix check, the id extraction, then the queue lookup. */
  function Post(body: Option<Value>, queue: Option<Value>, enqueued: bool): Outcome {
    var uri := RequestedUri(body);
    if !StartsWith(uri, TrackPrefix) then Outcome(InvalidUri, [])
    else
      var newId := ExtractTrackId(uri);
      if newId.None? || newId.value == [] then Outcome(InvalidUri, [])
      else Lookup(queue, uri, newId.value, enqueued)
  }

  /** How many enqueue calls a list of calls holds. */
  function Enqueues(calls: seq<Call>): nat {
    if calls == [] then 0 else (if calls[0].Enqueue? then 1 else 0) + Enqueues(calls[1..])
  }

  /** A URI without the track prefix is refused with 400 before any call. */
  lemma PostRejectsPrefix(body: Option<Value>, queue: Option<Value>, enqueued: bool)
    requires !StartsWith(RequestedUri(body), TrackPrefix)
    ensures Post(body, queue, enqueued) == Outcome(InvalidUri, [])
    ensures StatusCode(Post(body, queue, enqueued).reply) == 400
  {
  }

  /** `spotify:track:` alone has an empty id and is refused with 400 before any call. */
  lemma PostRejectsEmptyId(body: Option<Value>, queue: Option<Value>, enqueued: bool)
    requires RequestedUri(body) == TrackPrefix
    ensures Post(body, queue, enqueued) == Outcome(InvalidUri, [])
  {
    assert TrackPrefix == TrackPrefix + [];
    ExtractTrackOf([]);
  }

  /** A well-formed track URI passes both checks and goes to the lookup with its id. */
  lemma PostTrack(body: Option<Value>, queue: Option<Value>, enqueued: bool, id: string)
    requires RequestedUri(body) == TrackPrefix + id
    requires id != [] && ':' !in id
    ensures Post(body, queue, enqueued) == Lookup(queue, TrackPrefix + id, id, enqueued)
  {
    StartsWithPrefix(TrackPrefix, id);
    ExtractTrackOf(id);
  }

  /**
   * The lookup reads the queue once, first; the track is enqueued, by exactly one call
   * with its URI, exactly when the read succeeded and the track is neither playing nor
   * queued; otherwise a duplicate is reported.
   */
  lemma LookupCalls(queue: Option<Value>, uri: string, id: string, enqueued: bool)
    ensures Lookup(queue, uri, id, enqueued).calls[..1] == [ReadQueue]
    ensures Enqueues(Lookup(queue, uri, id, enqueued).calls) <= 1
    ensures Enqueues(Lookup(queue, uri, id, enqueued).calls) == 1
      <==> queue.Some? && !IsDuplicate(queue.value, id)
    ensures Enqueue(uri) in Lookup(queue, uri, id, enqueued).calls
      <==> queue.Some? && !IsDuplicate(queue.value, id)
    ensures Lookup(queue, uri, id, enqueued).reply == Duplicate
      <==> queue.Some? && IsDuplicate(queue.value, id)
  {
    var calls := Lookup(queue, uri, id, enqueued).calls;
    if queue.Some? && !IsDuplicate(queue.value, id) {
      assert calls[1..] == [Enqueue(uri)] && calls[1..][1..] == [];
    } else {
      assert calls[1..] == [];
    }
  }

  /** A string starts with itself followed by anything. */
  lemma StartsWithPrefix(p: string, x: string)
    ensures StartsWith(p + x, p)
  {
    assert (p + x)[..|p|] == p;
  }

  /** A track already playing is never queued again. */
  lemma PlayingNotQueuedAgain(q: Value, id: string)
    requires id != [] && Get(Get(q, "currently_playing"), "id") == Str(id)
    ensures IsDuplicate(q, id)
  {
  }

  /** A track listed in the queue is never queued again. */
  lemma QueuedNotQueuedAgain(q: Value, id: string, i: nat)
    requires Get(q, "queue").Arr? && i < |Get(q, "queue").elems|
    requires Get(Get(q, "queue").elems[i], "id") == Str(id) && id != []
    ensures IsDuplicate(q, id)
  {
    assert TrackId(Get(q, "queue").elems[i]) == id;
  }
}
