/**
 * The party dashboard (app/dashboard/page.tsx): the playback clock kept between polls
 * of the player, and the roulette overlay that replays a spin on the big screen.
 * React state, refs and `localStorage` are fields of two classes; polls, ticks and
 * animation frames are method calls.
 */
module Dashboard {
  import opened Wrappers
  import opened JsText
  import opened Js
  import opened Arith

  // ---- helpers ----

  /** `Math.max(0, Math.floor(ms / 1000))`: whole seconds, never negative. */
  function WholeSeconds(ms: int): nat {
    if ms / 1000 < 0 then 0 else ms / 1000
  }

  /** `String(r).padStart(2, "0")` for the seconds `r = s % 60`. */
  function SecondsField(s: nat): (f: string)
    ensures |f| == 2 && AllDigits(f) && DigitsValue(f) == s % 60
  {
    ShortDecimal(s % 60);
    PaddedDecimalValue(s % 60, 2);
    PadStart(NatToDecimal(s % 60), 2, '0')
  }

  /** `msToMMSS`: minutes, a colon, then the seconds on two digits. */
  function MsToMMSS(ms: int): string {
    NatToDecimal(WholeSeconds(ms) / 60) + ":" + SecondsField(WholeSeconds(ms))
  }

  /**
   * The text reads back as the time it shows: split at the colon it gives a minute
   * count and a two-digit seconds field below 60 that together make the whole seconds.
   */
  lemma MsToMMSSReadsBack(ms: int)
    ensures var parts := SplitAny(MsToMMSS(ms), {':'});
      && |parts| == 2 && AllDigits(parts[0]) && AllDigits(parts[1])
      && |parts[1]| == 2 && DigitsValue(parts[1]) < 60
      && DigitsValue(parts[0]) * 60 + DigitsValue(parts[1]) == WholeSeconds(ms)
  {
    var s := WholeSeconds(ms);
    var m := NatToDecimal(s / 60);
    var f := SecondsField(s);
    DigitsHaveNoColon(m);
    DigitsHaveNoColon(f);
    SplitAnyCons(m, ':', f, {':'});
    SplitAnyNoSep(f, {':'});
    DecimalRoundTrip(s / 60);
  }

  /** A digit string holds no colon. */
  lemma DigitsHaveNoColon(s: string)
    requires AllDigits(s)
    ensures forall c :: c in {':'} ==> c !in s
  {
  }

  /** A negative time shows as `0:00`. */
  lemma MsToMMSSNegative(ms: int)
    requires ms < 0
    ensures MsToMMSS(ms) == "0:00"
  {
    assert WholeSeconds(ms) == 0;
    assert NatToDecimal(0) == "0";
    assert PadStart("0", 2, '0') == "00";
  }

  /** `clamp(n, a, b)` = `Math.max(a, Math.min(b, n))` */
  function Clamp(n: int, a: int, b: int): (r: int)
    ensures a <= b ==> a <= r <= b
    ensures a <= n <= b ==> r == n
    ensures a <= b && n < a ==> r == a
    ensures a <= b && b < n ==> r == b
  {
    var low := if b < n then b else n;
    if a < low then low else a
  }

  /** `pickMs`: the camelCase field, else the snake_case one, as a number; 0 when that is not finite. */
  function PickMs(obj: Value, camel: string, snake: string): int {
    var n := ToNumber(Coalesce(Get(obj, camel), Get(obj, snake)));
    if n.Finite? then n.value else 0
  }

  /** The camelCase field wins whenever it is neither `null` nor `undefined`. */
  lemma PickMsCamelFirst(obj: Value, camel: string, snake: string, n: int)
    requires Get(obj, camel) == Num(n)
    ensures PickMs(obj, camel, snake) == n
  {
  }

  /** A missing or `null` camelCase field falls back to the snake_case one. */
  lemma PickMsSnakeFallback(obj: Value, camel: string, snake: string, n: int)
    requires Nullish(Get(obj, camel)) && Get(obj, snake) == Num(n)
    ensures PickMs(obj, camel, snake) == n
  {
  }

  /** A value that is not a number (both fields missing, or text that is no number) counts as 0. */
  lemma PickMsNotFinite(obj: Value, camel: string, snake: string)
    requires ToNumber(Coalesce(Get(obj, camel), Get(obj, snake))) == NaN
    ensures PickMs(obj, camel, snake) == 0
  {
  }

  /** `pickBool`: the first non-nullish of the two fields when it is a boolean, else `undefined` (`None`). */
  function PickBool(obj: Value, camel: string, snake: string): (r: Option<bool>)
    ensures r.Some? <==> Coalesce(Get(obj, camel), Get(obj, snake)).Bool?
  {
    var v := Coalesce(Get(obj, camel), Get(obj, snake));
    if v.Bool? then Some(v.b) else None
  }

  /** A camelCase field that is present but not a boolean hides the snake_case one. */
  lemma PickBoolNoFallThrough(obj: Value, camel: string, snake: string, b: bool)
    requires Get(obj, camel) == Str("true") && Get(obj, snake) == Bool(b)
    ensures PickBool(obj, camel, snake) == None
  {
  }

  /**
   * `trackKey`: none without a current track; its `id` when that is truthy, else the
   * text `name__artist`. Keys are compared by value, as `!==` compares the string ids
   * Spotify sends.
   */
  function TrackKey(current: Value): (key: Option<Value>)
    ensures key.None? <==> !Truthy(current)
    ensures key.Some? ==> Truthy(key.value)
  {
    if !Truthy(current) then None
    else if Truthy(Get(current, "id")) then Some(Get(current, "id"))
    else Some(Str(ToStr(Get(current, "name")) + "__" + ToStr(Get(current, "artist"))))
  }

  /** Two tracks without an id are told apart by their name and artist. */
  lemma TrackKeyByName(c: Value, d: Value)
    requires Truthy(c) && Truthy(d) && !Truthy(Get(c, "id")) && !Truthy(Get(d, "id"))
    requires ToStr(Get(c, "artist")) == ToStr(Get(d, "artist"))
    requires ToStr(Get(c, "name")) != ToStr(Get(d, "name"))
    ensures TrackKey(c) != TrackKey(d)
  {
    var a := ToStr(Get(c, "artist"));
    var x, y := ToStr(Get(c, "name")), ToStr(Get(d, "name"));
    assert x + "__" + a != y + "__" + a by {
      if |x| != |y| {
        assert |x + "__" + a| != |y + "__" + a|;
      } else {
        var i :| 0 <= i < |x| && x[i] != y[i];
        assert (x + "__" + a)[i] == x[i];
        assert (y + "__" + a)[i] == y[i];
      }
    }
  }

  // ---- the playback clock ----

  /** The drift, in milliseconds, below which the local clock is trusted over a poll. */
  const MaxDrift := 2500

  /** `prevTrackKeyRef`, `liveProgressMs`, `liveDurationMs`, `livePlaying`. */
  datatype Live = Live(prevKey: Option<Value>, progress: int, duration: int, playing: bool)

  function Abs(x: int): nat {
    if x < 0 then -x else x
  }

  /** `pickBool(player, …) ?? pickBool(music.current, …)`: the player's flag, else the track's. */
  function ReportedPlaying(current: Value, player: Value): (r: Option<bool>)
    ensures PickBool(player, "isPlaying", "is_playing").Some? ==> r == PickBool(player, "isPlaying", "is_playing")
    ensures PickBool(player, "isPlaying", "is_playing").None? ==> r == PickBool(current, "isPlaying", "is_playing")
  {
    var p := PickBool(player, "isPlaying", "is_playing");
    if p.Some? then p else PickBool(current, "isPlaying", "is_playing")
  }

  /** The reconciliation effect run after a poll brought `current` (`music.current`) and `player`. */
  function Reconciled(s: Live, current: Value, player: Value): Live {
    if !Truthy(current) then Live(None, 0, 0, false)
    else
      var apiProg := PickMs(player, "progressMs", "progress_ms");
      var apiDur := PickMs(player, "durationMs", "duration_ms");
      var apiPlaying := ReportedPlaying(current, player);
      var playing := if apiPlaying.Some? then apiPlaying.value else s.playing;
      var key := TrackKey(current);
      if s.prevKey != key then Live(key, apiProg, apiDur, playing)
      else if Abs(s.progress - apiProg) > MaxDrift then Live(s.prevKey, apiProg, apiDur, playing)
      else Live(s.prevKey, s.progress, apiDur, playing)
  }

  /** No current track: everything back to zero, not playing, no remembered track. */
  lemma ReconcileNoTrack(s: Live, current: Value, player: Value)
    requires !Truthy(current)
    ensures Reconciled(s, current, player) == Live(None, 0, 0, false)
  {
  }

  /** A different track: progress and duration are taken from the poll and the new key remembered. */
  lemma ReconcileNewTrack(s: Live, current: Value, player: Value)
    requires Truthy(current) && s.prevKey != TrackKey(current)
    ensures var r := Reconciled(s, current, player);
      && r.prevKey == TrackKey(current)
      && r.progress == PickMs(player, "progressMs", "progress_ms")
      && r.duration == PickMs(player, "durationMs", "duration_ms")
  {
  }

  /**
   * The same track: the duration follows the poll; the local progress is replaced by the
   * reported one exactly when they are more than 2500 ms apart.
   */
  lemma ReconcileSameTrack(s: Live, current: Value, player: Value)
    requires Truthy(current) && s.prevKey == TrackKey(current)
    ensures var r := Reconciled(s, current, player);
      var apiProg := PickMs(player, "progressMs", "progress_ms");
      && r.prevKey == s.prevKey
      && r.duration == PickMs(player, "durationMs", "duration_ms")
      && (r.progress == apiProg || r.progress == s.progress)
      && (r.progress != s.progress ==> Abs(s.progress - apiProg) > MaxDrift)
      && (Abs(s.progress - apiProg) > MaxDrift ==> r.progress == apiProg)
      && Abs(r.progress - apiProg) <= MaxDrift
  {
  }

  /** The playing flag changes only when the player or the track reports a boolean. */
  lemma ReconcilePlaying(s: Live, current: Value, player: Value)
    requires Truthy(current)
    ensures ReportedPlaying(current, player).None? ==> Reconciled(s, current, player).playing == s.playing
    ensures ReportedPlaying(current, player).Some? ==> Reconciled(s, current, player).playing == ReportedPlaying(current, player).value
  {
  }

  /** Reconciling twice with the same poll changes nothing more: the second pass sees no drift. */
  lemma ReconcileIdempotent(s: Live, current: Value, player: Value)
    ensures Reconciled(Reconciled(s, current, player), current, player) == Reconciled(s, current, player)
  {
  }

  /** Whether the one-second interval runs: a current track, a non-zero duration, and not paused. */
  predicate Ticking(current: Value, s: Live) {
    Truthy(current) && s.duration != 0 && s.playing
  }

  /** One interval step: `clamp(p + 1000, 0, liveDurationMs)`. */
  function Ticked(s: Live): Live {
    s.(progress := Clamp(s.progress + 1000, 0, s.duration))
  }

  /** A tick stays within the track and advances by a second unless that would run past its end. */
  lemma TickBounded(s: Live)
    requires 0 <= s.duration
    ensures 0 <= Ticked(s).progress <= s.duration
    ensures 0 <= s.progress && s.progress + 1000 <= s.duration ==> Ticked(s).progress == s.progress + 1000
    ensures s.progress + 1000 > s.duration ==> Ticked(s).progress == s.duration
    ensures Ticked(s).duration == s.duration && Ticked(s).prevKey == s.prevKey && Ticked(s).playing == s.playing
  {
  }

  /** However many ticks pass, the progress never exceeds the duration. */
  lemma {:induction false} TicksBounded(s: Live, n: nat)
    requires 0 <= s.duration && 0 <= s.progress <= s.duration
    ensures 0 <= TickedN(s, n).progress <= s.duration
    ensures TickedN(s, n).duration == s.duration
    ensures TickedN(s, n).progress >= s.progress
  {
    if n > 0 {
      TicksBounded(s, n - 1);
      TickBounded(TickedN(s, n - 1));
    }
  }

  function TickedN(s: Live, n: nat): Live {
    if n == 0 then s else Ticked(TickedN(s, n - 1))
  }

  /** `prevTrackKeyRef`, the three live values and `music.current`, updated by polls and ticks. */
  class Playback {
    var prevKey: Option<Value>
    var progress: int
    var duration: int
    var playing: bool
    var current: Value

    function State(): Live
      reads this
    {
      Live(prevKey, progress, duration, playing)
    }

    /** The initial state: `useRef(null)`, `useState(0)`, `useState(0)`, `useState(true)`, no track. */
    constructor ()
      ensures State() == Live(None, 0, 0, true) && current == Null
    {
      prevKey := None;
      progress := 0;
      duration := 0;
      playing := true;
      current := Null;
    }

    /** A poll brought `current` and `player`: the reconciliation effect runs. */
    method Poll(track: Value, player: Value)
      modifies this
      ensures Live(prevKey, progress, duration, playing)
        == Reconciled(old(Live(prevKey, progress, duration, playing)), track, player)
      ensures current == track
    {
      current := track;
      if !Truthy(track) {
        prevKey := None;
        progress := 0;
        duration := 0;
        playing := false;
        return;
      }
      var apiProg := PickMs(player, "progressMs", "progress_ms");
      var apiDur := PickMs(player, "durationMs", "duration_ms");
      var apiPlaying := ReportedPlaying(track, player);
      if apiPlaying.Some? {
        playing := apiPlaying.value;
      }
      var key := TrackKey(track);
      if prevKey != key {
        prevKey := key;
        duration := apiDur;
        progress := apiProg;
        return;
      }
      duration := apiDur;
      if Abs(progress - apiProg) > MaxDrift {
        progress := apiProg;
      }
    }

    /** One second passed: the interval, when it is running, advances the progress. */
    method Tick()
      modifies this
      ensures State() == if Ticking(current, old(State())) then Ticked(old(State())) else old(State())
      ensures current == old(current)
    {
      if !Truthy(current) || duration == 0 || !playing {
        return;
      }
      progress := Clamp(progress + 1000, 0, duration);
    }
  }

  // ---- the roulette overlay ----

  /** What a change of `roulette.lastSpinAt` does: the new remembered stamp and the pool to spin, if any. */
  datatype Trigger = Trigger(seen: int, pool: Option<seq<string>>)

  /**
   * The overlay effect: no stamp (or 0) and stamps not newer than the remembered one do
   * nothing; a newer stamp is remembered, and the pool (`lastParticipants` when
   * non-empty, else `participants`) is spun unless it is empty.
   */
  function OnSpin(seen: int, lastSpinAt: Option<int>, participants: seq<string>, lastParticipants: seq<string>): Trigger {
    if lastSpinAt.None? || lastSpinAt.value == 0 || lastSpinAt.value <= seen then Trigger(seen, None)
    else
      var pool := if |lastParticipants| > 0 then lastParticipants else participants;
      Trigger(lastSpinAt.value, if pool == [] then None else Some(pool))
  }

  /**
   * A spin starts only for a stamp newer than the remembered one, and only with a
   * non-empty pool; a newer stamp is remembered even when there is nobody to spin.
   */
  lemma OnSpinSpec(seen: int, lastSpinAt: Option<int>, participants: seq<string>, lastParticipants: seq<string>)
    ensures var t := OnSpin(seen, lastSpinAt, participants, lastParticipants);
      && (t.pool.Some? ==> lastSpinAt.Some? && lastSpinAt.value > seen && t.pool.value != [])
      && (lastSpinAt.Some? && lastSpinAt.value != 0 && lastSpinAt.value > seen ==> t.seen == lastSpinAt.value)
      && (t.seen == seen || t.seen > seen)
      && (t.pool.Some? ==> t.pool.value == if lastParticipants != [] then lastParticipants else participants)
  {
  }

  /** The same stamp seen twice starts at most one spin: the first pass remembers it. */
  lemma OnSpinOnce(seen: int, lastSpinAt: Option<int>, participants: seq<string>, lastParticipants: seq<string>)
    ensures var t := OnSpin(seen, lastSpinAt, participants, lastParticipants);
      OnSpin(t.seen, lastSpinAt, participants, lastParticipants).pool.None?
  {
  }

  /** `(idx + 1) % names.length`: one step of the slot, back to the first name after the last. */
  function NextIndex(idx: int, n: int): (r: int)
    requires n > 0 && 0 <= idx < n
    ensures 0 <= r < n
    ensures r == idx + 1 || (idx == n - 1 && r == 0)
  {
    if idx + 1 == n then 0 else idx + 1
  }

  /** `x % n` on JavaScript numbers, which keeps the sign of `x`. */
  function JsRem(x: int, n: int): (r: int)
    requires n > 0
    ensures x >= 0 ==> r == x % n
    ensures x < 0 ==> r == -((-x) % n)
  {
    if x >= 0 then x % n else -((-x) % n)
  }

  /** The index the slot shows in row `k` (-3 to 3), as written: `(slotIndex + k + n) % n`. */
  function RowIndexAsWritten(slotIndex: int, k: int, n: int): int
    requires n > 0
  {
    JsRem(slotIndex + k + n, n)
  }

  /** With two names and index 0, the top row asks for index -1, which is off the list. */
  lemma RowIndexAsWrittenOffList()
    ensures RowIndexAsWritten(0, -3, 2) == -1
  {
  }

  /** The index row `k` is meant to show: `k` places from the centre, wrapping around the list. */
  function RowIndex(slotIndex: int, k: int, n: int): (i: int)
    requires n > 0
    ensures 0 <= i < n
  {
    (slotIndex + k) % n
  }

  /** Dafny's `x % n` (the remainder, never negative) taken one step further. */
  lemma ModStep(x: int, n: int)
    requires n > 0
    ensures (x + 1) % n == NextIndex(x % n, n)
  {
    var q, r := x / n, x % n;
    if r + 1 < n {
      DivModUnique(x + 1, n, q, r + 1);
    } else {
      assert x + 1 == (q + 1) * n + 0;
      DivModUnique(x + 1, n, q + 1, 0);
    }
  }

  /** The row below row `k` shows the name one step further along the slot. */
  lemma RowIndexNext(slotIndex: int, k: int, n: int)
    requires n > 0
    ensures RowIndex(slotIndex, k + 1, n) == NextIndex(RowIndex(slotIndex, k, n), n)
  {
    ModStep(slotIndex + k, n);
  }

  /** From three names on, the code as written shows the intended rows. */
  lemma RowIndexAgrees(slotIndex: int, k: int, n: int)
    requires n >= 3 && 0 <= slotIndex < n && -3 <= k <= 3
    ensures RowIndexAsWritten(slotIndex, k, n) == RowIndex(slotIndex, k, n)
    ensures 0 <= RowIndexAsWritten(slotIndex, k, n) < n
  {
    var x := slotIndex + k;
    DivModUnique(x + n, n, x / n + 1, x % n);
  }

  /** The seven rows of the slot, centre row in the middle. */
  function Rows(names: seq<string>, slotIndex: int): (rows: seq<string>)
    requires names != []
    ensures |rows| == 7
    ensures 0 <= slotIndex < |names| ==> rows[3] == names[slotIndex]
  {
    RowIndexCentre(slotIndex, |names|);
    seq(7, j requires 0 <= j < 7 => names[RowIndex(slotIndex, j - 3, |names|)])
  }

  /** The centre row shows the current index. */
  lemma RowIndexCentre(slotIndex: int, n: int)
    requires n > 0
    ensures 0 <= slotIndex < n ==> RowIndex(slotIndex, 0, n) == slotIndex
  {
    if 0 <= slotIndex < n {
      DivModUnique(slotIndex, n, 0, slotIndex);
    }
  }

  /** The slot's index after `ticks` steps from `start`. */
  function SpinIndex(start: int, ticks: nat, n: int): (i: int)
    requires n > 0 && 0 <= start < n
    ensures 0 <= i < n
  {
    if ticks == 0 then start else NextIndex(SpinIndex(start, ticks - 1, n), n)
  }

  /** After `ticks` steps the slot is `ticks` places past `start`, wrapping around. */
  lemma {:induction false} SpinIndexWraps(start: int, ticks: nat, n: int)
    requires n > 0 && 0 <= start < n
    ensures SpinIndex(start, ticks, n) == (start + ticks) % n
  {
    if ticks == 0 {
      DivModUnique(start, n, 0, start);
    } else {
      var x := start + ticks - 1;
      SpinIndexWraps(start, ticks - 1, n);
      ModStep(x, n);
      assert x + 1 == start + ticks;
    }
  }

  /** The overlay state: the remembered stamp (`localStorage`) and the slot. */
  class Overlay {
    var seen: int
    var open: bool
    var slotNames: seq<string>
    var slotIndex: int
    var running: bool
    var finalName: Option<string>

    constructor (stored: int)
      ensures seen == stored && !open && slotNames == [] && slotIndex == 0 && !running && finalName.None?
      ensures Valid()
    {
      seen := stored;
      open := false;
      slotNames := [];
      slotIndex := 0;
      running := false;
      finalName := None;
    }

    /** The slot shows one of its names whenever it has any. */
    predicate Valid()
      reads this
    {
      slotNames != [] ==> 0 <= slotIndex < |slotNames|
    }

    /** The effect on a new `roulette.lastSpinAt`: returns the pool to spin, if any. */
    method Trigger(lastSpinAt: Option<int>, participants: seq<string>, lastParticipants: seq<string>)
      returns (pool: Option<seq<string>>)
      requires Valid()
      modifies this
      ensures Valid()
      ensures var t := OnSpin(old(seen), lastSpinAt, participants, lastParticipants);
        seen == t.seen && pool == t.pool
      ensures running == old(running)
      ensures pool.Some? ==> open && slotNames == pool.value && slotIndex == 0 && finalName.None?
      ensures pool.None? ==>
        open == old(open) && slotNames == old(slotNames) && slotIndex == old(slotIndex)
        && finalName == old(finalName)
    {
      if lastSpinAt.None? || lastSpinAt.value == 0 {
        return None;
      }
      var ts := lastSpinAt.value;
      if ts <= seen {
        return None;
      }
      seen := ts;
      var names := if |lastParticipants| > 0 then lastParticipants else participants;
      if |names| == 0 {
        return None;
      }
      slotNames := names;
      slotIndex := 0;
      finalName := None;
      open := true;
      pool := Some(names);
    }

    /**
     * `startSlotSpin(names)` run to its last frame: from the random `start`, the slot
     * moves one name per tick for `ticks` ticks, then stops on the name it shows.
     * An empty list starts nothing. The one caller, the overlay trigger, passes the pool
     * it has just put in the slot, so the slot index stays a position in the slot's names.
     */
    method StartSlotSpin(names: seq<string>, start: int, ticks: nat)
      requires Valid()
      requires names != [] ==> names == slotNames && 0 <= start < |names|
      modifies this
      ensures Valid()
      ensures names == [] ==> unchanged(this)
      ensures names != [] ==>
        && slotIndex == SpinIndex(start, ticks, |names|)
        && finalName == Some(names[slotIndex])
        && !running
        && seen == old(seen) && open == old(open) && slotNames == old(slotNames)
    {
      if |names| == 0 {
        return;
      }
      finalName := None;
      running := true;
      var idx := start;
      slotIndex := idx;
      var i := 0;
      while i < ticks
        invariant 0 <= i <= ticks
        invariant 0 <= idx < |names| && idx == SpinIndex(start, i, |names|)
        invariant slotIndex == idx
        invariant seen == old(seen) && open == old(open) && slotNames == old(slotNames)
      {
        idx := NextIndex(idx, |names|);
        slotIndex := idx;
        i := i + 1;
      }
      running := false;
      finalName := Some(names[idx]);
    }
  }

  /** The name a spin stops on is `ticks` places past the start, and it is the one in the slot's centre row. */
  lemma FinalNameIsCentre(names: seq<string>, start: int, ticks: nat)
    requires names != [] && 0 <= start < |names|
    ensures SpinIndex(start, ticks, |names|) == (start + ticks) % |names|
    ensures Rows(names, SpinIndex(start, ticks, |names|))[3] == names[(start + ticks) % |names|]
  {
    SpinIndexWraps(start, ticks, |names|);
  }
}
