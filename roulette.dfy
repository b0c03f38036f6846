/**
 * The roulette of the party (lib/roulette.ts): a list of participants that guests join,
 * a spin that snapshots the list for the wheel and resets it for the next round, and the
 * list of people present read from a text file, one name per line.
 */
module Roulette {
  import opened Wrappers
  import opened JsText

  /** The record kept in `storage/roulette.json`. */
  datatype RouletteData = RouletteData(
    participants: seq<string>,
    lastSpinAt: Option<int>,
    /** the participants of the last spin, shown on the wheel after the reset */
    lastParticipants: seq<string>)

  /**
   * `DEFAULT`, its `participants` array holding `shared`. The module keeps one such
   * array for the life of the server process, and a record read without a
   * `participants` property of its own holds that very array (see `SharesDefault`).
   */
  function DefaultWith(shared: seq<string>): RouletteData {
    RouletteData(shared, None, [])
  }

  /** `DEFAULT` as the module declares it: nobody, never spun. */
  const Default := DefaultWith([])

  /**
   * A JSON object found in the file: each of the three properties present (with
   * its type) or absent. Other properties are carried along by the spread and are
   * never read, so they are not modelled.
   */
  datatype StoredRoulette = StoredRoulette(
    participants: Option<seq<string>>,
    lastSpinAt: Option<Option<int>>,
    lastParticipants: Option<seq<string>>)

  /**
   * The content of `storage/roulette.json`: missing or not JSON (both make
   * `readRoulette` fail over to its recovery branch), JSON that is not an object
   * (a number, a string, `null`: spreading it adds nothing), or a JSON object.
   */
  datatype RouletteFile = Unreadable | NotObject | Stored(json: StoredRoulette)

  /** `{ ...DEFAULT, ...data }`: the stored properties over the defaults. */
  function Merge(j: StoredRoulette, shared: seq<string>): RouletteData {
    var d := DefaultWith(shared);
    RouletteData(
      j.participants.GetOr(d.participants),
      j.lastSpinAt.GetOr(d.lastSpinAt),
      j.lastParticipants.GetOr(d.lastParticipants))
  }

  /** `JSON.stringify(data)`: every property written. */
  function Encode(d: RouletteData): StoredRoulette {
    StoredRoulette(Some(d.participants), Some(d.lastSpinAt), Some(d.lastParticipants))
  }

  /**
   * Whether the record `readRoulette` returns for `f` holds `DEFAULT.participants`
   * itself rather than an array of its own: both spreads copy only the top level, so
   * the recovery branch and a file without `participants` hand out the shared array.
   */
  predicate SharesDefault(f: RouletteFile) {
    !f.Stored? || f.json.participants.None?
  }

  /** What `readRoulette` returns for a given file. */
  function ReadValue(f: RouletteFile, shared: seq<string>): RouletteData {
    match f
    case Unreadable => DefaultWith(shared)
    case NotObject => DefaultWith(shared)
    case Stored(j) => Merge(j, shared)
  }

  /** The file after `readRoulette`: an unreadable one is rewritten with `DEFAULT` as it stands. */
  function Recovered(f: RouletteFile, shared: seq<string>): RouletteFile {
    if f.Unreadable? then Stored(Encode(DefaultWith(shared))) else f
  }

  /** The number of files `readRoulette` writes: one in the recovery branch. */
  function RecoveryWrites(f: RouletteFile): nat {
    if f.Unreadable? then 1 else 0
  }

  /**
   * A property missing from the file takes the value `DEFAULT` holds at that moment;
   * a present one is kept; a record without participants holds the shared array.
   */
  lemma MergeFillsDefaults(j: StoredRoulette, shared: seq<string>)
    ensures Merge(j, shared).participants == (if j.participants.Some? then j.participants.value else shared)
    ensures Merge(j, shared).lastSpinAt == (if j.lastSpinAt.Some? then j.lastSpinAt.value else None)
    ensures Merge(j, shared).lastParticipants == (if j.lastParticipants.Some? then j.lastParticipants.value else [])
    ensures j == StoredRoulette(None, None, None) ==> Merge(j, shared) == DefaultWith(shared)
    ensures SharesDefault(Stored(j)) ==> ReadValue(Stored(j), shared).participants == shared
  {
  }

  /** A record written by `writeRoulette` reads back unchanged. */
  lemma ReadAfterWrite(d: RouletteData, shared: seq<string>)
    ensures ReadValue(Stored(Encode(d)), shared) == d
    ensures !SharesDefault(Stored(Encode(d)))
  {
  }

  /** Reading twice gives the same record, and the second read writes nothing. */
  lemma ReadStable(f: RouletteFile, shared: seq<string>)
    ensures ReadValue(Recovered(f, shared), shared) == ReadValue(f, shared)
    ensures RecoveryWrites(Recovered(f, shared)) == 0
  {
  }

  /** No name occurs twice. */
  predicate NoDup(s: seq<string>) {
    forall i, j :: 0 <= i < j < |s| ==> s[i] != s[j]
  }

  /** Every name is non-empty and has no surrounding white space. */
  predicate AllNamesClean(s: seq<string>) {
    forall i :: 0 <= i < |s| ==> s[i] != [] && IsTrimmed(s[i])
  }

  /** `addParticipant`'s effect: the trimmed name is appended unless blank or already present. */
  function Join(d: RouletteData, name: string): RouletteData {
    var n := Trim(name);
    if n == [] || n in d.participants then d
    else d.(participants := d.participants + [n])
  }

  /** `spinRoulette`'s effect: snapshot the participants, stamp the spin, reset the list. */
  function Spun(d: RouletteData, now: int): RouletteData {
    RouletteData([], Some(now), d.participants)
  }

  /** A blank name changes nothing, and neither does a name already in the list. */
  lemma JoinNoChange(d: RouletteData, name: string)
    ensures Join(d, name) == d <==> (Trim(name) == [] || Trim(name) in d.participants)
  {
    if Trim(name) != [] && Trim(name) !in d.participants {
      assert Join(d, name).participants[|d.participants|] == Trim(name);
    }
  }

  /** A new name goes at the end; the order of earlier arrivals and the other fields stay. */
  lemma JoinAppends(d: RouletteData, name: string)
    requires Trim(name) != [] && Trim(name) !in d.participants
    ensures Join(d, name).participants == d.participants + [Trim(name)]
    ensures Join(d, name).lastSpinAt == d.lastSpinAt
    ensures Join(d, name).lastParticipants == d.lastParticipants
  {
  }

  /** After a non-blank join the trimmed name is in the list, exactly once if it was absent. */
  lemma JoinMember(d: RouletteData, name: string)
    requires Trim(name) != []
    ensures Trim(name) in Join(d, name).participants
    ensures multiset(Join(d, name).participants)[Trim(name)] == (if Trim(name) in d.participants then multiset(d.participants)[Trim(name)] else 1)
  {
  }

  /** Joining twice with the same name is the same as joining once. */
  lemma JoinIdempotent(d: RouletteData, name: string)
    ensures Join(Join(d, name), name) == Join(d, name)
  {
  }

  /** Joining keeps the list free of duplicates and of untrimmed or empty names. */
  lemma {:induction false} JoinKeepsClean(d: RouletteData, name: string)
    requires NoDup(d.participants) && AllNamesClean(d.participants)
    ensures NoDup(Join(d, name).participants)
    ensures AllNamesClean(Join(d, name).participants)
  {
    TrimIsTrimmed(name);
  }

  /** The file after `addParticipant`: rewritten only when the list grew. */
  function JoinFile(f: RouletteFile, shared: seq<string>, name: string): RouletteFile {
    var d := ReadValue(f, shared);
    if Join(d, name) == d then Recovered(f, shared) else Stored(Encode(Join(d, name)))
  }

  /** The number of writes `addParticipant` makes: the recovery write and the update write. */
  function JoinWrites(f: RouletteFile, shared: seq<string>, name: string): nat {
    var d := ReadValue(f, shared);
    RecoveryWrites(f) + (if Join(d, name) == d then 0 else 1)
  }

  /**
   * `DEFAULT.participants` after `addParticipant`: the `push` of roulette.ts:49 lands in
   * the shared array whenever the record read holds it.
   */
  function SharedAfterJoin(f: RouletteFile, shared: seq<string>, name: string): seq<string> {
    if SharesDefault(f) then Join(ReadValue(f, shared), name).participants else shared
  }

  /** The next read sees the joined list; a readable file is left alone for a blank or known name. */
  lemma JoinPersists(f: RouletteFile, shared: seq<string>, name: string)
    ensures ReadValue(JoinFile(f, shared, name), SharedAfterJoin(f, shared, name)) == Join(ReadValue(f, shared), name)
    ensures !f.Unreadable? && (Trim(name) == [] || Trim(name) in ReadValue(f, shared).participants) ==>
      JoinFile(f, shared, name) == f && JoinWrites(f, shared, name) == 0
  {
    JoinNoChange(ReadValue(f, shared), name);
  }

  /**
   * A new name joined into a record that holds the shared array is appended to
   * `DEFAULT.participants` too; in every other case `DEFAULT` is left as it was.
   */
  lemma JoinGrowsDefault(f: RouletteFile, shared: seq<string>, name: string)
    ensures SharedAfterJoin(f, shared, name) ==
      (if SharesDefault(f) && Trim(name) != [] && Trim(name) !in shared then shared + [Trim(name)] else shared)
  {
    if SharesDefault(f) {
      assert ReadValue(f, shared).participants == shared;
    }
  }

  /**
   * The shared default as it plays out: with no roulette file, "Alice" joins, which
   * also fills `DEFAULT.participants`; a spin leaves `DEFAULT` alone; when the file is
   * lost or damaged again, the recovery writes and returns Alice's name, and a spin of
   * that record puts her on the wheel although she never joined that round.
   */
  lemma {:induction false} DefaultLeaksJoin(now: int)
    ensures SharedAfterJoin(Unreadable, [], "Alice") == ["Alice"]
    ensures ReadValue(Unreadable, ["Alice"]) == RouletteData(["Alice"], None, [])
    ensures Recovered(Unreadable, ["Alice"]) == Stored(StoredRoulette(Some(["Alice"]), Some(None), Some([])))
    ensures Spun(ReadValue(Unreadable, ["Alice"]), now).lastParticipants == ["Alice"]
  {
    assert IsTrimmed("Alice") by {
      assert !IsSpace('A') && !IsSpace('e');
    }
    TrimIdentity("Alice");
    JoinGrowsDefault(Unreadable, [], "Alice");
  }

  /**
   * `readRoulette` as intended: each read hands out arrays of its own (a deep copy of
   * `DEFAULT`), so `DEFAULT.participants` stays the empty array it was declared as.
   */
  function ReadFresh(f: RouletteFile): RouletteData {
    ReadValue(f, Default.participants)
  }

  /**
   * With fresh copies, joins never reach the default: whatever name joined first, a lost
   * or damaged file recovers to the declared `DEFAULT`, and a spin of that record puts
   * nobody on the wheel. The join itself still gives the same record and file as the
   * code as written.
   */
  lemma {:induction false} FreshRecoveryIsDefault(f: RouletteFile, name: string, now: int)
    ensures ReadFresh(Unreadable) == Default
    ensures Recovered(Unreadable, Default.participants) == Stored(Encode(Default))
    ensures Spun(ReadValue(Unreadable, Default.participants), now).lastParticipants == []
    ensures Join(ReadFresh(f), name) == Join(ReadValue(f, []), name)
    ensures JoinFile(f, Default.participants, name) == JoinFile(f, [], name)
  {
  }

  /** A spin snapshots the list into `lastParticipants`, stamps the time and empties the list. */
  lemma SpinSnapshot(d: RouletteData, now: int)
    ensures Spun(d, now).lastParticipants == d.participants
    ensures Spun(d, now).lastSpinAt == Some(now)
    ensures Spun(d, now).participants == []
  {
  }

  /** A second spin with nobody joined in between shows an empty wheel. */
  lemma SpinTwice(d: RouletteData, t1: int, t2: int)
    ensures Spun(Spun(d, t1), t2).lastParticipants == []
    ensures Spun(Spun(d, t1), t2).lastSpinAt == Some(t2)
  {
  }

  /** The first join after a spin starts the new round with that name alone. */
  lemma JoinAfterSpin(d: RouletteData, now: int, name: string)
    requires Trim(name) != []
    ensures Join(Spun(d, now), name).participants == [Trim(name)]
    ensures Join(Spun(d, now), name).lastParticipants == d.participants
  {
  }

  /** No entry holds a line break. */
  predicate NoLineBreaks(xs: seq<string>) {
    forall k :: 0 <= k < |xs| ==> '\n' !in xs[k]
  }

  lemma CleanAppend(a: seq<string>, b: seq<string>)
    requires AllNamesClean(a) && AllNamesClean(b)
    ensures AllNamesClean(a + b)
    ensures NoLineBreaks(a) && NoLineBreaks(b) ==> NoLineBreaks(a + b)
  {
  }

  /** `.map((l) => l.trim()).filter(Boolean)`: the non-blank lines, trimmed, in order. */
  function CleanLines(lines: seq<string>): (names: seq<string>)
    ensures |names| <= |lines|
    ensures AllNamesClean(names)
    ensures NoLineBreaks(lines) ==> NoLineBreaks(names)
    decreases |lines|
  {
    if lines == [] then []
    else
      var t := Trim(lines[0]);
      var head := if t == [] then [] else [t];
      var rest := CleanLines(lines[1..]);
      TrimIsTrimmed(lines[0]);
      TrimKeepsAbsent(lines[0], '\n');
      assert NoLineBreaks(lines) ==> NoLineBreaks(lines[1..]) && NoLineBreaks(head);
      CleanAppend(head, rest);
      head + rest
  }

  /** `readPresents`: the names in `presents.txt`, none when the file cannot be read. */
  function Presents(raw: Option<string>): (names: seq<string>)
    ensures AllNamesClean(names)
    ensures NoLineBreaks(names)
    ensures raw.None? ==> names == []
  {
    match raw
    case None => []
    case Some(text) => CleanLines(SplitLines(text))
  }

  /** Lines that are already clean come through unchanged. */
  lemma {:induction false} CleanLinesOfClean(names: seq<string>)
    requires AllNamesClean(names)
    ensures CleanLines(names) == names
    decreases |names|
  {
    if names != [] {
      var x, rest := names[0], names[1..];
      assert x != [] && IsTrimmed(x);
      TrimIdentity(x);
      assert AllNamesClean(rest) by {
        forall k | 0 <= k < |rest| ensures rest[k] != [] && IsTrimmed(rest[k]) {
          assert rest[k] == names[k + 1];
        }
      }
      CleanLinesOfClean(rest);
      HeadTail(names);
    }
  }

  /** A file written one clean name per line reads back as exactly those names. */
  lemma {:induction false} PresentsRoundTrip(names: seq<string>)
    requires names != []
    requires AllNamesClean(names)
    requires NoLineBreaks(names)
    ensures Presents(Some(JoinWith(names, "\n"))) == names
  {
    forall k | 0 <= k < |names|
      ensures names[k] == [] || names[k][|names[k]| - 1] != '\r'
    {
      assert !IsSpace(names[k][|names[k]| - 1]);
    }
    SplitLinesJoinRoundTrip(names);
    CleanLinesOfClean(names);
  }

  /**
   * The shared `roulette.json`, with a count of the writes made to it, and the
   * contents of the module's `DEFAULT.participants` array, which lives as long as
   * the server process and which `addParticipant` can grow (see `SharesDefault`).
   */
  class RouletteStore {
    var file: RouletteFile
    var writes: nat
    var shared: seq<string>

    constructor (file: RouletteFile)
      ensures this.file == file && writes == 0 && shared == []
    {
      this.file := file;
      writes := 0;
      shared := [];
    }

    /** `readRoulette`: the merged record, the file rewritten with `DEFAULT` if unreadable. */
    method Read() returns (r: RouletteData)
      modifies this
      ensures r == ReadValue(old(file), shared)
      ensures file == Recovered(old(file), shared)
      ensures writes == old(writes) + RecoveryWrites(old(file))
      ensures shared == old(shared)
    {
      match file
      case Unreadable =>
        file := Stored(Encode(DefaultWith(shared)));
        writes := writes + 1;
        r := DefaultWith(shared);
      case NotObject =>
        r := DefaultWith(shared);
      case Stored(j) =>
        r := Merge(j, shared);
    }

    /** `writeRoulette` */
    method Write(d: RouletteData)
      modifies this
      ensures file == Stored(Encode(d))
      ensures writes == old(writes) + 1
      ensures shared == old(shared)
    {
      file := Stored(Encode(d));
      writes := writes + 1;
    }

    /**
     * `addParticipant`: the file is written only when the name is actually added, and
     * the `push` also lands in `DEFAULT.participants` when the record read holds it.
     */
    method AddParticipant(name: string) returns (r: RouletteData)
      modifies this
      ensures r == Join(ReadValue(old(file), old(shared)), name)
      ensures file == JoinFile(old(file), old(shared), name)
      ensures writes == old(writes) + JoinWrites(old(file), old(shared), name)
      ensures shared == SharedAfterJoin(old(file), old(shared), name)
    {
      var sharing := SharesDefault(file);
      r := Read();
      var n := Trim(name);
      if n == [] {
        return;
      }
      if n !in r.participants {
        JoinNoChange(r, name);
        r := r.(participants := r.participants + [n]);
        if sharing {
          shared := r.participants;
        }
        Write(r);
      }
    }

    /** `spinRoulette`: the spun record is always written; the new arrays leave `DEFAULT` alone. */
    method Spin(now: int) returns (r: RouletteData)
      modifies this
      ensures r == Spun(ReadValue(old(file), old(shared)), now)
      ensures file == Stored(Encode(r))
      ensures writes == old(writes) + RecoveryWrites(old(file)) + 1
      ensures shared == old(shared)
    {
      r := Read();
      r := r.(lastParticipants := r.participants);
      r := r.(lastSpinAt := Some(now));
      r := r.(participants := []);
      Write(r);
    }
  }
}
