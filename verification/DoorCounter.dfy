/** The long-run door-open counters of the 1k lift. The lift's own counters start
    over when it restarts; the gateway adds what was counted before, and keeps the
    sums in two files so that its own restarts lose nothing. */
module DoorCounter {
  import opened Text
  import opened ThousandFiles

  const DOORS: nat := 6

  // ---- one door ----

  datatype Door = Door(total: nat, previous: nat)

  /** One reading: a count below the last one means the lift started over. */
  function Count(d: Door, r: nat): Door {
    var previous := if r + d.previous < d.total then d.total else d.previous;
    Door(r + previous, previous)
  }

  function CountAll(d: Door, rs: seq<nat>): Door {
    if rs == [] then d else Count(CountAll(d, rs[..|rs| - 1]), rs[|rs| - 1])
  }

  /** Independent meaning: everything counted before each start-over. */
  function Banked(rs: seq<nat>): nat {
    if |rs| < 2 then 0
    else
      var n := |rs|;
      Banked(rs[..n - 1]) + (if rs[n - 1] < rs[n - 2] then rs[n - 2] else 0)
  }

  /** The total is the last reading plus every reading followed by a smaller one. */
  lemma {:induction false} CounterMeaning(rs: seq<nat>)
    requires rs != []
    ensures CountAll(Door(0, 0), rs) == Door(rs[|rs| - 1] + Banked(rs), Banked(rs))
  {
    if |rs| == 1 {
      assert CountAll(Door(0, 0), rs[..0]) == Door(0, 0);
    } else {
      CounterMeaning(rs[..|rs| - 1]);
    }
  }

  /** The total never decreases, from any state and any reading. */
  lemma {:induction false} TotalNeverDecreases(d: Door, rs: seq<nat>)
    ensures CountAll(d, rs).total >= d.total
  {
    if rs != [] { TotalNeverDecreases(d, rs[..|rs| - 1]); }
  }

  // ---- six doors, the flag and the files ----

  type SavedFile = Option<seq<nat>>

  /** `reset` makes the next poll reload both counters from the files. */
  datatype System = System(total: seq<nat>, previous: seq<nat>, reset: bool, totalFile: SavedFile, previousFile: SavedFile)

  predicate Sized(s: System) {
    && |s.total| == DOORS && |s.previous| == DOORS
    && (s.totalFile.Some? ==> |s.totalFile.value| == DOORS)
    && (s.previousFile.Some? ==> |s.previousFile.value| == DOORS)
  }

  const ZEROS: seq<nat> := [0, 0, 0, 0, 0, 0]

  /** A gateway that has never run. */
  const FRESH := System(ZEROS, ZEROS, true, None, None)

  /** A missing or empty file reads as zeros. */
  function ReadSaved(f: SavedFile): seq<nat> {
    if f.Some? then f.value else ZEROS
  }

  function Load(s: System): System {
    if s.reset then s.(total := ReadSaved(s.totalFile), previous := ReadSaved(s.previousFile), reset := false) else s
  }

  function DoorSignal(i: nat): Signal { Signal(4 * i, 4) }

  function DoorAt(s: System, i: nat): Door
    requires i < |s.total| && i < |s.previous|
  {
    Door(s.total[i], s.previous[i])
  }

  /** Door `i` as the next poll will see it. */
  function Effective(s: System, i: nat): Door
    requires Sized(s) && i < DOORS
  {
    DoorAt(Load(s), i)
  }

  /** The files hold what the next poll will start from. */
  ghost predicate FilesHold(s: System)
    requires Sized(s)
  {
    ReadSaved(s.totalFile) == Load(s).total && ReadSaved(s.previousFile) == Load(s).previous
  }

  /** What writing a file comes to: done, not opened, or opened and left empty, which
      reads as zeros. */
  datatype Writing = Done | Unopened | Emptied

  function Written(f: SavedFile, counts: seq<nat>, w: Writing): SavedFile {
    match w case Done => Some(counts) case Unopened => f case Emptied => None
  }

  /** What happens between polls and in them: an answered poll that unpacks the first
      `|readings|` doors and, if these are all, writes the files; a poll the lift does
      not answer; a restart of the gateway. */
  datatype Event = Poll(readings: seq<nat>, total: Writing, previous: Writing) | NoReply | Restart

  predicate Possible(e: Event) {
    e.Poll? ==> |e.readings| <= DOORS
  }

  predicate Complete(e: Event) {
    e.Poll? ==> |e.readings| == DOORS && e.total == Done && e.previous == Done
  }

  /** Door `i` takes a reading; a start-over raises the flag. */
  function CountDoor(s: System, i: nat, r: nat): (t: System)
    requires Sized(s) && i < DOORS
    ensures Sized(t) && t.totalFile == s.totalFile && t.previousFile == s.previousFile
  {
    var d := Count(DoorAt(s, i), r);
    s.(total := s.total[i := d.total], previous := s.previous[i := d.previous],
       reset := s.reset || r + s.previous[i] < s.total[i])
  }

  /** The first `n` doors take their readings. */
  function Recounted(s: System, readings: seq<nat>, n: nat): (r: System)
    requires Sized(s) && n <= DOORS && n <= |readings|
    ensures Sized(r) && r.totalFile == s.totalFile && r.previousFile == s.previousFile
  {
    if n == 0 then s else CountDoor(Recounted(s, readings, n - 1), n - 1, readings[n - 1])
  }

  /** Totals are saved after every complete reply, the earlier sums only with the
      flag up. */
  function Saved(s: System, total: Writing, previous: Writing): System {
    s.(totalFile := Written(s.totalFile, s.total, total),
       previousFile := if s.reset then Written(s.previousFile, s.previous, previous) else s.previousFile)
  }

  function Next(s: System, e: Event): (s': System)
    requires Sized(s) && Possible(e)
    ensures Sized(s')
  {
    match e
    case Poll(readings, total, previous) =>
      var t := Recounted(Load(s), readings, |readings|);
      if |readings| == DOORS then Saved(t, total, previous) else t
    case NoReply => Load(s)
    case Restart => s.(total := ZEROS, previous := ZEROS, reset := true)
  }

  /** Doors do not disturb each other, and the earlier sums stay as they were
      unless the flag goes up. */
  lemma {:induction false} RecountedAt(s: System, readings: seq<nat>, n: nat, i: nat)
    requires Sized(s) && n <= DOORS && n <= |readings| && i < DOORS
    ensures DoorAt(Recounted(s, readings, n), i) == if i < n then Count(DoorAt(s, i), readings[i]) else DoorAt(s, i)
    ensures Recounted(s, readings, n).previous[i] == s.previous[i] || Recounted(s, readings, n).reset
  {
    if n > 0 {
      RecountedAt(s, readings, n - 1, i);
      RecountedAt(s, readings, n - 1, n - 1);
    }
  }

  /** Every step keeps files and counters in agreement, and only a poll counts. */
  lemma StepCounts(s: System, e: Event, i: nat)
    requires Sized(s) && FilesHold(s) && Complete(e) && i < DOORS
    ensures FilesHold(Next(s, e))
    ensures Effective(Next(s, e), i) == if e.Poll? then Count(Effective(s, i), e.readings[i]) else Effective(s, i)
  {
    if e.Poll? {
      var t := Load(s);
      var m := Recounted(t, e.readings, DOORS);
      RecountedAt(t, e.readings, DOORS, i);
      if !m.reset {
        forall j: nat | j < DOORS ensures m.previous[j] == t.previous[j] { RecountedAt(t, e.readings, DOORS, j); }
        assert m.previous == t.previous;
      }
    }
  }

  predicate AllPossible(es: seq<Event>) {
    forall k | 0 <= k < |es| :: Possible(es[k])
  }

  predicate AllComplete(es: seq<Event>) {
    forall k | 0 <= k < |es| :: Complete(es[k])
  }

  function RunEnd(s: System, es: seq<Event>): (s': System)
    requires Sized(s) && AllPossible(es)
    ensures Sized(s')
  {
    if es == [] then s else Next(RunEnd(s, es[..|es| - 1]), es[|es| - 1])
  }

  /** The readings of door `i` in the polls of a run. */
  function Readings(es: seq<Event>, i: nat): seq<nat>
    requires i < DOORS && AllPossible(es)
  {
    if es == [] then []
    else
      var front, last := es[..|es| - 1], es[|es| - 1];
      Readings(front, i) + (if last.Poll? && i < |last.readings| then [last.readings[i]] else [])
  }

  /** Restart-safe: over any run of polls, unanswered polls and gateway restarts,
      each door's counter is the fold of its readings, as if nothing but the polls
      had happened, and the files hold it. */
  lemma {:induction false} RestartSafe(s: System, es: seq<Event>, i: nat)
    requires Sized(s) && FilesHold(s) && AllComplete(es) && i < DOORS
    ensures FilesHold(RunEnd(s, es))
    ensures Effective(RunEnd(s, es), i) == CountAll(Effective(s, i), Readings(es, i))
    decreases |es|
  {
    if es != [] {
      var front, last := es[..|es| - 1], es[|es| - 1];
      RestartSafe(s, front, i);
      StepCounts(RunEnd(s, front), last, i);
      var rs := Readings(es, i);
      if last.Poll? {
        assert rs[..|rs| - 1] == Readings(front, i);
      } else {
        assert rs == Readings(front, i);
      }
    }
  }

  /** From a gateway that has never run: the count shown for a door is its last
      reading plus every reading that was followed by a smaller one, no matter
      how often the gateway restarted in between. */
  lemma LongRunCount(s: System, es: seq<Event>, i: nat)
    requires s == FRESH && AllComplete(es) && i < DOORS && Readings(es, i) != []
    ensures var rs := Readings(es, i);
      Effective(RunEnd(s, es), i) == Door(rs[|rs| - 1] + Banked(rs), Banked(rs))
  {
    RestartSafe(s, es, i);
    CounterMeaning(Readings(es, i));
  }

  // ---- the implementation ----

  ghost predicate Readable(response: seq<int>, n: nat) {
    forall i: nat | i < n :: ValidBytes(DoorSignal(i), response)
  }

  /** The first `n` readings of a reply: 32-bit little-endian counters. */
  function ReadingsOf(response: seq<int>, n: nat): (r: seq<nat>)
    requires Readable(response, n)
    ensures |r| == n && forall i | 0 <= i < n :: r[i] == Unpacked(DoorSignal(i), response)
  {
    if n == 0 then []
    else
      assert ValidBytes(DoorSignal(n - 1), response);
      LeBounds(response[4 * (n - 1)..4 * (n - 1) + 4]);
      ReadingsOf(response, n - 1) + [Unpacked(DoorSignal(n - 1), response)]
  }

  /** Door `i` counts in the four bytes from `4 * i`, lowest first. */
  lemma ReadingBytes(response: seq<int>, n: nat, i: nat)
    requires Readable(response, n) && i < n
    ensures 4 * i + 4 <= |response|
    ensures ReadingsOf(response, n)[i] == response[4 * i] + 256 * response[4 * i + 1]
      + 65536 * response[4 * i + 2] + 16777216 * response[4 * i + 3]
  {
    assert ValidBytes(DoorSignal(i), response);
    var b := response[4 * i..4 * i + 4];
    LeFour(b);
  }

  class DoorOpenCounter {
    var total: seq<nat>
    var previous: seq<nat>
    var reset: bool
    var shown: seq<Option<nat>>  // the database values of the six counters
    var totalFile: SavedFile
    var previousFile: SavedFile

    ghost function View(): System
      reads this
    {
      System(total, previous, reset, totalFile, previousFile)
    }

    ghost predicate Valid()
      reads this
    {
      Sized(View()) && |shown| == DOORS
    }

    /** A gateway start: counters at zero, flag up, files as they were left. */
    constructor (totalFile: SavedFile, previousFile: SavedFile)
      requires totalFile.Some? ==> |totalFile.value| == DOORS
      requires previousFile.Some? ==> |previousFile.value| == DOORS
      ensures Valid() && View() == System(ZEROS, ZEROS, true, totalFile, previousFile)
    {
      total, previous, reset := ZEROS, ZEROS, true;
      shown := [None, None, None, None, None, None];
      this.totalFile, this.previousFile := totalFile, previousFile;
    }

    /** The start of a poll: reload from the files if the flag is up. */
    method LoadSaved()
      requires Valid()
      modifies this
      ensures Valid() && View() == Load(old(View())) && shown == old(shown)
    {
      if reset {
        total, previous, reset := ReadSaved(totalFile), ReadSaved(previousFile), false;
      }
    }

    /** One door takes its reading and its shown value follows. */
    method CountOne(i: nat, value: nat) returns (news: bool)
      requires Valid() && i < DOORS
      modifies this
      ensures Valid() && View() == CountDoor(old(View()), i, value)
      ensures total == old(total)[i := total[i]]
      ensures shown == old(shown)[i := Some(total[i])] && (news <==> shown[i] != old(shown)[i])
    {
      if value + previous[i] < total[i] {
        previous, reset := previous[i := total[i]], true;
      }
      total := total[i := value + previous[i]];
      news := shown[i] != Some(total[i]);
      if news { shown := shown[i := Some(total[i])]; }
    }

    /** The next door of a reply that holds it. */
    method CountNext(i: nat, response: seq<int>, ghost s: System) returns (news: bool)
      requires Valid() && i < DOORS && Sized(s) && Readable(response, i) && ValidBytes(DoorSignal(i), response)
      requires View() == Recounted(s, ReadingsOf(response, i), i)
      modifies this
      ensures Valid() && Readable(response, i + 1) && View() == Recounted(s, ReadingsOf(response, i + 1), i + 1)
      ensures total == old(total)[i := total[i]]
      ensures shown == old(shown)[i := Some(total[i])] && (news <==> shown[i] != old(shown)[i])
    {
      var value := UnpackUint(DoorSignal(i), response);
      RecountNext(s, response, i);
      news := CountOne(i, value);
    }

    /** Recount door by door; stops at the first door the reply does not hold.
        `changed` marks the doors whose shown value changed. */
    method Recalculate(response: seq<int>) returns (doors: nat, changed: seq<bool>)
      requires Valid()
      modifies this
      ensures Valid() && doors <= DOORS && Readable(response, doors)
      ensures doors < DOORS ==> !ValidBytes(DoorSignal(doors), response) && changed == []
      ensures View() == Recounted(old(View()), ReadingsOf(response, doors), doors)
      ensures forall i | doors <= i < DOORS :: shown[i] == old(shown)[i]
      ensures doors == DOORS ==> |changed| == DOORS && forall i | 0 <= i < DOORS :: changed[i] <==> shown[i] != old(shown)[i]
      ensures forall i | 0 <= i < doors :: shown[i] == Some(total[i])
    {
      doors, changed := 0, [];
      ghost var s, was := View(), shown;
      while doors < DOORS
        invariant Valid() && doors <= DOORS && Readable(response, doors)
        invariant View() == Recounted(s, ReadingsOf(response, doors), doors)
        invariant forall i | 0 <= i < doors :: shown[i] == Some(total[i])
        invariant forall i | doors <= i < DOORS :: shown[i] == was[i]
        invariant |changed| == doors && forall i | 0 <= i < doors :: changed[i] <==> shown[i] != was[i]
      {
        if !ValidBytes(DoorSignal(doors), response) {
          return doors, [];
        }
        var news := CountNext(doors, response, s);
        changed := changed + [news];
        doors := doors + 1;
      }
    }

    /** One answered poll: recount and, if all six doors were there, save. */
    method Update(response: seq<int>, totalWriting: Writing, previousWriting: Writing)
      returns (changed: seq<bool>, doors: nat)
      requires Valid()
      modifies this
      ensures Valid() && doors <= DOORS && Readable(response, doors)
      ensures doors < DOORS ==> !ValidBytes(DoorSignal(doors), response) && changed == []
      ensures var t := Recounted(old(View()), ReadingsOf(response, doors), doors);
        View() == if doors == DOORS then Saved(t, totalWriting, previousWriting) else t
    {
      changed := [];
      doors, changed := Recalculate(response);
      if doors < DOORS { return; }
      totalFile := Written(totalFile, total, totalWriting);
      if reset { previousFile := Written(previousFile, previous, previousWriting); }
    }

    /** One whole poll; `reply` is None if the lift does not answer. It is a step of
        the model: a poll of the doors before the first unreadable one. */
    method PollOnce(reply: Option<seq<int>>, totalWriting: Writing, previousWriting: Writing)
      returns (changed: seq<bool>, ghost e: Event)
      requires Valid()
      modifies this
      ensures Valid() && Possible(e) && View() == Next(old(View()), e)
      ensures reply.None? ==> e == NoReply && changed == []
      ensures reply.Some? ==> exists n: nat ::
        && n <= DOORS && Readable(reply.value, n) && (n < DOORS ==> !ValidBytes(DoorSignal(n), reply.value))
        && e == Poll(ReadingsOf(reply.value, n), totalWriting, previousWriting)
    {
      LoadSaved();
      changed, e := [], NoReply;
      if reply.None? { return; }
      var doors;
      changed, doors := Update(reply.value, totalWriting, previousWriting);
      e := Poll(ReadingsOf(reply.value, doors), totalWriting, previousWriting);
    }
  }

  lemma RecountNext(s: System, response: seq<int>, n: nat)
    requires Sized(s) && n < DOORS && Readable(response, n) && ValidBytes(DoorSignal(n), response)
    ensures Readable(response, n + 1)
    ensures Recounted(s, ReadingsOf(response, n + 1), n + 1)
         == CountDoor(Recounted(s, ReadingsOf(response, n), n), n, ReadingsOf(response, n + 1)[n])
  {
    var before, after := ReadingsOf(response, n), ReadingsOf(response, n + 1);
    assert after == before + [after[n]];
    RecountPrefix(s, before, [after[n]], n);
  }

  /** Later readings do not matter to the doors already counted. */
  lemma {:induction false} RecountPrefix(s: System, a: seq<nat>, b: seq<nat>, n: nat)
    requires Sized(s) && n <= DOORS && n <= |a|
    ensures Recounted(s, a + b, n) == Recounted(s, a, n)
  {
    if n > 0 { RecountPrefix(s, a, b, n - 1); }
  }

  // ---- where the conditions bite ----

  ghost predicate StartsOverAt(s: System, readings: seq<nat>, i: nat)
    requires Sized(s) && i < DOORS && i < |readings|
  {
    readings[i] + s.previous[i] < s.total[i]
  }

  /** The flag goes up exactly when one of the doors starts over. */
  lemma {:induction false} FlagMeans(s: System, readings: seq<nat>, n: nat)
    requires Sized(s) && !s.reset && n <= DOORS && n <= |readings|
    ensures Recounted(s, readings, n).reset <==> exists i: nat :: i < n && StartsOverAt(s, readings, i)
  {
    if n > 0 {
      FlagMeans(s, readings, n - 1);
      RecountedAt(s, readings, n - 1, n - 1);
      assert Recounted(s, readings, n).reset <==> Recounted(s, readings, n - 1).reset || StartsOverAt(s, readings, n - 1);
    }
  }

  ghost predicate StartsOver(s: System, readings: seq<nat>, n: nat)
    requires Sized(s) && n <= DOORS && n <= |readings|
  {
    exists i: nat :: i < n && StartsOverAt(s, readings, i)
  }

  /** Door `i` as it ought to be after the step. */
  function Due(s: System, e: Event, i: nat): Door
    requires Sized(s) && Possible(e) && i < DOORS
  {
    if e.Poll? && i < |e.readings| then Count(Effective(s, i), e.readings[i]) else Effective(s, i)
  }

  /** The steps that go wrong: a door starts over and the poll does not leave the new
      totals and the earlier sums on file; a restart while the files do not hold what
      the next poll would start from. */
  ghost predicate Loses(s: System, e: Event)
    requires Sized(s) && Possible(e)
  {
    match e
    case Poll(readings, _, _) =>
      StartsOver(Load(s), readings, |readings|) && !FilesTake(s, e)
    case NoReply => false
    case Restart => !FilesHold(s)
  }

  ghost predicate FilesTake(s: System, e: Event)
    requires Sized(s) && Possible(e) && e.Poll?
  {
    var t, all := Recounted(Load(s), e.readings, |e.readings|), |e.readings| == DOORS;
    && ReadSaved(if all then Written(s.totalFile, t.total, e.total) else s.totalFile) == t.total
    && ReadSaved(if all then Written(s.previousFile, t.previous, e.previous) else s.previousFile) == t.previous
  }

  /** Whatever the state, the length of the reply and the fate of the files: every
      door is afterwards as it ought to be, if and only if the step is none of those. */
  lemma StepRight(s: System, e: Event)
    requires Sized(s) && Possible(e)
    ensures (forall i: nat :: i < DOORS ==> Effective(Next(s, e), i) == Due(s, e, i)) <==> !Loses(s, e)
  {
    var l, l' := Load(s), Load(Next(s, e));
    var t := if e.Poll? then Recounted(l, e.readings, |e.readings|) else l;
    forall i: nat | i < DOORS ensures DoorAt(t, i) == Due(s, e, i) {
      if e.Poll? { RecountedAt(l, e.readings, |e.readings|, i); }
    }
    if e.Poll? { FlagMeans(l, e.readings, |e.readings|); }
    SameDoors(t, l');
  }

  lemma SameDoors(t: System, l: System)
    requires Sized(t) && Sized(l)
    ensures (forall i: nat :: i < DOORS ==> DoorAt(l, i) == DoorAt(t, i)) <==> l.total == t.total && l.previous == t.previous
  {
    if forall i: nat :: i < DOORS ==> DoorAt(l, i) == DoorAt(t, i) {
      forall i: nat | i < DOORS ensures l.total[i] == t.total[i] && l.previous[i] == t.previous[i] {
        assert DoorAt(l, i) == DoorAt(t, i);
      }
    }
  }

  /** After every step so far, every door is the fold of its readings. */
  ghost predicate AlwaysRight(s: System, es: seq<Event>)
    requires Sized(s) && AllPossible(es)
  {
    && (es == [] || AlwaysRight(s, es[..|es| - 1]))
    && forall i: nat :: i < DOORS ==> Effective(RunEnd(s, es), i) == CountAll(Effective(s, i), Readings(es, i))
  }

  ghost predicate NeverLoses(s: System, es: seq<Event>)
    requires Sized(s) && AllPossible(es)
  {
    es == [] || (NeverLoses(s, es[..|es| - 1]) && !Loses(RunEnd(s, es[..|es| - 1]), es[|es| - 1]))
  }

  /** Over any run of polls with replies of any length and files that may fail to be
      written, unanswered polls and restarts: the counts are right throughout, if and
      only if no step loses. */
  lemma {:induction false} RunRight(s: System, es: seq<Event>)
    requires Sized(s) && AllPossible(es)
    ensures AlwaysRight(s, es) <==> NeverLoses(s, es)
  {
    if es != [] {
      var front, last := es[..|es| - 1], es[|es| - 1];
      RunRight(s, front);
      if AlwaysRight(s, front) {
        StepRight(RunEnd(s, front), last);
        forall i: nat | i < DOORS
          ensures CountAll(Effective(s, i), Readings(es, i)) == Due(RunEnd(s, front), last, i)
        { ReadingsGrow(es, Effective(s, i), i); }
      }
    }
  }

  lemma ReadingsGrow(es: seq<Event>, d: Door, i: nat)
    requires es != [] && AllPossible(es) && i < DOORS
    ensures var front, last := es[..|es| - 1], es[|es| - 1];
      var before := CountAll(d, Readings(front, i));
      CountAll(d, Readings(es, i)) == if last.Poll? && i < |last.readings| then Count(before, last.readings[i]) else before
  {
    var front, last, rs := es[..|es| - 1], es[|es| - 1], Readings(es, i);
    if last.Poll? && i < |last.readings| {
      assert rs[..|rs| - 1] == Readings(front, i);
    } else {
      assert rs == Readings(front, i);
    }
  }

  /** The earlier sums in memory are those on file, or will be reloaded from there. */
  ghost predicate SumsOnFile(s: System)
    requires Sized(s)
  {
    !s.reset ==> s.previous == ReadSaved(s.previousFile)
  }

  /** A complete reply whose totals are written makes the files agree again, whatever
      failed before. */
  lemma Heals(s: System, e: Event)
    requires Sized(s) && Possible(e) && SumsOnFile(s)
    ensures SumsOnFile(Next(s, e))
    ensures e.Poll? && |e.readings| == DOORS && e.total == Done ==> FilesHold(Next(s, e))
  {
    if e.Poll? {
      var l, n := Load(s), |e.readings|;
      var t := Recounted(l, e.readings, n);
      if !t.reset {
        forall i: nat | i < DOORS ensures t.previous[i] == l.previous[i] { RecountedAt(l, e.readings, n, i); }
        assert t.previous == l.previous;
      }
    }
  }

  /** From a fresh gateway one door reads 5, then starts over and reads 3 while the
      earlier sums cannot be saved, then reads 4: it shows 12 instead of 9. */
  lemma FailedSaveDoubleCounts()
    ensures var s1 := Next(FRESH, Poll([5, 0, 0, 0, 0, 0], Done, Done));
      var s2 := Next(s1, Poll([3, 0, 0, 0, 0, 0], Done, Unopened));
      Next(s2, Poll([4, 0, 0, 0, 0, 0], Done, Done)).total[0] == 12 && Banked([5, 3, 4]) + 4 == 9
  {
    FirstPoll();
    var s1 := Next(FRESH, Poll([5, 0, 0, 0, 0, 0], Done, Done));
    var t := Recounted(Load(s1), [3, 0, 0, 0, 0, 0], DOORS);
    RecountedAt(Load(s1), [3, 0, 0, 0, 0, 0], DOORS, 0);
    FlagMeans(Load(s1), [3, 0, 0, 0, 0, 0], DOORS);
    assert StartsOverAt(Load(s1), [3, 0, 0, 0, 0, 0], 0);
    RecountedAt(Load(Saved(t, Done, Unopened)), [4, 0, 0, 0, 0, 0], DOORS, 0);
    assert [5, 3, 4][..2] == [5, 3] && [5, 3][..1] == [5];
  }

  /** A reply cut off after the first door forgets that this door started over: the
      change is not saved, and the next poll reloads the old sums. */
  lemma ShortReplyForgetsStartOver()
    ensures var s1 := Next(FRESH, Poll([5, 0, 0, 0, 0, 0], Done, Done));
      var s2 := Next(s1, Poll([3], Done, Done));
      Next(s2, Poll([6, 0, 0, 0, 0, 0], Done, Done)).total[0] == 6 && Banked([5, 3, 6]) + 6 == 11
  {
    FirstPoll();
    var s1 := Next(FRESH, Poll([5, 0, 0, 0, 0, 0], Done, Done));
    var t := Recounted(Load(s1), [3], 1);
    FlagMeans(Load(s1), [3], 1);
    assert StartsOverAt(Load(s1), [3], 0);
    RecountedAt(Load(t), [6, 0, 0, 0, 0, 0], DOORS, 0);
    assert [5, 3, 6][..2] == [5, 3] && [5, 3][..1] == [5];
  }

  lemma FirstPoll()
    ensures var s1 := Next(FRESH, Poll([5, 0, 0, 0, 0, 0], Done, Done));
      Sized(s1) && !s1.reset && s1.total[0] == 5 && s1.previous[0] == 0 && s1.totalFile == Some(s1.total)
      && ReadSaved(s1.previousFile)[0] == 0
  {
    var l := Load(FRESH);
    RecountedAt(l, [5, 0, 0, 0, 0, 0], DOORS, 0);
    FlagMeans(l, [5, 0, 0, 0, 0, 0], DOORS);
    forall i: nat | i < DOORS ensures !StartsOverAt(l, [5, 0, 0, 0, 0, 0], i) {}
  }
}
