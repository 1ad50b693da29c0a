/** Safety of the lift proxy over every run: never half-bound, the lift type is
    chosen once, the cold-start flag is never lost, and a write and its read-back
    are never interleaved. */
module LiftProxySafety {
  import opened Text
  import opened Ahl
  import opened LiftProxyModel
  import R = ModbusRegisters

  // ---- binding ----

  ghost predicate OnlyBinds(waiting: map<Tid, Request>) {
    forall t | t in waiting :: waiting[t].BindReq?
  }

  ghost predicate Closes(closing: map<Tid, Handler>, h: Handler) {
    forall t | t in closing :: closing[t] == h
  }

  /** Unbound: no handler, no lib, every candidate present and open. Bound: exactly
      the matching open handler and lib, no candidates. Nothing in between. */
  ghost predicate Binding(s: State) {
    match s.proxy.liftType
    case Unknown =>
      && s.proxy == Proxy(Unknown, None, None, true, true, true, true)
      && s.open == {Modbus, Rs232} && s.closing == map[]
      && (s.crit.Free? || s.crit.Detect?)
      && OnlyBinds(s.waiting)
    case AhlLift =>
      && s.proxy.handler == Some(Modbus)
      && s.proxy.lib.Some? && s.proxy.lib.value.AhlData? && s.proxy.lib.value.cache.Keys == s.params
      && !s.proxy.modbusCandidate && !s.proxy.rs232Candidate && !s.proxy.thousandCandidate
      && Modbus in s.open && Closes(s.closing, Rs232)
      && !s.crit.Detect? && !s.crit.Poll1k? && !s.crit.Other1k?
    case OneK =>
      && s.proxy.handler == Some(Rs232) && s.proxy.lib == Some(ThousandData)
      && !s.proxy.modbusCandidate && !s.proxy.rs232Candidate && !s.proxy.thousandCandidate
      && Rs232 in s.open && Closes(s.closing, Modbus)
      && (s.crit.Free? || s.crit.Poll1k? || s.crit.Other1k?)
  }

  /** What never changes once a type is bound. */
  ghost predicate SameBinding(s: State, s': State) {
    s.proxy.liftType != Unknown ==>
      && s'.proxy.liftType == s.proxy.liftType
      && s'.proxy.handler == s.proxy.handler
      && Table(s') == Table(s)
  }

  lemma BindingStep(s: State, e: Event)
    requires Binding(s) && Enabled(s, e)
    ensures Binding(Next(s, e)) && SameBinding(s, Next(s, e))
  {
    match e
    case Acquire(t) => BindingEnter(s, t);
    case Resume => BindingResume(s);
    case BusRead(_) =>
    case BusWrite(_, _, _) =>
    case Raise =>
    case _ => BindingOutside(s, e);
  }

  lemma BindingOutside(s: State, e: Event)
    requires Binding(s) && Enabled(s, e) && Outside(e)
    ensures Binding(Next(s, e)) && SameBinding(s, Next(s, e))
  {
  }

  lemma BindingEnter(s: State, t: Tid)
    requires Binding(s) && Enabled(s, Acquire(t))
    ensures Binding(Next(s, Acquire(t))) && SameBinding(s, Next(s, Acquire(t)))
  {
  }

  lemma BindingResume(s: State)
    requires Binding(s) && Enabled(s, Resume)
    ensures Binding(OnResume(s)) && SameBinding(s, OnResume(s))
  {
    match s.crit
    case Detect(_, _) => BindingDetected(s);
    case PollFlags(_, _, _) => BindingFlags(s);
    case Sweep(_, _, _, _) => BindingSwept(s);
    case Write(_, _, _, _, _, _, _) => BindingWrote(s);
    case ReadBack(_, _, _) => BindingReadBack(s);
    case _ =>
  }

  lemma BindingDetected(s: State)
    requires Binding(s) && s.crit.Detect? && s.crit.rd.Got?
    ensures Binding(OnDetected(s, s.crit))
  {
  }

  lemma BindingFlags(s: State)
    requires Binding(s) && s.crit.PollFlags? && s.crit.rd.Got?
    ensures Binding(OnFlags(s, s.crit)) && SameBinding(s, OnFlags(s, s.crit))
  {
    var c := s.crit;
    var mask := if c.force then 0x7FFF_FFFF else c.rd.r.value;
    BindingNextRead(s, c.t, c.force, InDatabase(Decode(Table(s), mask), s.params));
  }

  lemma BindingNextRead(s: State, t: Tid, force: bool, todo: seq<int>)
    requires Binding(s) && s.proxy.liftType == AhlLift
    ensures var s' := NextRead(s, t, force, todo); Binding(s') && SameBinding(s, s')
  {
  }

  lemma BindingSwept(s: State)
    requires Binding(s) && s.crit.Sweep? && s.crit.rd.Got? && s.crit.todo != []
    ensures Binding(OnSwept(s, s.crit)) && SameBinding(s, OnSwept(s, s.crit))
  {
    var c := s.crit;
    BindingCached(s, c.todo[0], c.rd.r);
    BindingNextRead(Swept(s, c.todo[0], c.rd.r), c.t, c.force, c.todo[1..]);
  }

  lemma BindingCached(s: State, p: int, r: R.ReadResult)
    requires Binding(s) && s.proxy.liftType == AhlLift
    ensures var s' := Swept(s, p, r);
      Binding(s') && SameBinding(s, s') && s'.proxy.liftType == AhlLift
  {
    CacheKeys(s.proxy.lib.value.cache, p, r.value);
  }

  lemma BindingWrote(s: State)
    requires Binding(s) && s.crit.Write? && s.crit.wr.Wrote?
    ensures Binding(OnWrote(s, s.crit)) && SameBinding(s, OnWrote(s, s.crit))
  {
    CacheKeys(s.proxy.lib.value.cache, s.crit.p, s.crit.value);
  }

  lemma BindingReadBack(s: State)
    requires Binding(s) && s.crit.ReadBack? && s.crit.rd.Got?
    ensures Binding(OnReadBack(s, s.crit)) && SameBinding(s, OnReadBack(s, s.crit))
  {
    CacheKeys(s.proxy.lib.value.cache, s.crit.p, s.crit.rd.r.value);
  }

  lemma CacheKeys(db: Cache, p: int, v: int)
    ensures CacheSet(db, p, v).0.Keys == db.Keys
  {
  }

  // ---- cold start ----

  ghost predicate NoPoll(log: seq<Entry>) {
    forall i | 0 <= i < |log| :: !log[i].PollDone?
  }

  /** The first poll to return was a forced one. */
  ghost predicate FirstPollForced(log: seq<Entry>) {
    forall i | 0 <= i < |log| && log[i].PollDone? && NoPoll(log[..i]) :: log[i].force
  }

  ghost predicate PollsAfterBind(log: seq<Entry>) {
    forall i | 0 <= i < |log| && log[i].PollDone? :: exists b | 0 <= b < i :: log[b].Bound?
  }

  ghost predicate BoundAtMostOnce(log: seq<Entry>) {
    forall i, j | 0 <= i < j < |log| :: !(log[i].Bound? && log[j].Bound?)
  }

  /** A table is chosen only from a parameter-127 read that says which one. */
  ghost predicate ChoicesJustified(log: seq<Entry>) {
    forall i | 0 <= i < |log| && log[i].Chosen? ::
      log[i].code == if log[i].newTable then R.NoErr else R.LcmErr
  }

  /** The history agrees with the cold-start flag and with being bound. */
  ghost predicate History(log: seq<Entry>, pending: bool, bound: bool) {
    && (pending <==> NoPoll(log))
    && FirstPollForced(log) && PollsAfterBind(log)
    && BoundAtMostOnce(log) && ChoicesJustified(log)
    && (bound <==> exists i | 0 <= i < |log| :: log[i].Bound?)
  }

  lemma QuietEntry(log: seq<Entry>, pending: bool, bound: bool, e: Entry)
    requires History(log, pending, bound) && !e.PollDone? && !e.Bound?
    requires e.Chosen? ==> e.code == if e.newTable then R.NoErr else R.LcmErr
    ensures History(log + [e], pending, bound)
  {
    var l := log + [e];
    assert forall i | 0 <= i < |log| :: l[i] == log[i] && l[..i] == log[..i];
    if bound { var b :| 0 <= b < |log| && log[b].Bound?; assert l[b].Bound?; }
  }

  lemma BindEntry(log: seq<Entry>, liftType: LiftType)
    requires History(log, true, false)
    ensures History(log + [Bound(liftType)], true, true)
  {
    var l := log + [Bound(liftType)];
    assert forall i | 0 <= i < |log| :: l[i] == log[i];
    assert l[|log|].Bound?;
  }

  lemma PollEntry(log: seq<Entry>, pending: bool, force: bool)
    requires History(log, pending, true) && (pending ==> force)
    ensures History(log + [PollDone(force)], false, true)
  {
    var l := log + [PollDone(force)];
    assert forall i | 0 <= i < |log| :: l[i] == log[i] && l[..i] == log[..i];
    assert l[..|log|] == log && l[|log|].PollDone?;
    var b :| 0 <= b < |log| && log[b].Bound?;
    assert l[b].Bound?;
  }

  /** A poll inside the lock that reads only flagged groups knows that a forced
      poll has already returned. */
  ghost predicate ColdStart(s: State) {
    && History(s.log, s.proxy.forceReadAll, s.proxy.liftType != Unknown)
    && ((s.crit.PollFlags? || s.crit.Sweep? || s.crit.Poll1k?) && !s.crit.force ==> !s.proxy.forceReadAll)
  }

  lemma ColdStartStep(s: State, e: Event)
    requires Binding(s) && ColdStart(s) && Enabled(s, e)
    ensures ColdStart(Next(s, e))
  {
    match e
    case Acquire(t) => ColdStartEnter(s, t);
    case BusRead(_) => ColdStartBus(s, e, Bus(s.crit.t, OpRead(ReadTarget(s.crit))));
    case BusWrite(_, _, _) => ColdStartBus(s, e, Bus(s.crit.t, OpWrite(s.crit.p)));
    case Resume => ColdStartResume(s);
    case _ => ColdStartQuiet(s, e);
  }

  lemma ColdStartQuiet(s: State, e: Event)
    requires ColdStart(s) && Enabled(s, e) && (e.Raise? || Outside(e))
    ensures ColdStart(Next(s, e))
  {
    if !e.Raise? { OutsideStep(s, e); }
    assert Next(s, e).log == s.log && Next(s, e).proxy == s.proxy;
  }

  lemma ColdStartBus(s: State, e: Event, entry: Entry)
    requires ColdStart(s) && Enabled(s, e) && (e.BusRead? || e.BusWrite?)
    requires entry.Bus? && Next(s, e).log == s.log + [entry]
    ensures ColdStart(Next(s, e))
  {
    QuietEntry(s.log, s.proxy.forceReadAll, s.proxy.liftType != Unknown, entry);
  }

  lemma ColdStartEnter(s: State, t: Tid)
    requires Binding(s) && ColdStart(s) && Enabled(s, Acquire(t))
    ensures ColdStart(Next(s, Acquire(t)))
  {
    var s' := Next(s, Acquire(t));
    if s.proxy.liftType == Unknown {
      BindEntry(s.log, OneK);
    } else {
      assert s'.log == s.log && s'.proxy == s.proxy;
    }
  }

  lemma ColdStartResume(s: State)
    requires Binding(s) && ColdStart(s) && Enabled(s, Resume)
    ensures ColdStart(OnResume(s))
  {
    match s.crit
    case Detect(_, _) => ColdStartDetected(s);
    case PollFlags(_, _, _) => ColdStartFlags(s);
    case Sweep(_, _, _, _) => ColdStartSwept(s);
    case Poll1k(_, force) => PollEntry(s.log, s.proxy.forceReadAll, force);
    case Write(_, _, _, _, _, _, _) => ColdStartOther(s);
    case ReadBack(_, _, _) => ColdStartOther(s);
    case _ =>
  }

  lemma ColdStartOther(s: State)
    requires ColdStart(s) && Enabled(s, Resume) && (s.crit.Write? || s.crit.ReadBack?)
    ensures ColdStart(OnResume(s))
  {
    var s' := OnResume(s);
    assert s'.log == s.log && s'.proxy.forceReadAll == s.proxy.forceReadAll;
  }

  lemma ColdStartDetected(s: State)
    requires Binding(s) && ColdStart(s) && s.crit.Detect? && s.crit.rd.Got?
    ensures ColdStart(OnDetected(s, s.crit))
  {
    var code := s.crit.rd.r.code;
    if code == R.NoErr || code == R.LcmErr {
      var chosen := Chosen(code == R.NoErr, code);
      QuietEntry(s.log, true, false, chosen);
      BindEntry(s.log + [chosen], AhlLift);
    }
  }

  lemma ColdStartNextRead(s: State, t: Tid, force: bool, todo: seq<int>)
    requires s.proxy.liftType != Unknown && (s.proxy.forceReadAll ==> force)
    requires History(s.log, s.proxy.forceReadAll, true)
    ensures ColdStart(NextRead(s, t, force, todo))
  {
    PollEntry(s.log, s.proxy.forceReadAll, force);
  }

  lemma ColdStartFlags(s: State)
    requires Binding(s) && ColdStart(s) && s.crit.PollFlags? && s.crit.rd.Got?
    ensures ColdStart(OnFlags(s, s.crit))
  {
    var c := s.crit;
    var mask := if c.force then 0x7FFF_FFFF else c.rd.r.value;
    ColdStartNextRead(s, c.t, c.force, InDatabase(Decode(Table(s), mask), s.params));
    PollEntry(s.log, s.proxy.forceReadAll, c.force);
  }

  lemma ColdStartSwept(s: State)
    requires Binding(s) && ColdStart(s) && s.crit.Sweep? && s.crit.rd.Got? && s.crit.todo != []
    ensures ColdStart(OnSwept(s, s.crit))
  {
    var c := s.crit;
    QuietEntry(s.log, s.proxy.forceReadAll, true, Reported(c.todo[0]));
    ColdStartNextRead(Swept(s, c.todo[0], c.rd.r), c.t, c.force, c.todo[1..]);
  }

  // ---- write and read-back ----

  /** The bus traffic ends with `t` writing `p` and then only reading it back. */
  ghost predicate EndsWithPair(log: seq<Entry>, t: Tid, p: int) {
    log != [] &&
    var last := log[|log| - 1];
    last == Bus(t, OpWrite(p)) || (last == Bus(t, OpRead(p)) && EndsWithPair(log[..|log| - 1], t, p))
  }

  ghost predicate Paired(s: State) {
    && (s.crit.ReadBack? ==> EndsWithPair(s.log, s.crit.t, s.crit.p))
    && (s.crit.Write? && s.crit.wr == Wrote(true) ==>
          s.log != [] && s.log[|s.log| - 1] == Bus(s.crit.t, OpWrite(s.crit.p)))
  }

  lemma PairedStep(s: State, e: Event)
    requires Binding(s) && Paired(s) && Enabled(s, e)
    ensures Paired(Next(s, e))
  {
    match e
    case BusRead(_) =>
      var s' := Next(s, e);
      assert s'.log[..|s'.log| - 1] == s.log;
    case BusWrite(_, _, _) =>
    case Resume => PairedResume(s);
    case Acquire(_) =>
    case Raise =>
    case _ => OutsideStep(s, e);
  }

  lemma PairedResume(s: State)
    requires Binding(s) && Paired(s) && Enabled(s, Resume)
    ensures Paired(OnResume(s))
  {
    if !s.crit.Write? { assert !OnResume(s).crit.ReadBack? && !OnResume(s).crit.Write?; }
  }

  // ---- all runs ----

  ghost predicate Safe(s: State) {
    Binding(s) && ColdStart(s) && Paired(s)
  }

  lemma InitSafe(s: State)
    requires Init(s)
    ensures Safe(s)
  {
  }

  lemma SafeStep(s: State, e: Event)
    requires Safe(s) && Enabled(s, e)
    ensures Safe(Next(s, e)) && SameBinding(s, Next(s, e))
  {
    BindingStep(s, e);
    ColdStartStep(s, e);
    PairedStep(s, e);
  }

  /** In every run, from any safe state: still safe, and a bound type, its handler
      and its polling table never change again. */
  lemma {:induction false} SafeRun(s: State, es: seq<Event>)
    requires Safe(s) && IsRun(s, es)
    ensures Safe(RunEnd(s, es)) && SameBinding(s, RunEnd(s, es))
    decreases |es|
  {
    if es != [] {
      SafeStep(s, es[0]);
      SafeRun(Next(s, es[0]), es[1..]);
    }
  }

  /** Cold start is never lost: once bound with the flag cleared, a forced poll has
      returned since the one bind, and no poll returned before it. What its reads
      brought is another matter: see `PollRuns.PollFetches`. */
  lemma ColdStartNeverLost(s: State, es: seq<Event>) returns (b: nat, k: nat)
    requires Init(s) && IsRun(s, es)
    requires RunEnd(s, es).proxy.liftType != Unknown && !RunEnd(s, es).proxy.forceReadAll
    ensures var log := RunEnd(s, es).log;
      && b < k < |log| && log[b].Bound? && log[k] == PollDone(true)
      && NoPoll(log[..k]) && forall i | 0 <= i < |log| && log[i].Bound? :: i == b
  {
    InitSafe(s);
    SafeRun(s, es);
    var log := RunEnd(s, es).log;
    k := FirstPoll(log);
    b :| 0 <= b < k && log[b].Bound?;
  }

  lemma FirstPoll(log: seq<Entry>) returns (k: nat)
    requires !NoPoll(log)
    ensures k < |log| && log[k].PollDone? && NoPoll(log[..k])
  {
    k := |log|;
    assert log[..k] == log;
    while !NoPoll(log[..k])
      invariant k <= |log|
      invariant k < |log| ==> log[k].PollDone?
      decreases k
    {
      var i :| 0 <= i < k && log[i].PollDone?;
      k := i;
    }
  }
}
