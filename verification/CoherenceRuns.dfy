/** Consequences of cache coherence over runs: runs without failures lose nothing,
    the table is the firmware's, and a written value is not echoed as a change. */
module CoherenceRuns {
  import opened Text
  import opened Ahl
  import opened LiftProxyModel
  import opened LiftProxySafety
  import opened CacheCoherence
  import R = ModbusRegisters

  // ---- no loss without failure ----

  /** No call raises, no parameter read and no write fails, no answer to a served
      read of the flags goes missing, nobody else reads the flags, and values are
      sent as they will be mirrored. */
  ghost predicate Smooth(s: State, e: Event)
    requires Enabled(s, e)
  {
    match e
    case Raise => false
    case CallWrite(_, p, value, sent, _) => p != POLLING_PARAM && sent == value
    case CallRead(_, p) => p != POLLING_PARAM
    case BusRead(o) => s.crit.PollFlags? && !s.crit.force ==> o != ServedLost
    case Resume =>
      && (s.crit.Sweep? || s.crit.ReadBack? ==> s.crit.rd.r.code == R.NoErr)
      && (s.crit.Write? ==> s.crit.wr.ok)
    case _ => true
  }

  ghost predicate SmoothRequest(q: Request) {
    && (q.WriteReq? ==> q.p != POLLING_PARAM && q.sent == q.value)
    && (q.ReadReq? ==> q.p != POLLING_PARAM)
  }

  ghost predicate SmoothState(s: State) {
    && (forall t | t in s.waiting :: SmoothRequest(s.waiting[t]))
    && (s.crit.ReadBack? || s.crit.LiveRead? || s.crit.Write? ==> s.crit.p != POLLING_PARAM)
    && (s.crit.Write? ==> s.crit.sent == s.crit.value)
  }

  lemma SmoothStep(s: State, e: Event)
    requires SmoothState(s) && Enabled(s, e) && Smooth(s, e)
    ensures SmoothState(Next(s, e))
  {
    match e
    case Resume => SmoothResume(s);
    case BusRead(_) => SmoothBus(s, e);
    case BusWrite(_, _, _) => SmoothBus(s, e);
    case Raise =>
    case _ => SmoothOutside(s, e);
  }

  lemma SmoothBus(s: State, e: Event)
    requires SmoothState(s) && Enabled(s, e) && (e.BusRead? || e.BusWrite?)
    ensures SmoothState(Next(s, e))
  {
  }

  lemma SmoothOutside(s: State, e: Event)
    requires SmoothState(s) && Enabled(s, e) && Smooth(s, e) && (Outside(e) || e.Acquire?)
    ensures SmoothState(Next(s, e))
  {
  }

  lemma SmoothResume(s: State)
    requires SmoothState(s) && Enabled(s, Resume)
    ensures SmoothState(OnResume(s))
  {
    if s.crit.Sweep? {
      assert Swept(s, s.crit.todo[0], s.crit.rd.r).waiting == s.waiting;
    } else if !s.crit.PollFlags? {
      assert OnResume(s).waiting == s.waiting;
    }
  }

  lemma SmoothKeeps(s: State, e: Event, p: int)
    requires Core(s) && SmoothState(s) && Enabled(s, e) && Smooth(s, e) && p in Tracked(s)
    ensures !Loses(s, e, p)
  {
    if s.crit.Sweep? && e.BusRead? { assert ReadTarget(s.crit) in s.crit.todo; }
  }

  ghost predicate SmoothRun(s: State, es: seq<Event>)
    requires IsRun(s, es)
    decreases |es|
  {
    es == [] || (Smooth(s, es[0]) && SmoothRun(Next(s, es[0]), es[1..]))
  }

  lemma {:induction false} SmoothNeverLoses(s: State, es: seq<Event>, p: int)
    requires Inv(s) && SmoothState(s) && IsRun(s, es) && SmoothRun(s, es)
    ensures NeverLoses(s, es, p)
    decreases |es|
  {
    if es != [] {
      if p in Tracked(s) { SmoothKeeps(s, es[0], p); }
      InvStep(s, es[0]);
      SmoothStep(s, es[0]);
      SmoothNeverLoses(Next(s, es[0]), es[1..], p);
    }
  }

  /** Without failures the cache never falls behind: from the cold-start poll on,
      each parameter is always cached as held, flagged, or pending in the lock. */
  lemma CoherentWithoutFailures(s: State, es: seq<Event>, p: int)
    requires Init(s) && IsRun(s, es) && SmoothRun(s, es)
    ensures AlwaysCovered(s, es, p)
  {
    InitInv(s);
    SmoothNeverLoses(s, es, p);
    CacheCoherent(s, es, p);
  }

  lemma {:induction false} CoveredAtEnd(s: State, es: seq<Event>, p: int)
    requires IsRun(s, es) && AlwaysCovered(s, es, p)
    ensures Covered(RunEnd(s, es), p)
    decreases |es|
  {
    if es != [] { CoveredAtEnd(Next(s, es[0]), es[1..], p); }
  }

  /** At rest, after the cold-start poll and with no flag raised, every parameter
      the run has not lost is cached as the lift holds it. */
  lemma QuietCacheIsLift(s: State, es: seq<Event>, p: int)
    requires Init(s) && IsRun(s, es) && NeverLoses(s, es, p)
    requires var s' := RunEnd(s, es);
      && s'.proxy.liftType == AhlLift && !s'.proxy.forceReadAll
      && s'.crit == Free && s'.lcm.flags == {} && p in Tracked(s')
    ensures Cached(RunEnd(s, es), p)
  {
    CacheCoherent(s, es, p);
    CoveredAtEnd(s, es, p);
  }

  /** The polling table in use is always the one of the lift's firmware. */
  lemma TableIsFirmware(s: State, es: seq<Event>)
    requires Init(s) && IsRun(s, es) && RunEnd(s, es).proxy.liftType == AhlLift
    ensures Table(RunEnd(s, es)) == RunEnd(s, es).lcm.newFirmware
  {
    InitInv(s);
    InvRun(s, es);
  }

  // ---- what is reported ----

  /** The reports a step adds to the history. */
  ghost predicate Reports(log: seq<Entry>, log': seq<Entry>, p: int) {
    log <= log' && Reported(p) in log'[|log|..]
  }

  lemma SweptReports(s: State, p: int)
    requires Core(s) && s.crit.Sweep? && s.crit.rd.Got? && p in CacheOf(s)
    ensures var s1 := Swept(s, s.crit.todo[0], s.crit.rd.r);
      && p in CacheOf(s1) && s.log <= s1.log && |s1.log| <= |s.log| + 1
      && (Reported(p) in s1.log[|s.log|..] <==> CacheOf(s1)[p] != CacheOf(s)[p])
  {
  }

  lemma NextReadReports(s: State, t: Tid, force: bool, todo: seq<int>)
    ensures var s' := NextRead(s, t, force, todo);
      CacheOf(s') == CacheOf(s) && (s'.log == s.log || s'.log == s.log + [PollDone(force)])
  {
  }

  /** A sweep step reports a parameter if and only if it changes its cached value. */
  lemma SweepReports(s: State, p: int)
    requires Core(s) && Enabled(s, Resume) && s.crit.Sweep? && p in CacheOf(s)
    ensures var s' := Next(s, Resume);
      p in CacheOf(s') && (Reports(s.log, s'.log, p) <==> CacheOf(s')[p] != CacheOf(s)[p])
  {
    var c := s.crit;
    var s1 := Swept(s, c.todo[0], c.rd.r);
    SweptReports(s, p);
    NextReadReports(s1, c.t, c.force, c.todo[1..]);
    var s' := OnSwept(s, c);
    assert s'.log[|s.log|..] == s1.log[|s.log|..] + s'.log[|s1.log|..];
  }

  /** No other step reports anything. */
  lemma OnlySweepsReport(s: State, e: Event, p: int)
    requires Core(s) && Enabled(s, e) && !(e.Resume? && s.crit.Sweep?)
    ensures !Reports(s.log, Next(s, e).log, p)
  {
    match e
    case Resume =>
      if s.crit.PollFlags? {
        var c := s.crit;
        var mask := if c.force then 0x7FFF_FFFF else c.rd.r.value;
        NextReadReports(s, c.t, c.force, []);
        NextReadReports(s, c.t, c.force, InDatabase(Decode(Table(s), mask), s.params));
      }
    case BusRead(_) =>
    case BusWrite(_, _, _) =>
    case Acquire(_) =>
    case Raise =>
    case _ => OutsideStep(s, e);
  }

  // ---- a written value is not echoed ----

  /** `p` is cached as the lift holds it, a reply on its way says the same, and
      no write of `p` is queued or under way. */
  ghost predicate Settled(s: State, p: int, v: int) {
    && Held(s.lcm, p) == v && p in CacheOf(s) && CacheOf(s)[p] == Some(v)
    && (s.crit.Write? || s.crit.ReadBack? ==> s.crit.p != p)
    && (forall t | t in s.waiting && s.waiting[t].WriteReq? :: s.waiting[t].p != p)
    && (s.crit.Sweep? && s.crit.todo != [] && s.crit.todo[0] == p && s.crit.rd.Got? && s.crit.rd.r.code == R.NoErr ==>
          s.crit.rd.r.value == v)
  }

  ghost predicate LeavesAlone(e: Event, p: int) {
    (e.HwChange? ==> e.p != p) && (e.CallWrite? ==> e.p != p)
  }

  /** `log'` extends `log` without reporting `p` as changed. */
  ghost predicate Silent(log: seq<Entry>, log': seq<Entry>, p: int) {
    log <= log' && Reported(p) !in log'[|log|..]
  }

  lemma SettledOutside(s: State, e: Event, p: int, v: int)
    requires Settled(s, p, v) && Enabled(s, e) && Outside(e) && LeavesAlone(e, p)
    ensures Settled(Next(s, e), p, v)
  {
    OutsideStep(s, e);
  }

  lemma SettledEnter(s: State, t: Tid, p: int, v: int)
    requires Settled(s, p, v) && Binding(s) && s.proxy.liftType == AhlLift && Enabled(s, Acquire(t))
    ensures Settled(Next(s, Acquire(t)), p, v) && Next(s, Acquire(t)).log == s.log
  {
  }

  lemma SettledReply(s: State, o: Outcome, answer: R.ReadResult, p: int, v: int)
    requires Settled(s, p, v) && Core(s) && Enabled(s, BusRead(o)) && p != POLLING_PARAM
    requires Tells(s.lcm, ReadTarget(s.crit), answer, p)
    ensures Settled(OnReply(s, o, answer), p, v) && Silent(s.log, OnReply(s, o, answer).log, p)
  {
  }

  lemma SettledWrite(s: State, o: Outcome, stored: int, flagged: bool, p: int, v: int)
    requires Settled(s, p, v) && Enabled(s, BusWrite(o, stored, flagged))
    ensures var s' := OnWrite(s, o, stored, flagged); Settled(s', p, v) && Silent(s.log, s'.log, p)
  {
    StoredKeeps(s, s.crit.p, stored, flagged, p);
  }

  /** What of `Settled` does not look inside the lock. */
  ghost predicate SettledOutsideLock(s: State, p: int, v: int) {
    && Held(s.lcm, p) == v && p in CacheOf(s) && CacheOf(s)[p] == Some(v)
    && (forall t | t in s.waiting && s.waiting[t].WriteReq? :: s.waiting[t].p != p)
  }

  lemma SettledNextRead(s: State, t: Tid, force: bool, todo: seq<int>, p: int, v: int)
    requires SettledOutsideLock(s, p, v)
    ensures var s' := NextRead(s, t, force, todo); Settled(s', p, v) && Silent(s.log, s'.log, p)
  {
  }

  lemma SettledSwept(s: State, p: int, v: int)
    requires Settled(s, p, v) && Core(s) && s.crit.Sweep? && s.crit.rd.Got?
    ensures var s' := OnSwept(s, s.crit); Settled(s', p, v) && Silent(s.log, s'.log, p)
  {
    var c := s.crit;
    var s1 := Swept(s, c.todo[0], c.rd.r);
    SettledCached(s, p, v);
    SettledNextRead(s1, c.t, c.force, c.todo[1..], p, v);
    SilentTransitive(s.log, s1.log, OnSwept(s, c).log, p);
  }

  lemma SettledCached(s: State, p: int, v: int)
    requires Settled(s, p, v) && s.crit.Sweep? && s.crit.rd.Got? && s.crit.todo != []
    ensures var s1 := Swept(s, s.crit.todo[0], s.crit.rd.r);
      SettledOutsideLock(s1, p, v) && Silent(s.log, s1.log, p)
  {
  }

  lemma SettledFlags(s: State, p: int, v: int)
    requires Settled(s, p, v) && s.crit.PollFlags? && s.crit.rd.Got?
    ensures var s' := OnFlags(s, s.crit); Settled(s', p, v) && Silent(s.log, s'.log, p)
  {
    var c := s.crit;
    var mask := if c.force then 0x7FFF_FFFF else c.rd.r.value;
    SettledNextRead(s, c.t, c.force, [], p, v);
    SettledNextRead(s, c.t, c.force, InDatabase(Decode(Table(s), mask), s.params), p, v);
  }

  lemma SettledOther(s: State, p: int, v: int)
    requires Settled(s, p, v) && Enabled(s, Resume) && (s.crit.Write? || s.crit.ReadBack? || s.crit.LiveRead?)
    ensures Settled(OnResume(s), p, v) && OnResume(s).log == s.log
  {
    if s.crit.Write? { SettledWrote(s, p, v); }
    else if s.crit.ReadBack? { SettledReadBack(s, p, v); }
  }

  lemma SettledWrote(s: State, p: int, v: int)
    requires Settled(s, p, v) && s.crit.Write? && s.crit.wr.Wrote?
    ensures Settled(OnWrote(s, s.crit), p, v) && OnWrote(s, s.crit).log == s.log
  {
    SettledCacheSet(s, s.crit.p, s.crit.value, p, v);
  }

  lemma SettledReadBack(s: State, p: int, v: int)
    requires Settled(s, p, v) && s.crit.ReadBack? && s.crit.rd.Got?
    ensures Settled(OnReadBack(s, s.crit), p, v) && OnReadBack(s, s.crit).log == s.log
  {
    SettledCacheSet(s, s.crit.p, s.crit.rd.r.value, p, v);
  }

  lemma SettledCacheSet(s: State, q: int, w: int, p: int, v: int)
    requires SettledOutsideLock(s, p, v) && q != p
    ensures SettledOutsideLock(SetCache(s, q, w), p, v) && SetCache(s, q, w).log == s.log
  {
  }

  lemma SettledResume(s: State, p: int, v: int)
    requires Settled(s, p, v) && Core(s) && s.proxy.liftType == AhlLift && Enabled(s, Resume)
    ensures Settled(OnResume(s), p, v) && Silent(s.log, OnResume(s).log, p)
  {
    if s.crit.Sweep? { SettledSwept(s, p, v); }
    else if s.crit.PollFlags? { SettledFlags(s, p, v); }
    else { SettledOther(s, p, v); }
  }

  lemma SettledStep(s: State, e: Event, p: int, v: int)
    requires Settled(s, p, v) && Core(s) && s.proxy.liftType == AhlLift && p != POLLING_PARAM
    requires Enabled(s, e) && LeavesAlone(e, p)
    ensures Settled(Next(s, e), p, v) && Silent(s.log, Next(s, e).log, p)
  {
    match e
    case Acquire(t) => SettledEnter(s, t, p, v);
    case BusRead(o) =>
      var answer := Answer(s.lcm, ReadTarget(s.crit));
      AnswerTells(s.lcm, ReadTarget(s.crit), p);
      SettledReply(s, o, answer, p, v);
    case BusWrite(o, stored, flagged) => SettledWrite(s, o, stored, flagged, p, v);
    case Resume => SettledResume(s, p, v);
    case Raise =>
    case _ => SettledOutside(s, e, p, v); OutsideStep(s, e);
  }

  lemma SilentTransitive(a: seq<Entry>, b: seq<Entry>, c: seq<Entry>, p: int)
    requires Silent(a, b, p) && Silent(b, c, p)
    ensures Silent(a, c, p)
  {
    assert c[|a|..] == b[|a|..] + c[|b|..];
  }

  lemma {:induction false} SettledRun(s: State, es: seq<Event>, p: int, v: int)
    requires Inv(s) && s.proxy.liftType == AhlLift && p != POLLING_PARAM && Settled(s, p, v)
    requires IsRun(s, es) && forall e | e in es :: LeavesAlone(e, p)
    ensures Silent(s.log, RunEnd(s, es).log, p)
    decreases |es|
  {
    if es != [] {
      var s1 := Next(s, es[0]);
      SettledStep(s, es[0], p, v);
      InvStep(s, es[0]);
      SafeStep(s, es[0]);
      SettledRun(s1, es[1..], p, v);
      SilentTransitive(s.log, s1.log, RunEnd(s, es).log, p);
    }
  }

  /** A write the lift stored as sent and that is mirrored as sent is never
      reported as a change by any later poll, until `p` changes again. */
  lemma WriteNotEchoed(s: State, es: seq<Event>)
    requires Inv(s) && s.crit.Write? && s.crit.wr == Wrote(true) && !s.crit.readBack
    requires s.crit.p in s.params && s.crit.p != POLLING_PARAM
    requires s.crit.sent == s.crit.value && Held(s.lcm, s.crit.p) == s.crit.sent
    requires forall t | t in s.waiting && s.waiting[t].WriteReq? :: s.waiting[t].p != s.crit.p
    requires IsRun(s, [Resume] + es) && forall e | e in es :: LeavesAlone(e, s.crit.p)
    ensures Silent(s.log, RunEnd(s, [Resume] + es).log, s.crit.p)
  {
    var s1 := Next(s, Resume);
    assert ([Resume] + es)[1..] == es;
    InvStep(s, Resume);
    assert Settled(s1, s.crit.p, s.crit.value) && s1.proxy.liftType == AhlLift && s1.log == s.log;
    SettledRun(s1, es, s.crit.p, s.crit.value);
  }

  /** A successful write of any accepted decimal or hexadecimal text, to any
      parameter but the reset-alarm ones, is not echoed. */
  lemma AcceptedWriteNotEchoed(s: State, es: seq<Event>, param: string, value: string, version: int)
    requires Inv(s) && s.crit.Write? && s.crit.wr == Wrote(true) && !s.crit.readBack
    requires s.crit.p in s.params && s.crit.p != POLLING_PARAM && Held(s.lcm, s.crit.p) == s.crit.sent
    requires forall t | t in s.waiting && s.waiting[t].WriteReq? :: s.waiting[t].p != s.crit.p
    requires IsRun(s, [Resume] + es) && forall e | e in es :: LeavesAlone(e, s.crit.p)
    ensures TextWritten(s.crit, param, value, version) && !R.ResetAlarm(param)
      ==> Silent(s.log, RunEnd(s, [Resume] + es).log, s.crit.p)
  {
    R.MirrorMatchesRead(param, value, version);
    if TextWritten(s.crit, param, value, version) && !R.ResetAlarm(param) { WriteNotEchoed(s, es); }
  }

  /** The write in progress is that of these texts: what the handler sends for them and
      what the proxy mirrors. */
  ghost predicate TextWritten(c: Crit, param: string, value: string, version: int)
    requires c.Write?
  {
    && R.ParamAddress(param) == Some(2 * c.p)
    && R.SentValue(param, value, version) == Some(c.sent) && R.ParseIntValue(value) == Some(c.value)
  }
}
