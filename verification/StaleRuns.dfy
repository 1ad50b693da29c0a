/** The ways of losing a parameter are real: for every database, firmware and lift
    there are runs from power-on in which a parameter goes stale. */
module StaleRuns {
  import opened Bits
  import opened Text
  import opened Ahl
  import opened LiftProxyModel
  import opened LiftProxySafety
  import opened CacheCoherence
  import opened PollRuns
  import R = ModbusRegisters

  /** After the cold-start poll. */
  ghost predicate Warm(s: State) {
    Inv(s) && s.proxy.liftType == AhlLift && !s.proxy.forceReadAll
  }

  ghost predicate Resting(s: State) {
    Warm(s) && s.crit.Free?
  }

  /** At rest with the wrong value cached, no flag and nothing pending. */
  ghost predicate Stale(s: State, p: int) {
    Resting(s) && p in Tracked(s) && !InStep(s, p)
  }

  /** At rest with `p` cached; `v` is another value the lift could come to hold. */
  ghost predicate Ready(s: State, t: Tid, p: int, v: int) {
    && Resting(s) && t !in s.waiting && t !in s.closing
    && p in Tracked(s) && Cached(s, p) && Held(s.lcm, p) != R.DEAD_VALUE
    && R.IsInt32(v) && v != R.DEAD_VALUE && v != Held(s.lcm, p)
  }

  // ---- reaching the cold-start poll ----

  ghost predicate NothingCached(s: State) {
    forall p | p in CacheOf(s) :: CacheOf(s)[p] == None
  }

  /** Identification and bind of an AHL lift. */
  lemma BindReachable(s: State) returns (s': State)
    requires Init(s)
    ensures Reaches(s, s') && Inv(s') && s'.crit.Free? && s'.proxy.liftType == AhlLift && s'.waiting == map[]
    ensures s'.closing.Keys == {0} && s'.params == s.params && s'.lcm == s.lcm && NothingCached(s')
  {
    InitInv(s);
    ReachesSelf(s);
    var s1 := Next(s, Identify(0));
    InvStep(s, Identify(0));
    ReachesStep(s, s, Identify(0));
    var s2 := Next(s1, Probe(0, AhlLift));
    InvStep(s1, Probe(0, AhlLift));
    ReachesStep(s, s1, Probe(0, AhlLift));
    var s3 := Next(s2, Acquire(0));
    InvStep(s2, Acquire(0));
    ReachesStep(s, s2, Acquire(0));
    assert s3.crit == Detect(0, Trying(0)) && s3.waiting == map[];
    s' := BindCompletes(s, s3);
  }

  lemma BindCompletes(s: State, s3: State) returns (s': State)
    requires Reaches(s, s3) && Inv(s3) && s3.crit == Detect(0, Trying(0)) && s3.closing == map[]
    ensures Reaches(s, s') && Inv(s') && s'.crit.Free? && s'.proxy.liftType == AhlLift
    ensures s'.waiting == s3.waiting && s'.closing.Keys == {0} && s'.params == s3.params && s'.lcm == s3.lcm
    ensures NothingCached(s')
  {
    var e := BusRead(Served);
    InvStep(s3, e);
    ReachesStep(s, s3, e);
    AnswerTells(s3.lcm, 127, 0);
    s' := BindPublishes(s, s3, Answer(s3.lcm, 127));
  }

  lemma BindPublishes(s: State, s3: State, answer: R.ReadResult) returns (s': State)
    requires s3.crit == Detect(0, Trying(0)) && s3.closing == map[] && Enabled(s3, BusRead(Served))
    requires Reaches(s, OnReply(s3, Served, answer)) && Inv(OnReply(s3, Served, answer)) && R.Conclusive(answer.code)
    requires s3.proxy.rs232Candidate
    ensures Reaches(s, s') && Inv(s') && s'.crit.Free? && s'.proxy.liftType == AhlLift
    ensures s'.waiting == s3.waiting && s'.closing.Keys == {0} && s'.params == s3.params && s'.lcm == s3.lcm
    ensures NothingCached(s')
  {
    var s4 := OnReply(s3, Served, answer);
    assert s4.crit == Detect(0, Got(answer));
    InvStep(s4, Resume);
    ReachesStep(s, s4, Resume);
    s' := OnDetected(s4, s4.crit);
  }

  /** From every power-on state there is a run to rest, with every parameter the
      lift has a value for cached as the lift holds it. */
  lemma ColdStartReachable(s: State) returns (s': State)
    requires Init(s)
    ensures Reaches(s, s') && Resting(s') && 1 !in s'.waiting && 1 !in s'.closing && s'.lcm.flags == {}
    ensures forall p | p in Tracked(s) && Held(s.lcm, p) != R.DEAD_VALUE :: Restored(s, s', p)
  {
    var s1 := BindReachable(s);
    var s2 := PollBegins(s1, 1, true);
    ReachesStep(s, s1, CallPoll(1, true));
    ReachesStep(s, Next(s1, CallPoll(1, true)), Acquire(1));
    var es := PollCompletes(s2);
    ReachesRun(s, s2, es);
    s' := RunEnd(s2, es);
    EndsFree(s2, es);
    forall p | p in Tracked(s) && Held(s.lcm, p) != R.DEAD_VALUE ensures Restored(s, s', p) {
      AllFetched(s, s2, es, p);
    }
  }

  ghost predicate Restored(s: State, s': State, p: int) {
    p in Tracked(s') && Held(s'.lcm, p) == Held(s.lcm, p) && Cached(s', p)
  }

  lemma AllFetched(s: State, s2: State, es: seq<Event>, p: int)
    requires Inv(s2) && s2.proxy.liftType == AhlLift && s2.params == s.params && s2.lcm == s.lcm
    requires s2.crit.PollFlags? && s2.crit.force && s2.crit.rd == Trying(0) && IsRun(s2, es) && AnsweredPoll(s2, es)
    requires p in Tracked(s) && Held(s.lcm, p) != R.DEAD_VALUE
    ensures Restored(s, RunEnd(s2, es), p)
  {
    assert p in Tracked(s2);
    AnsweredPollFetches(s2, es, p);
  }

  lemma {:induction false} EndsFree(s: State, es: seq<Event>)
    requires IsRun(s, es) && PollRun(s, es)
    ensures RunEnd(s, es).crit.Free?
    decreases |es|
  {
    if es != [] { EndsFree(Next(s, es[0]), es[1..]); }
  }

  // ---- a cold start without answers ----

  /** A read that finds no link. */
  lemma LinkFails(m: State) returns (m1: State)
    requires Inv(m) && m.proxy.liftType == AhlLift && InPoll(m.crit) && m.crit.rd == Trying(0)
    ensures Enabled(m, BusRead(LinkDown)) && m1 == Next(m, BusRead(LinkDown)) && Inv(m1)
    ensures m1.proxy == m.proxy && m1.lcm == m.lcm && m1.params == m.params
    ensures InPoll(m1.crit) && m1.crit.rd == Got(R.ReadResult(-1, R.LinkErr)) && Enabled(m1, Resume)
    ensures m1.crit.PollFlags? == m.crit.PollFlags? && (m.crit.Sweep? ==> m1.crit.todo == m.crit.todo)
  {
    InvStep(m, BusRead(LinkDown));
    m1 := LinkFailed(m, Answer(m.lcm, ReadTarget(m.crit)));
  }

  lemma LinkFailed(m: State, answer: R.ReadResult) returns (m1: State)
    requires Core(m) && InPoll(m.crit) && m.crit.rd == Trying(0) && Enabled(m, BusRead(LinkDown))
    ensures m1 == OnReply(m, LinkDown, answer) && m1.proxy == m.proxy && m1.lcm == m.lcm && m1.params == m.params
    ensures InPoll(m1.crit) && m1.crit.rd == Got(R.ReadResult(-1, R.LinkErr)) && LcmOk(m1.lcm) && Enabled(m1, Resume)
    ensures m1.crit.PollFlags? == m.crit.PollFlags? && (m.crit.Sweep? ==> m1.crit.todo == m.crit.todo)
  {
    m1 := OnReply(m, LinkDown, answer);
  }

  /** Going on after it: the cache is as it was. */
  lemma NothingKept(m: State) returns (m': State)
    requires Inv(m) && m.proxy.liftType == AhlLift && InPoll(m.crit) && Enabled(m, Resume)
    requires m.crit.rd == Got(R.ReadResult(-1, R.LinkErr))
    ensures m' == Next(m, Resume) && Inv(m') && GoneOn(m.crit, m') && m'.proxy.liftType == AhlLift
    ensures m'.lcm == m.lcm && m'.params == m.params && CacheOf(m') == CacheOf(m)
  {
    m' := PollGoesOn(m);
    ResumeSame(m);
  }

  /** A poll none of whose reads is answered: it returns all the same. */
  lemma {:induction false} PollWithoutLink(m: State) returns (m': State)
    requires Inv(m) && m.proxy.liftType == AhlLift && InPoll(m.crit) && m.crit.rd == Trying(0)
    ensures Reaches(m, m') && Resting(m') && m'.lcm == m.lcm && m'.params == m.params && CacheOf(m') == CacheOf(m)
    decreases m.crit.PollFlags?, if m.crit.Sweep? then |m.crit.todo| else 0
  {
    var m1 := LinkFails(m);
    var m2 := NothingKept(m1);
    ReachesSelf(m);
    ReachesStep(m, m, BusRead(LinkDown));
    ReachesStep(m, m1, Resume);
    m' := m2;
    if !m2.crit.Free? {
      m' := PollWithoutLink(m2);
      ReachesBoth(m, m2, m');
    }
  }

  /** From every power-on state the forced poll after the bind may lose its link: it
      returns, the cold-start flag is down, and every parameter whose flag was not up
      to begin with is stale, with nothing cached at all. */
  lemma ColdStartWithoutLink(s: State) returns (s': State)
    requires Init(s)
    ensures Reaches(s, s') && Resting(s') && NothingCached(s')
    ensures forall p | p in Tracked(s) && !Flagged(s, p) :: Stale(s', p)
  {
    var s1 := BindReachable(s);
    var s2 := PollBegins(s1, 1, true);
    ReachesStep(s, s1, CallPoll(1, true));
    ReachesStep(s, Next(s1, CallPoll(1, true)), Acquire(1));
    s' := PollWithoutLink(s2);
    ReachesBoth(s, s2, s');
    assert CacheOf(s2) == CacheOf(s1);
  }

  // ---- losing a parameter ----

  /** A run from `s` has come to `m`, after the cold-start poll. */
  ghost predicate At(s: State, m: State, p: int) {
    Reaches(s, m) && Warm(m) && p in Tracked(m)
  }

  lemma Go(s: State, m: State, e: Event, p: int)
    requires At(s, m, p) && Enabled(m, e)
    ensures At(s, Next(m, e), p)
    ensures Exact(m, e, p, Next(m, e))
  {
    ReachesStep(s, m, e);
    InvStep(m, e);
    SameTracked(m, e);
    StaysWarm(m, e);
    StepExact(m, e, p);
  }

  lemma GoRead(s: State, m: State, o: Outcome, answer: R.ReadResult, p: int)
    requires At(s, m, p) && Enabled(m, BusRead(o)) && answer == Answer(m.lcm, ReadTarget(m.crit))
    ensures At(s, OnReply(m, o, answer), p) && Exact(m, BusRead(o), p, OnReply(m, o, answer))
  {
    Go(s, m, BusRead(o), p);
  }

  /** The lift changes `p` by itself and flags it. */
  lemma LiftChanges(s: State, t: Tid, p: int, v: int) returns (s1: State)
    requires Ready(s, t, p, v)
    ensures At(s, s1, p) && s1.crit.Free? && t !in s1.waiting && t !in s1.closing
    ensures Flagged(s1, p) && !Cached(s1, p)
  {
    StoredKeeps(s, p, v, true, p);
    ReachesSelf(s);
    s1 := Next(s, HwChange(p, v));
    Go(s, s, HwChange(p, v), p);
  }

  /** A poll that reads flagged groups, or one forced by its caller, begins. */
  lemma AsksForFlags(s: State, s1: State, t: Tid, force: bool, p: int) returns (s3: State)
    requires At(s, s1, p) && s1.crit.Free? && t !in s1.waiting && t !in s1.closing
    ensures At(s, s3, p) && s3 == s1.(crit := PollFlags(t, force, Trying(0)))
  {
    s3 := PollBegins(s1, t, force);
    Go(s, s1, CallPoll(t, force), p);
    Go(s, Next(s1, CallPoll(t, force)), Acquire(t), p);
  }

  /** One lost reply to the flag read: the retry reads a cleared word, the poll ends
      normally, and `p` is stale. */
  lemma LostFlagReply(s: State, t: Tid, p: int, v: int) returns (s': State)
    requires Ready(s, t, p, v)
    ensures Reaches(s, s') && Stale(s', p)
  {
    var s1 := LiftChanges(s, t, p, v);
    var s3 := AsksForFlags(s, s1, t, false, p);
    var s4 := FlagReplyLost(s, s3, p);
    var s5 := ReadsNoFlags(s, s4, p);
    Go(s, s5, Resume, p);
    s' := PollReturns(s5, false);
  }

  lemma FlagReplyLost(s: State, s3: State, p: int) returns (s4: State)
    requires At(s, s3, p) && s3.crit.PollFlags? && !s3.crit.force && s3.crit.rd == Trying(0)
    requires Flagged(s3, p) && !Cached(s3, p)
    ensures At(s, s4, p) && !InStep(s4, p) && s4.lcm.flags == {} && s4.crit == PollFlags(s3.crit.t, false, Trying(1))
  {
    var answer := Answer(s3.lcm, POLLING_PARAM);
    GoRead(s, s3, ServedLost, answer, p);
    s4 := OnReply(s3, ServedLost, answer);
  }

  lemma ReadsNoFlags(s: State, s4: State, p: int) returns (s5: State)
    requires At(s, s4, p) && !InStep(s4, p) && s4.lcm.flags == {}
    requires s4.crit.PollFlags? && !s4.crit.force && s4.crit.rd.Trying?
    ensures At(s, s5, p) && !InStep(s5, p) && s5.crit == PollFlags(s4.crit.t, false, Got(R.ReadResult(0, R.NoErr)))
  {
    EmptyFlagWord(s4.lcm);
    GoRead(s, s4, Served, R.ReadResult(0, R.NoErr), p);
    s5 := FlagsAnswered(s4, R.ReadResult(0, R.NoErr), p);
  }

  lemma {:induction false} NoBitsNoMask(lo: nat, n: nat)
    ensures Mask({}, lo, n) == 0
    decreases n
  {
    if n > 0 { NoBitsNoMask(lo + 1, n - 1); }
  }

  lemma EmptyFlagWord(lcm: Lcm)
    requires LcmOk(lcm) && lcm.flags == {}
    ensures Answer(lcm, POLLING_PARAM) == R.ReadResult(0, R.NoErr)
  {
    NoBitsNoMask(0, FLAG_BITS);
  }

  /** Request exceptions end in an error code inside the read call; what can leave it
      is an exception outside its retry loop, as when the port cannot be opened again.
      A sweep that raises drops what it had still to read, also when its caller
      forced it: the flags are cleared already and the cold-start flag is down. */
  lemma RaisingSweep(s: State, t: Tid, force: bool, p: int, v: int) returns (s': State)
    requires Ready(s, t, p, v)
    ensures Reaches(s, s') && Stale(s', p)
  {
    var s1 := LiftChanges(s, t, p, v);
    var s3 := AsksForFlags(s, s1, t, force, p);
    var s4 := ReadsFlags(s, s3, p);
    Go(s, s4, Resume, p);
    var s5 := OnFlags(s4, s4.crit);
    OnlySweepIsPending(s4, p);
    Go(s, s5, Raise, p);
    s' := OnRaise(s5);
  }

  lemma ReadsFlags(s: State, s3: State, p: int) returns (s4: State)
    requires At(s, s3, p) && s3.crit.PollFlags? && s3.crit.rd == Trying(0) && !Cached(s3, p) && InStep(s3, p)
    ensures At(s, s4, p) && !Cached(s4, p) && s4.lcm.flags == {} && InStep(s4, p)
    ensures s4.crit.PollFlags? && s4.crit.rd.Got?
  {
    var answer := Answer(s3.lcm, POLLING_PARAM);
    GoRead(s, s3, Served, answer, p);
    s4 := FlagsAnswered(s3, answer, p);
  }

  lemma FlagsAnswered(s: State, answer: R.ReadResult, p: int) returns (s': State)
    requires Enabled(s, BusRead(Served)) && s.crit.PollFlags?
    ensures s' == OnReply(s, Served, answer) && s'.lcm.flags == {} && (Cached(s', p) <==> Cached(s, p))
    ensures s'.crit == PollFlags(s.crit.t, s.crit.force, Got(answer))
  {
    s' := OnReply(s, Served, answer);
  }

  lemma OnlySweepIsPending(s: State, p: int)
    requires s.crit.PollFlags? && s.crit.rd.Got? && s.lcm.flags == {} && !Cached(s, p)
    ensures var s' := OnFlags(s, s.crit);
      Exposed(s', p) && (InStep(s', p) ==> s'.crit.Sweep? && s'.crit.rd == Trying(0) && s'.crit.todo != [])
  {
  }

  /** A write whose read-back fails: the lift stored the value as sent and did not
      flag it. */
  lemma FailedReadBack(s: State, t: Tid, p: int, v: int) returns (s': State)
    requires Ready(s, t, p, v) && !Flagged(s, p)
    ensures Reaches(s, s') && Stale(s', p)
  {
    var s3 := WriteServed(s, t, p, v, v, true);
    Go(s, s3, Resume, p);
    var s4 := s3.(crit := ReadBack(t, p, Trying(0)));
    Go(s, s4, BusRead(LinkDown), p);
    var s5 := s4.(crit := ReadBack(t, p, Got(R.ReadResult(-1, R.LinkErr))), log := s4.log + [Bus(t, OpRead(p))]);
    assert s5 == Next(s4, BusRead(LinkDown));
    assert Exposed(s5, p);
    Go(s, s5, Resume, p);
    s' := Next(s5, Resume);
  }

  /** A write reaches the lift, which stores it as sent without a flag. */
  lemma WriteServed(s: State, t: Tid, p: int, value: int, sent: int, readBack: bool) returns (s3: State)
    requires Ready(s, t, p, sent) && !Flagged(s, p) && (sent == value || 102 <= p <= 104)
    ensures At(s, s3, p) && Exposed(s3, p) && Held(s3.lcm, p) == sent
    ensures s3.crit == Write(t, p, value, sent, readBack, Wrote(true), true)
  {
    var s2 := WriteBegins(s, t, p, value, sent, readBack);
    StoredKeeps(s2, p, sent, false, p);
    Go(s, s2, BusWrite(Served, sent, false), p);
    s3 := OnWrite(s2, Served, sent, false);
  }

  lemma WriteBegins(s: State, t: Tid, p: int, value: int, sent: int, readBack: bool) returns (s2: State)
    requires Ready(s, t, p, sent) && (sent == value || 102 <= p <= 104)
    ensures At(s, s2, p) && s2.lcm == s.lcm && s2.proxy == s.proxy
    ensures s2.crit == Write(t, p, value, sent, readBack, Writing(0), false)
  {
    ReachesSelf(s);
    var call := CallWrite(t, p, value, sent, readBack);
    Go(s, s, call, p);
    var s1 := s.(waiting := s.waiting[t := WriteReq(p, value, sent, readBack)]);
    assert s1 == Next(s, call);
    Go(s, s1, Acquire(t), p);
    s2 := Next(s1, Acquire(t));
  }

  /** A reset-alarm value sent in another form than it is mirrored. */
  lemma MirrorUnlike(s: State, t: Tid, p: int, value: int, sent: int) returns (s': State)
    requires Ready(s, t, p, sent) && !Flagged(s, p) && 102 <= p <= 104 && sent != value
    ensures Reaches(s, s') && Stale(s', p)
  {
    var s3 := WriteServed(s, t, p, value, sent, false);
    Go(s, s3, Resume, p);
    s' := OnWrote(s3, s3.crit);
  }

  // ---- from power-on ----

  /** For every power-on state and every parameter with a value: a lost flag reply,
      a raising sweep and a failed read-back each leave it stale in some run. */
  lemma LossesReachable(s: State, p: int, v: int, force: bool) returns (a: State, b: State, c: State)
    requires Init(s) && p in Tracked(s) && Held(s.lcm, p) != R.DEAD_VALUE
    requires R.IsInt32(v) && v != R.DEAD_VALUE && v != Held(s.lcm, p)
    ensures Reaches(s, a) && Stale(a, p) && Reaches(s, b) && Stale(b, p) && Reaches(s, c) && Stale(c, p)
  {
    var m := ColdStartReachable(s);
    assert Restored(s, m, p);
    a := LostFlagReply(m, 1, p, v);
    b := RaisingSweep(m, 1, force, p, v);
    c := FailedReadBack(m, 1, p, v);
    ReachesBoth(s, m, a);
    ReachesBoth(s, m, b);
    ReachesBoth(s, m, c);
  }
}
