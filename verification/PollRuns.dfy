/** What a completed poll fetches: an exact account for every parameter, for polls
    that read flagged groups and for polls that read everything. */
module PollRuns {
  import opened Text
  import opened Ahl
  import opened LiftProxyModel
  import opened LiftProxySafety
  import opened CacheCoherence
  import R = ModbusRegisters

  ghost predicate InPoll(c: Crit) {
    c.PollFlags? || c.Sweep?
  }

  /** The poll gets its answers and the lift does not change meanwhile: no call
      raises, the flag word is not lost, and every call ends in a value or in the
      lift's own error. Attempts may fail, and anyone may queue. */
  ghost predicate Calm(s: State, e: Event)
    requires Enabled(s, e)
  {
    match e
    case HwChange(_, _) => false
    case Raise => false
    case BusRead(o) => s.crit.PollFlags? && !s.crit.force ==> o != ServedLost
    case Resume =>
      && (s.crit.PollFlags? && !s.crit.force ==> s.crit.rd.r.code == R.NoErr)
      && (s.crit.Sweep? ==> R.Conclusive(s.crit.rd.r.code))
    case _ => true
  }

  /** One poll from inside the lock until it returns, and nothing after it. */
  ghost predicate PollRun(s: State, es: seq<Event>)
    requires IsRun(s, es)
    decreases |es|
  {
    if es == [] then s.crit.Free?
    else InPoll(s.crit) && !es[0].Raise? && PollRun(Next(s, es[0]), es[1..])
  }

  // ---- any poll that returns ----

  /** The answer to a sweep's read of `p` arrives, and it is a value. */
  ghost predicate Fetches(s: State, e: Event, p: int)
    requires Enabled(s, e)
  {
    e.Resume? && s.crit.Sweep? && s.crit.todo[0] == p && s.crit.rd.r.code == R.NoErr
  }

  ghost predicate FetchedIn(s: State, es: seq<Event>, p: int)
    requires IsRun(s, es)
    decreases |es|
  {
    es != [] && (Fetches(s, es[0], p) || FetchedIn(Next(s, es[0]), es[1..], p))
  }

  ghost predicate Untouched(es: seq<Event>, p: int) {
    forall e | e in es :: e.HwChange? ==> e.p != p
  }

  /** The lift holds `v`, and a value on its way to the sweep is `v`. */
  ghost predicate Steadfast(s: State, p: int, v: int) {
    && Held(s.lcm, p) == v
    && (s.crit.Sweep? && s.crit.todo != [] && s.crit.todo[0] == p && s.crit.rd.Got? && s.crit.rd.r.code == R.NoErr ==>
          s.crit.rd.r.value == v)
  }

  lemma ReplySteadfast(s: State, o: Outcome, answer: R.ReadResult, p: int, v: int)
    requires Core(s) && InPoll(s.crit) && Steadfast(s, p, v) && p in Tracked(s) && Enabled(s, BusRead(o))
    requires Tells(s.lcm, ReadTarget(s.crit), answer, p)
    ensures var s' := OnReply(s, o, answer);
      Steadfast(s', p, v) && (Cached(s', p) <==> Cached(s, p)) && InPoll(s'.crit)
  {
    if s.crit.Sweep? { assert ReadTarget(s.crit) in s.crit.todo; }
  }

  lemma NextReadSteadfast(s: State, t: Tid, force: bool, todo: seq<int>, p: int, v: int)
    requires Held(s.lcm, p) == v
    ensures var s' := NextRead(s, t, force, todo);
      && Steadfast(s', p, v) && (Cached(s', p) <==> Cached(s, p))
      && (InPoll(s'.crit) || (s'.crit.Free? && !s'.proxy.forceReadAll))
  {
  }

  lemma SweptSteadfast(s: State, p: int, v: int)
    requires Core(s) && s.crit.Sweep? && s.crit.rd.Got? && Steadfast(s, p, v) && p in Tracked(s)
    ensures var s' := OnSwept(s, s.crit);
      && Steadfast(s', p, v) && (Cached(s', p) <==> Cached(s, p) || (s.crit.todo[0] == p && s.crit.rd.r.code == R.NoErr))
      && (InPoll(s'.crit) || (s'.crit.Free? && !s'.proxy.forceReadAll))
  {
    var c := s.crit;
    SweptCaches(s, p);
    NextReadSteadfast(Swept(s, c.todo[0], c.rd.r), c.t, c.force, c.todo[1..], p, v);
  }

  lemma FlagsSteadfast(s: State, p: int, v: int)
    requires s.crit.PollFlags? && s.crit.rd.Got? && Steadfast(s, p, v)
    ensures var s' := OnFlags(s, s.crit);
      && Steadfast(s', p, v) && (Cached(s', p) <==> Cached(s, p))
      && (InPoll(s'.crit) || (s'.crit.Free? && !s'.proxy.forceReadAll))
  {
    var c := s.crit;
    var mask := if c.force then 0x7FFF_FFFF else c.rd.r.value;
    NextReadSteadfast(s, c.t, c.force, [], p, v);
    NextReadSteadfast(s, c.t, c.force, InDatabase(Decode(Table(s), mask), s.params), p, v);
  }

  lemma StepSteadfast(s: State, e: Event, p: int, v: int)
    requires Core(s) && InPoll(s.crit) && Steadfast(s, p, v) && p in Tracked(s)
    requires Enabled(s, e) && !e.Raise? && (e.HwChange? ==> e.p != p)
    ensures var s' := Next(s, e);
      && Steadfast(s', p, v) && (Cached(s', p) <==> Cached(s, p) || Fetches(s, e, p))
      && (InPoll(s'.crit) || (s'.crit.Free? && !s'.proxy.forceReadAll))
  {
    match e
    case BusRead(o) =>
      AnswerTells(s.lcm, ReadTarget(s.crit), p);
      ReplySteadfast(s, o, Answer(s.lcm, ReadTarget(s.crit)), p, v);
    case Resume => if s.crit.PollFlags? { FlagsSteadfast(s, p, v); } else { SweptSteadfast(s, p, v); }
    case HwChange(q, w) => StoredKeeps(s, q, w, true, p);
    case _ => OutsideStep(s, e);
  }

  lemma {:induction false} SteadfastRun(s: State, es: seq<Event>, p: int, v: int)
    requires Inv(s) && InPoll(s.crit) && s.proxy.liftType == AhlLift && Steadfast(s, p, v) && p in Tracked(s)
    requires IsRun(s, es) && PollRun(s, es) && Untouched(es, p)
    ensures Cached(RunEnd(s, es), p) <==> Cached(s, p) || FetchedIn(s, es, p)
    ensures RunEnd(s, es).crit.Free? && !RunEnd(s, es).proxy.forceReadAll && RunEnd(s, es).proxy.liftType == AhlLift
    decreases |es|
  {
    var s' := Next(s, es[0]);
    StepSteadfast(s, es[0], p, v);
    InvStep(s, es[0]);
    SafeStep(s, es[0]);
    SameTracked(s, es[0]);
    if InPoll(s'.crit) {
      SteadfastRun(s', es[1..], p, v);
    } else {
      assert es[1..] == [];
    }
  }

  /** After any poll that returns, whatever failed in it and whoever else changed
      meanwhile: a parameter the lift did not change is cached as the lift holds it if
      and only if it was so before, or some answer of the sweep for it was a value.
      Either way the cold-start flag is down. */
  lemma PollFetches(s: State, es: seq<Event>, p: int)
    requires Inv(s) && s.proxy.liftType == AhlLift && p in Tracked(s)
    requires s.crit.PollFlags? && s.crit.rd == Trying(0)
    requires IsRun(s, es) && PollRun(s, es) && Untouched(es, p)
    ensures var s' := RunEnd(s, es);
      && s'.crit.Free? && !s'.proxy.forceReadAll
      && (Cached(s', p) <==> Cached(s, p) || FetchedIn(s, es, p))
  {
    SteadfastRun(s, es, p, Held(s.lcm, p));
  }

  // ---- polls that get their answers ----

  /** A poll that gets its answers, from inside the lock until it returns. */
  ghost predicate AnsweredPoll(s: State, es: seq<Event>)
    requires IsRun(s, es)
    decreases |es|
  {
    if es == [] then s.crit.Free?
    else InPoll(s.crit) && Calm(s, es[0]) && AnsweredPoll(Next(s, es[0]), es[1..])
  }

  /** What is known of `p` at the start: whether it was cached, whether the poll
      wants it, and what the lift holds. */
  datatype Goal = Goal(p: int, was: bool, want: bool, force: bool, v: int)

  ghost predicate Met(g: Goal) {
    g.was || (g.want && g.v != R.DEAD_VALUE)
  }

  ghost predicate Progress(s: State, g: Goal) {
    && Held(s.lcm, g.p) == g.v
    && match s.crit
       case PollFlags(_, force, rd) =>
         && force == g.force && (force ==> g.want) && Cached(s, g.p) == g.was
         && (!force && rd.Trying? ==> (Flagged(s, g.p) <==> g.want))
         && (!force && rd.Got? && rd.r.code == R.NoErr ==> (g.p in Decode(Table(s), rd.r.value) <==> g.want))
       case Sweep(_, _, todo, rd) =>
         && (g.p in todo ==> g.want && (g.was ==> Cached(s, g.p)) && (Cached(s, g.p) ==> Met(g)))
         && (g.p !in todo ==> (Cached(s, g.p) <==> Met(g)))
         && (todo != [] && todo[0] == g.p && rd.Got? && R.Conclusive(rd.r.code) ==>
               rd.r == if g.v == R.DEAD_VALUE then R.ReadResult(-1, R.LcmErr) else R.ReadResult(g.v, R.NoErr))
       case Free => (Cached(s, g.p) <==> Met(g)) && !s.proxy.forceReadAll
       case _ => false
  }

  lemma ReplyProgress(s: State, o: Outcome, answer: R.ReadResult, g: Goal)
    requires Core(s) && InPoll(s.crit) && s.proxy.liftType == AhlLift && Progress(s, g) && g.p in Tracked(s)
    requires Enabled(s, BusRead(o)) && Calm(s, BusRead(o))
    requires Tells(s.lcm, ReadTarget(s.crit), answer, g.p)
    ensures Progress(OnReply(s, o, answer), g)
  {
    if s.crit.Sweep? { assert ReadTarget(s.crit) in s.crit.todo; }
  }

  lemma NextReadProgress(s: State, t: Tid, force: bool, todo: seq<int>, g: Goal)
    requires Held(s.lcm, g.p) == g.v
    requires g.p in todo ==> g.want && (g.was ==> Cached(s, g.p)) && (Cached(s, g.p) ==> Met(g))
    requires g.p !in todo ==> (Cached(s, g.p) <==> Met(g))
    ensures Progress(NextRead(s, t, force, todo), g)
  {
  }

  lemma FlagsProgress(s: State, g: Goal)
    requires Core(s) && s.proxy.liftType == AhlLift && Progress(s, g) && g.p in Tracked(s)
    requires s.crit.PollFlags? && s.crit.rd.Got? && (s.crit.force || s.crit.rd.r.code == R.NoErr)
    ensures Progress(OnFlags(s, s.crit), g)
  {
    var c := s.crit;
    var mask := if c.force then 0x7FFF_FFFF else c.rd.r.value;
    FlagsTodo(s, mask, g.p);
    if !c.force && mask == 0 {
      NextReadProgress(s, c.t, c.force, [], g);
    } else {
      NextReadProgress(s, c.t, c.force, InDatabase(Decode(Table(s), mask), s.params), g);
    }
  }

  lemma SweptProgress(s: State, g: Goal)
    requires Core(s) && s.proxy.liftType == AhlLift && Progress(s, g) && g.p in Tracked(s)
    requires s.crit.Sweep? && s.crit.rd.Got? && R.Conclusive(s.crit.rd.r.code)
    ensures Progress(OnSwept(s, s.crit), g)
  {
    var c := s.crit;
    var q, rest := c.todo[0], c.todo[1..];
    assert g.p in c.todo <==> g.p == q || g.p in rest;
    SweptCaches(s, g.p);
    NextReadProgress(Swept(s, q, c.rd.r), c.t, c.force, rest, g);
  }

  lemma StepProgress(s: State, e: Event, g: Goal)
    requires Core(s) && InPoll(s.crit) && s.proxy.liftType == AhlLift && Progress(s, g) && g.p in Tracked(s)
    requires Enabled(s, e) && Calm(s, e)
    ensures Progress(Next(s, e), g)
  {
    match e
    case BusRead(o) =>
      AnswerTells(s.lcm, ReadTarget(s.crit), g.p);
      ReplyProgress(s, o, Answer(s.lcm, ReadTarget(s.crit)), g);
    case Resume => if s.crit.PollFlags? { FlagsProgress(s, g); } else { SweptProgress(s, g); }
    case _ => OutsideStep(s, e);
  }

  lemma {:induction false} PollProgress(s: State, es: seq<Event>, g: Goal)
    requires Inv(s) && s.proxy.liftType == AhlLift && Progress(s, g) && g.p in Tracked(s)
    requires IsRun(s, es) && AnsweredPoll(s, es)
    ensures Progress(RunEnd(s, es), g) && Inv(RunEnd(s, es)) && RunEnd(s, es).crit.Free?
    ensures RunEnd(s, es).proxy.liftType == AhlLift && Tracked(RunEnd(s, es)) == Tracked(s)
    decreases |es|
  {
    if es != [] {
      StepProgress(s, es[0], g);
      InvStep(s, es[0]);
      SafeStep(s, es[0]);
      SameTracked(s, es[0]);
      PollProgress(Next(s, es[0]), es[1..], g);
    }
  }

  /** After any poll that got its answers, whatever went before: a parameter is
      cached as the lift holds it if and only if it was so already, or the poll was
      to fetch it and the lift has a value for it. */
  lemma AnsweredPollFetches(s: State, es: seq<Event>, p: int)
    requires Inv(s) && s.proxy.liftType == AhlLift && p in Tracked(s)
    requires s.crit.PollFlags? && s.crit.rd == Trying(0) && IsRun(s, es) && AnsweredPoll(s, es)
    ensures var s' := RunEnd(s, es);
      && Inv(s') && s'.crit.Free? && s'.proxy.liftType == AhlLift && !s'.proxy.forceReadAll
      && Tracked(s') == Tracked(s) && Held(s'.lcm, p) == Held(s.lcm, p)
      && (Cached(s', p) <==>
            Cached(s, p) || (Held(s.lcm, p) != R.DEAD_VALUE && (s.crit.force || Flagged(s, p))))
  {
    var g := Goal(p, Cached(s, p), s.crit.force || Flagged(s, p), s.crit.force, Held(s.lcm, p));
    PollProgress(s, es, g);
  }

  /** A forced poll that gets its answers repairs everything that was ever lost. */
  lemma ForcedPollRepairs(s: State, es: seq<Event>, p: int)
    requires Inv(s) && s.proxy.liftType == AhlLift && p in Tracked(s) && Held(s.lcm, p) != R.DEAD_VALUE
    requires s.crit.PollFlags? && s.crit.force && s.crit.rd == Trying(0) && IsRun(s, es) && AnsweredPoll(s, es)
    ensures Cached(RunEnd(s, es), p)
  {
    AnsweredPollFetches(s, es, p);
  }

  // ---- polls can complete ----

  /** A poll that only reads leaves everyone else where they were. */
  ghost predicate Undisturbed(s: State, s': State) {
    && (s.lcm.flags == {} ==> s'.lcm.flags == {})
    && Inv(s') && s'.proxy.liftType == AhlLift && s'.waiting == s.waiting && s'.closing == s.closing
  }

  /** The poll is over, and its flag read, if it was still to come, took the flags. */
  ghost predicate Finished(s: State, s': State)
    requires InPoll(s.crit)
  {
    && Undisturbed(s, s') && !s'.proxy.forceReadAll
    && ((s.crit.PollFlags? && s.crit.rd.Trying?) || s.lcm.flags == {} ==> s'.lcm.flags == {})
  }

  /** Every poll in the lock can run to its end, wherever its current read stands;
      with that read still to be answered, it can get all its answers. */
  lemma {:induction false} PollCompletes(s: State) returns (es: seq<Event>)
    requires Inv(s) && s.proxy.liftType == AhlLift && InPoll(s.crit)
    ensures IsRun(s, es) && PollRun(s, es) && Finished(s, RunEnd(s, es))
    ensures s.crit.rd.Trying? ==> AnsweredPoll(s, es)
    decreases s.crit.PollFlags?, if s.crit.Sweep? then |s.crit.todo| else 0, if s.crit.rd.Trying? then 2 else 1
  {
    if s.crit.rd.Trying? {
      var s1 := ServedAnswer(s);
      var rest := PollCompletesAnswered(s1);
      es := [BusRead(Served)] + rest;
      assert Finished(s, RunEnd(s1, rest));
    } else {
      es := PollCompletesAnswered(s);
    }
  }

  lemma {:induction false} PollCompletesAnswered(s: State) returns (es: seq<Event>)
    requires Inv(s) && s.proxy.liftType == AhlLift && InPoll(s.crit) && s.crit.rd.Got?
    ensures IsRun(s, es) && PollRun(s, es) && Finished(s, RunEnd(s, es))
    ensures Calm(s, Resume) ==> AnsweredPoll(s, es)
    decreases s.crit.PollFlags?, if s.crit.Sweep? then |s.crit.todo| else 0, 0
  {
    var s2 := PollGoesOn(s);
    es := [];
    if !s2.crit.Free? { es := PollCompletes(s2); }
    Prepend(s, Resume, es);
    es := [Resume] + es;
  }

  /** A served read ends in a value or in the lift's own error. */
  lemma ServedAnswer(s: State) returns (s1: State)
    requires Inv(s) && s.proxy.liftType == AhlLift && InPoll(s.crit) && s.crit.rd.Trying?
    ensures Inv(s1) && Answered(s, s1)
    ensures forall rest | IsRun(s1, rest) && PollRun(s1, rest) && AnsweredPoll(s1, rest) :: Prefixed(s, BusRead(Served), s1, rest)
  {
    InvStep(s, BusRead(Served));
    AnswerTells(s.lcm, ReadTarget(s.crit), 0);
    s1 := ServedReply(s, Answer(s.lcm, ReadTarget(s.crit)));
    ServedLeads(s, s1);
  }

  lemma ServedLeads(s: State, s1: State)
    requires InPoll(s.crit) && Enabled(s, BusRead(Served)) && Calm(s, BusRead(Served)) && s1 == Next(s, BusRead(Served))
    ensures forall rest | IsRun(s1, rest) && PollRun(s1, rest) && AnsweredPoll(s1, rest) :: Prefixed(s, BusRead(Served), s1, rest)
  {
    forall rest | IsRun(s1, rest) && PollRun(s1, rest) && AnsweredPoll(s1, rest) ensures Prefixed(s, BusRead(Served), s1, rest) {
      Prepend(s, BusRead(Served), rest);
    }
  }

  /** The step before an answered poll's run makes another. */
  ghost predicate Prefixed(s: State, e: Event, s1: State, rest: seq<Event>)
    requires IsRun(s1, rest)
  {
    var es := [e] + rest;
    IsRun(s, es) && PollRun(s, es) && AnsweredPoll(s, es) && RunEnd(s, es) == RunEnd(s1, rest)
  }

  ghost predicate Answered(s: State, s1: State)
    requires InPoll(s.crit)
  {
    && (s.crit.PollFlags? || s.lcm.flags == {} ==> s1.lcm.flags == {})
    && s1.proxy == s.proxy && s1.waiting == s.waiting && s1.closing == s.closing && Enabled(s1, Resume) && Calm(s1, Resume)
    && InPoll(s1.crit) && s1.crit.PollFlags? == s.crit.PollFlags? && (s.crit.Sweep? ==> s1.crit.todo == s.crit.todo)
  }

  lemma ServedReply(s: State, answer: R.ReadResult) returns (s1: State)
    requires Core(s) && InPoll(s.crit) && s.crit.rd.Trying? && Enabled(s, BusRead(Served))
    requires Tells(s.lcm, ReadTarget(s.crit), answer, 0)
    ensures s1 == OnReply(s, Served, answer) && Answered(s, s1)
  {
    if s.crit.Sweep? { assert ReadTarget(s.crit) in s.crit.todo; }
    s1 := OnReply(s, Served, answer);
    ReplyKeeps(s, Served, answer);
  }

  lemma PollGoesOn(s: State) returns (s': State)
    requires Inv(s) && s.proxy.liftType == AhlLift && InPoll(s.crit) && Enabled(s, Resume)
    ensures s' == Next(s, Resume) && Undisturbed(s, s') && GoneOn(s.crit, s')
  {
    InvStep(s, Resume);
    ResumeSame(s);
    if s.crit.PollFlags? { FlagsGoOn(s); } else { SweptGoesOn(s); }
    s' := OnResume(s);
  }

  /** Done, or with fewer parameters left to read. */
  ghost predicate GoneOn(c: Crit, s': State)
    requires InPoll(c)
  {
    if s'.crit.Free? then !s'.proxy.forceReadAll
    else s'.crit.Sweep? && s'.crit.rd == Trying(0) && (c.Sweep? ==> |s'.crit.todo| < |c.todo|)
  }

  lemma FlagsGoOn(s: State)
    requires s.crit.PollFlags? && s.crit.rd.Got?
    ensures var s' := OnFlags(s, s.crit); GoneOn(s.crit, s') && s'.waiting == s.waiting && s'.closing == s.closing
  {
  }

  lemma SweptGoesOn(s: State)
    requires s.crit.Sweep? && s.crit.rd.Got? && s.crit.todo != []
    ensures var s' := OnSwept(s, s.crit); GoneOn(s.crit, s') && s'.waiting == s.waiting && s'.closing == s.closing
  {
    var s1 := Swept(s, s.crit.todo[0], s.crit.rd.r);
    assert s1.waiting == s.waiting && s1.closing == s.closing;
  }

  lemma Prepend(s: State, e: Event, es: seq<Event>)
    requires Enabled(s, e) && IsRun(Next(s, e), es) && PollRun(Next(s, e), es)
    requires InPoll(s.crit) && !e.Raise?
    ensures IsRun(s, [e] + es) && PollRun(s, [e] + es) && RunEnd(s, [e] + es) == RunEnd(Next(s, e), es)
    ensures Calm(s, e) && AnsweredPoll(Next(s, e), es) ==> AnsweredPoll(s, [e] + es)
  {
    assert ([e] + es)[1..] == es;
  }

  // ---- after a failed read-back ----

  /** A poll asked for and begun at rest. */
  lemma PollBegins(s: State, t: Tid, force: bool) returns (s': State)
    requires Inv(s) && s.proxy.liftType == AhlLift && s.crit.Free? && t !in s.waiting && t !in s.closing
    ensures Enabled(s, CallPoll(t, force)) && Enabled(Next(s, CallPoll(t, force)), Acquire(t))
    ensures s' == Next(Next(s, CallPoll(t, force)), Acquire(t)) && Inv(s')
    ensures s' == s.(crit := PollFlags(t, force || s.proxy.forceReadAll, Trying(0)))
  {
    var s1 := Next(s, CallPoll(t, force));
    InvStep(s, CallPoll(t, force));
    s' := Next(s1, Acquire(t));
    InvStep(s1, Acquire(t));
    assert s1.waiting - {t} == s.waiting;
  }

  /** The next poll that reads only flagged groups corrects a failed read-back if and
      only if the cache was right anyway, or the lift has flagged the group and
      still has a value. */
  lemma ReadBackCorrected(s: State, t: Tid, es: seq<Event>)
    requires Inv(s) && s.crit.ReadBack? && s.crit.rd.Got? && s.crit.rd.r.code != R.NoErr
    requires !s.proxy.forceReadAll && s.crit.p in Tracked(s) && t !in s.waiting && t !in s.closing
    ensures var s1 := Next(s, Resume);
      && s1.crit.Free? && Enabled(s1, CallPoll(t, false)) && Enabled(Next(s1, CallPoll(t, false)), Acquire(t))
      && var s2 := Next(Next(s1, CallPoll(t, false)), Acquire(t));
      IsRun(s2, es) && AnsweredPoll(s2, es) ==>
        (Cached(RunEnd(s2, es), s.crit.p) <==>
           Cached(s, s.crit.p) || (Held(s.lcm, s.crit.p) != R.DEAD_VALUE && Flagged(s, s.crit.p)))
  {
    var s1 := Next(s, Resume);
    InvStep(s, Resume);
    var s2 := PollBegins(s1, t, false);
    assert Tracked(s2) == Tracked(s);
    if IsRun(s2, es) && AnsweredPoll(s2, es) { AnsweredPollFetches(s2, es, s.crit.p); }
  }
}
