/** Coherence of the AHL parameter cache with the lift, over every run of the
    proxy: polls, writes, read-backs, live reads, failures and changes made by
    the lift itself, in any interleaving. The cache falls behind exactly at the
    steps named by `Loses`, and catches up exactly at those named by `Recovers`. */
module CacheCoherence {
  import opened Bits
  import opened Text
  import opened Ahl
  import opened LiftProxyModel
  import opened LiftProxySafety
  import R = ModbusRegisters

  // ---- being in step ----

  /** The cache holds what the lift holds. */
  ghost predicate Cached(s: State, p: int) {
    p in CacheOf(s) && CacheOf(s)[p] == Some(Held(s.lcm, p))
  }

  /** The coroutine inside the lock has yet to deal with `p`. */
  ghost predicate Pending(s: State, p: int) {
    match s.crit
    case PollFlags(_, force, rd) =>
      force || (rd.Got? && rd.r.code == R.NoErr && p in Decode(Table(s), rd.r.value))
    case Sweep(_, _, todo, _) => p in todo
    case Write(_, q, _, _, _, _, touched) => touched && p == q
    case ReadBack(_, q, _) => p == q
    case _ => false
  }

  ghost predicate InStep(s: State, p: int) {
    Cached(s, p) || Flagged(s, p) || Pending(s, p)
  }

  ghost predicate ForcedPoll(c: Crit) {
    (c.PollFlags? || c.Sweep?) && c.force
  }

  /** A forced poll has returned since the bind, or is under way. */
  ghost predicate Active(s: State) {
    s.proxy.liftType == AhlLift && (!s.proxy.forceReadAll || ForcedPoll(s.crit))
  }

  // ---- where the cache falls behind, and where it catches up ----

  /** Neither cached nor flagged: only what is pending can still fetch `p`. */
  ghost predicate Exposed(s: State, p: int) {
    !Cached(s, p) && !Flagged(s, p)
  }

  /** The guards of the losing branches: the flags are cleared by a read that no
      poll sees the answer to; a sweep or read-back ends without a value; a write
      that may have reached the lift fails; the mirrored value is not the one the
      lift holds; an exception drops what is pending. */
  ghost predicate Loses(s: State, e: Event, p: int)
    requires Enabled(s, e)
  {
    match e
    case BusRead(o) =>
      && ReadTarget(s.crit) == POLLING_PARAM && (o == Served || o == ServedLost)
      && !(s.crit.PollFlags? && (s.crit.force || o == Served))
      && Flagged(s, p) && !Cached(s, p)
    case Resume =>
      (match s.crit
       case Sweep(_, _, todo, rd) => todo[0] == p && p !in todo[1..] && rd.r.code != R.NoErr && Exposed(s, p)
       case ReadBack(_, q, rd) => q == p && rd.r.code != R.NoErr && Exposed(s, p)
       case Write(_, q, value, _, readBack, wr, touched) =>
         q == p &&
         if wr.ok then !readBack && Held(s.lcm, p) != value && !Flagged(s, p) else touched && Exposed(s, p)
       case _ => false)
    case Raise => Exposed(s, p)
    case _ => false
  }

  ghost predicate SameGroup(s: State, p: int, q: int) {
    FlagOf(s.lcm.newFirmware, p) == FlagOf(s.lcm.newFirmware, q)
  }

  /** The lift flags a change somewhere in the group of `p`, a forced poll begins,
      or `p` is written. */
  ghost predicate Recovers(s: State, e: Event, p: int)
    requires Enabled(s, e)
  {
    match e
    case HwChange(q, _) => SameGroup(s, p, q)
    case Acquire(t) => s.waiting[t] == PollReq(true)
    case BusWrite(o, _, flagged) =>
      (o == Served || o == ServedLost) && (s.crit.p == p || (flagged && SameGroup(s, p, s.crit.p)))
    case _ => false
  }

  // ---- the invariant ----

  /** A value on its way still describes the lift, unless the lift has flagged a change. */
  ghost predicate Fresh(s: State, p: int, r: R.ReadResult) {
    r.code == R.NoErr ==> Held(s.lcm, p) == r.value || Flagged(s, p)
  }

  ghost predicate CritOk(s: State) {
    match s.crit
    case Detect(_, rd) => rd.Got? ==>
      && (rd.r.code == R.NoErr ==> s.lcm.newFirmware)
      && (rd.r.code == R.LcmErr ==> !s.lcm.newFirmware)
    case Sweep(_, _, todo, rd) =>
      && todo != [] && (forall p | p in todo :: p in Tracked(s))
      && (rd.Got? ==> Fresh(s, todo[0], rd.r))
    case Write(_, p, _, sent, _, wr, touched) =>
      && (touched && p in Tracked(s) ==> Held(s.lcm, p) == sent || Flagged(s, p))
      && (wr == Wrote(true) ==> touched)
    case ReadBack(_, p, rd) => rd.Got? && p in Tracked(s) ==> Fresh(s, p, rd.r)
    case _ => true
  }

  /** The polling table in use is the one the lift's firmware uses. */
  ghost predicate TableMatches(s: State) {
    s.proxy.liftType == AhlLift ==> Table(s) == s.lcm.newFirmware
  }

  ghost predicate Kept(s: State) {
    LcmOk(s.lcm) && TableMatches(s) && CritOk(s)
  }

  ghost predicate Core(s: State) {
    Binding(s) && Kept(s)
  }

  ghost predicate Inv(s: State) {
    Safe(s) && Kept(s)
  }

  // ---- facts about the wire ----

  /** What a served read tells about parameter `p`: the flag word decodes to
      exactly the flagged groups, any other word is the value held. */
  ghost predicate Tells(lcm: Lcm, q: int, answer: R.ReadResult, p: int) {
    if q == POLLING_PARAM then
      answer.code == R.NoErr && (p in Decode(lcm.newFirmware, answer.value) <==> FlagOf(lcm.newFirmware, p) in lcm.flags)
    else
      answer == if Held(lcm, q) == R.DEAD_VALUE then R.ReadResult(-1, R.LcmErr) else R.ReadResult(Held(lcm, q), R.NoErr)
  }

  lemma AnswerTells(lcm: Lcm, q: int, p: int)
    requires LcmOk(lcm)
    ensures Tells(lcm, q, Answer(lcm, q), p)
  {
    FlagsDecode(lcm, Mask(lcm.flags, 0, FLAG_BITS), p);
  }

  lemma FlagWordBits(flags: set<nat>, b: nat)
    requires b < FLAG_BITS
    ensures Bit(Mask(flags, 0, FLAG_BITS), b) <==> b in flags
  {
    MaskBit(flags, 0, FLAG_BITS, b);
  }

  /** Whatever the set of flags, the polled word decodes to exactly its groups. */
  lemma FlagsDecode(lcm: Lcm, word: int, p: int)
    requires LcmOk(lcm) && word == Mask(lcm.flags, 0, FLAG_BITS)
    ensures p in Decode(lcm.newFirmware, word) <==> FlagOf(lcm.newFirmware, p) in lcm.flags
  {
    var b := FlagOf(lcm.newFirmware, p);
    DecodeMembers(lcm.newFirmware, word, p);
    if b >= 0 { FlagWordBits(lcm.flags, b); }
  }

  /** A stored value and, if flagged, its group. */
  lemma StoredKeeps(s: State, q: int, v: int, flagged: bool, p: int)
    ensures var lcm := Stored(s.lcm, q, v, flagged);
      && lcm.newFirmware == s.lcm.newFirmware
      && (FlagOf(s.lcm.newFirmware, p) >= 0 ==>
            (FlagOf(s.lcm.newFirmware, p) in lcm.flags <==> Flagged(s, p) || (flagged && SameGroup(s, p, q))))
      && (p != q ==> Held(lcm, p) == Held(s.lcm, p))
      && (p == q ==> Held(lcm, p) == v)
  {
  }

  lemma FreshKept(s: State, q: int, v: int, p: int, r: R.ReadResult)
    requires Fresh(s, p, r) && p in Tracked(s)
    ensures Fresh(s.(lcm := Stored(s.lcm, q, v, true)), p, r)
  {
    StoredKeeps(s, q, v, true, p);
  }

  // ---- every step keeps the invariant ----

  lemma HwKeeps(s: State, q: int, v: int)
    requires Core(s) && Enabled(s, HwChange(q, v))
    ensures Kept(s.(lcm := Stored(s.lcm, q, v, true)))
  {
    var s' := s.(lcm := Stored(s.lcm, q, v, true));
    assert Tracked(s') == Tracked(s);
    match s.crit
    case Sweep(_, _, todo, rd) =>
      if rd.Got? { FreshKept(s, q, v, todo[0], rd.r); }
    case Write(_, p, _, _, _, _, _) => StoredKeeps(s, q, v, true, p);
    case ReadBack(_, p, rd) =>
      if rd.Got? && p in Tracked(s) { FreshKept(s, q, v, p, rd.r); }
    case _ =>
  }

  lemma OutsideKeeps(s: State, e: Event)
    requires Core(s) && Enabled(s, e) && Outside(e)
    ensures Kept(Next(s, e))
  {
    if e.HwChange? {
      HwKeeps(s, e.p, e.v);
    } else {
      OutsideStep(s, e);
      assert Tracked(Next(s, e)) == Tracked(s);
    }
  }

  lemma ReplyKeeps(s: State, o: Outcome, answer: R.ReadResult)
    requires Core(s) && Enabled(s, BusRead(o)) && Tells(s.lcm, ReadTarget(s.crit), answer, 0)
    ensures Kept(OnReply(s, o, answer))
  {
    var s' := OnReply(s, o, answer);
    assert Tracked(s') == Tracked(s);
    if s.crit.Sweep? { assert ReadTarget(s.crit) in s.crit.todo; }
  }

  lemma WriteKeeps(s: State, o: Outcome, stored: int, flagged: bool)
    requires Core(s) && Enabled(s, BusWrite(o, stored, flagged))
    ensures Kept(OnWrite(s, o, stored, flagged))
  {
    assert Tracked(OnWrite(s, o, stored, flagged)) == Tracked(s);
    StoredKeeps(s, s.crit.p, stored, flagged, s.crit.p);
  }

  /** The list a poll decodes holds exactly the tracked parameters it has to read. */
  lemma FlagsTodo(s: State, mask: int, p: int)
    requires s.proxy.liftType == AhlLift && TableMatches(s)
    ensures var todo := InDatabase(Decode(Table(s), mask), s.params);
      && (p in todo <==> p in Tracked(s) && p in Decode(Table(s), mask))
      && (p in Tracked(s) && mask == 0x7FFF_FFFF ==> p in todo)
      && (mask == 0 ==> p !in Decode(Table(s), mask))
  {
    DecodeMembers(Table(s), mask, p);
    var b := FlagOf(Table(s), p);
    if b >= 0 {
      AllFlags(b);
      BitOfZero(b);
    }
  }

  lemma FlagsKeep(s: State)
    requires Core(s) && s.crit.PollFlags? && s.crit.rd.Got?
    ensures Kept(OnFlags(s, s.crit))
  {
    var c := s.crit;
    var mask := if c.force then 0x7FFF_FFFF else c.rd.r.value;
    var todo := InDatabase(Decode(Table(s), mask), s.params);
    forall p ensures p in todo ==> p in Tracked(s) { FlagsTodo(s, mask, p); }
    NextReadKeeps(s, c.t, c.force, todo);
    NextReadKeeps(s, c.t, c.force, []);
  }

  lemma NextReadKeeps(s: State, t: Tid, force: bool, todo: seq<int>)
    requires TableMatches(s) && LcmOk(s.lcm) && forall p | p in todo :: p in Tracked(s)
    ensures Kept(NextRead(s, t, force, todo))
  {
    assert Tracked(NextRead(s, t, force, todo)) == Tracked(s);
  }

  lemma SweptKeeps(s: State)
    requires Core(s) && s.crit.Sweep? && s.crit.rd.Got?
    ensures Kept(OnSwept(s, s.crit))
  {
    var c := s.crit;
    var s1 := Swept(s, c.todo[0], c.rd.r);
    assert Tracked(s1) == Tracked(s) && TableMatches(s1);
    NextReadKeeps(s1, c.t, c.force, c.todo[1..]);
  }

  lemma ResumeKeeps(s: State)
    requires Core(s) && Enabled(s, Resume)
    ensures Kept(OnResume(s))
  {
    if s.crit.PollFlags? { FlagsKeep(s); }
    else if s.crit.Sweep? { SweptKeeps(s); }
    else { assert Tracked(OnResume(s)) == Tracked(s); }
  }

  lemma CoreStep(s: State, e: Event)
    requires Core(s) && Enabled(s, e)
    ensures Kept(Next(s, e))
  {
    match e
    case Acquire(_) => assert Tracked(Next(s, e)) == Tracked(s);
    case BusRead(o) =>
      AnswerTells(s.lcm, ReadTarget(s.crit), 0);
      ReplyKeeps(s, o, Answer(s.lcm, ReadTarget(s.crit)));
    case BusWrite(o, stored, flagged) => WriteKeeps(s, o, stored, flagged);
    case Resume => ResumeKeeps(s);
    case Raise =>
    case _ => OutsideKeeps(s, e);
  }

  lemma InitInv(s: State)
    requires Init(s)
    ensures Inv(s)
  {
    InitSafe(s);
  }

  lemma InvStep(s: State, e: Event)
    requires Inv(s) && Enabled(s, e)
    ensures Inv(Next(s, e))
  {
    SafeStep(s, e);
    CoreStep(s, e);
  }

  lemma {:induction false} InvRun(s: State, es: seq<Event>)
    requires Inv(s) && IsRun(s, es)
    ensures Inv(RunEnd(s, es))
    decreases |es|
  {
    if es != [] {
      InvStep(s, es[0]);
      InvRun(Next(s, es[0]), es[1..]);
    }
  }

  // ---- exactly when a step loses or recovers a parameter ----

  /** What a step must do to `p`. */
  ghost predicate Exact(s: State, e: Event, p: int, s': State)
    requires Enabled(s, e)
  {
    InStep(s', p) <==> if InStep(s, p) then !Loses(s, e, p) else Recovers(s, e, p)
  }

  lemma OutsideExact(s: State, e: Event, p: int)
    requires Core(s) && Enabled(s, e) && Outside(e) && p in Tracked(s)
    ensures Exact(s, e, p, Next(s, e))
  {
    if e.HwChange? { StoredKeeps(s, e.p, e.v, true, p); } else { OutsideStep(s, e); }
  }

  lemma EnterExact(s: State, t: Tid, p: int)
    requires Core(s) && Active(s) && Enabled(s, Acquire(t)) && p in Tracked(s)
    ensures Exact(s, Acquire(t), p, Next(s, Acquire(t)))
  {
  }

  lemma ReplyExact(s: State, o: Outcome, answer: R.ReadResult, p: int)
    requires Core(s) && Active(s) && Enabled(s, BusRead(o)) && p in Tracked(s)
    requires Tells(s.lcm, ReadTarget(s.crit), answer, p)
    ensures Exact(s, BusRead(o), p, OnReply(s, o, answer))
  {
    if s.crit.Sweep? { assert ReadTarget(s.crit) in s.crit.todo; }
  }

  lemma WriteExact(s: State, o: Outcome, stored: int, flagged: bool, p: int)
    requires Core(s) && Enabled(s, BusWrite(o, stored, flagged)) && p in Tracked(s)
    ensures Exact(s, BusWrite(o, stored, flagged), p, OnWrite(s, o, stored, flagged))
  {
    StoredKeeps(s, s.crit.p, stored, flagged, p);
  }

  lemma NextReadInStep(s: State, t: Tid, force: bool, todo: seq<int>, p: int)
    ensures InStep(NextRead(s, t, force, todo), p) <==> Cached(s, p) || Flagged(s, p) || p in todo
  {
  }

  lemma FlagsExact(s: State, p: int)
    requires Core(s) && s.crit.PollFlags? && s.crit.rd.Got? && p in Tracked(s)
    ensures InStep(OnFlags(s, s.crit), p) <==> InStep(s, p)
  {
    var c := s.crit;
    var mask := if c.force then 0x7FFF_FFFF else c.rd.r.value;
    var todo := InDatabase(Decode(Table(s), mask), s.params);
    var quiet := !c.force && (c.rd.r.code != R.NoErr || c.rd.r.value == 0);
    FlagsTodo(s, mask, p);
    NextReadInStep(s, c.t, c.force, if quiet then [] else todo, p);
    assert OnFlags(s, c) == NextRead(s, c.t, c.force, if quiet then [] else todo);
    assert Pending(s, p) <==> !quiet && p in todo;
  }

  lemma SweptExact(s: State, p: int)
    requires Core(s) && s.crit.Sweep? && s.crit.rd.Got? && p in Tracked(s)
    ensures Exact(s, Resume, p, OnSwept(s, s.crit))
  {
    var c := s.crit;
    var q, rest := c.todo[0], c.todo[1..];
    assert p in c.todo <==> p == q || p in rest;
    SweptCaches(s, p);
    NextReadInStep(Swept(s, q, c.rd.r), c.t, c.force, rest, p);
  }

  /** A swept value replaces what was cached; anything else leaves the cache alone. */
  lemma SweptCaches(s: State, p: int)
    requires Core(s) && s.crit.Sweep? && s.crit.rd.Got? && p in Tracked(s)
    ensures var s1 := Swept(s, s.crit.todo[0], s.crit.rd.r);
      && (Flagged(s1, p) <==> Flagged(s, p))
      && (Cached(s1, p) <==>
            if p == s.crit.todo[0] && s.crit.rd.r.code == R.NoErr then Held(s.lcm, p) == s.crit.rd.r.value else Cached(s, p))
  {
    assert p in CacheOf(s);
  }

  lemma WroteExact(s: State, p: int)
    requires Core(s) && s.crit.Write? && s.crit.wr.Wrote? && p in Tracked(s)
    ensures Exact(s, Resume, p, OnWrote(s, s.crit))
  {
    assert p in CacheOf(s);
  }

  lemma ReadBackExact(s: State, p: int)
    requires Core(s) && s.crit.ReadBack? && s.crit.rd.Got? && p in Tracked(s)
    ensures Exact(s, Resume, p, OnReadBack(s, s.crit))
  {
    assert p in CacheOf(s);
  }

  /** A parameter stays in step unless the step loses it, and one that is out of
      step stays out unless the step recovers it. */
  lemma StepExact(s: State, e: Event, p: int)
    requires Core(s) && Enabled(s, e) && Active(s) && Active(Next(s, e)) && p in Tracked(s)
    ensures Exact(s, e, p, Next(s, e))
  {
    match e
    case Acquire(t) => EnterExact(s, t, p);
    case BusRead(o) =>
      AnswerTells(s.lcm, ReadTarget(s.crit), p);
      ReplyExact(s, o, Answer(s.lcm, ReadTarget(s.crit)), p);
    case BusWrite(o, stored, flagged) => WriteExact(s, o, stored, flagged, p);
    case Resume =>
      if s.crit.PollFlags? { FlagsExact(s, p); }
      else if s.crit.Sweep? { SweptExact(s, p); }
      else if s.crit.Write? { WroteExact(s, p); }
      else if s.crit.ReadBack? { ReadBackExact(s, p); }
    case Raise =>
    case _ => OutsideExact(s, e, p);
  }

  /** Only taking the lock for a poll starts the cold-start poll. */
  lemma StaysInactive(s: State, e: Event)
    requires Inv(s) && Enabled(s, e) && !Active(s) && !e.Acquire?
    ensures !Active(Next(s, e))
  {
    match e
    case Resume => ResumeInactive(s);
    case BusRead(_) =>
    case BusWrite(_, _, _) =>
    case Raise =>
    case _ => OutsideStep(s, e);
  }

  lemma ResumeInactive(s: State)
    requires Inv(s) && Enabled(s, Resume) && !Active(s)
    ensures !Active(OnResume(s))
  {
  }

  /** The cold-start poll begins with everything pending. */
  lemma BecomesActive(s: State, e: Event, p: int)
    requires Inv(s) && Enabled(s, e) && !Active(s) && Active(Next(s, e))
    ensures InStep(Next(s, e), p)
  {
    if !e.Acquire? { StaysInactive(s, e); }
  }

  // ---- whole runs ----

  ghost predicate Covered(s: State, p: int) {
    Active(s) && p in Tracked(s) ==> InStep(s, p)
  }

  /** In step in every state of the run, from the cold-start poll on. */
  ghost predicate AlwaysCovered(s: State, es: seq<Event>, p: int)
    requires IsRun(s, es)
    decreases |es|
  {
    Covered(s, p) && (es == [] || AlwaysCovered(Next(s, es[0]), es[1..], p))
  }

  ghost predicate NeverLoses(s: State, es: seq<Event>, p: int)
    requires IsRun(s, es)
    decreases |es|
  {
    es == [] ||
    (&& !(Active(s) && Active(Next(s, es[0])) && p in Tracked(s) && Loses(s, es[0], p))
     && NeverLoses(Next(s, es[0]), es[1..], p))
  }

  lemma SameTracked(s: State, e: Event)
    requires Enabled(s, e)
    ensures Tracked(Next(s, e)) == Tracked(s)
  {
    var s' := Next(s, e);
    if e.Resume? { ResumeSame(s); }
    assert s'.params == s.params && s'.lcm.newFirmware == s.lcm.newFirmware;
  }

  /** What going on after a reply never changes. */
  ghost predicate Steady(s: State, s': State) {
    && s'.params == s.params && s'.lcm == s.lcm
    && s'.proxy.liftType == s.proxy.liftType && (s'.proxy.forceReadAll ==> s.proxy.forceReadAll)
  }

  lemma ResumeSame(s: State)
    requires Enabled(s, Resume)
    ensures OnResume(s).params == s.params && OnResume(s).lcm == s.lcm
    ensures !s.crit.Detect? ==> Steady(s, OnResume(s))
  {
    if s.crit.Sweep? { SweptSame(s); }
    else if s.crit.Write? || s.crit.ReadBack? { WroteSame(s); }
  }

  lemma SweptSame(s: State)
    requires s.crit.Sweep? && s.crit.rd.Got? && s.crit.todo != []
    ensures Steady(s, OnSwept(s, s.crit))
  {
    assert Steady(s, Swept(s, s.crit.todo[0], s.crit.rd.r));
  }

  lemma WroteSame(s: State)
    requires Enabled(s, Resume) && (s.crit.Write? || s.crit.ReadBack?)
    ensures Steady(s, OnResume(s))
  {
  }

  lemma CoveredStep(s: State, e: Event, p: int)
    requires Inv(s) && Covered(s, p) && Enabled(s, e)
    ensures Covered(Next(s, e), p) <==> !(Active(s) && Active(Next(s, e)) && p in Tracked(s) && Loses(s, e, p))
  {
    SameTracked(s, e);
    if Active(Next(s, e)) && p in Tracked(s) {
      if Active(s) { StepExact(s, e, p); } else { BecomesActive(s, e, p); }
    }
  }

  lemma {:induction false} CoveredRun(s: State, es: seq<Event>, p: int)
    requires Inv(s) && Covered(s, p) && IsRun(s, es)
    ensures AlwaysCovered(s, es, p) <==> NeverLoses(s, es, p)
    decreases |es|
  {
    if es != [] {
      var s' := Next(s, es[0]);
      InvStep(s, es[0]);
      CoveredStep(s, es[0], p);
      if Covered(s', p) { CoveredRun(s', es[1..], p); } else { NotCovered(s', es[1..], p); }
    }
  }

  lemma NotCovered(s: State, es: seq<Event>, p: int)
    requires IsRun(s, es) && !Covered(s, p)
    ensures !AlwaysCovered(s, es, p)
  {
  }

  /** In every run from power-on and for every parameter in database and table: from
      the cold-start poll on it is always cached as the lift holds it, or flagged,
      or pending inside the lock, if and only if no step of the run loses it. */
  lemma CacheCoherent(s: State, es: seq<Event>, p: int)
    requires Init(s) && IsRun(s, es)
    ensures AlwaysCovered(s, es, p) <==> NeverLoses(s, es, p)
  {
    InitInv(s);
    CoveredRun(s, es, p);
  }

  /** Out of step in every state of the run. */
  ghost predicate AlwaysStale(s: State, es: seq<Event>, p: int)
    requires IsRun(s, es)
    decreases |es|
  {
    !InStep(s, p) && (es == [] || AlwaysStale(Next(s, es[0]), es[1..], p))
  }

  ghost predicate NeverRecovers(s: State, es: seq<Event>, p: int)
    requires IsRun(s, es)
    decreases |es|
  {
    es == [] || (!Recovers(s, es[0], p) && NeverRecovers(Next(s, es[0]), es[1..], p))
  }

  /** A parameter once lost after the cold-start poll stays stale, if and only if
      no step recovers it. */
  lemma {:induction false} StaleRun(s: State, es: seq<Event>, p: int)
    requires Inv(s) && IsRun(s, es) && p in Tracked(s) && !InStep(s, p)
    requires s.proxy.liftType == AhlLift && !s.proxy.forceReadAll
    ensures AlwaysStale(s, es, p) <==> NeverRecovers(s, es, p)
    decreases |es|
  {
    if es != [] {
      var s' := Next(s, es[0]);
      InvStep(s, es[0]);
      SameTracked(s, es[0]);
      StaysWarm(s, es[0]);
      StepExact(s, es[0], p);
      if !InStep(s', p) { StaleRun(s', es[1..], p); }
    }
  }

  lemma StaysWarm(s: State, e: Event)
    requires Inv(s) && Enabled(s, e) && s.proxy.liftType == AhlLift && !s.proxy.forceReadAll
    ensures Next(s, e).proxy.liftType == AhlLift && !Next(s, e).proxy.forceReadAll
  {
    match e
    case Acquire(_) =>
    case BusRead(_) =>
    case BusWrite(_, _, _) =>
    case Resume => ResumeSame(s);
    case Raise =>
    case _ => OutsideStep(s, e);
  }
}
