/** The lift proxy as a concurrent protocol. Identification, polling and cloud
    requests are coroutines that share one lock; every stretch of code without an
    `await` is one step. Serial calls run on a worker thread, so each attempt on
    the bus is a step of its own, and the lift may change values at any moment.

    At most one coroutine is inside the lock, so its program counter and locals
    are the field `crit`; coroutines queued on the lock are in `waiting`, those
    probing the buses in `probing`, those closing the losing handler in `closing`. */
module LiftProxyModel {
  import opened Bits
  import opened Text
  import opened Ahl
  import R = ModbusRegisters

  type Tid = nat

  datatype LiftType = Unknown | AhlLift | OneK
  datatype Handler = Modbus | Rs232
  datatype Lib = AhlData(newTable: bool, cache: Cache) | ThousandData

  datatype Proxy = Proxy(
    liftType: LiftType,
    handler: Option<Handler>,
    lib: Option<Lib>,
    modbusCandidate: bool,
    rs232Candidate: bool,
    thousandCandidate: bool,
    forceReadAll: bool)

  /** The lift control module. Reading register 2 returns and clears `flags`. A
      parameter that does not exist answers with the error pattern. */
  datatype Lcm = Lcm(newFirmware: bool, values: map<int, int>, flags: set<nat>)

  datatype Request =
    | BindReq(found: LiftType)
    | PollReq(force: bool)
    | WriteReq(p: int, value: int, sent: int, readBack: bool)
    | ReadReq(p: int)

  /** A read in progress on the worker thread: attempts used, or the result. */
  datatype Rd = Trying(tries: nat) | Got(r: R.ReadResult)
  datatype Wr = Writing(tries: nat) | Wrote(ok: bool)

  datatype Crit =
    | Free
    | Detect(t: Tid, rd: Rd)
    | PollFlags(t: Tid, force: bool, rd: Rd)
    | Sweep(t: Tid, force: bool, todo: seq<int>, rd: Rd)
    | Write(t: Tid, p: int, value: int, sent: int, readBack: bool, wr: Wr, touched: bool)
    | ReadBack(t: Tid, p: int, rd: Rd)
    | LiveRead(t: Tid, p: int, rd: Rd)
    | Poll1k(t: Tid, force: bool)
    | Other1k(t: Tid)

  datatype Op = OpRead(p: int) | OpWrite(p: int)
  datatype Entry =
    | Chosen(newTable: bool, code: R.Code)
    | Bound(liftType: LiftType)
    | PollDone(force: bool)
    | Bus(t: Tid, op: Op)
    | Reported(p: int)

  datatype State = State(
    params: set<int>,              // the parameters in the AHL database
    proxy: Proxy,
    lcm: Lcm,
    crit: Crit,
    waiting: map<Tid, Request>,
    probing: map<Tid, (bool, bool)>,
    closing: map<Tid, Handler>,
    open: set<Handler>,
    log: seq<Entry>)

  /** What happens to one request on the wire. */
  datatype Outcome = NotServed | ServedLost | Served | LinkDown

  datatype Event =
    | Identify(t: Tid)
    | Probe(t: Tid, found: LiftType)
    | CallPoll(t: Tid, force: bool)
    | CallWrite(t: Tid, p: int, value: int, sent: int, readBack: bool)
    | CallRead(t: Tid, p: int)
    | Acquire(t: Tid)
    | BusRead(o: Outcome)
    | BusWrite(o: Outcome, stored: int, flagged: bool)
    | Resume
    | Raise
    | Close(t: Tid)
    | Leak(t: Tid)
    | HwChange(p: int, v: int)

  // ---- the lift ----

  function Held(lcm: Lcm, p: int): int {
    if p in lcm.values then lcm.values[p] else R.DEAD_VALUE
  }

  /** Old firmware has no readable parameter 127, new firmware has. */
  ghost predicate LcmOk(lcm: Lcm) {
    && (forall p | p in lcm.values :: R.IsInt32(lcm.values[p]))
    && (forall b | b in lcm.flags :: b < FLAG_BITS)
    && (lcm.newFirmware <==> Held(lcm, 127) != R.DEAD_VALUE)
  }

  lemma FlagWord(flags: set<nat>)
    ensures R.IsInt32(Mask(flags, 0, FLAG_BITS))
  {
    MaskBound(flags, 0, FLAG_BITS);
    FlagBound();
  }

  /** The word the lift puts on the wire for a read of `p`. */
  function Word(lcm: Lcm, p: int): int {
    if p == POLLING_PARAM then Mask(lcm.flags, 0, FLAG_BITS) else Held(lcm, p)
  }

  /** The decoded reply to a served read of `p`. */
  function Answer(lcm: Lcm, p: int): R.ReadResult {
    if p != POLLING_PARAM && Word(lcm, p) == R.DEAD_VALUE then R.ReadResult(-1, R.LcmErr)
    else R.ReadResult(Word(lcm, p), R.NoErr)
  }

  /** It is what the read path makes of the two registers that carry the word. */
  lemma AnswerOnTheWire(lcm: Lcm, p: int)
    requires LcmOk(lcm)
    ensures R.IsInt32(Word(lcm, p)) && Answer(lcm, p) == R.WireRead(Word(lcm, p))
  {
    FlagWord(lcm.flags);
    R.WireRoundTrip(Word(lcm, p));
  }

  function AfterRead(lcm: Lcm, p: int): Lcm {
    if p == POLLING_PARAM then lcm.(flags := {}) else lcm
  }

  function Stored(lcm: Lcm, p: int, v: int, flagged: bool): Lcm {
    var b := FlagOf(lcm.newFirmware, p);
    lcm.(values := lcm.values[p := v], flags := if flagged && b >= 0 then lcm.flags + {b} else lcm.flags)
  }

  // ---- what is tracked ----

  /** Database parameters that some flag covers. */
  function Tracked(s: State): (r: set<int>) {
    set p | p in s.params && FlagOf(s.lcm.newFirmware, p) >= 0
  }

  predicate Flagged(s: State, p: int) {
    FlagOf(s.lcm.newFirmware, p) in s.lcm.flags
  }

  function InDatabase(todo: seq<int>, params: set<int>): (r: seq<int>)
    ensures forall p :: p in r <==> p in todo && p in params
  {
    if todo == [] then []
    else (if todo[0] in params then [todo[0]] else []) + InDatabase(todo[1..], params)
  }

  // ---- steps ----

  ghost predicate Init(s: State) {
    && s.proxy == Proxy(Unknown, None, None, true, true, true, true)
    && LcmOk(s.lcm)
    && s.crit == Free
    && s.waiting == map[] && s.probing == map[] && s.closing == map[]
    && s.open == {Modbus, Rs232}
    && s.log == []
  }

  ghost predicate Enabled(s: State, e: Event) {
    LcmOk(s.lcm) &&
    match e
    case Identify(t) => t !in s.probing
    case Probe(t, found) =>
      // a probe names a lift type only through a handler it was given
      && t in s.probing && t !in s.waiting
      && (found == AhlLift ==> s.probing[t].0)
      && (found == OneK ==> s.probing[t].1)
    case CallPoll(t, _) => t !in s.waiting
    case CallWrite(t, p, value, sent, _) =>
      // only the reset-alarm parameters are sent in another form
      t !in s.waiting && R.IsInt32(sent) && (sent == value || 102 <= p <= 104)
    case CallRead(t, _) => t !in s.waiting
    case Acquire(t) => s.crit == Free && t in s.waiting && t !in s.closing
    case BusRead(o) =>
      && (s.crit.Detect? || s.crit.PollFlags? || s.crit.Sweep? || s.crit.ReadBack? || s.crit.LiveRead?)
      && s.crit.rd.Trying?
      && (s.crit.Sweep? ==> s.crit.todo != [])
      && (o == LinkDown ==> s.crit.rd.tries == 0)
    case BusWrite(o, stored, flagged) =>
      // the lift stores what it is sent, or flags the value it stored instead
      && s.crit.Write? && s.crit.wr.Writing?
      && R.IsInt32(stored) && (stored == s.crit.sent || flagged)
      && (o == Served || o == ServedLost ==> LcmOk(Stored(s.lcm, s.crit.p, stored, flagged)))
      && (o == LinkDown ==> s.crit.wr.tries == 0)
    case Resume =>
      || s.crit.Poll1k? || s.crit.Other1k?
      || (s.crit.Write? && s.crit.wr.Wrote?)
      || ((s.crit.Detect? || s.crit.PollFlags? || s.crit.ReadBack? || s.crit.LiveRead?) && s.crit.rd.Got?)
      || (s.crit.Sweep? && s.crit.rd.Got? && s.crit.todo != [])
    case Raise =>
      || s.crit.Poll1k? || s.crit.Other1k?
      || (s.crit.Write? && s.crit.wr.Writing?)
      || ((s.crit.Detect? || s.crit.PollFlags? || s.crit.Sweep? || s.crit.ReadBack? || s.crit.LiveRead?) && s.crit.rd.Trying?)
    case Close(t) => t in s.closing
    case Leak(t) => t in s.closing
    case HwChange(p, v) =>
      R.IsInt32(v) && LcmOk(Stored(s.lcm, p, v, true))
  }

  ghost function Next(s: State, e: Event): State
    requires Enabled(s, e)
  {
    match e
    case Identify(t) =>
      s.(probing := s.probing[t := (s.proxy.modbusCandidate, s.proxy.rs232Candidate)])
    case Probe(t, found) =>
      var s1 := s.(probing := s.probing - {t});
      if found == Unknown then s1 else s1.(waiting := s.waiting[t := BindReq(found)])
    case CallPoll(t, force) =>
      if s.proxy.lib.None? || s.proxy.handler.None? then s
      else s.(waiting := s.waiting[t := PollReq(force)])
    case CallWrite(t, p, value, sent, readBack) =>
      if s.proxy.handler.None? then s
      else s.(waiting := s.waiting[t := WriteReq(p, value, sent, readBack)])
    case CallRead(t, p) =>
      if s.proxy.handler.None? then s
      else s.(waiting := s.waiting[t := ReadReq(p)])
    case Acquire(t) => Enter(s.(waiting := s.waiting - {t}), t, s.waiting[t])
    case BusRead(o) => OnRead(s, o)
    case BusWrite(o, stored, flagged) => OnWrite(s, o, stored, flagged)
    case Resume => OnResume(s)
    case Raise => OnRaise(s)
    case Close(t) => s.(closing := s.closing - {t}, open := s.open - {s.closing[t]})
    case Leak(t) => s.(closing := s.closing - {t})
    case HwChange(p, v) => s.(lcm := Stored(s.lcm, p, v, true))
  }

  /** Publication: handler, lib and type together, candidates dropped, cold start
      re-armed, lock released; the loser is closed afterwards. */
  function Publish(s: State, t: Tid, liftType: LiftType, handler: Handler, lib: Lib,
                   loser: Handler, loserPresent: bool): State {
    s.(proxy := Proxy(liftType, Some(handler), Some(lib), false, false, false, true),
       crit := Free,
       closing := if loserPresent then s.closing[t := loser] else s.closing,
       log := s.log + [Bound(liftType)])
  }

  /** From the lock to the first `await` inside it. */
  ghost function Enter(s: State, t: Tid, q: Request): State {
    match q
    case BindReq(found) =>
      if found == AhlLift then
        if s.proxy.modbusCandidate then s.(crit := Detect(t, Trying(0))) else s
      else if found == OneK && s.proxy.rs232Candidate && s.proxy.thousandCandidate then
        Publish(s, t, OneK, Rs232, ThousandData, Modbus, s.proxy.modbusCandidate)
      else s
    case PollReq(force) =>
      var f := force || s.proxy.forceReadAll;
      if s.proxy.lib.Some? && s.proxy.lib.value.AhlData? then s.(crit := PollFlags(t, f, Trying(0)))
      else s.(crit := Poll1k(t, f))
    case WriteReq(p, value, sent, readBack) =>
      if s.proxy.handler == Some(Modbus) then
        s.(crit := Write(t, p, value, sent, readBack, Writing(0), false))
      else s.(crit := Other1k(t))
    case ReadReq(p) =>
      if s.proxy.handler == Some(Modbus) then s.(crit := LiveRead(t, p, Trying(0)))
      else s.(crit := Other1k(t))
  }

  function ReadTarget(c: Crit): int
    requires c.Detect? || c.PollFlags? || (c.Sweep? && c.todo != []) || c.ReadBack? || c.LiveRead?
  {
    match c
    case Detect(_, _) => 127
    case PollFlags(_, _, _) => POLLING_PARAM
    case Sweep(_, _, todo, _) => todo[0]
    case ReadBack(_, p, _) => p
    case LiveRead(_, p, _) => p
  }

  /** The retry loop of a read: conclusive replies end it, so does the third try. */
  function AfterTry(rd: Rd, o: Outcome, answer: R.ReadResult): Rd
    requires rd.Trying?
  {
    match o
    case Served => Got(answer)
    case LinkDown => Got(R.ReadResult(-1, R.LinkErr))
    case _ => if rd.tries + 1 < 3 then Trying(rd.tries + 1) else Got(R.ReadResult(-1, R.ComErr))
  }

  ghost function OnReply(s: State, o: Outcome, answer: R.ReadResult): State
    requires Enabled(s, BusRead(o))
  {
    var p := ReadTarget(s.crit);
    s.(crit := s.crit.(rd := AfterTry(s.crit.rd, o, answer)),
       lcm := if o == Served || o == ServedLost then AfterRead(s.lcm, p) else s.lcm,
       log := s.log + [Bus(s.crit.t, OpRead(p))])
  }

  ghost function OnRead(s: State, o: Outcome): State
    requires Enabled(s, BusRead(o))
  {
    OnReply(s, o, Answer(s.lcm, ReadTarget(s.crit)))
  }

  ghost function OnWrite(s: State, o: Outcome, stored: int, flagged: bool): State
    requires Enabled(s, BusWrite(o, stored, flagged))
  {
    var c := s.crit;
    var hit := o == Served || o == ServedLost;
    var wr := match o
      case Served => Wrote(true)
      case LinkDown => Wrote(false)
      case _ => if c.wr.tries + 1 < 3 then Writing(c.wr.tries + 1) else Wrote(false);
    s.(crit := c.(wr := wr, touched := c.touched || hit),
       lcm := if hit then Stored(s.lcm, c.p, stored, flagged) else s.lcm,
       log := s.log + [Bus(c.t, OpWrite(c.p))])
  }

  function Table(s: State): bool {
    s.proxy.lib.Some? && s.proxy.lib.value.AhlData? && s.proxy.lib.value.newTable
  }

  function CacheOf(s: State): Cache {
    if s.proxy.lib.Some? && s.proxy.lib.value.AhlData? then s.proxy.lib.value.cache else map[]
  }

  /** `set_param` on the bound library; reports a changed value. */
  function SetCache(s: State, p: int, v: int): State {
    if s.proxy.lib.Some? && s.proxy.lib.value.AhlData? then
      var (cache, changed) := CacheSet(s.proxy.lib.value.cache, p, v);
      s.(proxy := s.proxy.(lib := Some(s.proxy.lib.value.(cache := cache))))
    else s
  }

  function PollReturns(s: State, force: bool): State {
    s.(crit := Free, proxy := s.proxy.(forceReadAll := false), log := s.log + [PollDone(force)])
  }

  function NextRead(s: State, t: Tid, force: bool, todo: seq<int>): State {
    if todo == [] then PollReturns(s, force) else s.(crit := Sweep(t, force, todo, Trying(0)))
  }

  function OnFlags(s: State, c: Crit): State
    requires c.PollFlags? && c.rd.Got?
  {
    if !c.force && (c.rd.r.code != R.NoErr || c.rd.r.value == 0) then PollReturns(s, c.force)
    else
      var mask := if c.force then 0x7FFF_FFFF else c.rd.r.value;
      NextRead(s, c.t, c.force, InDatabase(Decode(Table(s), mask), s.params))
  }

  /** One swept parameter: a good reply updates the cache, any other is skipped. */
  function Swept(s: State, p: int, r: R.ReadResult): State {
    if r.code == R.NoErr then
      var news := CacheSet(CacheOf(s), p, r.value).1;
      SetCache(s, p, r.value).(log := if news == [] then s.log else s.log + [Reported(p)])
    else s
  }

  function OnSwept(s: State, c: Crit): State
    requires c.Sweep? && c.rd.Got? && c.todo != []
  {
    NextRead(Swept(s, c.todo[0], c.rd.r), c.t, c.force, c.todo[1..])
  }

  function OnDetected(s: State, c: Crit): State
    requires c.Detect? && c.rd.Got?
  {
    var code := c.rd.r.code;
    if code == R.NoErr || code == R.LcmErr then
      var newTable := code == R.NoErr;
      var lib := AhlData(newTable, map p | p in s.params :: None);
      Publish(s.(log := s.log + [Chosen(newTable, code)]), c.t, AhlLift, Modbus, lib, Rs232, s.proxy.rs232Candidate)
    else s.(crit := Free)
  }

  /** A finished write; the cache mirror runs in the same step as the release. */
  function OnWrote(s: State, c: Crit): State
    requires c.Write? && c.wr.Wrote?
  {
    if !c.wr.ok then s.(crit := Free)
    else if c.readBack then s.(crit := ReadBack(c.t, c.p, Trying(0)))
    else SetCache(s, c.p, c.value).(crit := Free)
  }

  function OnReadBack(s: State, c: Crit): State
    requires c.ReadBack? && c.rd.Got?
  {
    var r := c.rd.r;
    if r.code == R.NoErr then SetCache(s, c.p, r.value).(crit := Free) else s.(crit := Free)
  }

  ghost function OnResume(s: State): State
    requires Enabled(s, Resume)
  {
    match s.crit
    case Detect(_, _) => OnDetected(s, s.crit)
    case PollFlags(_, _, _) => OnFlags(s, s.crit)
    case Sweep(_, _, _, _) => OnSwept(s, s.crit)
    case Write(_, _, _, _, _, _, _) => OnWrote(s, s.crit)
    case ReadBack(_, _, _) => OnReadBack(s, s.crit)
    case LiveRead(_, _, _) => s.(crit := Free)
    case Poll1k(_, force) => PollReturns(s, force)
    case Other1k(_) => s.(crit := Free)
  }

  /** An exception leaves the lock and skips everything after the call. */
  ghost function OnRaise(s: State): State
    requires Enabled(s, Raise)
  {
    s.(crit := Free)
  }

  // ---- runs ----

  ghost predicate IsRun(s: State, es: seq<Event>)
    decreases |es|
  {
    es == [] || (Enabled(s, es[0]) && IsRun(Next(s, es[0]), es[1..]))
  }

  ghost function RunEnd(s: State, es: seq<Event>): State
    requires IsRun(s, es)
    decreases |es|
  {
    if es == [] then s else RunEnd(Next(s, es[0]), es[1..])
  }

  ghost predicate Reaches(s: State, s': State) {
    exists es :: IsRun(s, es) && RunEnd(s, es) == s'
  }

  lemma {:induction false} RunAppend(s: State, es: seq<Event>, fs: seq<Event>)
    requires IsRun(s, es) && IsRun(RunEnd(s, es), fs)
    ensures IsRun(s, es + fs) && RunEnd(s, es + fs) == RunEnd(RunEnd(s, es), fs)
    decreases |es|
  {
    if es == [] {
      assert es + fs == fs;
    } else {
      RunAppend(Next(s, es[0]), es[1..], fs);
      assert (es + fs)[0] == es[0] && (es + fs)[1..] == es[1..] + fs;
    }
  }

  lemma ReachesSelf(s: State)
    ensures Reaches(s, s)
  {
    assert IsRun(s, []) && RunEnd(s, []) == s;
  }

  lemma ReachesRun(s: State, m: State, fs: seq<Event>)
    requires Reaches(s, m) && IsRun(m, fs)
    ensures Reaches(s, RunEnd(m, fs))
  {
    var es :| IsRun(s, es) && RunEnd(s, es) == m;
    RunAppend(s, es, fs);
  }

  lemma ReachesBoth(s: State, m: State, s': State)
    requires Reaches(s, m) && Reaches(m, s')
    ensures Reaches(s, s')
  {
    var fs :| IsRun(m, fs) && RunEnd(m, fs) == s';
    ReachesRun(s, m, fs);
  }

  lemma ReachesStep(s: State, m: State, e: Event)
    requires Reaches(s, m) && Enabled(m, e)
    ensures Reaches(s, Next(m, e))
  {
    OneStep(m, e);
    ReachesRun(s, m, [e]);
  }

  lemma OneStep(s: State, e: Event)
    requires Enabled(s, e)
    ensures IsRun(s, [e]) && RunEnd(s, [e]) == Next(s, e)
  {
    assert [e][1..] == [];
  }

  /** Steps taken outside the lock. */
  predicate Outside(e: Event) {
    !e.Acquire? && !e.BusRead? && !e.BusWrite? && !e.Resume? && !e.Raise?
  }

  lemma OutsideStep(s: State, e: Event)
    requires Enabled(s, e) && Outside(e)
    ensures var s' := Next(s, e);
      && s'.proxy == s.proxy && s'.crit == s.crit && s'.log == s.log
      && s'.params == s.params
      && (!e.HwChange? ==> s'.lcm == s.lcm)
  {
  }
}
