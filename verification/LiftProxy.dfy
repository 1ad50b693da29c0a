/** The proxy object and its coroutines. Each method is one whole coroutine over a
    line whose every attempt may go any way; what it does to the fields is what a
    run of the protocol does to `State.proxy`. The ghost parameter `s` is the state
    of the whole system when the coroutine starts, `s'` the state it ends in. */
module LiftProxyObject {
  import opened Text
  import opened Ahl
  import opened LiftProxyModel
  import opened LiftProxySafety
  import opened CacheCoherence
  import opened LiftLine
  import opened CacheReports
  import opened ProxySteps
  import R = ModbusRegisters

  // ---- served calls ----

  ghost predicate AllServed(fate: nat -> Fate) {
    forall i: nat :: fate(i) == Happens(Served)
  }

  /** The handler's read call: a run of the protocol, and the lift's own answer if
      every request is served. */
  method ReadParameter(line: Line, p: int, ghost s: State) returns (r: R.ReadResult, raised: bool, ghost s': State)
    requires LcmOk(s.lcm) && s.lcm == line.lcm && Reading(s.crit) && s.crit.rd == Trying(0) && ReadTarget(s.crit) == p
    modifies line
    ensures Carried(s, s') && s'.lcm == line.lcm
    ensures s'.crit == if raised then Free else WithRead(s.crit, Got(r))
    ensures AllServed(line.fate) ==> !raised && r == Answer(s.lcm, p) && line.lcm == AfterRead(s.lcm, p)
  {
    ghost var k := line.k;
    r, raised, s' := line.Read(p, s);
    if AllServed(line.fate) { ServedRead(s.lcm, p, line.fate, k, line.k - k, r, raised); }
  }

  lemma ServedRead(lcm: Lcm, p: int, fate: nat -> Fate, k: nat, n: nat, r: R.ReadResult, raised: bool)
    requires AllServed(fate)
    requires if raised then ReadTries(fate, k, n) && fate(k + n - 1).Throws? else ReadResultOf(lcm, p, fate, k, n, r)
    ensures !raised && r == Answer(lcm, p) && ReadFrom(lcm, p, fate, k, n) == AfterRead(lcm, p)
  {
    if n > 1 { assert ReadEndsAt(fate, k, 0); }
  }

  // ---- the library's poll ----

  /** The poll of the AHL library: the flag word, then every parameter of a flagged
      group that the database knows. */
  method PollAhl(lib: AhlLib, line: Line, force: bool, ghost s: State)
    returns (changed: seq<int>, raised: bool, ghost s': State)
    requires LcmOk(s.lcm) && s.lcm == line.lcm && s.crit.PollFlags? && s.crit.force == force && s.crit.rd == Trying(0)
    requires s.proxy.lib == Some(AhlData(lib.newTable, lib.database)) && lib.database.Keys == s.params
    modifies lib`database, line
    ensures Reaches(s, s') && s'.lcm == line.lcm && s'.crit.Free?
    ensures s'.waiting == s.waiting && s'.closing == s.closing
    ensures s'.proxy == s.proxy.(lib := Some(AhlData(lib.newTable, lib.database)), forceReadAll := s.proxy.forceReadAll && raised)
    ensures Reports(s'.log) == Reports(s.log) + changed
    ensures lib.newTable == old(lib.newTable) && Told(changed, old(lib.database), lib.database)
    ensures AllServed(line.fate) ==>
      !raised && Fetches(old(line.lcm), Asked(lib.newTable, force, old(line.lcm).flags), old(lib.database), lib.database)
  {
    var candidates;
    candidates, raised, s' := FlagsAhl(lib, line, force, s);
    if raised { return [], true, s'; }
    changed, raised, s' := SweepFrom(lib, line, candidates, s, s', Asked(lib.newTable, force, s.lcm.flags));
  }

  method SweepFrom(lib: AhlLib, line: Line, candidates: seq<int>, ghost s: State, ghost m: State, ghost asked: iset<int>)
    returns (changed: seq<int>, raised: bool, ghost s': State)
    requires s.crit.PollFlags? && m.lcm == line.lcm && lib.database.Keys == s.params && lib.newTable == Table(s)
    requires Polling(s, m, lib.database, s.crit.force, InDatabase(candidates, s.params), [])
    requires NoRepeats(candidates) && forall p | p in candidates :: p != POLLING_PARAM
    requires AllServed(line.fate) ==> line.lcm == AfterRead(s.lcm, POLLING_PARAM) && Members(candidates) == asked
    modifies lib`database, line
    ensures Reaches(s, s') && s'.lcm == line.lcm && s'.crit.Free?
    ensures s'.waiting == s.waiting && s'.closing == s.closing
    ensures s'.proxy == s.proxy.(lib := Some(AhlData(lib.newTable, lib.database)), forceReadAll := s.proxy.forceReadAll && raised)
    ensures Reports(s'.log) == Reports(s.log) + changed && Told(changed, old(lib.database), lib.database)
    ensures AllServed(line.fate) ==> !raised && Fetches(s.lcm, asked, old(lib.database), lib.database)
  {
    ghost var before := lib.database;
    changed, raised, s' := SweepAhl(lib, line, candidates, s, m);
    if AllServed(line.fate) { FetchesSame(s.lcm, asked, before, lib.database); }
  }

  /** The flag word and the list of candidates it asks for. */
  method FlagsAhl(lib: AhlLib, line: Line, force: bool, ghost s: State)
    returns (candidates: seq<int>, raised: bool, ghost s': State)
    requires LcmOk(s.lcm) && s.lcm == line.lcm && s.crit.PollFlags? && s.crit.force == force && s.crit.rd == Trying(0)
    requires s.proxy.lib == Some(AhlData(lib.newTable, lib.database))
    modifies line
    ensures s'.lcm == line.lcm
    ensures raised ==>
      && Reaches(s, s') && s'.crit.Free? && s'.waiting == s.waiting && s'.closing == s.closing
      && s'.proxy == s.proxy && Reports(s'.log) == Reports(s.log)
    ensures !raised ==> Polling(s, s', lib.database, force, InDatabase(candidates, s.params), [])
    ensures NoRepeats(candidates) && forall p | p in candidates :: p != POLLING_PARAM
    ensures AllServed(line.fate) ==>
      && !raised && line.lcm == AfterRead(s.lcm, POLLING_PARAM)
      && Members(candidates) == Asked(lib.newTable, force, s.lcm.flags)
  {
    candidates := [];
    var r;
    r, raised, s' := ReadParameter(line, POLLING_PARAM, s);
    if raised { return; }
    candidates := Candidates(lib, force, r);
    WantedOrdered(lib.newTable, force, r);
    WantedExactly(lib.newTable, force, s.lcm, r);
    s' := FlagsRead(s, s', lib.database, r, candidates);
  }

  /** What the flag word asks to be read. */
  method Candidates(lib: AhlLib, force: bool, r: R.ReadResult) returns (candidates: seq<int>)
    ensures candidates == Wanted(lib.newTable, force, r)
  {
    if !force && (r.code != R.NoErr || r.value == 0) { return []; }
    candidates := lib.DecodeChangeFlags(if force then 0x7FFF_FFFF else r.value);
  }

  method SweepAhl(lib: AhlLib, line: Line, candidates: seq<int>, ghost s: State, ghost m: State)
    returns (changed: seq<int>, raised: bool, ghost s': State)
    requires s.crit.PollFlags? && m.lcm == line.lcm && lib.database.Keys == s.params && lib.newTable == Table(s)
    requires Polling(s, m, lib.database, s.crit.force, InDatabase(candidates, s.params), [])
    requires NoRepeats(candidates) && forall p | p in candidates :: p != POLLING_PARAM
    modifies lib`database, line
    ensures Reaches(s, s') && s'.lcm == line.lcm && s'.crit.Free?
    ensures s'.waiting == s.waiting && s'.closing == s.closing
    ensures s'.proxy == s.proxy.(lib := Some(AhlData(lib.newTable, lib.database)), forceReadAll := s.proxy.forceReadAll && raised)
    ensures Reports(s'.log) == Reports(s.log) + changed
    ensures Told(changed, old(lib.database), lib.database)
    ensures AllServed(line.fate) ==>
      !raised && line.lcm == old(line.lcm) && Fetches(line.lcm, Members(candidates), old(lib.database), lib.database)
  {
    changed, raised, s' := [], false, m;
    ghost var before, lcm0 := lib.database, line.lcm;
    assert candidates[0..] == candidates;
    for i := 0 to |candidates|
      invariant !raised && s'.lcm == line.lcm && lib.database.Keys == s.params
      invariant Polling(s, s', lib.database, s.crit.force, InDatabase(candidates[i..], s.params), changed)
      invariant ToldSoFar(before, lib.database, candidates[..i], changed)
      invariant AllServed(line.fate) ==> line.lcm == lcm0 && Fetches(lcm0, Members(candidates[..i]), before, lib.database)
    {
      ghost var now := lib.database;
      assert candidates[i] in candidates;
      var news;
      news, raised, s' := SweepNext(lib, line, candidates, i, s, s', changed);
      SweptOn(lcm0, before, now, lib.database, candidates, i, changed, news, raised);
      if raised { return; }
      changed := changed + news;
    }
    assert candidates[..|candidates|] == candidates;
  }

  /** One candidate: read if the database knows it, skipped otherwise. */
  method SweepNext(lib: AhlLib, line: Line, candidates: seq<int>, i: nat, ghost s: State, ghost m: State, ghost changed: seq<int>)
    returns (news: seq<int>, raised: bool, ghost s': State)
    requires s.crit.PollFlags? && m.lcm == line.lcm && lib.database.Keys == s.params && lib.newTable == Table(s)
    requires i < |candidates| && candidates[i] != POLLING_PARAM
    requires Polling(s, m, lib.database, s.crit.force, InDatabase(candidates[i..], s.params), changed)
    modifies lib`database, line
    ensures s'.lcm == line.lcm && lib.database.Keys == s.params
    ensures !raised ==> Polling(s, s', lib.database, s.crit.force, InDatabase(candidates[i + 1..], s.params), changed + news)
    ensures raised ==>
      && Reaches(s, s') && s'.crit.Free? && s'.waiting == s.waiting && s'.closing == s.closing
      && s'.proxy == s.proxy.(lib := Some(AhlData(lib.newTable, lib.database)))
      && Reports(s'.log) == Reports(s.log) + changed && news == []
    ensures OneTold(old(lib.database), lib.database, candidates[i], news) && (raised ==> lib.database == old(lib.database))
    ensures AllServed(line.fate) ==> !raised && line.lcm == old(line.lcm)
    ensures var p := candidates[i];
      AllServed(line.fate) && p in lib.database ==> lib.database[p] == Fetched(line.lcm, p, old(lib.database)[p])
  {
    DatabaseStep(candidates, i, s.params);
    ghost var rest := InDatabase(candidates[i..], s.params);
    news, raised, s' := [], false, m;
    if candidates[i] in lib.database {
      assert rest[1..] == InDatabase(candidates[i + 1..], s.params);
      news, raised, s' := SweepOne(lib, line, candidates[i], s, s', rest, changed);
    }
  }

  method SweepOne(lib: AhlLib, line: Line, p: int, ghost s: State, ghost m: State, ghost rest: seq<int>, ghost changed: seq<int>)
    returns (news: seq<int>, raised: bool, ghost s': State)
    requires s.crit.PollFlags? && m.lcm == line.lcm && lib.database.Keys == s.params && lib.newTable == Table(s)
    requires rest != [] && rest[0] == p && p != POLLING_PARAM && Polling(s, m, lib.database, s.crit.force, rest, changed)
    modifies lib`database, line
    ensures s'.lcm == line.lcm && lib.database.Keys == s.params
    ensures !raised ==> Polling(s, s', lib.database, s.crit.force, rest[1..], changed + news)
    ensures raised ==>
      && Reaches(s, s') && s'.crit.Free? && s'.waiting == s.waiting && s'.closing == s.closing
      && s'.proxy == s.proxy.(lib := Some(AhlData(lib.newTable, lib.database)))
      && Reports(s'.log) == Reports(s.log) + changed
    ensures OneTold(old(lib.database), lib.database, p, news) && (raised ==> lib.database == old(lib.database) && news == [])
    ensures AllServed(line.fate) ==> !raised && line.lcm == old(line.lcm)
    ensures AllServed(line.fate) && p in lib.database ==> lib.database[p] == Fetched(line.lcm, p, old(lib.database)[p])
  {
    var r;
    news := [];
    ghost var m1 := m;
    r, raised, m1 := ReadParameter(line, p, m);
    if raised {
      ReachesBoth(s, m, m1);
      s' := m1;
      return;
    }
    s' := OneSwept(s, m, m1, lib.database, s.crit.force, rest, changed, r);
    if r.code == R.NoErr {
      var code;
      news, code := lib.SetParam(p, r.value);
    }
  }

  /** What a write leaves cached: with read-back only what was read back, without it the
      value as written, and after a failure what was there. */
  function AfterWrite(db: Cache, p: int, value: int, ok: bool, readBack: bool, back: Option<int>): Cache {
    if !ok || (readBack && back.None?) then db else Put(db, p, if readBack then back.value else value)
  }

  /** The lift took the value of request `k`, and a read-back sees what it holds. */
  ghost predicate WriteSeen(line: Line, k: nat, p: int, sent: int, readBack: bool, back: Option<int>)
    reads line
  {
    && Held(line.lcm, p) == Takes(line.taking(k), sent).0
    && (readBack && p != POLLING_PARAM ==> back == Fetched(line.lcm, p, None))
  }

  // ---- the object ----

  datatype LibRef = NoLib | AhlRef(lib: AhlLib) | ThousandRef

  /** Some run from power-on has led here. */
  ghost predicate Live(s: State) {
    exists s0 :: Init(s0) && Reaches(s0, s)
  }

  lemma LivesOn(s: State, s': State)
    requires Live(s) && Reaches(s, s')
    ensures Live(s')
  {
    var s0 :| Init(s0) && Reaches(s0, s);
    ReachesBoth(s0, s, s');
  }

  lemma LiveInv(s: State)
    requires Live(s)
    ensures Inv(s)
  {
    var s0 :| Init(s0) && Reaches(s0, s);
    var es :| IsRun(s0, es) && RunEnd(s0, es) == s;
    InitInv(s0);
    InvRun(s0, es);
  }

  /** What the methods need of a reachable state. */
  lemma StandingFacts(s: State)
    requires Live(s)
    ensures LcmOk(s.lcm)
    ensures s.proxy.liftType == AhlLift ==>
      s.proxy.lib.Some? && s.proxy.lib.value.AhlData? && s.proxy.lib.value.cache.Keys == s.params && Table(s) == s.lcm.newFirmware
  {
    LiveInv(s);
  }

  class LiftProxy {
    var liftType: LiftType
    var handler: Option<Handler>
    var lib: LibRef
    var modbusCandidate: bool
    var rs232Candidate: bool
    var thousandCandidate: bool
    var forceReadAll: bool

    ghost function Objects(): set<object>
      reads this
    {
      if lib.AhlRef? then {this, lib.lib} else {this}
    }

    ghost function Value(): Proxy
      reads this, Objects()
    {
      var l := match lib
        case NoLib => None
        case AhlRef(a) => Some(AhlData(a.newTable, a.database))
        case ThousandRef => Some(ThousandData);
      Proxy(liftType, handler, l, modbusCandidate, rs232Candidate, thousandCandidate, forceReadAll)
    }

    /** Never half-bound. */
    ghost predicate Valid()
      reads this
    {
      && modbusCandidate == rs232Candidate == thousandCandidate == (liftType == Unknown)
      && match liftType
         case Unknown => handler == None && lib == NoLib && forceReadAll
         case AhlLift => handler == Some(Modbus) && lib.AhlRef?
         case OneK => handler == Some(Rs232) && lib == ThousandRef
    }

    /** What is cached, if an AHL lift is bound. */
    ghost function DatabaseOf(): Cache
      reads this, Objects()
    {
      if lib.AhlRef? then lib.lib.database else map[]
    }

    /** The object is the proxy of the system state `s`, `line` its lift, and the
        lock is free. */
    ghost predicate Stands(s: State, line: Line)
      reads this, Objects(), line
    {
      Valid() && Live(s) && s.proxy == Value() && s.lcm == line.lcm && s.crit.Free?
    }

    constructor ()
      ensures Valid() && liftType == Unknown
      ensures forall s: State | Init(s) :: s.proxy == Value()
    {
      liftType, handler, lib := Unknown, None, NoLib;
      modbusCandidate, rs232Candidate, thousandCandidate := true, true, true;
      forceReadAll := true;
    }

    /** The publication block: type last, everything in one stretch. */
    method PublishPair(t: LiftType, h: Handler, l: LibRef)
      requires (t == AhlLift && h == Modbus && l.AhlRef?) || (t == OneK && h == Rs232 && l == ThousandRef)
      modifies this
      ensures Valid() && liftType == t && lib == l && forceReadAll
    {
      handler := Some(h);
      lib := l;
      modbusCandidate := false;
      rs232Candidate := false;
      thousandCandidate := false;
      forceReadAll := true;
      liftType := t;
    }

    /** The poll coroutine. `oneK` is what the 1k library's poll returns, None if it
        raises. The cold-start flag is taken and cleared under the lock, and cleared
        only by a poll that returns. */
    method PollParams(line: Line, force: bool, oneK: Option<seq<int>>, ghost s: State, ghost t: Tid)
      returns (changed: seq<int>, raised: bool, ghost s': State)
      requires Stands(s, line) && t !in s.waiting && t !in s.closing
      modifies Objects(), line
      ensures Stands(s', line) && Reaches(s, s')
      ensures liftType == old(liftType) && lib == old(lib)
      ensures forceReadAll == (old(forceReadAll) && (raised || liftType == Unknown))
      ensures lib.AhlRef? ==>
        && Reports(s'.log) == Reports(s.log) + changed
        && Told(changed, old(DatabaseOf()), lib.lib.database)
        && (AllServed(line.fate) ==>
              !raised && Fetches(s.lcm, Asked(lib.lib.newTable, force || old(forceReadAll), s.lcm.flags), old(DatabaseOf()), lib.lib.database))
      ensures lib == ThousandRef ==> raised == oneK.None? && changed == (if oneK.Some? then oneK.value else [])
      ensures lib == NoLib ==> !raised && changed == []
    {
      changed, raised, s' := [], false, s;
      ReachesSelf(s);
      if lib.NoLib? || handler.None? { return; }
      StandingFacts(s);
      ghost var m := PollEnters(s, t, force);
      changed, raised, s' := PollHeld(line, force, oneK, m);
      ReachesBoth(s, m, s');
      LivesOn(s, s');
    }

    /** The stretch under the lock: the flag is taken, the library polled, and the flag
        cleared if the poll returned. */
    method PollHeld(line: Line, force: bool, oneK: Option<seq<int>>, ghost m: State)
      returns (changed: seq<int>, raised: bool, ghost s': State)
      requires !lib.NoLib? && LcmOk(m.lcm) && m.lcm == line.lcm && m.proxy == Value()
      requires lib.AhlRef? ==>
        m.crit.PollFlags? && m.crit.force == (force || forceReadAll) && m.crit.rd == Trying(0) && lib.lib.database.Keys == m.params
      requires lib == ThousandRef ==> m.crit.Poll1k?
      modifies Objects(), line
      ensures Reaches(m, s') && s'.lcm == line.lcm && s'.crit.Free? && s'.proxy == Value()
      ensures (liftType, handler, lib) == old((liftType, handler, lib))
      ensures (modbusCandidate, rs232Candidate, thousandCandidate) == old((modbusCandidate, rs232Candidate, thousandCandidate))
      ensures forceReadAll == (old(forceReadAll) && raised)
      ensures lib.AhlRef? ==>
        && Reports(s'.log) == Reports(m.log) + changed
        && Told(changed, old(DatabaseOf()), lib.lib.database)
        && (AllServed(line.fate) ==>
              !raised && Fetches(m.lcm, Asked(lib.lib.newTable, force || old(forceReadAll), m.lcm.flags), old(DatabaseOf()), lib.lib.database))
      ensures lib == ThousandRef ==> raised == oneK.None? && changed == (if oneK.Some? then oneK.value else [])
    {
      changed, raised, s' := PollLib(line, force || forceReadAll, oneK, m);
      if !raised { forceReadAll := false; }
    }

    /** The library's poll, under the lock. */
    method PollLib(line: Line, f: bool, oneK: Option<seq<int>>, ghost m: State)
      returns (changed: seq<int>, raised: bool, ghost s': State)
      requires !lib.NoLib? && LcmOk(m.lcm) && m.lcm == line.lcm && m.proxy == Value()
      requires lib.AhlRef? ==> m.crit.PollFlags? && m.crit.force == f && m.crit.rd == Trying(0) && lib.lib.database.Keys == m.params
      requires lib == ThousandRef ==> m.crit.Poll1k?
      modifies if lib.AhlRef? then {lib.lib} else {}, line
      ensures Reaches(m, s') && s'.lcm == line.lcm && s'.crit.Free?
      ensures s'.proxy == Value().(forceReadAll := forceReadAll && raised)
      ensures lib.AhlRef? ==>
        && Reports(s'.log) == Reports(m.log) + changed
        && Told(changed, old(DatabaseOf()), lib.lib.database)
        && (AllServed(line.fate) ==>
              !raised && Fetches(m.lcm, Asked(lib.lib.newTable, f, m.lcm.flags), old(DatabaseOf()), lib.lib.database))
      ensures lib == ThousandRef ==> raised == oneK.None? && changed == (if oneK.Some? then oneK.value else [])
    {
      if lib.AhlRef? {
        changed, raised, s' := PollAhl(lib.lib, line, f, m);
      } else {
        changed, raised := if oneK.None? then [] else oneK.value, oneK.None?;
        ReachesSelf(m);
        s' := ThousandPolled(m, m, raised);
      }
    }

    /** The two write coroutines. `oneK` is what the 1k handler answers, None if it
        raises. With `readBack` the cache takes only what was read back, without it
        the value as written; a failed write changes nothing. */
    method WriteParam(line: Line, p: int, value: int, sent: int, readBack: bool, oneK: Option<(bool, Option<int>)>,
                      ghost s: State, ghost t: Tid)
      returns (ok: bool, back: Option<int>, raised: bool, ghost s': State)
      requires Stands(s, line) && t !in s.waiting && t !in s.closing
      requires R.IsInt32(sent) && (sent == value || 102 <= p <= 104)
      modifies Objects(), line
      ensures Stands(s', line) && Reaches(s, s')
      ensures liftType == old(liftType) && lib == old(lib) && forceReadAll == old(forceReadAll)
      ensures lib.AhlRef? ==> lib.lib.database == AfterWrite(old(DatabaseOf()), p, value, !raised && ok, readBack, back)
      ensures lib.AhlRef? && AllServed(line.fate) && p != 127 ==> !raised && ok && WriteSeen(line, old(line.k), p, sent, readBack, back)
      ensures lib == ThousandRef ==> raised == oneK.None? && (oneK.Some? ==> (ok, back) == oneK.value)
      ensures lib == NoLib ==> !ok && back == None && !raised
    {
      ok, back, raised, s' := false, None, false, s;
      ReachesSelf(s);
      if handler.None? { return; }
      StandingFacts(s);
      ghost var m := WriteEnters(s, t, p, value, sent, readBack);
      if lib.AhlRef? {
        ok, back, raised, s' := WriteAhl(lib.lib, line, p, value, sent, readBack, m);
        ReachesBoth(s, m, s');
      } else {
        raised := oneK.None?;
        if oneK.Some? { ok, back := oneK.value.0, oneK.value.1; }
        s' := ThousandDone(s, m, raised);
      }
      LivesOn(s, s');
    }

    /** The bind of an AHL lift, from the lock to the closing of the loser: the one step
        that can fail, the probe, comes before anything is published. */
    method BindAhl(line: Line, params: set<int>, leak: bool, ghost s: State, ghost t: Tid)
      returns (raised: bool, ghost s': State)
      requires Valid() && liftType == Unknown && s.proxy == Value() && s.lcm == line.lcm && s.params == params
      requires LcmOk(s.lcm) && s.crit.Free? && t !in s.waiting && t !in s.closing && t !in s.probing
      modifies this, line
      ensures Reaches(s, s') && s'.proxy == Value() && s'.lcm == line.lcm && s'.crit.Free?
      ensures Valid() && liftType == (if raised then Unknown else AhlLift) && (raised ==> lib == old(lib)) && forceReadAll
      ensures AllServed(line.fate) ==> !raised
    {
      ghost var m := FoundAhl(s, t);
      var newTable;
      newTable, raised, s' := DetectTable(line, leak, m);
      ReachesBoth(s, m, s');
      if !raised {
        var ahl := new AhlLib(params);
        ahl.SetPollingTable(newTable);
        PublishPair(AhlLift, Modbus, AhlRef(ahl));
      }
    }

    /** Identification, bind and the closing of the loser. `found` is what the probe
        of both buses says; a probe says only what a handler it was given can tell. */
    method TryIdentify(line: Line, found: LiftType, params: set<int>, leak: bool, ghost s: State, ghost t: Tid)
      returns (raised: bool, ghost s': State)
      requires Stands(s, line) && s.params == params && t !in s.waiting && t !in s.closing && t !in s.probing
      requires found == AhlLift ==> modbusCandidate
      requires found == OneK ==> rs232Candidate
      modifies this, line
      ensures Stands(s', line) && Reaches(s, s')
      ensures liftType == if found == Unknown then old(liftType) else if raised then Unknown else found
      ensures liftType == old(liftType) ==> lib == old(lib) && forceReadAll == old(forceReadAll)
      ensures AllServed(line.fate) ==> !raised
      ensures liftType != old(liftType) ==> forceReadAll && (lib.AhlRef? ==> lib.lib.newTable == line.lcm.newFirmware)
    {
      raised := false;
      StandingFacts(s);
      if found == Unknown {
        s' := Identified(s, t, found);
        return;
      }
      if found == OneK {
        s' := FoundOneK(s, t, leak);
        PublishPair(OneK, Rs232, ThousandRef);
      } else {
        raised, s' := BindAhl(line, params, leak, s, t);
      }
      LivesOn(s, s');
      StandingFacts(s');
    }
  }

  /** The probe of parameter 127: readable means the new table, the lift's own error
      the old one, and anything else raises. */
  method DetectTable(line: Line, leak: bool, ghost s: State) returns (newTable: bool, raised: bool, ghost s': State)
    requires LcmOk(s.lcm) && s.lcm == line.lcm && s.crit.Detect? && s.crit.rd == Trying(0) && s.proxy.rs232Candidate
    modifies line
    ensures Reaches(s, s') && s'.lcm == line.lcm && s'.crit.Free?
    ensures s'.proxy == if raised then s.proxy else
      Proxy(AhlLift, Some(Modbus), Some(AhlData(newTable, map p | p in s.params :: None)), false, false, false, true)
    ensures AllServed(line.fate) ==> !raised && newTable == s.lcm.newFirmware
  {
    var r;
    newTable := false;
    r, raised, s' := ReadParameter(line, 127, s);
    if raised { return; }
    s' := Detected(s, s', leak);
    newTable, raised := r.code == R.NoErr, r.code != R.NoErr && r.code != R.LcmErr;
  }

  /** Write, and with `readBack` read back, under one hold of the lock. */
  method WriteAhl(lib: AhlLib, line: Line, p: int, value: int, sent: int, readBack: bool, ghost s: State)
    returns (ok: bool, back: Option<int>, raised: bool, ghost s': State)
    requires LcmOk(s.lcm) && s.lcm == line.lcm && R.IsInt32(sent)
    requires s.crit.Write? && s.crit.p == p && s.crit.value == value && s.crit.sent == sent && s.crit.readBack == readBack
    requires s.crit.wr == Writing(0) && s.proxy.lib == Some(AhlData(lib.newTable, lib.database))
    modifies lib`database, line
    ensures Reaches(s, s') && s'.lcm == line.lcm && s'.crit.Free?
    ensures s'.proxy == s.proxy.(lib := Some(AhlData(lib.newTable, lib.database)))
    ensures lib.database == AfterWrite(old(lib.database), p, value, !raised && ok, readBack, back)
    ensures AllServed(line.fate) && p != 127 ==> !raised && ok && WriteSeen(line, old(line.k), p, sent, readBack, back)
  {
    back := None;
    ok, raised, s' := WriteOnly(lib, line, p, value, sent, readBack, s);
    if !raised && ok && readBack {
      ghost var m := s';
      back, raised, s' := ReadBackAhl(lib, line, p, m);
      BackSeen(m.lcm, p);
      ReachesBoth(s, m, s');
    }
  }

  /** The handler's write call: a run of the protocol, and taken at once if every
      request is served. */
  method WriteParameter(line: Line, p: int, sent: int, ghost s: State) returns (ok: bool, raised: bool, ghost s': State)
    requires LcmOk(s.lcm) && s.lcm == line.lcm && R.IsInt32(sent)
    requires s.crit.Write? && s.crit.p == p && s.crit.sent == sent && s.crit.wr == Writing(0)
    modifies line
    ensures Carried(s, s') && s'.lcm == line.lcm
    ensures if raised then s'.crit.Free? else SameWrite(s.crit, s'.crit) && s'.crit.wr == Wrote(ok)
    ensures AllServed(line.fate) && p != 127 ==> !raised && ok && Held(line.lcm, p) == Takes(line.taking(old(line.k)), sent).0
  {
    ghost var k := line.k;
    ok, raised, s' := line.Write(p, sent, s);
    if AllServed(line.fate) && p != 127 {
      ServedWrite(s.lcm, p, sent, line.fate, line.taking, k, line.k - k, ok, raised);
    }
  }

  lemma ServedWrite(lcm: Lcm, p: int, sent: int, fate: nat -> Fate, taking: nat -> Taking, k: nat, n: nat, ok: bool, raised: bool)
    requires AllServed(fate) && p != 127
    requires if raised then WriteTries(lcm.newFirmware, p, sent, fate, taking, k, n) && fate(k + n - 1).Throws?
             else WriteResultOf(lcm.newFirmware, p, sent, fate, taking, k, n, ok)
    ensures !raised && ok && Held(WrittenTo(lcm, p, sent, fate, taking, k, n), p) == Takes(taking(k), sent).0
  {
    if n > 1 { assert WriteEndsAt(lcm.newFirmware, p, sent, fate, taking, k, 0); }
    assert WrittenTo(lcm, p, sent, fate, taking, k, 0) == lcm;
  }

  /** The write call and, if no read-back follows, the mirror. */
  method WriteOnly(lib: AhlLib, line: Line, p: int, value: int, sent: int, readBack: bool, ghost s: State)
    returns (ok: bool, raised: bool, ghost s': State)
    requires LcmOk(s.lcm) && s.lcm == line.lcm && R.IsInt32(sent)
    requires s.crit.Write? && s.crit.p == p && s.crit.value == value && s.crit.sent == sent && s.crit.readBack == readBack
    requires s.crit.wr == Writing(0) && s.proxy.lib == Some(AhlData(lib.newTable, lib.database))
    modifies lib`database, line
    ensures Reaches(s, s') && s'.lcm == line.lcm && LcmOk(s'.lcm)
    ensures s'.crit == if !raised && ok && readBack then ReadBack(s.crit.t, p, Trying(0)) else Free
    ensures s'.proxy == s.proxy.(lib := Some(AhlData(lib.newTable, lib.database)))
    ensures lib.database ==
      if !raised && ok && !readBack then Put(old(lib.database), p, value) else old(lib.database)
    ensures AllServed(line.fate) && p != 127 ==> !raised && ok && Held(line.lcm, p) == Takes(line.taking(old(line.k)), sent).0
  {
    ghost var m;
    ok, raised, m := WriteParameter(line, p, sent, s);
    s' := m;
    if raised { return; }
    s' := FinishWrite(lib, p, value, ok, readBack, s, m);
  }

  /** A success without read-back is mirrored at once. */
  method FinishWrite(lib: AhlLib, p: int, value: int, ok: bool, readBack: bool, ghost s: State, ghost m: State)
    returns (ghost s': State)
    requires Reaches(s, m) && LcmOk(m.lcm) && m.proxy.lib == Some(AhlData(lib.newTable, lib.database))
    requires m.crit.Write? && m.crit.p == p && m.crit.value == value && m.crit.readBack == readBack && m.crit.wr == Wrote(ok)
    modifies lib`database
    ensures Reaches(s, s') && s'.lcm == m.lcm
    ensures s'.crit == if ok && readBack then ReadBack(m.crit.t, p, Trying(0)) else Free
    ensures s'.proxy == m.proxy.(lib := Some(AhlData(lib.newTable, lib.database)))
    ensures lib.database == if ok && !readBack then Put(old(lib.database), p, value) else old(lib.database)
  {
    s' := WroteEnds(s, m, lib.database);
    if ok && !readBack { var changed, code := lib.SetParam(p, value); }
  }

  method ReadBackAhl(lib: AhlLib, line: Line, p: int, ghost s: State)
    returns (back: Option<int>, raised: bool, ghost s': State)
    requires LcmOk(s.lcm) && s.lcm == line.lcm && s.crit.ReadBack? && s.crit.p == p && s.crit.rd == Trying(0)
    requires s.proxy.lib == Some(AhlData(lib.newTable, lib.database))
    modifies lib`database, line
    ensures Reaches(s, s') && s'.lcm == line.lcm && s'.crit.Free?
    ensures s'.proxy == s.proxy.(lib := Some(AhlData(lib.newTable, lib.database)))
    ensures raised ==> back == None
    ensures lib.database == if back.Some? then Put(old(lib.database), p, back.value) else old(lib.database)
    ensures AllServed(line.fate) ==> !raised && line.lcm == AfterRead(s.lcm, p) && back == ValueOf(Answer(s.lcm, p))
  {
    back := None;
    var r;
    r, raised, s' := ReadParameter(line, p, s);
    if raised { return; }
    s' := ReadBackEnds(s, s', lib.database);
    back := ValueOf(r);
    if back.Some? { var changed, code := lib.SetParam(p, back.value); }
  }

  lemma BackSeen(lcm: Lcm, p: int)
    ensures forall q :: Held(AfterRead(lcm, p), q) == Held(lcm, q)
    ensures p != POLLING_PARAM ==> ValueOf(Answer(lcm, p)) == Fetched(lcm, p, None)
  {
  }

}
