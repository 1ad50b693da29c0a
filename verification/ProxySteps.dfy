/** The stretches between the calls of the proxy's coroutines, as steps of the protocol:
    each lemma leads from one state of a run to the next that a coroutine stops at. */
module ProxySteps {
  import opened Text
  import opened Ahl
  import opened LiftProxyModel
  import opened LiftLine
  import opened CacheReports
  import R = ModbusRegisters

  /** The library's poll has come to `m` with `rest` still to read, holding `db`. */
  ghost predicate Polling(s: State, m: State, db: Cache, force: bool, rest: seq<int>, changed: seq<int>)
    requires s.crit.PollFlags?
  {
    && Reaches(s, m) && LcmOk(m.lcm) && m.params == s.params && m.waiting == s.waiting && m.closing == s.closing
    && m.proxy == s.proxy.(lib := Some(AhlData(Table(s), db)), forceReadAll := s.proxy.forceReadAll && rest != [])
    && m.crit == (if rest == [] then Free else Sweep(s.crit.t, force, rest, Trying(0)))
    && Reports(m.log) == Reports(s.log) + changed
  }

  /** The flag word is in: with nothing to read the poll returns at once. */
  lemma FlagsRead(s: State, m: State, db: Cache, r: R.ReadResult, candidates: seq<int>) returns (s': State)
    requires s.crit.PollFlags? && Carried(s, m) && m.crit == PollFlags(s.crit.t, s.crit.force, Got(r))
    requires s.proxy.lib == Some(AhlData(Table(s), db)) && candidates == Wanted(Table(s), s.crit.force, r)
    ensures Polling(s, s', db, s.crit.force, InDatabase(candidates, s.params), []) && s'.lcm == m.lcm
  {
    var todo := InDatabase(candidates, s.params);
    FlagsReached(s, m, todo);
    s' := GoesOn(m, s.crit.t, s.crit.force, todo);
  }

  lemma FlagsReached(s: State, m: State, todo: seq<int>)
    requires Reaches(s, m) && LcmOk(m.lcm) && m.crit.PollFlags? && m.crit.rd.Got?
    requires todo == InDatabase(Wanted(Table(m), m.crit.force, m.crit.rd.r), m.params)
    ensures Reaches(s, NextRead(m, m.crit.t, m.crit.force, todo))
  {
    ReachesStep(s, m, Resume);
  }

  /** What one answer makes of the cache, and the change it reports. */
  function Answered(db: Cache, p: int, r: R.ReadResult): (Cache, seq<int>) {
    if r.code == R.NoErr then CacheSet(db, p, r.value) else (db, [])
  }

  /** One step further, from what the answer made of the state. */
  lemma PollingOn(s: State, m: State, m1: State, s': State, db: Cache, db': Cache, force: bool, rest: seq<int>, changed: seq<int>, news: seq<int>)
    requires s.crit.PollFlags? && rest != [] && Polling(s, m, db, force, rest, changed)
    requires Carried(m, m1) && Reaches(s, s')
    requires s'.lcm == m1.lcm && s'.params == m1.params && s'.waiting == m1.waiting && s'.closing == m1.closing
    requires s'.proxy == m1.proxy.(lib := Some(AhlData(Table(m1), db')), forceReadAll := m1.proxy.forceReadAll && rest[1..] != [])
    requires s'.crit == if rest[1..] == [] then Free else Sweep(s.crit.t, force, rest[1..], Trying(0))
    requires Reports(s'.log) == Reports(m1.log) + news
    ensures Polling(s, s', db', force, rest[1..], changed + news)
  {
    assert (Reports(s.log) + changed) + news == Reports(s.log) + (changed + news);
  }

  /** One answered parameter of the sweep. */
  lemma OneSwept(s: State, m: State, m1: State, db: Cache, force: bool, rest: seq<int>, changed: seq<int>, r: R.ReadResult)
    returns (s': State)
    requires s.crit.PollFlags? && rest != [] && Polling(s, m, db, force, rest, changed)
    requires Carried(m, m1) && m1.crit == Sweep(s.crit.t, force, rest, Got(r))
    ensures Polling(s, s', Answered(db, rest[0], r).0, force, rest[1..], changed + Answered(db, rest[0], r).1) && s'.lcm == m1.lcm
  {
    ReachesBoth(s, m, m1);
    assert Table(m1) == Table(s);
    s' := SweepResult(s, m1, db);
    PollingOn(s, m, m1, s', db, Answered(db, rest[0], r).0, force, rest, changed, Answered(db, rest[0], r).1);
  }

  /** Going on after an answered parameter, field by field. */
  lemma SweepResult(s: State, m: State, db: Cache) returns (s': State)
    requires Reaches(s, m) && LcmOk(m.lcm) && m.crit.Sweep? && m.crit.rd.Got? && m.crit.todo != []
    requires m.proxy.lib == Some(AhlData(Table(m), db))
    ensures Reaches(s, s') && s'.lcm == m.lcm && s'.params == m.params && s'.waiting == m.waiting && s'.closing == m.closing
    ensures var (db', news) := Answered(db, m.crit.todo[0], m.crit.rd.r);
      && s'.proxy == m.proxy.(lib := Some(AhlData(Table(m), db')), forceReadAll := m.proxy.forceReadAll && m.crit.todo[1..] != [])
      && Reports(s'.log) == Reports(m.log) + news
    ensures s'.crit == if m.crit.todo[1..] == [] then Free else Sweep(m.crit.t, m.crit.force, m.crit.todo[1..], Trying(0))
  {
    var p, rest := m.crit.todo[0], m.crit.todo[1..];
    SweptReached(s, m);
    SweptKept(m, db, p, m.crit.rd.r);
    s' := GoesOn(Swept(m, p, m.crit.rd.r), m.crit.t, m.crit.force, rest);
  }

  lemma SweptReached(s: State, m: State)
    requires Reaches(s, m) && LcmOk(m.lcm) && m.crit.Sweep? && m.crit.rd.Got? && m.crit.todo != []
    ensures Reaches(s, NextRead(Swept(m, m.crit.todo[0], m.crit.rd.r), m.crit.t, m.crit.force, m.crit.todo[1..]))
  {
    ReachesStep(s, m, Resume);
  }

  lemma CacheSets(m: State, db: Cache, p: int, v: int)
    requires m.proxy.lib == Some(AhlData(Table(m), db))
    ensures SetCache(m, p, v) == m.(proxy := m.proxy.(lib := Some(AhlData(Table(m), CacheSet(db, p, v).0))))
  {
  }

  lemma SweptKept(m: State, db: Cache, p: int, r: R.ReadResult)
    requires m.proxy.lib == Some(AhlData(Table(m), db))
    ensures var s' := Swept(m, p, r);
      && s'.proxy == m.proxy.(lib := Some(AhlData(Table(m), Answered(db, p, r).0)))
      && s'.lcm == m.lcm && s'.params == m.params && s'.waiting == m.waiting && s'.closing == m.closing
      && Reports(s'.log) == Reports(m.log) + Answered(db, p, r).1
  {
    assert CacheOf(m) == db;
    if r.code == R.NoErr {
      CacheSets(m, db, p, r.value);
      ReportsAppend(m.log, Reported(p));
    }
  }

  lemma GoesOn(m: State, t: Tid, force: bool, rest: seq<int>) returns (s': State)
    ensures s' == NextRead(m, t, force, rest) && Reports(s'.log) == Reports(m.log)
    ensures s'.proxy == m.proxy.(forceReadAll := m.proxy.forceReadAll && rest != [])
    ensures s'.lcm == m.lcm && s'.params == m.params && s'.waiting == m.waiting && s'.closing == m.closing
    ensures s'.crit == if rest == [] then Free else Sweep(t, force, rest, Trying(0))
  {
    s' := NextRead(m, t, force, rest);
    ReportsAppend(m.log, PollDone(force));
  }

  lemma DatabaseStep(todo: seq<int>, i: nat, params: set<int>)
    requires i < |todo|
    ensures InDatabase(todo[i..], params) == (if todo[i] in params then [todo[i]] else []) + InDatabase(todo[i + 1..], params)
  {
    assert todo[i..][0] == todo[i] && todo[i..][1..] == todo[i + 1..];
  }

  /** Queued on the lock and let in. */
  lemma Enters(s: State, call: Event, t: Tid, q: Request) returns (s': State)
    requires LcmOk(s.lcm) && s.crit.Free? && t !in s.waiting && t !in s.closing
    requires Enabled(s, call) && Next(s, call) == s.(waiting := s.waiting[t := q])
    ensures Reaches(s, s') && s' == Enter(s, t, q)
  {
    var s1 := s.(waiting := s.waiting[t := q]);
    ReachesSelf(s);
    ReachesStep(s, s, call);
    ReachesStep(s, s1, Acquire(t));
    assert s1.waiting - {t} == s.waiting;
    assert s1.(waiting := s1.waiting - {t}) == s;
    s' := Enter(s, t, q);
  }

  lemma PollEnters(s: State, t: Tid, force: bool) returns (m: State)
    requires LcmOk(s.lcm) && s.crit.Free? && t !in s.waiting && t !in s.closing && s.proxy.lib.Some? && s.proxy.handler.Some?
    ensures Reaches(s, m)
    ensures var f := force || s.proxy.forceReadAll;
      m == s.(crit := if s.proxy.lib.value.AhlData? then PollFlags(t, f, Trying(0)) else Poll1k(t, f))
  {
    m := Enters(s, CallPoll(t, force), t, PollReq(force));
  }

  lemma ThousandPolled(s: State, m: State, raised: bool) returns (s': State)
    requires Reaches(s, m) && LcmOk(m.lcm) && m.crit.Poll1k?
    ensures Reaches(s, s') && s'.lcm == m.lcm && s'.crit.Free?
    ensures s'.proxy == m.proxy.(forceReadAll := m.proxy.forceReadAll && raised)
  {
    if raised {
      ReachesStep(s, m, Raise);
      s' := OnRaise(m);
    } else {
      ReachesStep(s, m, Resume);
      s' := PollReturns(m, m.crit.force);
    }
  }

  lemma WriteEnters(s: State, t: Tid, p: int, value: int, sent: int, readBack: bool) returns (m: State)
    requires LcmOk(s.lcm) && s.crit.Free? && t !in s.waiting && t !in s.closing && s.proxy.handler.Some?
    requires R.IsInt32(sent) && (sent == value || 102 <= p <= 104)
    ensures Reaches(s, m)
    ensures m == s.(crit := if s.proxy.handler == Some(Modbus) then Write(t, p, value, sent, readBack, Writing(0), false) else Other1k(t))
  {
    m := Enters(s, CallWrite(t, p, value, sent, readBack), t, WriteReq(p, value, sent, readBack));
  }

  lemma ThousandDone(s: State, m: State, raised: bool) returns (s': State)
    requires Reaches(s, m) && LcmOk(m.lcm) && m.crit.Other1k?
    ensures Reaches(s, s') && s' == m.(crit := Free)
  {
    var e := if raised then Raise else Resume;
    ReachesStep(s, m, e);
    s' := m.(crit := Free);
  }

  lemma CachePut(db: Cache, p: int, v: int)
    ensures CacheSet(db, p, v).0 == Put(db, p, v)
  {
  }

  lemma MirrorPuts(m: State, db: Cache, p: int, v: int)
    requires m.proxy.lib == Some(AhlData(Table(m), db))
    ensures var s' := SetCache(m, p, v);
      s'.lcm == m.lcm && s'.proxy == m.proxy.(lib := Some(AhlData(Table(m), Put(db, p, v))))
  {
    CachePut(db, p, v);
  }

  /** After the write call: done, mirrored, or on to the read-back. */
  lemma WroteEnds(s: State, m: State, db: Cache) returns (s': State)
    requires Reaches(s, m) && LcmOk(m.lcm) && m.crit.Write? && m.crit.wr.Wrote?
    requires m.proxy.lib == Some(AhlData(Table(m), db))
    ensures Reaches(s, s') && s'.lcm == m.lcm
    ensures s'.crit == if m.crit.wr.ok && m.crit.readBack then ReadBack(m.crit.t, m.crit.p, Trying(0)) else Free
    ensures var db' := if m.crit.wr.ok && !m.crit.readBack then Put(db, m.crit.p, m.crit.value) else db;
      s'.proxy == m.proxy.(lib := Some(AhlData(Table(m), db')))
  {
    ReachesStep(s, m, Resume);
    MirrorPuts(m, db, m.crit.p, m.crit.value);
    s' := OnWrote(m, m.crit);
  }

  lemma ReadBackEnds(s: State, m: State, db: Cache) returns (s': State)
    requires Reaches(s, m) && LcmOk(m.lcm) && m.crit.ReadBack? && m.crit.rd.Got?
    requires m.proxy.lib == Some(AhlData(Table(m), db))
    ensures Reaches(s, s') && s'.lcm == m.lcm && s'.crit.Free?
    ensures var v := ValueOf(m.crit.rd.r);
      s'.proxy == m.proxy.(lib := Some(AhlData(Table(m), if v.Some? then Put(db, m.crit.p, v.value) else db)))
  {
    ReachesStep(s, m, Resume);
    MirrorPuts(m, db, m.crit.p, m.crit.rd.r.value);
    s' := OnReadBack(m, m.crit);
  }

  /** Probed, and let in to bind. */
  lemma Identified(s: State, t: Tid, found: LiftType) returns (m: State)
    requires LcmOk(s.lcm) && s.crit.Free? && t !in s.waiting && t !in s.closing && t !in s.probing
    requires found == AhlLift ==> s.proxy.modbusCandidate
    requires found == OneK ==> s.proxy.rs232Candidate
    ensures Reaches(s, m) && m == if found == Unknown then s else Enter(s, t, BindReq(found))
  {
    var s1 := Next(s, Identify(t));
    ReachesSelf(s);
    ReachesStep(s, s, Identify(t));
    ReachesStep(s, s1, Probe(t, found));
    assert s1.probing - {t} == s.probing;
    var s2 := Next(s1, Probe(t, found));
    if found == Unknown {
      assert s2 == s;
    } else {
      assert s2 == s.(waiting := s.waiting[t := BindReq(found)]);
      ReachesStep(s, s2, Acquire(t));
      assert s2.waiting - {t} == s.waiting;
      assert s2.(waiting := s2.waiting - {t}) == s;
    }
    m := if found == Unknown then s else Enter(s, t, BindReq(found));
  }

  /** The losing handler is closed, or its descriptor leaks; the proxy is as before. */
  lemma LoserGone(s: State, m: State, t: Tid, leak: bool) returns (s': State)
    requires Reaches(s, m) && LcmOk(m.lcm) && t in m.closing
    ensures Reaches(s, s') && s'.proxy == m.proxy && s'.lcm == m.lcm && s'.crit == m.crit
  {
    var e := if leak then Leak(t) else Close(t);
    ReachesStep(s, m, e);
    s' := Next(m, e);
  }

  lemma Detected(s: State, m: State, leak: bool) returns (s': State)
    requires Reaches(s, m) && LcmOk(m.lcm) && m.crit.Detect? && m.crit.rd.Got? && m.proxy.rs232Candidate
    ensures Reaches(s, s') && s'.lcm == m.lcm && s'.crit.Free?
    ensures var code := m.crit.rd.r.code;
      s'.proxy ==
        if code == R.NoErr || code == R.LcmErr
        then Proxy(AhlLift, Some(Modbus), Some(AhlData(code == R.NoErr, map p | p in m.params :: None)), false, false, false, true)
        else m.proxy
  {
    ReachesStep(s, m, Resume);
    s' := OnDetected(m, m.crit);
    if R.Conclusive(m.crit.rd.r.code) { s' := LoserGone(s, s', m.crit.t, leak); }
  }

  function ValueOf(r: R.ReadResult): Option<int> {
    if r.code == R.NoErr then Some(r.value) else None
  }

  /** An AHL lift was found: its bind stops at the probe of parameter 127. */
  lemma FoundAhl(s: State, t: Tid) returns (m: State)
    requires LcmOk(s.lcm) && s.crit.Free? && t !in s.waiting && t !in s.closing && t !in s.probing && s.proxy.modbusCandidate
    ensures Reaches(s, m) && m == s.(crit := Detect(t, Trying(0)))
  {
    m := Identified(s, t, AhlLift);
  }

  /** A 1k lift was found: it is bound at once, and the loser closed or leaked. */
  lemma FoundOneK(s: State, t: Tid, leak: bool) returns (s': State)
    requires LcmOk(s.lcm) && s.crit.Free? && t !in s.waiting && t !in s.closing && t !in s.probing
    requires s.proxy.modbusCandidate && s.proxy.rs232Candidate && s.proxy.thousandCandidate
    ensures Reaches(s, s') && s'.lcm == s.lcm && s'.crit == s.crit
    ensures s'.proxy == Proxy(OneK, Some(Rs232), Some(ThousandData), false, false, false, true)
  {
    var m := Identified(s, t, OneK);
    s' := LoserGone(s, m, t, leak);
  }
}
