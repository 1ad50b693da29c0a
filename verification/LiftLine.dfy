/** The lift at the other end of the wire, as the worker thread meets it: calls that
    try up to three times. Each attempt is one step of the protocol. */
module LiftLine {
  import opened Text
  import opened Ahl
  import opened LiftProxyModel
  import R = ModbusRegisters

  /** What becomes of one request: an outcome on the wire, or an exception that
      leaves the call. */
  datatype Fate = Happens(o: Outcome) | Throws

  /** How the lift takes a written value: as sent, flagged or not, or as another
      value, which it then flags. */
  datatype Taking = AsSent(flagged: bool) | Instead(value: int)

  function WithRead(c: Crit, rd: Rd): Crit {
    match c
    case Detect(t, _) => Detect(t, rd)
    case PollFlags(t, force, _) => PollFlags(t, force, rd)
    case Sweep(t, force, todo, _) => Sweep(t, force, todo, rd)
    case ReadBack(t, p, _) => ReadBack(t, p, rd)
    case LiveRead(t, p, _) => LiveRead(t, p, rd)
    case _ => c
  }

  ghost predicate SameWrite(c: Crit, c': Crit) {
    && c.Write? && c'.Write?
    && (c.t, c.p, c.value, c.sent, c.readBack) == (c'.t, c'.p, c'.value, c'.sent, c'.readBack)
  }

  ghost predicate Reading(c: Crit) {
    c.Detect? || c.PollFlags? || (c.Sweep? && c.todo != []) || c.ReadBack? || c.LiveRead?
  }

  /** The parameters reported as changed, in order. */
  ghost function Reports(log: seq<Entry>): seq<int> {
    if log == [] then []
    else
      var e := log[|log| - 1];
      Reports(log[..|log| - 1]) + (if e.Reported? then [e.p] else [])
  }

  lemma ReportsAppend(log: seq<Entry>, e: Entry)
    ensures Reports(log + [e]) == Reports(log) + (if e.Reported? then [e.p] else [])
  {
    assert (log + [e])[..|log|] == log;
  }

  /** A run has led from `s` to `s'` by bus traffic of one call alone. */
  ghost predicate Carried(s: State, s': State) {
    && Reaches(s, s') && LcmOk(s'.lcm) && s'.proxy == s.proxy && s'.params == s.params
    && s'.waiting == s.waiting && s'.closing == s.closing && s'.probing == s.probing
    && Reports(s'.log) == Reports(s.log)
  }

  lemma WithReadTwice(c: Crit, rd: Rd, rd': Rd)
    requires Reading(c)
    ensures var c' := WithRead(c, rd);
      Reading(c') && c'.rd == rd && ReadTarget(c') == ReadTarget(c) && WithRead(c', rd') == WithRead(c, rd')
  {
  }

  /** One attempt of the read that `c` began. */
  lemma TryOnce(s: State, m: State, c: Crit, n: nat, o: Outcome, answer: R.ReadResult) returns (s': State)
    requires Carried(s, m) && Reading(c) && m.crit == WithRead(c, Trying(n)) && (o == LinkDown ==> n == 0)
    requires answer == Answer(m.lcm, ReadTarget(c))
    ensures Carried(s, s') && s'.crit == WithRead(c, AfterTry(Trying(n), o, answer))
    ensures s'.lcm == if o == Served || o == ServedLost then AfterRead(m.lcm, ReadTarget(c)) else m.lcm
  {
    WithReadTwice(c, Trying(n), AfterTry(Trying(n), o, answer));
    ReachesStep(s, m, BusRead(o));
    ReplyCarries(m, o, answer);
    s' := OnReply(m, o, answer);
  }

  lemma ReplyCarries(m: State, o: Outcome, answer: R.ReadResult)
    requires Enabled(m, BusRead(o))
    ensures var s' := OnReply(m, o, answer);
      && LcmOk(s'.lcm) && s'.proxy == m.proxy && s'.params == m.params
      && s'.waiting == m.waiting && s'.closing == m.closing && s'.probing == m.probing
      && Reports(s'.log) == Reports(m.log)
      && s'.crit == WithRead(m.crit, AfterTry(m.crit.rd, o, answer))
      && s'.lcm == if o == Served || o == ServedLost then AfterRead(m.lcm, ReadTarget(m.crit)) else m.lcm
  {
    ReportsAppend(m.log, Bus(m.crit.t, OpRead(ReadTarget(m.crit))));
  }

  lemma RaiseOnce(s: State, m: State) returns (s': State)
    requires Carried(s, m) && ((Reading(m.crit) && m.crit.rd.Trying?) || (m.crit.Write? && m.crit.wr.Writing?))
    ensures Carried(s, s') && s'.crit.Free? && s'.lcm == m.lcm
  {
    ReachesStep(s, m, Raise);
    s' := OnRaise(m);
  }

  lemma WriteOnce(s: State, m: State, o: Outcome, stored: int, flagged: bool) returns (s': State)
    requires Carried(s, m) && Enabled(m, BusWrite(o, stored, flagged))
    ensures Carried(s, s') && SameWrite(m.crit, s'.crit) && s'.crit.wr == AfterSend(m.crit.wr.tries, o)
    ensures s'.lcm == if o == Served || o == ServedLost then Stored(m.lcm, m.crit.p, stored, flagged) else m.lcm
  {
    ReachesStep(s, m, BusWrite(o, stored, flagged));
    ReportsAppend(m.log, Bus(m.crit.t, OpWrite(m.crit.p)));
    s' := OnWrite(m, o, stored, flagged);
  }

  /** Where a write stands after attempt number `tries`. */
  function AfterSend(tries: nat, o: Outcome): Wr {
    match o
    case Served => Wrote(true)
    case LinkDown => Wrote(false)
    case _ => if tries + 1 < 3 then Writing(tries + 1) else Wrote(false)
  }

  /** The lift would not stay what its firmware is: it does not serve the write. */
  predicate Refused(newFirmware: bool, p: int, v: int) {
    p == 127 && (v == R.DEAD_VALUE) == newFirmware
  }

  // ---- what the fates of its attempts make of a call ----

  /** The request gets to the lift. */
  predicate Arrives(f: Fate) {
    f.Happens? && (f.o == Served || f.o == ServedLost)
  }

  /** No further attempt after attempt number `i`: an exception, an answer, or no link
      to begin with. */
  predicate EndsRead(f: Fate, i: nat) {
    f.Throws? || f.o == Served || (f.o == LinkDown && i == 0)
  }

  /** A read call that began with request `k` makes `n` attempts: up to the first that
      ends it, and at most three. */
  ghost predicate ReadTries(fate: nat -> Fate, k: nat, n: nat) {
    && 1 <= n <= 3 && (forall i: nat | i < n - 1 :: !ReadEndsAt(fate, k, i))
    && (n < 3 ==> ReadEndsAt(fate, k, n - 1))
  }

  predicate ReadEndsAt(fate: nat -> Fate, k: nat, i: nat) {
    EndsRead(fate(k + i), i)
  }

  predicate AnyArrives(fate: nat -> Fate, k: nat, n: nat) {
    n > 0 && (AnyArrives(fate, k, n - 1) || Arrives(fate(k + n - 1)))
  }

  /** The lift after `n` attempts to read `p`. */
  ghost function ReadFrom(lcm: Lcm, p: int, fate: nat -> Fate, k: nat, n: nat): Lcm {
    if AnyArrives(fate, k, n) then AfterRead(lcm, p) else lcm
  }

  /** What the lift does with a value sent to it: the value it stores, and whether it
      flags the group. */
  function Takes(how: Taking, sent: int): (int, bool) {
    match how
    case AsSent(flagged) => (sent, flagged)
    case Instead(value) => if R.IsInt32(value) then (value, true) else (sent, true)
  }

  predicate Accepts(newFirmware: bool, p: int, sent: int, f: Fate, how: Taking) {
    Arrives(f) && !Refused(newFirmware, p, Takes(how, sent).0)
  }

  predicate EndsWrite(newFirmware: bool, p: int, sent: int, f: Fate, how: Taking, i: nat) {
    || f.Throws? || (f.o == LinkDown && i == 0)
    || (f.o == Served && Accepts(newFirmware, p, sent, f, how))
  }

  ghost predicate WriteTries(newFirmware: bool, p: int, sent: int, fate: nat -> Fate, taking: nat -> Taking, k: nat, n: nat) {
    && 1 <= n <= 3 && (forall i: nat | i < n - 1 :: !WriteEndsAt(newFirmware, p, sent, fate, taking, k, i))
    && (n < 3 ==> WriteEndsAt(newFirmware, p, sent, fate, taking, k, n - 1))
  }

  predicate WriteEndsAt(newFirmware: bool, p: int, sent: int, fate: nat -> Fate, taking: nat -> Taking, k: nat, i: nat) {
    EndsWrite(newFirmware, p, sent, fate(k + i), taking(k + i), i)
  }

  /** The lift after `n` attempts to write `sent` to `p`. */
  ghost function WrittenTo(lcm: Lcm, p: int, sent: int, fate: nat -> Fate, taking: nat -> Taking, k: nat, n: nat): (r: Lcm)
    ensures r.newFirmware == lcm.newFirmware
  {
    if n == 0 then lcm
    else
      var m := WrittenTo(lcm, p, sent, fate, taking, k, n - 1);
      var how := taking(k + n - 1);
      if Accepts(lcm.newFirmware, p, sent, fate(k + n - 1), how)
      then Stored(m, p, Takes(how, sent).0, Takes(how, sent).1) else m
  }

  /** A read call's `n` attempts, an exception excepted, and the result they end in:
      what the lift answered last, which only attempts to read the flag word change. */
  ghost predicate ReadResultOf(lcm: Lcm, p: int, fate: nat -> Fate, k: nat, n: nat, r: R.ReadResult) {
    && ReadTries(fate, k, n) && fate(k + n - 1).Happens?
    && r == if fate(k + n - 1).o == Served then Answer(ReadFrom(lcm, p, fate, k, n - 1), p)
            else R.ReadResult(-1, if n == 1 && fate(k).o == LinkDown then R.LinkErr else R.ComErr)
  }

  /** A write call's `n` attempts, an exception excepted, and whether the last one was
      acknowledged. */
  ghost predicate WriteResultOf(newFirmware: bool, p: int, sent: int, fate: nat -> Fate, taking: nat -> Taking, k: nat, n: nat, ok: bool) {
    && WriteTries(newFirmware, p, sent, fate, taking, k, n) && fate(k + n - 1).Happens?
    && (ok <==> fate(k + n - 1).o == Served && Accepts(newFirmware, p, sent, fate(k + n - 1), taking(k + n - 1)))
  }

  // ---- a call is a run of the protocol ----

  /** The outcome of attempt number `i`: the link is looked at before the first only. */
  function OutcomeAt(f: Fate, i: nat): Outcome
    requires f.Happens?
  {
    if f.o == LinkDown && i > 0 then NotServed else f.o
  }

  /** The first `n` attempts of a read, none of which ended it. */
  lemma {:induction false} ReadTried(s: State, p: int, fate: nat -> Fate, k: nat, n: nat) returns (m: State)
    requires LcmOk(s.lcm) && Reading(s.crit) && s.crit.rd == Trying(0) && ReadTarget(s.crit) == p
    requires n < 3 && forall i: nat | i < n :: !ReadEndsAt(fate, k, i)
    ensures Carried(s, m) && m.crit == WithRead(s.crit, Trying(n)) && m.lcm == ReadFrom(s.lcm, p, fate, k, n)
  {
    if n == 0 {
      ReachesSelf(s);
      m := s;
    } else {
      var before := ReadTried(s, p, fate, k, n - 1);
      assert !ReadEndsAt(fate, k, n - 1);
      m := TryOnce(s, before, s.crit, n - 1, OutcomeAt(fate(k + n - 1), n - 1), Answer(before.lcm, p));
    }
  }

  lemma ReadReplayed(s: State, p: int, fate: nat -> Fate, k: nat, n: nat, raised: bool, r: R.ReadResult) returns (s': State)
    requires LcmOk(s.lcm) && Reading(s.crit) && s.crit.rd == Trying(0) && ReadTarget(s.crit) == p
    requires if raised then ReadTries(fate, k, n) && fate(k + n - 1).Throws? else ReadResultOf(s.lcm, p, fate, k, n, r)
    ensures Carried(s, s') && s'.lcm == ReadFrom(s.lcm, p, fate, k, n)
    ensures s'.crit == if raised then Free else WithRead(s.crit, Got(r))
  {
    var m := ReadTried(s, p, fate, k, n - 1);
    if raised {
      WithReadTwice(s.crit, Trying(n - 1), Trying(n - 1));
      s' := RaiseOnce(s, m);
    } else {
      assert n < 3 ==> ReadEndsAt(fate, k, n - 1);
      s' := TryOnce(s, m, s.crit, n - 1, OutcomeAt(fate(k + n - 1), n - 1), Answer(m.lcm, p));
    }
  }

  /** One attempt of a write. */
  lemma SendOnce(s: State, m: State, n: nat, f: Fate, how: Taking) returns (s': State)
    requires Carried(s, m) && m.crit.Write? && R.IsInt32(m.crit.sent) && m.crit.wr == Writing(n) && n < 3 && f.Happens?
    ensures Carried(s, s') && SameWrite(m.crit, s'.crit)
    ensures var c, fw := m.crit, m.lcm.newFirmware;
      && s'.lcm == (if Accepts(fw, c.p, c.sent, f, how) then Stored(m.lcm, c.p, Takes(how, c.sent).0, Takes(how, c.sent).1) else m.lcm)
      && s'.crit.wr == if f.o == Served && Accepts(fw, c.p, c.sent, f, how) then Wrote(true)
                       else if (f.o == LinkDown && n == 0) || n == 2 then Wrote(false)
                       else Writing(n + 1)
  {
    var (stored, flagged) := Takes(how, m.crit.sent);
    var o := if Arrives(f) && Refused(m.lcm.newFirmware, m.crit.p, stored) then NotServed else OutcomeAt(f, n);
    s' := WriteOnce(s, m, o, stored, flagged);
  }

  lemma {:induction false} WriteTried(s: State, p: int, sent: int, fate: nat -> Fate, taking: nat -> Taking, k: nat, n: nat)
    returns (m: State)
    requires LcmOk(s.lcm) && R.IsInt32(sent)
    requires s.crit.Write? && s.crit.p == p && s.crit.sent == sent && s.crit.wr == Writing(0)
    requires n < 3 && forall i: nat | i < n :: !WriteEndsAt(s.lcm.newFirmware, p, sent, fate, taking, k, i)
    ensures Carried(s, m) && SameWrite(s.crit, m.crit) && m.crit.wr == Writing(n)
    ensures m.lcm == WrittenTo(s.lcm, p, sent, fate, taking, k, n)
  {
    if n == 0 {
      ReachesSelf(s);
      m := s;
    } else {
      var before := WriteTried(s, p, sent, fate, taking, k, n - 1);
      assert !WriteEndsAt(s.lcm.newFirmware, p, sent, fate, taking, k, n - 1);
      m := SendOnce(s, before, n - 1, fate(k + n - 1), taking(k + n - 1));
    }
  }

  lemma WriteReplayed(s: State, p: int, sent: int, fate: nat -> Fate, taking: nat -> Taking, k: nat, n: nat, raised: bool, ok: bool)
    returns (s': State)
    requires LcmOk(s.lcm) && R.IsInt32(sent)
    requires s.crit.Write? && s.crit.p == p && s.crit.sent == sent && s.crit.wr == Writing(0)
    requires if raised then WriteTries(s.lcm.newFirmware, p, sent, fate, taking, k, n) && fate(k + n - 1).Throws?
             else WriteResultOf(s.lcm.newFirmware, p, sent, fate, taking, k, n, ok)
    ensures Carried(s, s') && s'.lcm == WrittenTo(s.lcm, p, sent, fate, taking, k, n)
    ensures if raised then s'.crit.Free? else SameWrite(s.crit, s'.crit) && s'.crit.wr == Wrote(ok)
  {
    var m := WriteTried(s, p, sent, fate, taking, k, n - 1);
    if raised {
      s' := RaiseOnce(s, m);
    } else {
      assert n < 3 ==> WriteEndsAt(s.lcm.newFirmware, p, sent, fate, taking, k, n - 1);
      s' := SendOnce(s, m, n - 1, fate(k + n - 1), taking(k + n - 1));
    }
  }

  lemma GaveUp(lcm: Lcm, p: int, fate: nat -> Fate, k: nat)
    requires forall i: nat | i < 3 :: !ReadEndsAt(fate, k, i)
    ensures ReadResultOf(lcm, p, fate, k, 3, R.ReadResult(-1, R.ComErr))
  {
    assert !ReadEndsAt(fate, k, 2);
  }

  class Line {
    var lcm: Lcm
    var k: nat  // requests so far
    const fate: nat -> Fate
    const taking: nat -> Taking

    constructor (lcm: Lcm, fate: nat -> Fate, taking: nat -> Taking)
      ensures this.lcm == lcm && this.fate == fate && this.taking == taking && k == 0
    {
      this.lcm, this.fate, this.taking, k := lcm, fate, taking, 0;
    }

    /** A read call: the link is looked at once, then up to three tries. */
    method ReadCall(p: int) returns (r: R.ReadResult, raised: bool)
      modifies this
      ensures k > old(k) && lcm == ReadFrom(old(lcm), p, fate, old(k), k - old(k))
      ensures if raised then ReadTries(fate, old(k), k - old(k)) && fate(k - 1).Throws?
              else ReadResultOf(old(lcm), p, fate, old(k), k - old(k), r)
    {
      ghost var k0, lcm0 := k, lcm;
      r, raised := R.ReadResult(-1, R.ComErr), false;
      for tries := 0 to 3
        invariant !raised && k == k0 + tries && lcm == ReadFrom(lcm0, p, fate, k0, tries)
        invariant forall i: nat | i < tries :: !ReadEndsAt(fate, k0, i)
        invariant r == R.ReadResult(-1, R.ComErr)
      {
        var f := fate(k);
        ghost var ends := ReadEndsAt(fate, k0, tries);
        k := k + 1;
        if f.Throws? { return r, true; }
        if f.o == LinkDown && tries == 0 { return R.ReadResult(-1, R.LinkErr), false; }
        var answer := Answer(lcm, p);
        if Arrives(f) { lcm := AfterRead(lcm, p); }
        if f.o == Served { return answer, false; }
        assert !ends;
      }
      GaveUp(lcm0, p, fate, k0);
    }

    /** The call as a run of the protocol, from `s` to `s'`. */
    method Read(p: int, ghost s: State) returns (r: R.ReadResult, raised: bool, ghost s': State)
      requires LcmOk(s.lcm) && s.lcm == lcm && Reading(s.crit) && s.crit.rd == Trying(0) && ReadTarget(s.crit) == p
      modifies this
      ensures Carried(s, s') && s'.lcm == lcm
      ensures s'.crit == if raised then Free else WithRead(s.crit, Got(r))
      ensures k > old(k) && lcm == ReadFrom(old(lcm), p, fate, old(k), k - old(k))
      ensures if raised then ReadTries(fate, old(k), k - old(k)) && fate(k - 1).Throws?
              else ReadResultOf(old(lcm), p, fate, old(k), k - old(k), r)
    {
      r, raised := ReadCall(p);
      s' := ReadReplayed(s, p, fate, old(k), k - old(k), raised, r);
    }

    /** A write call, by the same loop. */
    method WriteCall(p: int, sent: int) returns (ok: bool, raised: bool)
      modifies this
      ensures k > old(k) && lcm == WrittenTo(old(lcm), p, sent, fate, taking, old(k), k - old(k))
      ensures if raised then WriteTries(old(lcm).newFirmware, p, sent, fate, taking, old(k), k - old(k)) && fate(k - 1).Throws?
              else WriteResultOf(old(lcm).newFirmware, p, sent, fate, taking, old(k), k - old(k), ok)
    {
      ok, raised := false, false;
      for tries := 0 to 3
        invariant !raised && !ok && k == old(k) + tries && lcm == WrittenTo(old(lcm), p, sent, fate, taking, old(k), tries)
        invariant forall i: nat | i < tries :: !WriteEndsAt(old(lcm).newFirmware, p, sent, fate, taking, old(k), i)
        invariant tries > 0 ==> !WriteEndsAt(old(lcm).newFirmware, p, sent, fate, taking, old(k), tries - 1)
      {
        var f, how := fate(k), taking(k);
        assert WriteEndsAt(old(lcm).newFirmware, p, sent, fate, taking, old(k), tries)
          <==> EndsWrite(old(lcm).newFirmware, p, sent, f, how, tries);
        k := k + 1;
        if f.Throws? { return false, true; }
        if f.o == LinkDown && tries == 0 { return; }
        if Accepts(lcm.newFirmware, p, sent, f, how) {
          var (stored, flagged) := Takes(how, sent);
          lcm := Stored(lcm, p, stored, flagged);
          if f.o == Served { return true, false; }
        }
      }
    }

    method Write(p: int, sent: int, ghost s: State) returns (ok: bool, raised: bool, ghost s': State)
      requires LcmOk(s.lcm) && s.lcm == lcm && R.IsInt32(sent)
      requires s.crit.Write? && s.crit.p == p && s.crit.sent == sent && s.crit.wr == Writing(0)
      modifies this
      ensures Carried(s, s') && s'.lcm == lcm
      ensures if raised then s'.crit.Free? else SameWrite(s.crit, s'.crit) && s'.crit.wr == Wrote(ok)
      ensures k > old(k) && lcm == WrittenTo(old(lcm), p, sent, fate, taking, old(k), k - old(k))
      ensures if raised then WriteTries(old(lcm).newFirmware, p, sent, fate, taking, old(k), k - old(k)) && fate(k - 1).Throws?
              else WriteResultOf(old(lcm).newFirmware, p, sent, fate, taking, old(k), k - old(k), ok)
    {
      ok, raised := WriteCall(p, sent);
      s' := WriteReplayed(s, p, sent, fate, taking, old(k), k - old(k), raised, ok);
    }
  }

  // ---- the two descriptions of the retry loop agree ----

  /** The state of a read after `n` attempts. */
  ghost function Attempts(o: nat -> Outcome, v: nat -> int, n: nat): Rd
    requires forall i :: R.IsInt32(v(i))
  {
    if n == 0 then Trying(0)
    else
      var rd := Attempts(o, v, n - 1);
      if rd.Got? then rd else AfterTry(rd, o(n - 1), R.WireRead(v(n - 1)))
  }

  function ResponseTo(o: Outcome, v: int): R.Response
    requires R.IsInt32(v)
  {
    if o == Served then R.Registers(R.PackValue(v).value) else R.Exception
  }

  /** Whatever result meets the contract of the reading method is the one the
      protocol's attempts end in, after as many tries. */
  lemma RetryAgrees(o: nat -> Outcome, v: nat -> int, reply: nat -> R.Response, r: R.ReadResult, tries: nat)
    requires forall i :: R.IsInt32(v(i)) && o(i) != LinkDown
    ensures (forall i :: reply(i) == ResponseTo(o(i), v(i))) && R.Retried(reply, r, tries) ==>
      Attempts(o, v, tries) == Got(r) && forall i: nat | i < tries :: Attempts(o, v, i) == Trying(i)
  {
    if (forall i :: reply(i) == ResponseTo(o(i), v(i))) && R.Retried(reply, r, tries) {
      forall i: nat
        ensures R.Conclusive(R.ValidateRead(reply(i)).code) <==> o(i) == Served
        ensures R.ValidateRead(reply(i)) == if o(i) == Served then R.WireRead(v(i)) else R.ReadResult(-1, R.ComErr)
      { R.WireRoundTrip(v(i)); }
      AttemptsFail(o, v, tries - 1);
    }
  }

  lemma {:induction false} AttemptsFail(o: nat -> Outcome, v: nat -> int, n: nat)
    requires forall i :: R.IsInt32(v(i)) && o(i) != LinkDown
    requires n < 3 && forall i: nat | i < n :: o(i) != Served
    ensures forall i: nat | i <= n :: Attempts(o, v, i) == Trying(i)
  {
    if n > 0 { AttemptsFail(o, v, n - 1); }
  }
}
