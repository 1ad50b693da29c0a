/** The Wi-Fi controller: requests and a heartbeat share one status. No lock section
    waits, so each is one step, and the callback is entered in the step of the
    commit. Between a request's sections anything may happen. */
module WifiController {
  import opened Text
  import opened WifiScan

  datatype Phase = Idle | Scanning | Connecting | Connected | Disconnected | Error
  datatype ErrorCode = PskTooShort | PskWrong | SsidNotFound | Timeout | InvalidRequest
  datatype Info = Info(ssid: string, rssi: int, ip: string)

  datatype Status = Status(
    number: nat, phase: Phase, iface: Option<string>, current: Option<Info>,
    networks: seq<Network>, error: Option<ErrorCode>, at: int)

  /** The two serialisations, kept abstract. */
  datatype Json = FullJson(status: Status)
  datatype Tick = TickJson(number: nat, phase: Phase, at: int)

  /** What the controller holds, with the history of its commits and of the ticks it
      handed to the callback. */
  datatype View = View(status: Status, cached: Json, listening: bool, log: seq<Status>, ticks: seq<Tick>)

  const MIN_PSK := 8

  function TickOf(s: Status): Tick {
    TickJson(s.number, s.phase, s.at)
  }

  function Ticks(log: seq<Status>): seq<Tick> {
    if log == [] then [] else Ticks(log[..|log| - 1]) + [TickOf(log[|log| - 1])]
  }

  function Start(now: int, listening: bool): View {
    var s := Status(0, Idle, None, None, [], None, now);
    View(s, FullJson(s), listening, [], [])
  }

  function Commit(v: View, s: Status): View {
    View(s, FullJson(s), v.listening, v.log + [s], if v.listening then v.ticks + [TickOf(s)] else v.ticks)
  }

  function WithPhase(s: Status, phase: Phase, iface: Option<string>, networks: seq<Network>, now: int): Status {
    Status(s.number + 1, phase, iface, None, networks, None, now)
  }

  function WithError(s: Status, code: ErrorCode, now: int): Status {
    Status(s.number + 1, Error, s.iface, None, s.networks, Some(code), now)
  }

  function OnWlan(s: Status, info: Info, now: int): Status {
    Status(s.number + 1, Connected, Some("wlan0"), Some(info), s.networks, None, now)
  }

  function Refreshed(s: Status, info: Option<Info>, now: int): Status {
    Status(s.number + 1, s.phase, s.iface, if info.Some? then info else s.current, s.networks, s.error, now)
  }

  predicate WlanConnected(s: Status) {
    s.phase == Connected && s.iface == Some("wlan0")
  }

  /** What the script said about a connection attempt. */
  datatype Outcome = Raised | Up(info: Info) | Associated | Failed

  /** How far a connect request gets before it waits. */
  datatype Admission = Rejected(code: ErrorCode) | Cellular | Ignored | Attempt

  function Admit(s: Status, psk: string, iface: string): Admission {
    if iface != "wlan0" && iface != "ppp0" then Rejected(InvalidRequest)
    else if iface == "ppp0" then Cellular
    else if |psk| < MIN_PSK then Rejected(PskTooShort)
    else if s.phase == Connecting then Ignored
    else Attempt
  }

  function AfterConnect(s: Status, o: Outcome, now: int): Status {
    match o
    case Raised => WithError(s, Timeout, now)
    case Up(info) => OnWlan(s, Info(info.ssid, 0, info.ip), now)
    case Associated => WithError(s, PskWrong, now)
    case Failed => WithError(s, SsidNotFound, now)
  }

  predicate ScanAdmitted(s: Status, force: bool) {
    force || (s.phase != Scanning && s.phase != Connecting)
  }

  /** One commit: the next number, exactly one new tick with that number, the new
      phase and time, and the cached text of the new status. */
  ghost predicate Committed(v: View, v': View, now: int) {
    && v'.status.number == v.status.number + 1 && v'.status.at == now
    && v'.log == v.log + [v'.status] && v'.cached == FullJson(v'.status) && v'.listening == v.listening
    && v'.ticks == v.ticks + (if v.listening then [TickJson(v.status.number + 1, v'.status.phase, now)] else [])
  }

  class Controller {
    var status: Status
    var cached: Json
    const listening: bool
    ghost var log: seq<Status>
    var ticks: seq<Tick>  // what the callback has received

    ghost function Now(): View
      reads this
    {
      View(status, cached, listening, log, ticks)
    }

    ghost predicate Valid()
      reads this
    {
      Safe(Now())
    }

    constructor (now: int, onTick: bool)
      ensures Valid() && Now() == Start(now, onTick)
    {
      var s := Status(0, Idle, None, None, [], None, now);
      status, cached, listening, log, ticks := s, FullJson(s), onTick, [], [];
    }

    method CommitAndEmit(s: Status)
      requires Valid() && s.number == status.number + 1 && Sound(s)
      modifies this
      ensures Valid() && Committed(old(Now()), Now(), s.at) && status == s
    {
      CommitSafe(Now(), s);
      status := s;
      cached := FullJson(s);
      log := log + [s];
      if listening { ticks := ticks + [TickOf(s)]; }
    }

    /** Interface and networks stay, connection data goes. */
    method SetError(code: ErrorCode, now: int)
      requires Valid()
      modifies this
      ensures Valid() && Committed(old(Now()), Now(), now)
      ensures status.phase == Error && status.error == Some(code) && status.current == None
      ensures status.iface == old(status).iface && status.networks == old(status).networks
    {
      CommitAndEmit(Status(status.number + 1, Error, status.iface, None, status.networks, Some(code), now));
    }

    method ReportInvalidRequest(now: int)
      requires Valid()
      modifies this
      ensures Valid() && Committed(old(Now()), Now(), now) && status.error == Some(InvalidRequest)
      ensures Now() == ViewAfter(old(Now()), ReportInvalid(now))
    {
      SetError(InvalidRequest, now);
    }

    /** A busy controller ignores a scan unless forced; otherwise old results go. */
    method BeginScan(force: bool, now: int) returns (started: bool)
      requires Valid()
      modifies this
      ensures Valid()
      ensures !started ==> !force && (status.phase == Scanning || status.phase == Connecting) && Now() == old(Now())
      ensures started ==>
        && Committed(old(Now()), Now(), now) && (force || (old(status).phase != Scanning && old(status).phase != Connecting))
        && status.phase == Scanning && status.networks == [] && status.current == None && status.iface == old(status).iface
      ensures Now() == ViewAfter(old(Now()), RequestScan(0, force, now))
    {
      if (status.phase == Scanning || status.phase == Connecting) && !force { return false; }
      CommitAndEmit(WithPhase(status, Scanning, status.iface, [], now));
      started := true;
    }

    /** Whatever has happened meanwhile, a finished scan ends in Idle with its
        strongest networks, a raised one in Error with the networks there were. */
    method EndScan(found: Option<seq<Network>>, now: int)
      requires Valid()
      modifies this
      ensures Valid() && Committed(old(Now()), Now(), now)
      ensures status.current == None && status.iface == old(status).iface
      ensures found.Some? ==> status.phase == Idle && status.networks <= found.value
      ensures found.Some? ==> |status.networks| == MAX_PUBLISHED || status.networks == found.value
      ensures found.None? ==> status.error == Some(Timeout) && status.networks == old(status).networks
      ensures Now() == ViewAfter(old(Now()), ScanReturned(0, found, now))
    {
      if found.None? { SetError(Timeout, now); return; }
      CommitAndEmit(WithPhase(status, Idle, status.iface, Published(found.value), now));
    }

    /** A request waits for the script only when it is for wlan0, its key is long
        enough and no attempt is shown as under way. */
    method BeginConnect(psk: string, iface: string, now: int) returns (waiting: bool)
      requires Valid()
      modifies this
      ensures Valid() && status.networks == old(status).networks
      ensures waiting <==> iface == "wlan0" && |psk| >= 8 && old(status).phase != Connecting
      ensures if iface == "wlan0" && |psk| >= 8 && old(status).phase == Connecting then Now() == old(Now())
              else Committed(old(Now()), Now(), now) && status.current == None
      ensures waiting ==> status.phase == Connecting && status.iface == Some("wlan0")
      ensures iface == "ppp0" ==> status.phase == Connected && status.iface == Some("ppp0")
      ensures iface != "wlan0" && iface != "ppp0" ==> status.error == Some(InvalidRequest) && status.iface == old(status).iface
      ensures iface == "wlan0" && |psk| < 8 ==> status.error == Some(PskTooShort) && status.iface == old(status).iface
      ensures Now() == ViewAfter(old(Now()), RequestConnect(0, psk, iface, now))
    {
      waiting := false;
      if iface != "wlan0" && iface != "ppp0" { SetError(InvalidRequest, now); return; }
      if iface == "ppp0" {
        CommitAndEmit(Status(status.number + 1, Connected, Some("ppp0"), None, status.networks, None, now));
        return;
      }
      if |psk| < MIN_PSK { SetError(PskTooShort, now); return; }
      if status.phase == Connecting { return; }
      CommitAndEmit(WithPhase(status, Connecting, Some("wlan0"), status.networks, now));
      waiting := true;
    }

    /** Connected on wlan0 exactly if the script says so; every other outcome is its
        own error and clears connection data. */
    method EndConnect(o: Outcome, now: int)
      requires Valid()
      modifies this
      ensures Valid() && Committed(old(Now()), Now(), now) && status.networks == old(status).networks
      ensures o.Up? <==> WlanConnected(status) && status.current.Some?
      ensures o.Up? ==> status.current == Some(Info(o.info.ssid, 0, o.info.ip))
      ensures !o.Up? ==>
        status.error == Some(if o.Raised? then Timeout else if o.Associated? then PskWrong else SsidNotFound)
        && status.iface == old(status).iface
      ensures Now() == ViewAfter(old(Now()), ConnectReturned(0, o, now))
    {
      match o
      case Raised => SetError(Timeout, now);
      case Up(info) =>
        CommitAndEmit(Status(status.number + 1, Connected, Some("wlan0"), Some(Info(info.ssid, 0, info.ip)), status.networks, None, now));
      case Associated => SetError(PskWrong, now);
      case Failed => SetError(SsidNotFound, now);
    }

    /** A disconnect commits whatever the phase was. */
    method EndDisconnect(now: int)
      requires Valid()
      modifies this
      ensures Valid() && Committed(old(Now()), Now(), now)
      ensures status.phase == Disconnected && status.current == None && status.error == None
      ensures status.iface == old(status).iface && status.networks == old(status).networks
      ensures Now() == ViewAfter(old(Now()), DisconnectReturned(0, now))
    {
      CommitAndEmit(WithPhase(status, Disconnected, status.iface, status.networks, now));
    }

    method BeginHeartbeat() returns (refresh: bool)
      requires Valid()
      ensures forall s: State | s.view == Now() :: Next(s, BeatBegins).beat.asked == refresh
    {
      var phase := status.phase;
      refresh := phase == Connected && status.iface == Some("wlan0");
    }

    /** A heartbeat changes nothing a reader sees but number, time and, if it has
        some, connection data. */
    method EndHeartbeat(info: Option<Info>, now: int)
      requires Valid()
      modifies this
      ensures Valid() && Committed(old(Now()), Now(), now)
      ensures status.phase == old(status).phase && status.iface == old(status).iface
      ensures status.networks == old(status).networks && status.error == old(status).error
      ensures status.current == if info.Some? then info else old(status).current
      ensures Now() == ViewAfter(old(Now()), BeatEnds(info, 0, now))
    {
      var current := if info != None then info else status.current;
      CommitAndEmit(Status(status.number + 1, status.phase, status.iface, current, status.networks, status.error, now));
    }
  }

  function ConnectBegun(v: View, psk: string, iface: string, now: int): View {
    match Admit(v.status, psk, iface)
    case Rejected(code) => Commit(v, WithError(v.status, code, now))
    case Cellular => Commit(v, Status(v.status.number + 1, Connected, Some("ppp0"), None, v.status.networks, None, now))
    case Ignored => v
    case Attempt => Commit(v, WithPhase(v.status, Connecting, Some("wlan0"), v.status.networks, now))
  }

  /** The requests that wait for the script, by number, and the heartbeat. A heartbeat
      between its sections knows whether it asked for fresh data; `since` and `of`
      record the sequence number and the epoch it read. */
  datatype Waiting = ForScan | ForConnect | ForDisconnect
  datatype Beat = Asleep | Refreshing(asked: bool, since: nat, of: nat)

  /** `epoch` is the number of the last commit that was not a heartbeat's: it names
      the connection in force. `dataOf` is the epoch in which the script took the data
      that is shown; a refresh may take it at any moment until it answers (`sampled`). */
  datatype State = State(view: View, waiting: map<nat, Waiting>, beat: Beat, epoch: nat, dataOf: nat)

  datatype Event =
    | RequestScan(id: nat, force: bool, now: int)
    | ScanReturned(id: nat, found: Option<seq<Network>>, now: int)
    | RequestConnect(id: nat, psk: string, iface: string, now: int)
    | ConnectReturned(id: nat, outcome: Outcome, now: int)
    | RequestDisconnect(id: nat)
    | DisconnectReturned(id: nat, now: int)
    | ReportInvalid(now: int)
    | BeatBegins
    | BeatEnds(info: Option<Info>, sampled: nat, now: int)
    | BeatCancelled

  predicate Enabled(s: State, e: Event) {
    match e
    case RequestScan(id, _, _) => id !in s.waiting
    case ScanReturned(id, _, _) => id in s.waiting && s.waiting[id] == ForScan
    case RequestConnect(id, _, _, _) => id !in s.waiting
    case ConnectReturned(id, _, _) => id in s.waiting && s.waiting[id] == ForConnect
    case RequestDisconnect(id) => id !in s.waiting
    case DisconnectReturned(id, _) => id in s.waiting && s.waiting[id] == ForDisconnect
    case ReportInvalid(_) => true
    case BeatBegins => s.beat == Asleep
    case BeatEnds(info, sampled, _) =>
      s.beat.Refreshing? && (info.Some? ==> s.beat.asked && s.beat.of <= sampled <= s.epoch)
    case BeatCancelled => true
  }

  /** What a step does to the view: at most one commit. */
  function ViewAfter(v: View, e: Event): View {
    match e
    case RequestScan(_, force, now) =>
      if ScanAdmitted(v.status, force) then Commit(v, WithPhase(v.status, Scanning, v.status.iface, [], now)) else v
    case ScanReturned(_, found, now) =>
      Commit(v, if found.None? then WithError(v.status, Timeout, now)
                else WithPhase(v.status, Idle, v.status.iface, Published(found.value), now))
    case RequestConnect(_, psk, iface, now) => ConnectBegun(v, psk, iface, now)
    case ConnectReturned(_, outcome, now) => Commit(v, AfterConnect(v.status, outcome, now))
    case DisconnectReturned(_, now) =>
      Commit(v, WithPhase(v.status, Disconnected, v.status.iface, v.status.networks, now))
    case ReportInvalid(now) => Commit(v, WithError(v.status, InvalidRequest, now))
    case BeatEnds(info, _, now) => Commit(v, Refreshed(v.status, info, now))
    case _ => v
  }

  function WaitingAfter(s: State, e: Event): map<nat, Waiting> {
    match e
    case RequestScan(id, force, _) => if ScanAdmitted(s.view.status, force) then s.waiting[id := ForScan] else s.waiting
    case RequestConnect(id, psk, iface, _) =>
      if Admit(s.view.status, psk, iface).Attempt? then s.waiting[id := ForConnect] else s.waiting
    case RequestDisconnect(id) => s.waiting[id := ForDisconnect]
    case ScanReturned(id, _, _) => s.waiting - {id}
    case ConnectReturned(id, _, _) => s.waiting - {id}
    case DisconnectReturned(id, _) => s.waiting - {id}
    case _ => s.waiting
  }

  /** A request's commit begins a new epoch; a heartbeat's keeps the epoch. */
  function Next(s: State, e: Event): State {
    var v := ViewAfter(s.view, e);
    match e
    case BeatBegins =>
      State(v, s.waiting, Refreshing(WlanConnected(v.status), v.status.number, s.epoch), s.epoch, s.dataOf)
    case BeatEnds(info, sampled, _) =>
      State(v, s.waiting, Asleep, s.epoch, if info.Some? then sampled else s.dataOf)
    case BeatCancelled => State(v, s.waiting, Asleep, s.epoch, s.dataOf)
    case _ =>
      if v == s.view then State(v, WaitingAfter(s, e), s.beat, s.epoch, s.dataOf)
      else State(v, WaitingAfter(s, e), s.beat, v.status.number, v.status.number)
  }

  function Boot(now: int, listening: bool): State {
    State(Start(now, listening), map[], Asleep, 0, 0)
  }

  predicate IsRun(s: State, es: seq<Event>)
    decreases |es|
  {
    es == [] || (Enabled(s, es[0]) && IsRun(Next(s, es[0]), es[1..]))
  }

  function RunEnd(s: State, es: seq<Event>): State
    requires IsRun(s, es)
    decreases |es|
  {
    if es == [] then s else RunEnd(Next(s, es[0]), es[1..])
  }

  /** One status is well formed: at most four networks, and an error exactly in Error. */
  predicate Sound(s: Status) {
    |s.networks| <= 4 && (s.error.Some? <==> s.phase == Error)
  }

  /** The safety of the controller: commits are numbered 1, 2, 3, …; each one gave the
      callback exactly its own tick, in order; the cached text serialises the status,
      which is the last commit; every commit is well formed. */
  predicate Safe(v: View) {
    && (forall i :: 0 <= i < |v.log| ==> v.log[i].number == i + 1 && Sound(v.log[i]))
    && v.ticks == (if v.listening then Ticks(v.log) else [])
    && v.cached == FullJson(v.status)
    && v.status.number == |v.log|
    && (v.log != [] ==> v.status == v.log[|v.log| - 1])
    && Sound(v.status)
  }

  lemma {:induction false} TickAt(log: seq<Status>, i: nat)
    requires i < |log|
    ensures |Ticks(log)| == |log| && Ticks(log)[i] == TickOf(log[i])
  {
    if |log| > 1 { TickAt(log[..|log| - 1], if i < |log| - 1 then i else 0); }
  }

  lemma CommitSafe(v: View, s: Status)
    requires Safe(v) && s.number == v.status.number + 1 && Sound(s)
    ensures Safe(Commit(v, s))
  {
    var log := v.log + [s];
    assert log[..|log| - 1] == v.log;
  }

  /** A step commits nothing, or commits one status with the next number. */
  lemma StepCommits(s: State, e: Event)
    requires Enabled(s, e) && Sound(s.view.status)
    ensures var v, v' := s.view, Next(s, e).view;
      v' == v || (v' == Commit(v, v'.status) && v'.status.number == v.status.number + 1 && Sound(v'.status))
  {
  }

  /** In every interleaving the controller is safe. */
  lemma {:induction false} SafeRun(s: State, es: seq<Event>)
    requires Safe(s.view) && IsRun(s, es)
    ensures Safe(RunEnd(s, es).view) && RunEnd(s, es).view.listening == s.view.listening
    decreases |es|
  {
    if es != [] {
      var s' := Next(s, es[0]);
      StepCommits(s, es[0]);
      if s'.view != s.view { CommitSafe(s.view, s'.view.status); }
      SafeRun(s', es[1..]);
    }
  }

  /** From power-on: the tick at position `i` has number `i + 1` and the phase of its
      commit. */
  lemma TicksFollowCommits(now: int, es: seq<Event>, i: nat)
    requires IsRun(Boot(now, true), es) && i < |RunEnd(Boot(now, true), es).view.log|
    ensures var v := RunEnd(Boot(now, true), es).view;
      && |v.ticks| == |v.log|
      && v.ticks[i] == TickJson(i + 1, v.log[i].phase, v.log[i].at)
  {
    SafeRun(Boot(now, true), es);
    TickAt(RunEnd(Boot(now, true), es).view.log, i);
  }

  // ---- When connection data is shown ----

  predicate CurrentOk(s: Status) {
    s.current.Some? ==> WlanConnected(s)
  }

  /** A heartbeat delivers data although the connection it asked about is gone. */
  predicate LateRefresh(s: State, e: Event) {
    e.BeatEnds? && e.info.Some? && !WlanConnected(s.view.status)
  }

  predicate IsCommit(s: State, e: Event) {
    Next(s, e).view != s.view
  }

  /** Exactly when a step leaves a status that shows no data off wlan0: every commit
      but a heartbeat's does so, whatever was there before. */
  lemma CurrentStep(s: State, e: Event)
    requires Enabled(s, e)
    ensures CurrentOk(Next(s, e).view.status) <==>
      if e.BeatEnds? then CurrentOk(s.view.status) && !LateRefresh(s, e)
      else IsCommit(s, e) || CurrentOk(s.view.status)
  {
  }

  predicate AlwaysCurrentOk(s: State, es: seq<Event>)
    requires IsRun(s, es)
    decreases |es|
  {
    CurrentOk(s.view.status) && (es == [] || AlwaysCurrentOk(Next(s, es[0]), es[1..]))
  }

  predicate NoLateRefresh(s: State, es: seq<Event>)
    requires IsRun(s, es)
    decreases |es|
  {
    es == [] || (!LateRefresh(s, es[0]) && NoLateRefresh(Next(s, es[0]), es[1..]))
  }

  /** Over a whole run connection data is shown only while connected on wlan0, if and
      only if no heartbeat delivers data late. */
  lemma {:induction false} CurrentOnlyOnWlan(s: State, es: seq<Event>)
    requires IsRun(s, es) && CurrentOk(s.view.status)
    ensures AlwaysCurrentOk(s, es) <==> NoLateRefresh(s, es)
    decreases |es|
  {
    if es != [] {
      CurrentStep(s, es[0]);
      if CurrentOk(Next(s, es[0]).view.status) { CurrentOnlyOnWlan(Next(s, es[0]), es[1..]); }
    }
  }

  /** No commit lands between the two sections of a heartbeat. */
  predicate Undisturbed(s: State, es: seq<Event>)
    requires IsRun(s, es)
    decreases |es|
  {
    es == [] || ((es[0].BeatEnds? ==> s.view.status.number == s.beat.since) && Undisturbed(Next(s, es[0]), es[1..]))
  }

  /** A heartbeat asked for data exactly if the status it read was on wlan0. */
  predicate BeatMemory(s: State) {
    s.beat.Refreshing? ==>
      s.beat.since <= s.view.status.number && (s.beat.since == s.view.status.number ==> s.beat.asked == WlanConnected(s.view.status))
  }

  lemma BeatMemoryStep(s: State, e: Event)
    requires BeatMemory(s) && Enabled(s, e)
    ensures BeatMemory(Next(s, e))
  {
  }

  lemma {:induction false} UndisturbedNeverLate(s: State, es: seq<Event>)
    requires IsRun(s, es) && Undisturbed(s, es) && BeatMemory(s)
    ensures NoLateRefresh(s, es)
    decreases |es|
  {
    if es != [] {
      BeatMemoryStep(s, es[0]);
      UndisturbedNeverLate(Next(s, es[0]), es[1..]);
    }
  }

  /** From power-on, undisturbed heartbeats never show data off wlan0. */
  lemma UndisturbedCurrentOk(now: int, listening: bool, es: seq<Event>)
    requires IsRun(Boot(now, listening), es) && Undisturbed(Boot(now, listening), es)
    ensures AlwaysCurrentOk(Boot(now, listening), es)
  {
    UndisturbedNeverLate(Boot(now, listening), es);
    CurrentOnlyOnWlan(Boot(now, listening), es);
  }

  /** The hazard is real: a disconnect between the two sections of a heartbeat leaves
      data of the old connection in the Disconnected status. */
  lemma DisconnectDuringRefresh(info: Info, psk: string) returns (es: seq<Event>)
    requires |psk| >= MIN_PSK
    ensures IsRun(Boot(0, true), es)
    ensures RunEnd(Boot(0, true), es).view.status.phase == Disconnected
    ensures RunEnd(Boot(0, true), es).view.status.current == Some(info)
  {
    var tail := DisconnectsMidRefresh(MidRefresh(info, psk), info);
    es := FromMidRefresh(info, psk, tail);
  }

  lemma DisconnectsMidRefresh(s: State, info: Info) returns (es: seq<Event>)
    requires 1 !in s.waiting && s.beat.Refreshing? && s.beat.asked && s.beat.of == s.epoch <= s.view.status.number
    ensures IsRun(s, es)
    ensures var v := RunEnd(s, es).view; v.status.phase == Disconnected && v.status.current == Some(info)
  {
    var e4, e5, e6 := RequestDisconnect(1), DisconnectReturned(1, 3), BeatEnds(Some(info), s.beat.of, 4);
    var s4 := Next(s, e4);
    var s5 := Next(s4, e5);
    Extend(s5, e6, []);
    Extend(s4, e5, [e6]);
    Extend(s, e4, [e5] + [e6]);
    es := [e4] + ([e5] + [e6]);
  }

  /** Connected on wlan0, with a heartbeat between its sections. */
  function MidRefresh(info: Info, psk: string): State {
    Next(Next(Next(Boot(0, true), RequestConnect(0, psk, "wlan0", 1)), ConnectReturned(0, Up(info), 2)), BeatBegins)
  }

  lemma FromMidRefresh(info: Info, psk: string, tail: seq<Event>) returns (es: seq<Event>)
    requires |psk| >= MIN_PSK && IsRun(MidRefresh(info, psk), tail)
    ensures IsRun(Boot(0, true), es) && RunEnd(Boot(0, true), es) == RunEnd(MidRefresh(info, psk), tail)
  {
    var e1, e2 := RequestConnect(0, psk, "wlan0", 1), ConnectReturned(0, Up(info), 2);
    var s1 := Next(Boot(0, true), e1);
    Extend(Next(s1, e2), BeatBegins, tail);
    Extend(s1, e2, [BeatBegins] + tail);
    Extend(Boot(0, true), e1, [e2] + ([BeatBegins] + tail));
    es := [e1] + ([e2] + ([BeatBegins] + tail));
  }

  lemma Extend(s: State, e: Event, es: seq<Event>)
    requires Enabled(s, e) && IsRun(Next(s, e), es)
    ensures IsRun(s, [e] + es) && RunEnd(s, [e] + es) == RunEnd(Next(s, e), es)
  {
    assert ([e] + es)[1..] == es;
  }

  // ---- Whose connection data is shown ----

  /** Connection data was taken under the connection in force. */
  predicate Belongs(s: State) {
    s.view.status.current.Some? ==> s.dataOf == s.epoch
  }

  /** A heartbeat delivers data that the script took before the last request's commit. */
  predicate Outdated(s: State, e: Event) {
    e.BeatEnds? && e.info.Some? && e.sampled < s.epoch
  }

  /** While a heartbeat is between its sections, any commit is a request's and begins
      a new epoch. */
  predicate Epochs(s: State) {
    && s.epoch <= s.view.status.number
    && (s.beat.Refreshing? ==>
          && s.beat.since <= s.view.status.number && s.beat.of <= s.epoch
          && (s.beat.of == s.epoch <==> s.beat.since == s.view.status.number))
  }

  lemma EpochsStep(s: State, e: Event)
    requires Epochs(s) && Enabled(s, e)
    ensures Epochs(Next(s, e))
  {
  }

  lemma BelongsStep(s: State, e: Event)
    requires Enabled(s, e) && Belongs(s)
    ensures Belongs(Next(s, e)) <==> !Outdated(s, e)
  {
  }

  predicate AlwaysBelongs(s: State, es: seq<Event>)
    requires IsRun(s, es)
    decreases |es|
  {
    Belongs(s) && (es == [] || AlwaysBelongs(Next(s, es[0]), es[1..]))
  }

  predicate NeverOutdated(s: State, es: seq<Event>)
    requires IsRun(s, es)
    decreases |es|
  {
    es == [] || (!Outdated(s, es[0]) && NeverOutdated(Next(s, es[0]), es[1..]))
  }

  lemma {:induction false} BelongsRun(s: State, es: seq<Event>)
    requires IsRun(s, es) && Belongs(s)
    ensures AlwaysBelongs(s, es) <==> NeverOutdated(s, es)
    decreases |es|
  {
    if es != [] {
      BelongsStep(s, es[0]);
      if Belongs(Next(s, es[0])) { BelongsRun(Next(s, es[0]), es[1..]); }
    }
  }

  /** From power-on: what is shown was always taken under the connection in force, if
      and only if no heartbeat delivers what the script took before the last request's
      commit. */
  lemma CurrentOfConnection(now: int, listening: bool, es: seq<Event>)
    requires IsRun(Boot(now, listening), es)
    ensures AlwaysBelongs(Boot(now, listening), es) <==> NeverOutdated(Boot(now, listening), es)
  {
    BelongsRun(Boot(now, listening), es);
  }

  lemma {:induction false} UndisturbedNeverOutdated(s: State, es: seq<Event>)
    requires IsRun(s, es) && Epochs(s) && Undisturbed(s, es)
    ensures NeverOutdated(s, es)
    decreases |es|
  {
    if es != [] {
      EpochsStep(s, es[0]);
      UndisturbedNeverOutdated(Next(s, es[0]), es[1..]);
    }
  }

  /** From power-on, whenever the script takes its sample: with no commit between the
      sections of a heartbeat the data shown belongs to the connection in force. */
  lemma UndisturbedBelongs(now: int, listening: bool, es: seq<Event>)
    requires IsRun(Boot(now, listening), es) && Undisturbed(Boot(now, listening), es)
    ensures AlwaysBelongs(Boot(now, listening), es)
  {
    UndisturbedNeverOutdated(Boot(now, listening), es);
    CurrentOfConnection(now, listening, es);
  }

  /** A reconnect between the sections of a heartbeat shows the old network's data
      under the new connection. */
  lemma ReconnectDuringRefresh(first: Info, second: Info, psk: string) returns (es: seq<Event>)
    requires |psk| >= MIN_PSK
    ensures IsRun(Boot(0, true), es)
    ensures var s := RunEnd(Boot(0, true), es);
      WlanConnected(s.view.status) && s.view.status.current == Some(first) && !Belongs(s)
  {
    var tail := ReconnectsMidRefresh(MidRefresh(first, psk), first, second, psk);
    es := FromMidRefresh(first, psk, tail);
  }

  lemma ReconnectsMidRefresh(s: State, first: Info, second: Info, psk: string) returns (es: seq<Event>)
    requires |psk| >= MIN_PSK && s.view.status.phase == Connected && 1 !in s.waiting
    requires s.beat.Refreshing? && s.beat.asked && s.beat.of == s.epoch <= s.view.status.number
    ensures IsRun(s, es)
    ensures var s' := RunEnd(s, es);
      WlanConnected(s'.view.status) && s'.view.status.current == Some(first) && !Belongs(s')
  {
    var e4, e5, e6 := RequestConnect(1, psk, "wlan0", 3), ConnectReturned(1, Up(second), 4), BeatEnds(Some(first), s.beat.of, 5);
    var s4 := Next(s, e4);
    var s5 := Next(s4, e5);
    Extend(s5, e6, []);
    Extend(s4, e5, [e6]);
    Extend(s, e4, [e5] + [e6]);
    es := [e4] + ([e5] + [e6]);
  }
}
