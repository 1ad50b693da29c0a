/** One serial transaction with the 1k lift: the framing loop that collects bytes
    until a frame is complete, and the retry loop around it, under one deadline.
    Times are in milliseconds of the monotonic clock. */
module SerialTransaction {
  import opened Text

  const SERIAL_TIMEOUT := 500
  const TOTAL_TIMEOUT := 10_000
  const RETRIES := 5

  datatype Code = NoErr | SerialComErr | SerialDecodeErr | NoWaitingBytesErr | PartialErr | SplitErr

  /** What one look at the port finds: nothing, bytes that decode to `text`, bytes
      that do not decode, or an error of the port. */
  datatype Look = Nothing | Chars(text: string) | BadBytes | PortError

  /** What splitting a complete response yields. */
  datatype Outcome = Wanted | NotWanted | Invalid

  /** The world: what look `k` finds, how much time passes around it beyond the
      sleeps (reading, decoding, scheduling, oversleeping), and what the response
      complete at look `k` turns out to be. */
  datatype World = World(look: nat -> Look, delay: nat -> nat, split: nat -> Outcome)

  /** Looks taken, time, and total time slept. */
  datatype Clock = Clock(k: nat, now: nat, slept: nat)

  function Looked(w: World, c: Clock): Clock { Clock(c.k + 1, c.now + w.delay(c.k), c.slept) }
  function Slept(c: Clock): Clock { Clock(c.k, c.now + SERIAL_TIMEOUT, c.slept + SERIAL_TIMEOUT) }

  /** Everything received by looks `from` to `to`. */
  function Received(w: World, from: nat, to: nat): string
    requires from <= to
  {
    if from == to then ""
    else Received(w, from, to - 1) + (if w.look(to - 1).Chars? then w.look(to - 1).text else "")
  }

  predicate EndsFrame(s: string) { s != "" && s[|s| - 1] == '}' }

  /** Position of the first opening brace. */
  function FrameStart(s: string): (r: Option<nat>)
    ensures r.Some? <==> '{' in s
    ensures r.Some? ==> r.value < |s| && s[r.value] == '{' && '{' !in s[..r.value]
  {
    if s == "" then None
    else if s[0] == '{' then Some(0)
    else
      match FrameStart(s[1..])
      case None => None
      case Some(i) => assert s[..i + 1] == [s[0]] + s[1..][..i]; Some(i + 1)
  }

  /** `frame` is what was received, from the first brace to the brace it ends in. */
  ghost predicate FrameIn(frame: string, all: string) {
    EndsFrame(all) && FrameStart(all).Some? && frame == all[FrameStart(all).value..]
  }

  /** All sleeping since `start` is on the clock. */
  ghost predicate OnClock(start: nat, c: Clock) {
    start + c.slept <= c.now
  }

  // ---- exactly what a read comes to ----

  /** The clock before look number `j` of a read that began at `c`, when no look before
      it brought the read to its end. */
  function ClockAt(w: World, c: Clock, j: nat): Clock {
    if j == 0 then c else Slept(Looked(w, ClockAt(w, c, j - 1)))
  }

  /** How many looks in a row have just found nothing. */
  function Fruitless(w: World, k: nat, j: nat): nat {
    if j == 0 || !w.look(k + j - 1).Nothing? then 0 else Fruitless(w, k, j - 1) + 1
  }

  /** Look number `j` brings the read to its end. */
  predicate Decides(w: World, k: nat, j: nat) {
    match w.look(k + j)
    case Nothing => false
    case Chars(_) => EndsFrame(Received(w, k, k + j + 1))
    case BadBytes => true
    case PortError => true
  }

  /** Look number `j` is taken: there is time and patience left. */
  predicate Tries(w: World, c: Clock, deadline: nat, j: nat) {
    ClockAt(w, c, j).now < deadline && Fruitless(w, c.k, j) < RETRIES
  }

  /** Look number `j` is taken and does not decide. */
  predicate GoesOn(w: World, c: Clock, deadline: nat, j: nat) {
    Tries(w, c, deadline, j) && !Decides(w, c.k, j)
  }

  /** The first `n` looks are taken, and none but the last may decide. */
  ghost predicate TakesLooks(w: World, c: Clock, deadline: nat, n: nat) {
    n > 0 ==> Tries(w, c, deadline, n - 1) && forall j: nat | j < n - 1 :: GoesOn(w, c, deadline, j)
  }

  /** What the deciding look makes of the read: a frame if there is a brace in it. */
  function Decided(look: Look, all: string): Code {
    match look
    case PortError => SerialComErr
    case Chars(_) => if '{' in all then NoErr else SerialDecodeErr
    case _ => SerialDecodeErr
  }

  /** A read from `c` that ends with `code` at `c'`: at the first look that decides, or
      undecided when time or patience is out. */
  ghost predicate ReadEnds(w: World, c: Clock, deadline: nat, code: Code, c': Clock) {
    && c.k <= c'.k
    && var n := c'.k - c.k;
    && TakesLooks(w, c, deadline, n)
    && if n > 0 && Decides(w, c.k, n - 1) then
         c' == Looked(w, ClockAt(w, c, n - 1)) && code == Decided(w.look(c'.k - 1), Received(w, c.k, c'.k))
       else
         && !Tries(w, c, deadline, n)
         && c' == (if n > 0 && Fruitless(w, c.k, n) == RETRIES then Looked(w, ClockAt(w, c, n - 1)) else ClockAt(w, c, n))
         && code == if Received(w, c.k, c'.k) == "" then NoWaitingBytesErr else SerialDecodeErr
  }

  lemma {:induction false} ClockLooks(w: World, c: Clock, j: nat)
    ensures ClockAt(w, c, j).k == c.k + j
  {
    if j > 0 { ClockLooks(w, c, j - 1); }
  }

  /** The description leaves one outcome only. */
  lemma ReadDetermined(w: World, c: Clock, deadline: nat, code: Code, c': Clock, code2: Code, c2: Clock)
    requires ReadEnds(w, c, deadline, code, c') && ReadEnds(w, c, deadline, code2, c2)
    ensures code == code2 && c' == c2
  {
    if c'.k < c2.k { NoLonger(w, c, deadline, code, c', code2, c2); }
    else if c2.k < c'.k { NoLonger(w, c, deadline, code2, c2, code, c'); }
  }

  lemma NoLonger(w: World, c: Clock, deadline: nat, code: Code, c': Clock, code2: Code, c2: Clock)
    requires ReadEnds(w, c, deadline, code, c') && ReadEnds(w, c, deadline, code2, c2)
    ensures c2.k <= c'.k
  {
    var n: nat := c'.k - c.k;
    assert c'.k + 1 < c2.k ==> GoesOn(w, c, deadline, n);
    if n > 0 {
      var last: nat := n - 1;
      assert c'.k < c2.k ==> GoesOn(w, c, deadline, last);
    }
  }

  /** All sleeping is on the clock, and there is one sleep for every look but perhaps
      the last. */
  lemma {:induction false} ClockSleeps(w: World, c: Clock, start: nat, j: nat)
    requires OnClock(start, c)
    ensures var d := ClockAt(w, c, j);
      d.k == c.k + j && d.slept == c.slept + SERIAL_TIMEOUT * j && OnClock(start, d)
  {
    if j > 0 { ClockSleeps(w, c, start, j - 1); }
  }

  lemma ReadTiming(w: World, c: Clock, start: nat, deadline: nat, code: Code, c': Clock)
    requires OnClock(start, c) && c.slept < deadline - start + SERIAL_TIMEOUT && ReadEnds(w, c, deadline, code, c')
    ensures OnClock(start, c') && c'.slept < deadline - start + SERIAL_TIMEOUT
    ensures code == NoErr ==> c'.slept < deadline - start && c.k < c'.k
    ensures c.slept <= c'.slept && SERIAL_TIMEOUT * (c'.k - c.k - 1) <= c'.slept - c.slept
  {
    var n := c'.k - c.k;
    ClockSleeps(w, c, start, n);
    if n > 0 {
      ClockSleeps(w, c, start, n - 1);
      assert Tries(w, c, deadline, n - 1);
    }
  }

  /** Collects bytes until the text ends a frame. Each round without a result either
      gives up or sleeps once; progress resets the patience, the deadline does not
      move. A result is all that was received from the first brace on. */
  method ReadLoop(w: World, c: Clock, deadline: nat) returns (rsp: string, code: Code, c': Clock)
    ensures ReadEnds(w, c, deadline, code, c')
    ensures code == NoErr ==> FrameIn(rsp, Received(w, c.k, c'.k))
    ensures code != PartialErr && code != SplitErr
  {
    rsp, c' := "", c;
    var i: nat := 0;
    ghost var n: nat := 0;
    while i < RETRIES && c'.now < deadline
      invariant i <= RETRIES && c.k <= c'.k == c.k + n && rsp == Received(w, c.k, c.k + n)
      invariant Undecided(w, c, deadline, n, i, c')
      decreases deadline - c'.now, RETRIES - i
    {
      var frame, end;
      rsp, frame, end, i, c' := LookOnce(w, c, deadline, n, i, c', rsp);
      n := n + 1;
      if end.Some? { return frame, end.value, c'; }
    }
    code := if rsp != "" then SerialDecodeErr else NoWaitingBytesErr;
    GivesUp(w, c, deadline, n, i, c');
  }

  /** One look at the port: what the text is then, the code if the read is over, and the
      patience used up; a sleep follows if there is patience left. */
  method LookOnce(w: World, ghost c: Clock, ghost deadline: nat, ghost n: nat, i: nat, now: Clock, rsp: string)
    returns (rsp': string, frame: string, end: Option<Code>, i': nat, now': Clock)
    requires now.k == c.k + n && rsp == Received(w, c.k, c.k + n)
    requires Undecided(w, c, deadline, n, i, now) && i < RETRIES && now.now < deadline
    ensures now'.k == c.k + n + 1 && rsp' == Received(w, c.k, c.k + n + 1) && i' <= RETRIES
    ensures end.Some? ==> ReadEnds(w, c, deadline, end.value, now') && end.value != PartialErr && end.value != SplitErr
    ensures end == Some(NoErr) ==> FrameIn(frame, Received(w, c.k, now'.k))
    ensures end.None? ==> Undecided(w, c, deadline, n + 1, i', now') && (now'.now > now.now || i' > i)
  {
    var look := w.look(now.k);
    LookTaken(w, c, deadline, n, i, now);
    rsp', frame, end, i', now' := rsp, "", None, i, Looked(w, now);
    match look {
      case PortError => end := Some(SerialComErr);
      case BadBytes => end := Some(SerialDecodeErr);
      case Chars(text) =>
        rsp', i' := rsp + text, 0;
        if EndsFrame(rsp') {
          var at := FrameStart(rsp');
          end := Some(if at.None? then SerialDecodeErr else NoErr);
          if at.Some? { frame := rsp'[at.value..]; }
        }
      case Nothing => i' := i + 1;
    }
    if end.None? && i' < RETRIES { now' := Slept(now'); }
  }

  /** One read within a transaction that began at `start`. */
  method ReadSerial(w: World, c: Clock, ghost start: nat, deadline: nat) returns (rsp: string, code: Code, c': Clock)
    requires OnClock(start, c) && c.slept < deadline - start + SERIAL_TIMEOUT
    ensures ReadEnds(w, c, deadline, code, c')
    ensures OnClock(start, c') && c'.slept < deadline - start + SERIAL_TIMEOUT
    ensures code == NoErr ==> c'.slept < deadline - start && c.k < c'.k
    ensures c.slept <= c'.slept && SERIAL_TIMEOUT * (c'.k - c.k - 1) <= c'.slept - c.slept
    ensures code == NoErr ==> FrameIn(rsp, Received(w, c.k, c'.k))
    ensures code != PartialErr && code != SplitErr
  {
    rsp, code, c' := ReadLoop(w, c, deadline);
    ReadTiming(w, c, start, deadline, code, c');
  }

  /** After `n` looks without an end. */
  ghost predicate Undecided(w: World, c: Clock, deadline: nat, n: nat, i: nat, now: Clock) {
    && (forall j: nat | j < n :: GoesOn(w, c, deadline, j))
    && i == Fruitless(w, c.k, n) <= RETRIES && (i == RETRIES ==> n > 0)
    && now == if i == RETRIES then Looked(w, ClockAt(w, c, n - 1)) else ClockAt(w, c, n)
  }

  /** One more look: it decides, or the read goes on. */
  lemma LookTaken(w: World, c: Clock, deadline: nat, n: nat, i: nat, now: Clock)
    requires Undecided(w, c, deadline, n, i, now) && i < RETRIES && now.now < deadline && now.k == c.k + n
    ensures var next := Looked(w, now);
      && (Decides(w, c.k, n) ==>
            ReadEnds(w, c, deadline, Decided(w.look(c.k + n), Received(w, c.k, c.k + n + 1)), next))
      && (!Decides(w, c.k, n) ==>
            var i' := if w.look(c.k + n).Nothing? then i + 1 else 0;
            Undecided(w, c, deadline, n + 1, i', if i' < RETRIES then Slept(next) else next))
  {
    assert Tries(w, c, deadline, n);
    assert !Decides(w, c.k, n) ==> GoesOn(w, c, deadline, n);
  }

  /** Time or patience is out. */
  lemma GivesUp(w: World, c: Clock, deadline: nat, n: nat, i: nat, now: Clock)
    requires Undecided(w, c, deadline, n, i, now) && (i == RETRIES || now.now >= deadline) && now.k == c.k + n
    ensures ReadEnds(w, c, deadline, if Received(w, c.k, c.k + n) == "" then NoWaitingBytesErr else SerialDecodeErr, now)
  {
    if n > 0 { assert GoesOn(w, c, deadline, n - 1); }
  }

  // ---- the whole transaction ----

  /** Read number `j` of a transaction brought a response without what was wanted. */
  ghost predicate PassedOver(w: World, deadline: nat, starts: seq<Clock>, ends: seq<Clock>, j: nat)
    requires j < |starts| && j < |ends|
  {
    && ReadEnds(w, starts[j], deadline, NoErr, ends[j]) && ends[j].k > 0
    && w.split(ends[j].k - 1) == NotWanted
  }

  /** The reads follow one another, each after a sleep. */
  ghost predicate Consecutive(w: World, now: nat, deadline: nat, starts: seq<Clock>, ends: seq<Clock>) {
    && |starts| == |ends| && (starts != [] ==> starts[0] == Clock(0, now, 0))
    && forall j: nat | j < |starts| :: Follows(w, deadline, starts, ends, j)
  }

  ghost predicate Follows(w: World, deadline: nat, starts: seq<Clock>, ends: seq<Clock>, j: nat)
    requires j < |starts| && |starts| == |ends|
  {
    j > 0 ==> PassedOver(w, deadline, starts, ends, j - 1) && starts[j] == Slept(ends[j - 1])
  }

  /** Every read so far brought a response without what was wanted, and `c` is the time
      after the sleep that followed. */
  ghost predicate StillWaiting(w: World, now: nat, deadline: nat, starts: seq<Clock>, ends: seq<Clock>, c: Clock) {
    && Consecutive(w, now, deadline, starts, ends)
    && if starts == [] then c == Clock(0, now, 0)
       else PassedOver(w, deadline, starts, ends, |starts| - 1) && c == Slept(ends[|starts| - 1])
  }

  /** The last of the reads ended the transaction: it failed, or its response was
      invalid, or it was the wanted one. */
  ghost predicate EndsAt(w: World, deadline: nat, from: Clock, code: Code, c: Clock) {
    match code
    case NoErr => ReadEnds(w, from, deadline, NoErr, c) && c.k > 0 && w.split(c.k - 1) == Wanted
    case SplitErr => ReadEnds(w, from, deadline, NoErr, c) && c.k > 0 && w.split(c.k - 1) == Invalid
    case PartialErr => false
    case _ => ReadEnds(w, from, deadline, code, c)
  }

  /** The whole transaction: for every arrival pattern it ends, it sleeps less than
      the total timeout plus one serial timeout, and it looks at most 21 times. It
      makes up to five reads; all but the last brought a response without what was
      wanted, and the last one alone determines the code. */
  method GetSignal(w: World, now: nat, openCount: bool)
    returns (code: Code, c: Clock, ghost starts: seq<Clock>, ghost ends: seq<Clock>)
    ensures c.slept < 10_500 && c.k <= 21
    ensures 1 <= |starts| <= 5 && Consecutive(w, now, now + 10_000, starts, ends)
    ensures if |starts| == 5 && StillWaiting(w, now, now + 10_000, starts, ends, c)
            then code == if openCount then PartialErr else SerialComErr
            else c == ends[|starts| - 1] && EndsAt(w, now + 10_000, starts[|starts| - 1], code, c)
  {
    c := Clock(0, now, 0);
    var deadline := now + TOTAL_TIMEOUT;
    starts, ends := [], [];
    var i := 0;
    while i < RETRIES
      invariant i <= RETRIES && OnClock(now, c) && c.slept < TOTAL_TIMEOUT + SERIAL_TIMEOUT
      invariant SERIAL_TIMEOUT * c.k <= c.slept
      invariant |starts| == i && StillWaiting(w, now, deadline, starts, ends, c)
    {
      var done;
      ghost var from := c;
      code, done, c := OneRead(w, c, now, deadline);
      ghost var to := c;
      if !done { c := Slept(c); }
      ReadsFollow(w, now, deadline, starts, ends, from, to);
      starts, ends := starts + [from], ends + [to];
      if done { return; }
      i := i + 1;
    }
    code := if openCount then PartialErr else SerialComErr;
  }

  /** One read and what its response comes to. */
  method OneRead(w: World, c: Clock, ghost start: nat, deadline: nat) returns (code: Code, done: bool, c': Clock)
    requires OnClock(start, c) && c.slept < deadline - start + SERIAL_TIMEOUT
    ensures OnClock(start, c') && c.slept <= c'.slept < deadline - start + SERIAL_TIMEOUT
    ensures SERIAL_TIMEOUT * (c'.k - c.k - 1) <= c'.slept - c.slept
    ensures if done then EndsAt(w, deadline, c, code, c')
            else ReadEnds(w, c, deadline, NoErr, c') && c'.k > 0 && w.split(c'.k - 1) == NotWanted && c'.slept < deadline - start
  {
    var rsp;
    rsp, code, c' := ReadSerial(w, c, start, deadline);
    done := true;
    if code != NoErr { return; }
    match w.split(c'.k - 1) {
      case Invalid => code := SplitErr;
      case Wanted =>
      case NotWanted => done := false;
    }
  }

  lemma ReadsFollow(w: World, now: nat, deadline: nat, starts: seq<Clock>, ends: seq<Clock>, from: Clock, to: Clock)
    requires StillWaiting(w, now, deadline, starts, ends, from)
    ensures Consecutive(w, now, deadline, starts + [from], ends + [to])
    ensures ReadEnds(w, from, deadline, NoErr, to) && to.k > 0 && w.split(to.k - 1) == NotWanted
      ==> StillWaiting(w, now, deadline, starts + [from], ends + [to], Slept(to))
    ensures !StillWaiting(w, now, deadline, starts + [from], ends + [to], to)
  {
    forall j: nat | j < |starts| + 1 ensures Follows(w, deadline, starts + [from], ends + [to], j) {
      if j < |starts| { StillFollows(w, deadline, starts, ends, from, to, j); }
    }
  }

  lemma StillFollows(w: World, deadline: nat, starts: seq<Clock>, ends: seq<Clock>, from: Clock, to: Clock, j: nat)
    requires |starts| == |ends| && j < |starts| && Follows(w, deadline, starts, ends, j)
    ensures Follows(w, deadline, starts + [from], ends + [to], j)
  {
  }
}
