/** Retrieval of a trace log from the lift, record by record, restarting from
    record 0 after any failure (section 6.14 of the MODBUS Application Protocol
    V1.1b3, with the LCM's own record layout). */
module TraceLog {
  import opened Text

  type Bytes = seq<int>

  datatype Code =
    | NoErr | LogTypeErr | LogErrCnt | LogRunErr | LogNoLdErr | LogRecLenErr
    | LogRspErr | LogLdParseErr | LogFnameErr | LogAttrErr

  /** The code of the whole call: that of the retrieval, or of the save after it. */
  datatype Answer = Retrieval(code: Code) | LogSaveErr | DiskLimitErr

  /** What one record request brings back: an exception or a response with its
      raw bytes. `wellFormed` says it has the attributes of a response. */
  datatype Reply = Raised | Reply(wellFormed: bool, isError: bool, data: Bytes)

  /** `Threw` is an exception inside validation (an undecodable file name). */
  datatype Verdict = Good | Failed(code: Code) | Threw

  const HEADER := 3
  const CRC := 2
  const NAME := 32
  const RECORD := 2 * 0x73
  const ERR_MAX := 10

  datatype Kind = Kind(size: nat, records: nat)
  const BUFFER := Kind(2048, 10)
  const SRAM := Kind(16 * 2048, 143)

  predicate Known(kind: Kind) {
    kind == BUFFER || kind == SRAM
  }

  function KindOf(logType: string): Option<Kind> {
    if logType == "0x06" then Some(BUFFER) else if logType == "0x02" then Some(SRAM) else None
  }

  function ExpectedLength(kind: Kind, record: nat): nat {
    (if record + 1 < kind.records then RECORD else (kind.size + NAME) % RECORD) + HEADER + CRC
  }

  const NEEDLE: Bytes := [0x2E, 0x73, 0x77, 0x5F, 0x74, 0x72, 0x61, 0x63, 0x65, 0x73]  // ".sw_traces"

  predicate NeedleAt(hay: Bytes, i: int) {
    0 <= i && i + |NEEDLE| <= |hay| && hay[i..i + |NEEDLE|] == NEEDLE
  }

  /** First position of the needle at or after `from`. */
  function Find(hay: Bytes, from: nat): (r: Option<nat>)
    decreases |hay| - from
    ensures r.Some? ==> from <= r.value && NeedleAt(hay, r.value)
    ensures forall j | from <= j && (r.Some? ==> j < r.value) :: !NeedleAt(hay, j)
  {
    if from + |NEEDLE| > |hay| then None
    else if NeedleAt(hay, from) then Some(from)
    else Find(hay, from + 1)
  }

  function NameField(data: Bytes): Bytes {
    var d := if |data| < HEADER then [] else data[HEADER..];
    if |d| < NAME then d else d[..NAME]
  }

  /** The first complaint about length, header bytes or the response itself. */
  function FrameError(data: Bytes, isError: bool, expected: nat): Code {
    var n := |data| - HEADER - CRC;
    if n <= 0 then LogNoLdErr
    else if data[0] != 0x0A || data[1] != 0x14 || data[2] != n then LogLdParseErr
    else if |data| != expected then LogRecLenErr
    else if isError then LogRspErr
    else NoErr
  }

  /** Validation of the reply to a request for `record`. */
  function Judge(kind: Kind, record: nat, reply: Reply, decodes: Bytes -> bool): Verdict {
    match reply
    case Raised => Failed(LogRunErr)
    case Reply(wellFormed, isError, data) =>
      if !wellFormed then Failed(LogAttrErr)
      else
        var err := FrameError(data, isError, ExpectedLength(kind, record));
        if record > 0 then if err == NoErr then Good else Failed(err)
        else
          match Find(NameField(data), 0)
          case None => Failed(if err == NoErr then LogFnameErr else err)
          case Some(i) =>
            if !decodes(NameField(data)[..i + |NEEDLE|]) then Threw
            else if err == NoErr then Good else Failed(err)
  }

  /** What a good reply adds to the log: its bytes without header, checksum and,
      in record 0, the file name. */
  function Payload(record: nat, reply: Reply): Bytes {
    var skip := HEADER + (if record == 0 then NAME else 0);
    if reply.Raised? || |reply.data| < skip + CRC then [] else reply.data[skip..|reply.data| - CRC]
  }

  /** What a good reply is, byte by byte: header, length byte, length of the record, no
      error, and for record 0 a file name that ends in the needle and decodes. */
  ghost predicate GoodBytes(kind: Kind, record: nat, reply: Reply, decodes: Bytes -> bool) {
    && reply.Reply? && reply.wellFormed && !reply.isError
    && |reply.data| == ExpectedLength(kind, record) && |reply.data| > HEADER + CRC
    && reply.data[0] == 0x0A && reply.data[1] == 0x14 && reply.data[2] == |reply.data| - 5
    && (record == 0 ==> Named(reply.data[3..if |reply.data| < 35 then |reply.data| else 35], decodes))
  }

  ghost predicate Named(name: Bytes, decodes: Bytes -> bool) {
    exists i: nat :: NamedBy(name, i) && decodes(name[..i + |NEEDLE|])
  }

  /** The first needle in the name field is at `i`. */
  ghost predicate NamedBy(name: Bytes, i: nat) {
    NeedleAt(name, i) && forall j | 0 <= j < i :: !NeedleAt(name, j)
  }

  lemma FrameMeans(data: Bytes, isError: bool, expected: nat)
    ensures FrameError(data, isError, expected) == NoErr <==>
      && |data| > HEADER + CRC && |data| == expected && !isError
      && data[0] == 0x0A && data[1] == 0x14 && data[2] == |data| - 5
  {
  }

  lemma FoundFirst(name: Bytes, i: nat)
    requires NamedBy(name, i)
    ensures Find(name, 0) == Some(i)
  {
    assert NeedleAt(name, i);
  }

  lemma NameMeans(name: Bytes, decodes: Bytes -> bool)
    ensures (Find(name, 0).Some? && decodes(name[..Find(name, 0).value + |NEEDLE|]))
      <==> Named(name, decodes)
  {
    var at := Find(name, 0);
    if at.Some? { assert NamedBy(name, at.value); }
    forall i: nat | NamedBy(name, i) ensures at == Some(i) {
      FoundFirst(name, i);
    }
  }

  lemma GoodMeans(kind: Kind, record: nat, reply: Reply, decodes: Bytes -> bool)
    ensures Judge(kind, record, reply, decodes) == Good <==> GoodBytes(kind, record, reply, decodes)
  {
    if reply.Reply? && reply.wellFormed {
      FrameMeans(reply.data, reply.isError, ExpectedLength(kind, record));
      var err := FrameError(reply.data, reply.isError, ExpectedLength(kind, record));
      if err != NoErr {
        assert Judge(kind, record, reply, decodes) != Good;
      } else if record == 0 {
        var name := NameField(reply.data);
        assert name == reply.data[3..if |reply.data| < 35 then |reply.data| else 35];
        NameMeans(name, decodes);
        assert Judge(kind, record, reply, decodes) == Good
          <==> Find(name, 0).Some? && decodes(name[..Find(name, 0).value + |NEEDLE|]);
      } else {
        assert Judge(kind, record, reply, decodes) == Good;
      }
    }
  }

  // ---- the request sequence an environment produces ----

  /** One retrieval: the kind of log, the reply to each request, and which file
      names decode. */
  datatype Session = Session(kind: Kind, reply: nat -> Reply, decodes: Bytes -> bool)

  /** The record asked for by request `k`, and the failures before it: a good
      reply moves on, anything else starts over. */
  ghost function Progress(x: Session, k: nat): (r: (nat, nat)) {
    if k == 0 then (0, 0)
    else
      var (record, errors) := Progress(x, k - 1);
      if Judge(x.kind, record, x.reply(k - 1), x.decodes) == Good then (record + 1, errors) else (0, errors + 1)
  }

  ghost function RecordAt(x: Session, k: nat): nat { Progress(x, k).0 }
  ghost function ErrorsAt(x: Session, k: nat): nat { Progress(x, k).1 }

  /** The error code to report after `k` requests: that of the last failure since the
      last good reply; an exception in the validation leaves it as it was. */
  ghost function CodeAt(x: Session, k: nat): Code {
    if k == 0 then NoErr
    else
      match Judge(x.kind, RecordAt(x, k - 1), x.reply(k - 1), x.decodes)
      case Good => NoErr
      case Failed(c) => c
      case Threw => CodeAt(x, k - 1)
  }

  /** Request `start + i` asked for record `i` and was answered well. */
  ghost predicate InPass(x: Session, start: nat, i: nat) {
    RecordAt(x, start + i) == i && Judge(x.kind, i, x.reply(start + i), x.decodes) == Good
  }

  /** From `start`, every record in order, each answered well. */
  ghost predicate WholePass(x: Session, start: nat) {
    forall i: nat :: i < x.kind.records ==> InPass(x, start, i)
  }

  /** Neither finished nor given up before request `k`. */
  ghost predicate RunningUntil(x: Session, k: nat) {
    forall j | 0 <= j < k :: RecordAt(x, j) < x.kind.records && ErrorsAt(x, j) < ERR_MAX
  }

  /** The bytes of `n` consecutive replies from `start`, without header and checksum. */
  function Bodies(reply: nat -> Reply, start: nat, n: nat): Bytes {
    if n == 0 then []
    else
      var r := reply(start + n - 1);
      Bodies(reply, start, n - 1) + (if r.Raised? || |r.data| < 5 then [] else r.data[3..|r.data| - 2])
  }

  /** The 32 bytes of the file name in the reply to record 0. */
  function FileName(reply: Reply): Bytes {
    if reply.Raised? || |reply.data| < 37 then [] else reply.data[3..35]
  }

  /** The payloads of `n` consecutive replies from `start`, as records 0 to n-1. */
  function PassData(reply: nat -> Reply, start: nat, n: nat): Bytes {
    if n == 0 then [] else PassData(reply, start, n - 1) + Payload(n - 1, reply(start + n - 1))
  }

  /** Whatever the replies, reaching record `r` means the last `r` requests were
      for records 0 to r-1 in order and all were answered well. */
  lemma {:induction false} UnbrokenPass(x: Session, k: nat, i: nat)
    requires i < RecordAt(x, k)
    ensures k >= RecordAt(x, k) && InPass(x, k - RecordAt(x, k), i)
  {
    assert RecordAt(x, k) == RecordAt(x, k - 1) + 1;
    if i < RecordAt(x, k - 1) {
      UnbrokenPass(x, k - 1, i);
    } else if i > 0 {
      UnbrokenPass(x, k - 1, 0);
    }
  }

  /** `e` passes of `n` records. */
  ghost function Passes(e: nat, n: nat): nat {
    if e == 0 then 0 else Passes(e - 1, n) + n
  }

  /** Each failure costs at most one pass, so requests are bounded. */
  lemma {:induction false} RequestBound(x: Session, k: nat)
    requires RunningUntil(x, k)
    ensures k <= Passes(ErrorsAt(x, k), x.kind.records) + RecordAt(x, k)
  {
    if k > 0 {
      RequestBound(x, k - 1);
      assert RecordAt(x, k - 1) < x.kind.records;
    }
  }

  lemma {:induction false} PassesMonotone(e: nat, f: nat, n: nat)
    requires e <= f
    ensures Passes(e, n) <= Passes(f, n)
  {
    if e < f { PassesMonotone(e, f - 1, n); }
  }

  lemma {:induction false} PassesTimes(e: nat, n: nat)
    ensures Passes(e, n) == e * n
  {
    if e > 0 {
      PassesTimes(e - 1, n);
      assert (e - 1) * n + n == e * n;
    }
  }

  lemma BoundTotal(x: Session, k: nat)
    requires RunningUntil(x, k)
    requires ErrorsAt(x, k) <= ERR_MAX && RecordAt(x, k) <= (if ErrorsAt(x, k) < ERR_MAX then x.kind.records else 0)
    ensures k <= ERR_MAX * x.kind.records
  {
    RequestBound(x, k);
    var e, n := ErrorsAt(x, k), x.kind.records;
    PassesTimes(ERR_MAX, n);
    if e < ERR_MAX { PassesMonotone(e + 1, ERR_MAX, n); }
  }

  ghost predicate PayloadFits(kind: Kind, reply: nat -> Reply, start: nat, i: nat) {
    |Payload(i, reply(start + i))| == ExpectedLength(kind, i) - HEADER - CRC - (if i == 0 then NAME else 0)
  }

  lemma InPassFits(x: Session, start: nat, i: nat)
    requires Known(x.kind) && InPass(x, start, i)
    ensures PayloadFits(x.kind, x.reply, start, i)
  {
  }

  lemma {:induction false} PassLength(kind: Kind, reply: nat -> Reply, start: nat, n: nat)
    requires 0 < n < kind.records
    requires forall i: nat :: i < n ==> PayloadFits(kind, reply, start, i)
    ensures |PassData(reply, start, n)| == RECORD * n - NAME
  {
    assert PayloadFits(kind, reply, start, n - 1);
    if n > 1 { PassLength(kind, reply, start, n - 1); }
  }

  /** All records together have exactly the size of the log. */
  lemma WholePassLength(kind: Kind, reply: nat -> Reply, start: nat)
    requires Known(kind)
    requires forall i: nat :: i < kind.records ==> PayloadFits(kind, reply, start, i)
    ensures |PassData(reply, start, kind.records)| == kind.size
  {
    var n := kind.records;
    PassLength(kind, reply, start, n - 1);
    assert PayloadFits(kind, reply, start, n - 1);
  }

  ghost predicate Sized(kind: Kind, reply: nat -> Reply, start: nat, i: nat) {
    reply(start + i).Reply? && |reply(start + i).data| == ExpectedLength(kind, i)
  }

  lemma InPassSized(x: Session, start: nat, i: nat)
    requires InPass(x, start, i)
    ensures Sized(x.kind, x.reply, start, i)
  {
  }

  /** Name and log together are exactly the bytes of the pass, nothing lost and nothing
      twice. */
  lemma {:induction false} NameAndLog(kind: Kind, reply: nat -> Reply, start: nat, n: nat)
    requires 0 < n <= kind.records && Known(kind)
    requires forall i: nat :: i < n ==> Sized(kind, reply, start, i)
    ensures FileName(reply(start)) + PassData(reply, start, n) == Bodies(reply, start, n)
  {
    assert Sized(kind, reply, start, n - 1);
    if n == 1 {
      assert PassData(reply, start, 0) == [] && Bodies(reply, start, 0) == [];
    } else {
      NameAndLog(kind, reply, start, n - 1);
    }
  }

  /** The finished log is one unbroken pass and has exactly the size of its kind. */
  lemma PassComplete(x: Session, k: nat)
    requires Known(x.kind) && RecordAt(x, k) == x.kind.records
    ensures k >= x.kind.records && WholePass(x, k - x.kind.records)
    ensures |PassData(x.reply, k - x.kind.records, x.kind.records)| == x.kind.size
    ensures var start := k - x.kind.records;
      FileName(x.reply(start)) + PassData(x.reply, start, x.kind.records) == Bodies(x.reply, start, x.kind.records)
  {
    UnbrokenPass(x, k, 0);
    var start := k - x.kind.records;
    forall i: nat | i < x.kind.records ensures InPass(x, start, i) && PayloadFits(x.kind, x.reply, start, i) && Sized(x.kind, x.reply, start, i) {
      UnbrokenPass(x, k, i);
      InPassFits(x, start, i);
      InPassSized(x, start, i);
    }
    WholePassLength(x.kind, x.reply, start);
    NameAndLog(x.kind, x.reply, start, x.kind.records);
  }

  /** How one more reply moves the retrieval on. */
  lemma Step(x: Session, k: nat, verdict: Verdict)
    requires RunningUntil(x, k) && RecordAt(x, k) < x.kind.records && ErrorsAt(x, k) < ERR_MAX
    requires verdict == Judge(x.kind, RecordAt(x, k), x.reply(k), x.decodes)
    ensures RunningUntil(x, k + 1)
    ensures verdict == Good ==> RecordAt(x, k + 1) == RecordAt(x, k) + 1 && ErrorsAt(x, k + 1) == ErrorsAt(x, k)
    ensures verdict != Good ==> RecordAt(x, k + 1) == 0 && ErrorsAt(x, k + 1) == ErrorsAt(x, k) + 1
    ensures CodeAt(x, k + 1) == match verdict case Good => NoErr case Failed(c) => c case Threw => CodeAt(x, k)
  {
  }

  class TraceReader {
    var filename: Option<Bytes>

    /** Validates the reply to `record`; the file name of record 0 is remembered
        as soon as it is found, even when the reply is rejected for other reasons. */
    method ValidateReadFile(x: Session, record: nat, reply: Reply) returns (verdict: Verdict)
      modifies this
      ensures verdict == Judge(x.kind, record, reply, x.decodes)
      ensures record > 0 ==> filename == old(filename)
      ensures record == 0 && verdict == Good ==>
        && filename.Some? && |filename.value| >= |NEEDLE|
        && filename.value <= NameField(reply.data)
        && filename.value[|filename.value| - |NEEDLE|..] == NEEDLE
    {
      verdict := Judge(x.kind, record, reply, x.decodes);
      if record == 0 && reply.Reply? && reply.wellFormed && verdict != Threw {
        var field := NameField(reply.data);
        var at := Find(field, 0);
        if at.Some? {
          filename := Some(field[..at.value + |NEEDLE|]);
          assert field[..at.value + |NEEDLE|][at.value..] == field[at.value..at.value + |NEEDLE|];
        }
      }
    }

    /** The verdict on a reply; after a good one a file name is known. */
    method JudgeReply(x: Session, record: nat, reply: Reply) returns (verdict: Verdict)
      modifies this
      ensures verdict == Judge(x.kind, record, reply, x.decodes)
      ensures verdict == Good && (record == 0 || old(filename).Some?) ==> filename.Some?
    {
      verdict := ValidateReadFile(x, record, reply);
    }

    /** The retrieval: all records in, or too many failures. */
    method Retrieve(x: Session) returns (data: Bytes, requests: nat, errors: nat, lastErr: Code)
      modifies this
      ensures RunningUntil(x, requests) && errors == ErrorsAt(x, requests) <= ERR_MAX
      ensures RecordAt(x, requests) == if errors < ERR_MAX then x.kind.records else 0
      ensures lastErr == CodeAt(x, requests)
      ensures errors < ERR_MAX && Known(x.kind) ==>
        && requests >= x.kind.records && filename.Some? && lastErr == NoErr
        && var start := requests - x.kind.records;
        && WholePass(x, start) && |data| == x.kind.size
        && FileName(x.reply(start)) + data == Bodies(x.reply, start, x.kind.records)
    {
      data, requests, errors, lastErr := RequestLoop(x);
      if errors < ERR_MAX && Known(x.kind) { PassComplete(x, requests); }
    }

    /** The request loop: runs until all records are in or too many failed. */
    method RequestLoop(x: Session) returns (data: Bytes, requests: nat, errors: nat, lastErr: Code)
      modifies this
      ensures RunningUntil(x, requests) && errors == ErrorsAt(x, requests) <= ERR_MAX
      ensures RecordAt(x, requests) == if errors < ERR_MAX then x.kind.records else 0
      ensures lastErr == CodeAt(x, requests)
      ensures errors < ERR_MAX && x.kind.records > 0 ==>
        && requests >= x.kind.records && filename.Some? && lastErr == NoErr
        && data == PassData(x.reply, requests - x.kind.records, x.kind.records)
    {
      var record, n := 0, x.kind.records;
      data, requests, errors, lastErr := [], 0, 0, NoErr;
      filename := None;
      ghost var start := 0;
      while record < n && errors < ERR_MAX
        invariant record == RecordAt(x, requests) <= n && requests == start + record
        invariant errors == ErrorsAt(x, requests) <= ERR_MAX
        invariant errors == ERR_MAX ==> record == 0
        invariant lastErr == CodeAt(x, requests)
        invariant record > 0 ==> data == PassData(x.reply, start, record) && filename.Some? && lastErr == NoErr
        invariant RunningUntil(x, requests)
        decreases ERR_MAX - errors, n - record
      {
        record, data, lastErr, errors, start := OneRequest(x, record, requests, data, lastErr, errors, start);
        requests := requests + 1;
      }
    }

    /** One request and what its reply makes of the retrieval. */
    method OneRequest(x: Session, record: nat, k: nat, data: Bytes, lastErr: Code, errors: nat, ghost start: nat)
      returns (record': nat, data': Bytes, lastErr': Code, errors': nat, ghost start': nat)
      requires RunningUntil(x, k) && record == RecordAt(x, k) < x.kind.records && errors == ErrorsAt(x, k) < ERR_MAX
      requires k == start + record && lastErr == CodeAt(x, k)
      requires record > 0 ==> data == PassData(x.reply, start, record) && filename.Some?
      modifies this
      ensures RunningUntil(x, k + 1) && record' == RecordAt(x, k + 1) && errors' == ErrorsAt(x, k + 1)
      ensures lastErr' == CodeAt(x, k + 1)
      ensures if record' == 0 then errors' == errors + 1 else record' == record + 1 && errors' == errors && lastErr' == NoErr
      ensures k + 1 == start' + record'
      ensures record' > 0 ==> data' == PassData(x.reply, start', record') && filename.Some?
    {
      data' := data;
      if record == 0 { data', filename := [], None; }
      var verdict := JudgeReply(x, record, x.reply(k));
      Step(x, k, verdict);
      match verdict {
        case Good =>
          assert PassData(x.reply, start, record + 1) == PassData(x.reply, start, record) + Payload(record, x.reply(k));
          data' := data' + Payload(record, x.reply(k));
          return record + 1, data', NoErr, errors, start;
        case Failed(c) =>
          return 0, data', c, errors + 1, k + 1;
        case Threw =>
          return 0, data', lastErr, errors + 1, k + 1;
      }
    }

    /** The retrieval and the save of what it brought: `data` is handed to the save
        exactly after a whole pass. `saved` is whether the file could be written,
        `roomLeft` whether the disk has space left afterwards. */
    method GenerateTraceLog(logType: string, reply: nat -> Reply, decodes: Bytes -> bool, saved: bool, roomLeft: bool)
      returns (code: Answer, data: Bytes, requests: nat)
      modifies this
      ensures KindOf(logType).None? ==> code == Retrieval(LogTypeErr) && requests == 0
      ensures KindOf(logType).Some? ==>
        var x := Session(KindOf(logType).value, reply, decodes);
        && requests <= 10 * x.kind.records && RunningUntil(x, requests)
        && (RecordAt(x, requests) == x.kind.records <==> ErrorsAt(x, requests) < ERR_MAX)
        && (code == Retrieval(NoErr) <==> ErrorsAt(x, requests) < ERR_MAX && saved && roomLeft)
        && (code == LogSaveErr <==> ErrorsAt(x, requests) < ERR_MAX && !saved)
        && (code == DiskLimitErr <==> ErrorsAt(x, requests) < ERR_MAX && saved && !roomLeft)
        && (ErrorsAt(x, requests) < ERR_MAX ==>
              && requests >= x.kind.records && |data| == x.kind.size && filename.Some?
              && WholePass(x, requests - x.kind.records)
              && FileName(reply(requests - x.kind.records)) + data == Bodies(reply, requests - x.kind.records, x.kind.records))
        && (ErrorsAt(x, requests) == 10 ==>
              code == Retrieval(if CodeAt(x, requests) == NoErr then LogErrCnt else CodeAt(x, requests)))
      ensures logType == "0x06" && code == Retrieval(NoErr) ==> |data| == 2048
      ensures logType == "0x02" && code == Retrieval(NoErr) ==> |data| == 32768
      ensures logType != "0x06" && logType != "0x02" ==> code == Retrieval(LogTypeErr)
    {
      if KindOf(logType).None? { return Retrieval(LogTypeErr), [], 0; }
      var x := Session(KindOf(logType).value, reply, decodes);
      var errors, lastErr;
      data, requests, errors, lastErr := Retrieve(x);
      BoundTotal(x, requests);
      if errors >= ERR_MAX {
        code := Retrieval(if lastErr == NoErr then LogErrCnt else lastErr);
        return;
      }
      if !saved { code := LogSaveErr; return; }
      code := if !roomLeft && lastErr == NoErr then DiskLimitErr else Retrieval(lastErr);
    }
  }
}
