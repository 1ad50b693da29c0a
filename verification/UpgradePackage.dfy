/** Upload of an upgrade package: the file is cut into records of the largest
    size a write-file-record PDU can carry (253-byte PDU, section 4.1; request
    layout, section 6.15 of the MODBUS Application Protocol V1.1b3), and each
    record is written until it is acknowledged. */
module UpgradePackage {
  import opened Text

  type Bytes = seq<int>

  const PDU_MAX := 253
  const REQUEST_HEADER := 2
  const SUB_REQUEST_HEADER := 7
  const RECORD_MAX := PDU_MAX - REQUEST_HEADER - SUB_REQUEST_HEADER
  const MAX_TRIES := 20

  datatype Code = NoErr | FileNotFound | FileEmpty | FileNameErr | FileHeaderErr | FileTransferErr

  lemma RecordSize()
    ensures RECORD_MAX == 244
  {
  }

  function Concat(chunks: seq<Bytes>): Bytes {
    if chunks == [] then [] else Concat(chunks[..|chunks| - 1]) + chunks[|chunks| - 1]
  }

  /** The next chunk of what is left. */
  function Chunk(rest: Bytes): (r: Bytes)
    ensures r <= rest && |r| <= RECORD_MAX
    ensures r == [] <==> rest == []
    ensures r != rest ==> |r| == RECORD_MAX
  {
    if |rest| <= RECORD_MAX then rest else rest[..RECORD_MAX]
  }

  /** `records` are cut, `rest` is still to be cut. */
  ghost predicate Cutting(file: Bytes, records: seq<Bytes>, rest: Bytes) {
    && Concat(records) + rest == file
    && (forall i | 0 <= i < |records| - 1 :: |records[i]| == RECORD_MAX)
    && (records != [] ==> 0 < |records[|records| - 1]| <= RECORD_MAX)
    && (records != [] && rest != [] ==> |records[|records| - 1]| == RECORD_MAX)
  }

  lemma CutOn(file: Bytes, records: seq<Bytes>, rest: Bytes)
    requires Cutting(file, records, rest) && rest != []
    ensures Cutting(file, records + [Chunk(rest)], rest[|Chunk(rest)|..])
  {
    var chunk := Chunk(rest);
    var more := records + [chunk];
    assert more[..|more| - 1] == records && chunk + rest[|chunk|..] == rest;
    assert Concat(records) + (chunk + rest[|chunk|..]) == (Concat(records) + chunk) + rest[|chunk|..];
    assert forall i | 0 <= i < |records| :: more[i] == records[i];
  }

  /** Cut `file` into records; None is a file that cannot be opened. */
  method GetRecordData(file: Option<Bytes>) returns (records: seq<Bytes>, code: Code)
    ensures file.None? <==> code == FileNotFound
    ensures file == Some([]) <==> code == FileEmpty
    ensures code == NoErr <==> records != []
    ensures code == NoErr || code == FileNotFound || code == FileEmpty
    ensures code == NoErr ==>
      && Concat(records) == file.value
      && (forall i | 0 <= i < |records| - 1 :: |records[i]| == RECORD_MAX)
      && 0 < |records[|records| - 1]| <= RECORD_MAX
  {
    records := [];
    if file.None? { return records, FileNotFound; }
    var rest := file.value;
    assert Concat(records) + rest == rest;
    while rest != []
      invariant Cutting(file.value, records, rest)
      invariant records == [] ==> rest == file.value
      decreases |rest|
    {
      CutOn(file.value, records, rest);
      records, rest := records + [Chunk(rest)], rest[|Chunk(rest)|..];
    }
    assert Concat(records) + [] == Concat(records);
    code := if records == [] then FileEmpty else NoErr;
  }

  /** One write on the bus: whether the receiver took the record, and whether the
      gateway saw a good acknowledgement. The lift acknowledges only what it took;
      an acknowledgement may get lost or the call may raise. */
  datatype Outcome = Outcome(taken: bool, acked: bool)

  predicate Honest(o: Outcome) {
    o.acked ==> o.taken
  }

  /** The receiver's records after `sent`: writes of a record number replace it. */
  function Received(sent: seq<(nat, Bytes, Outcome)>): map<nat, Bytes> {
    if sent == [] then map[]
    else
      var before, w := Received(sent[..|sent| - 1]), sent[|sent| - 1];
      if w.2.taken then before[w.0 := w.1] else before
  }

  /** The record numbers acknowledged, in order. */
  function Acked(sent: seq<(nat, Bytes, Outcome)>): seq<nat> {
    if sent == [] then []
    else Acked(sent[..|sent| - 1]) + (if sent[|sent| - 1].2.acked then [sent[|sent| - 1].0] else [])
  }

  /** 0, 1, 2, … up to `n`. */
  function Upto(n: nat): seq<nat> {
    if n == 0 then [] else Upto(n - 1) + [n - 1]
  }

  lemma {:induction false} UptoCounts(n: nat)
    ensures |Upto(n)| == n && forall i | 0 <= i < n :: Upto(n)[i] == i
  {
    if n > 0 { UptoCounts(n - 1); }
  }

  /** The last `n` writes were all of one record and none was acknowledged. */
  ghost predicate StuckAt(sent: seq<(nat, Bytes, Outcome)>, n: nat, record: nat)
    requires n <= |sent|
  {
    forall k | |sent| - n <= k < |sent| :: sent[k].0 == record && !sent[k].2.acked
  }

  /** What has been written so far: the records acknowledged are the first `record`, and
      the last `errors` writes, all of record number `record`, were not acknowledged. */
  ghost predicate Written(sent: seq<(nat, Bytes, Outcome)>, outcome: nat -> Outcome, record: nat, errors: nat) {
    && |sent| <= MAX_TRIES * record + errors && errors <= |sent|
    && (forall k | 0 <= k < |sent| :: sent[k].2 == outcome(k))
    && Acked(sent) == Upto(record) && StuckAt(sent, errors, record)
  }

  lemma WrittenOn(sent: seq<(nat, Bytes, Outcome)>, outcome: nat -> Outcome, record: nat, errors: nat, data: Bytes)
    requires Written(sent, outcome, record, errors) && errors < MAX_TRIES
    ensures var o := outcome(|sent|);
      var more := sent + [(record, data, o)];
      if o.acked then Written(more, outcome, record + 1, 0) else Written(more, outcome, record, errors + 1)
  {
    var o := outcome(|sent|);
    var more := sent + [(record, data, o)];
    assert more[..|more| - 1] == sent;
    assert Acked(more) == if o.acked then Upto(record + 1) else Upto(record);
    assert forall k | 0 <= k < |sent| :: more[k] == sent[k];
  }

  /** The receiver holds only what was sent, and with honest acknowledgements every
      record acknowledged. */
  ghost predicate Holds(sent: seq<(nat, Bytes, Outcome)>, records: seq<Bytes>, record: nat, honest: bool)
    requires record <= |records|
  {
    && (forall i | i in Received(sent) :: i < |records| && Received(sent)[i] == records[i])
    && (honest ==> forall i | 0 <= i < record :: i in Received(sent))
  }

  lemma HoldsOn(sent: seq<(nat, Bytes, Outcome)>, records: seq<Bytes>, record: nat, honest: bool, o: Outcome)
    requires record < |records| && Holds(sent, records, record, honest) && (honest ==> Honest(o))
    ensures Holds(sent + [(record, records[record], o)], records, if o.acked then record + 1 else record, honest)
  {
    var more := sent + [(record, records[record], o)];
    assert more[..|more| - 1] == sent;
  }

  lemma WritesEnd(sent: seq<(nat, Bytes, Outcome)>, outcome: nat -> Outcome, n: nat, record: nat, errors: nat)
    requires Written(sent, outcome, record, errors) && record <= n && (record == n || errors == MAX_TRIES)
    requires record == n ==> errors == 0
    ensures |Acked(sent)| == record && |sent| <= MAX_TRIES * n && (Acked(sent) == Upto(n) <==> errors == 0)
  {
    UptoCounts(record);
    UptoCounts(n);
  }

  /** The write loop. `outcome(k)` is what happens to write `k`; the trace of all
      writes is returned. Success is exactly: every record acknowledged in order. */
  method WriteUpgradePackage(records: seq<Bytes>, outcome: nat -> Outcome)
    returns (code: Code, sent: seq<(nat, Bytes, Outcome)>)
    ensures |sent| <= 20 * |records|
    ensures forall k | 0 <= k < |sent| :: sent[k].2 == outcome(k)
    ensures code == NoErr <==> Acked(sent) == Upto(|records|)
    ensures code != NoErr ==> code == FileTransferErr && |Acked(sent)| < |records| && Acked(sent) == Upto(|Acked(sent)|)
    ensures code == FileTransferErr ==> |sent| >= 20 && StuckAt(sent, 20, |Acked(sent)|)
    ensures code == NoErr && (forall k: nat :: Honest(outcome(k))) ==>
      forall i | 0 <= i < |records| :: i in Received(sent) && Received(sent)[i] == records[i]
    ensures forall i | i in Received(sent) :: i < |records| && Received(sent)[i] == records[i]
  {
    var errors, record := 0, 0;
    ghost var honest := forall k: nat :: Honest(outcome(k));
    sent := [];
    while record < |records| && errors < MAX_TRIES
      invariant record <= |records| && errors <= MAX_TRIES && (record == |records| ==> errors == 0)
      invariant Written(sent, outcome, record, errors) && Holds(sent, records, record, honest)
      decreases |records| - record, MAX_TRIES - errors
    {
      var o := outcome(|sent|);
      WrittenOn(sent, outcome, record, errors, records[record]);
      HoldsOn(sent, records, record, honest, o);
      sent := sent + [(record, records[record], o)];
      if o.acked {
        record, errors := record + 1, 0;
      } else {
        errors := errors + 1;
      }
    }
    code := if errors > 0 then FileTransferErr else NoErr;
    WritesEnd(sent, outcome, |records|, record, errors);
  }

  /** What a receiver that keeps records by number holds as its file. */
  function Assemble(m: map<nat, Bytes>, n: nat): Bytes {
    if n == 0 then [] else Assemble(m, n - 1) + (if n - 1 in m then m[n - 1] else [])
  }

  lemma {:induction false} AssembleRecords(m: map<nat, Bytes>, records: seq<Bytes>, n: nat)
    requires n <= |records| && forall i | 0 <= i < n :: i in m && m[i] == records[i]
    ensures Assemble(m, n) == Concat(records[..n])
  {
    if n > 0 {
      AssembleRecords(m, records, n - 1);
      assert records[..n][..n - 1] == records[..n - 1];
    }
  }

  /** End to end: nothing is sent of a file that is missing, empty, wrongly named or
      without its header; success means that a lift that acknowledges only what it
      took holds the file, record numbers from 0 and nothing else, whatever was lost
      or repeated on the way. */
  method Upload(file: Option<Bytes>, nameOk: bool, headerOk: bool, outcome: nat -> Outcome)
    returns (code: Code, sent: seq<(nat, Bytes, Outcome)>)
    ensures code == FileNotFound <==> file.None?
    ensures code == FileEmpty <==> file == Some([])
    ensures code == FileNameErr <==> file.Some? && file.value != [] && !nameOk
    ensures code == FileHeaderErr <==> file.Some? && file.value != [] && nameOk && !headerOk
    ensures code != NoErr && code != FileTransferErr ==> sent == []
    ensures code == FileTransferErr ==> |sent| >= 20 && StuckAt(sent, 20, |Acked(sent)|)
    ensures code == NoErr && (forall k: nat :: Honest(outcome(k))) ==>
      && file.Some? && Assemble(Received(sent), |Acked(sent)|) == file.value
      && (forall i | i in Received(sent) :: i < |Acked(sent)|)
  {
    sent := [];
    var records;
    records, code := GetRecordData(file);
    if code != NoErr { return; }
    if !nameOk { code := FileNameErr; return; }
    if !headerOk { code := FileHeaderErr; return; }
    code, sent := WriteUpgradePackage(records, outcome);
    if code == NoErr && forall k: nat :: Honest(outcome(k)) {
      UptoCounts(|records|);
      AssembleRecords(Received(sent), records, |records|);
      assert records[..|records|] == records;
    }
  }
}
