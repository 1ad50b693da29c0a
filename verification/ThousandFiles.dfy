/** Parameters of the 1k lift that live in its byte files: little-endian
    unpacking, read-modify-write of a file image, and polling it back. */
module ThousandFiles {
  import opened Text

  datatype Code =
    | NoErr | ArgsIntErr | WriteNotSupported | NotInFiles | DataErr | SerialErr
    | PartialErr | Raised  // Raised: the call ends in an exception

  datatype Signal = Signal(byteStart: nat, byteSize: nat)

  datatype File = ParamFile | InternFile | NodeFile | LockFile | DoorFile

  /** File and place of a parameter: 16-bit words in parameter order. */
  function FileOf(p: int): Option<File> {
    if 97 <= p <= 111 then Some(ParamFile)
    else if 112 <= p <= 125 then Some(InternFile)
    else if 126 <= p <= 131 then Some(NodeFile)
    else if 132 <= p <= 137 then Some(LockFile)
    else if 138 <= p <= 143 then Some(DoorFile)
    else None
  }

  function FirstOf(f: File): int {
    match f case ParamFile => 97 case InternFile => 112 case NodeFile => 126 case LockFile => 132 case DoorFile => 138
  }

  function SignalOf(p: int): Signal
    requires FileOf(p).Some?
  {
    Signal(2 * (p - FirstOf(FileOf(p).value)), 2)
  }

  // ---- little-endian numbers ----

  predicate IsByte(b: int) { 0 <= b < 256 }

  predicate AllBytes(s: seq<int>) { forall i | 0 <= i < |s| :: IsByte(s[i]) }

  function LeValue(s: seq<int>): int {
    if s == [] then 0 else s[0] + 256 * LeValue(s[1..])
  }

  function LeBytes(v: nat, size: nat): (r: seq<int>)
    ensures |r| == size && AllBytes(r)
  {
    if size == 0 then [] else [v % 256] + LeBytes(v / 256, size - 1)
  }

  function Pow256(n: nat): nat { if n == 0 then 1 else 256 * Pow256(n - 1) }

  lemma {:induction false} LeRoundTrip(v: nat, size: nat)
    requires v < Pow256(size)
    ensures LeValue(LeBytes(v, size)) == v
  {
    if size > 0 { LeRoundTrip(v / 256, size - 1); }
  }

  lemma {:induction false} LeBounds(s: seq<int>)
    requires AllBytes(s)
    ensures 0 <= LeValue(s) < Pow256(|s|)
  {
    if s != [] { LeBounds(s[1..]); }
  }

  lemma LeTwo(b: seq<int>)
    requires |b| == 2
    ensures LeValue(b) == b[0] + 256 * b[1]
  {
    assert LeValue(b[1..][1..]) == 0;
  }

  lemma LeFour(b: seq<int>)
    requires |b| == 4
    ensures LeValue(b) == b[0] + 256 * b[1] + 65536 * b[2] + 16777216 * b[3]
  {
    LeTwo(b[2..]);
    assert b[1..][1..] == b[2..];
  }

  /** The reply holds all bytes of the signal and they are bytes. */
  predicate ValidBytes(sig: Signal, response: seq<int>) {
    sig.byteStart + sig.byteSize <= |response| &&
    AllBytes(response[sig.byteStart..sig.byteStart + sig.byteSize])
  }

  function Unpacked(sig: Signal, response: seq<int>): int
    requires sig.byteStart + sig.byteSize <= |response|
  {
    LeValue(response[sig.byteStart..sig.byteStart + sig.byteSize])
  }

  lemma FilesCover(p: int)
    ensures FileOf(p).Some? <==> 97 <= p <= 143
  {
  }

  /** Every parameter is the next 16-bit word of its file, low byte first, counted from
      the file's first parameter. */
  lemma FileWord(p: int, response: seq<int>)
    requires FileOf(p).Some? && SignalOf(p).byteStart + 2 <= |response|
    ensures 97 <= p <= 143
    ensures var at := 2 * (if p < 112 then p - 97 else if p < 126 then p - 112 else if p < 132 then p - 126
                           else if p < 138 then p - 132 else p - 138);
      SignalOf(p).byteStart == at && SignalOf(p).byteSize == 2
      && Unpacked(SignalOf(p), response) == response[at] + 256 * response[at + 1]
  {
    var at := SignalOf(p).byteStart;
    LeTwo(response[at..at + 2]);
  }

  /** From the last byte to the first, shifting the accumulator left by eight. */
  method UnpackUint(sig: Signal, response: seq<int>) returns (v: int)
    requires ValidBytes(sig, response)
    ensures v == Unpacked(sig, response) && 0 <= v < Pow256(sig.byteSize)
  {
    var bytes := response[sig.byteStart..sig.byteStart + sig.byteSize];
    v := 0;
    var i := sig.byteSize;
    while i > 0
      invariant 0 <= i <= sig.byteSize
      invariant v == LeValue(bytes[i..])
    {
      i := i - 1;
      v := v * 256 + response[sig.byteStart + i];
      assert bytes[i..][1..] == bytes[i + 1..];
    }
    assert bytes[0..] == bytes;
    LeBounds(bytes);
  }

  // ---- read-modify-write ----

  function Patched(image: seq<int>, sig: Signal, v: nat): (r: seq<int>)
    requires sig.byteStart + sig.byteSize <= |image|
    ensures |r| == |image|
  {
    image[..sig.byteStart] + LeBytes(v, sig.byteSize) + image[sig.byteStart + sig.byteSize..]
  }

  predicate Apart(a: Signal, b: Signal) {
    a.byteStart + a.byteSize <= b.byteStart || b.byteStart + b.byteSize <= a.byteStart
  }

  /** For every image and every value that fits: the patched place reads as
      written, every place apart from it reads as before. */
  lemma PatchReads(image: seq<int>, sig: Signal, v: nat, other: Signal)
    requires sig.byteStart + sig.byteSize <= |image| && v < Pow256(sig.byteSize)
    ensures Unpacked(sig, Patched(image, sig, v)) == v && ValidBytes(sig, Patched(image, sig, v))
    ensures Apart(sig, other) && other.byteStart + other.byteSize <= |image| ==>
      && Unpacked(other, Patched(image, sig, v)) == Unpacked(other, image)
      && (ValidBytes(other, Patched(image, sig, v)) <==> ValidBytes(other, image))
  {
    var r := Patched(image, sig, v);
    assert r[sig.byteStart..sig.byteStart + sig.byteSize] == LeBytes(v, sig.byteSize);
    LeRoundTrip(v, sig.byteSize);
    if Apart(sig, other) && other.byteStart + other.byteSize <= |image| {
      assert r[other.byteStart..other.byteStart + other.byteSize] == image[other.byteStart..other.byteStart + other.byteSize];
    }
  }

  /** Parameters of one file never overlap. */
  lemma LayoutApart(p: int, q: int)
    requires FileOf(p).Some? && FileOf(p) == FileOf(q) && p != q
    ensures Apart(SignalOf(p), SignalOf(q))
  {
  }

  method PatchImage(data: array<int>, sig: Signal, v: nat)
    requires sig.byteStart + sig.byteSize <= data.Length
    modifies data
    ensures data[..] == Patched(old(data[..]), sig, v)
  {
    var bytes := LeBytes(v, sig.byteSize);
    ghost var was := data[..];
    for i := 0 to sig.byteSize
      invariant forall k | 0 <= k < data.Length ::
        data[k] == if sig.byteStart <= k < sig.byteStart + i then bytes[k - sig.byteStart] else was[k]
    {
      data[sig.byteStart + i] := bytes[i];
    }
  }

  /** The value fits its bytes and the bytes are in the image. */
  predicate Fits(sig: Signal, v: int, length: nat) {
    0 <= v < Pow256(sig.byteSize) && sig.byteStart + sig.byteSize <= length
  }

  // ---- the library ----

  /** What polling does to one parameter's stored text. */
  function PollText(text: string, sig: Signal, response: seq<int>): string {
    if ValidBytes(sig, response) then Dec(Unpacked(sig, response)) else text
  }

  /** The parameters `done` follow the reply, all others are as before, and `changed`
      names exactly those that differ, each once. */
  ghost predicate Updated(before: map<int, string>, now: map<int, string>, done: seq<int>, response: seq<int>, changed: seq<int>) {
    && now.Keys == before.Keys
    && (forall p | p in done :: FileOf(p).Some?)
    && (forall p | p in now :: now[p] == if p in done then PollText(before[p], SignalOf(p), response) else before[p])
    && (forall p :: p in changed <==> p in done && p in now && now[p] != before[p])
    && forall i, j | 0 <= i < j < |changed| :: changed[i] != changed[j]
  }

  lemma UpdatedOn(before: map<int, string>, now: map<int, string>, after: map<int, string>, params: seq<int>, i: nat,
                  response: seq<int>, changed: seq<int>, news: seq<int>)
    requires i < |params| && forall a, b | 0 <= a < b < |params| :: params[a] != params[b]
    requires Updated(before, now, params[..i], response, changed)
    requires var p := params[i];
      && FileOf(p).Some? && p in now && after == now[p := PollText(now[p], SignalOf(p), response)]
      && news == if after[p] != now[p] then [p] else []
    ensures Updated(before, after, params[..i + 1], response, changed + news)
  {
    var done, p := params[..i], params[i];
    assert params[..i + 1] == done + [p];
    assert p !in done && p !in changed && now[p] == before[p];
  }

  class ThousandLib {
    var database: map<int, string>  // value texts; "" is a value never polled

    constructor (params: set<int>)
      ensures database == map p | p in params :: ""
    {
      database := map p | p in params :: "";
    }

    /** Unpack every parameter of a file and report those whose text changed. */
    method GetUpdatedParams(params: seq<int>, response: seq<int>) returns (changed: seq<int>, code: Code)
      requires forall p | p in params :: FileOf(p).Some? && p in database
      requires forall i, j | 0 <= i < j < |params| :: params[i] != params[j]
      modifies this
      ensures database.Keys == old(database.Keys)
      ensures forall p | p in database ::
        database[p] == if p in params then PollText(old(database[p]), SignalOf(p), response) else old(database[p])
      ensures forall p :: p in changed <==> p in params && database[p] != old(database[p])
      ensures forall i, j | 0 <= i < j < |changed| :: changed[i] != changed[j]
      ensures code == NoErr <==> forall p | p in params :: ValidBytes(SignalOf(p), response)
      ensures code == NoErr || code == PartialErr
    {
      changed, code := [], NoErr;
      ghost var before := database;
      for i := 0 to |params|
        invariant Updated(before, database, params[..i], response, changed)
        invariant code == NoErr <==> forall p | p in params[..i] :: ValidBytes(SignalOf(p), response)
        invariant code == NoErr || code == PartialErr
      {
        ghost var now := database;
        var ok, news := UpdateOne(params[i], response);
        UpdatedOn(before, now, database, params, i, response, changed, news);
        assert params[..i + 1] == params[..i] + [params[i]];
        changed := changed + news;
        if !ok { code := PartialErr; }
      }
      assert params[..|params|] == params;
    }

    /** One parameter: its text follows the reply if the reply holds it. */
    method UpdateOne(p: int, response: seq<int>) returns (ok: bool, news: seq<int>)
      requires FileOf(p).Some? && p in database
      modifies this
      ensures ok <==> ValidBytes(SignalOf(p), response)
      ensures database == old(database)[p := PollText(old(database)[p], SignalOf(p), response)]
      ensures news == if database[p] != old(database)[p] then [p] else []
    {
      news := [];
      ok := ValidBytes(SignalOf(p), response);
      if !ok { return; }
      var v := UnpackUint(SignalOf(p), response);
      if database[p] != Dec(v) {
        database := database[p := Dec(v)];
        news := [p];
      }
    }

    /** The file branch of a parameter write. `image` is what reading the file gave
        (it is patched in place and is what gets written), `stored` whether the
        write of the file succeeded. */
    method WriteFileParam(p: int, value: string, image: array<int>, stored: bool)
      returns (code: Code, written: bool)
      modifies this, image
      ensures written ==> code == NoErr && FileOf(p).Some? && ParseDecimal(value).Some?
      ensures written ==>
        && var v := ParseDecimal(value).value;
        && var sig := SignalOf(p);
        && 0 <= v < Pow256(sig.byteSize) && sig.byteStart + sig.byteSize <= image.Length
        && image[..] == Patched(old(image[..]), sig, v)
      ensures !written ==> image[..] == old(image[..]) || (code == SerialErr && !stored)
      ensures code == NoErr <==>
        && ParseDecimal(value).Some? && p in old(database) && old(database)[p] != ""
        && (old(database)[p] == value
            || (FileOf(p).Some? && Fits(SignalOf(p), ParseDecimal(value).value, image.Length) && stored))
      ensures code == ArgsIntErr <==> ParseDecimal(value).None?
      ensures code == WriteNotSupported <==> ParseDecimal(value).Some? && (p !in old(database) || old(database)[p] == "")
      ensures code == NotInFiles || code == DataErr || code == Raised || code == SerialErr ==>
        p in old(database) && old(database)[p] != "" && old(database)[p] != value
        && (code == NotInFiles <==> FileOf(p).None?) && (code == DataErr <==> FileOf(p).Some? && image.Length == 0)
        && (code == SerialErr ==> !stored && Fits(SignalOf(p), ParseDecimal(value).value, image.Length))
        && (code == Raised ==> !Fits(SignalOf(p), ParseDecimal(value).value, image.Length))
      ensures code != PartialErr
      ensures code == NoErr && !written ==> p in old(database) && old(database)[p] == value != ""
      ensures database == if written then old(database)[p := value] else old(database)
      ensures code == NoErr ==> p in database && database[p] == value
    {
      written := false;
      var v := ParseDecimal(value);
      if v.None? { return ArgsIntErr, false; }
      if p in database && database[p] != "" && database[p] == value { return NoErr, false; }
      if p !in database || database[p] == "" { return WriteNotSupported, false; }
      if FileOf(p).None? { return NotInFiles, false; }
      if image.Length == 0 { return DataErr, false; }
      var sig := SignalOf(p);
      if v.value < 0 || v.value >= Pow256(sig.byteSize) { return Raised, false; }
      if sig.byteStart + sig.byteSize > image.Length { return Raised, false; }
      PatchImage(image, sig, v.value);
      if !stored { return SerialErr, false; }
      database := database[p := value];
      return NoErr, true;
    }
  }

  /** After a write, polling the stored image leaves the parameter's text alone
      exactly when the value was written in canonical decimal; every other
      parameter of the file polls as it would have before the write. */
  lemma PollAfterWrite(image: seq<int>, p: int, value: string, q: int, text: string)
    requires FileOf(p).Some? && ParseDecimal(value).Some?
    requires SignalOf(p).byteStart + 2 <= |image| && 0 <= ParseDecimal(value).value < Pow256(2)
    ensures var r := Patched(image, SignalOf(p), ParseDecimal(value).value);
      && (PollText(value, SignalOf(p), r) == value <==> value == Dec(ParseDecimal(value).value))
      && (FileOf(q) == FileOf(p) && q != p ==> PollText(text, SignalOf(q), r) == PollText(text, SignalOf(q), image))
  {
    var v := ParseDecimal(value).value;
    PatchReads(image, SignalOf(p), v, SignalOf(p));
    if FileOf(q) == FileOf(p) && q != p {
      LayoutApart(p, q);
      PatchReads(image, SignalOf(p), v, SignalOf(q));
    }
  }
}
