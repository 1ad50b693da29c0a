/** Parameters over Modbus holding registers: value grammar, packing of signed
    32-bit values into register pairs, decoding of replies, and the retrying read
    (sections 6.3 and 6.12 of the MODBUS Application Protocol V1.1b3). */
module ModbusRegisters {
  import opened Bits
  import opened Text

  datatype Code = NoErr | ComErr | RegErr | LcmErr | LinkErr | ArgErr | ArgIntErr

  /** What one request brings back: a raised exception, an object that is not a
      PDU, an error PDU, or the words of a register read. */
  datatype Response = Exception | NotPdu | ErrorPdu(functionCode: int) | Registers(words: seq<int>)

  datatype ReadResult = ReadResult(value: int, code: Code)

  const WORD_BITS: nat := 16
  const DEAD := 0xDEAD
  /** The signed value whose two words are both 0xDEAD. */
  const DEAD_VALUE := 0xDEADDEAD - 0x1_0000_0000

  predicate IsInt32(v: int) {
    -0x8000_0000 <= v < 0x8000_0000
  }

  /** `ctypes.c_int32(x).value`. */
  function CInt32(x: int): (r: int)
    ensures IsInt32(r)
    ensures IsInt32(x) ==> r == x
  {
    (x + 0x8000_0000) % 0x1_0000_0000 - 0x8000_0000
  }

  predicate HexStart(s: string) {
    HexPrefixed(s) || (s != "" && s[0] == '-' && HexPrefixed(s[1..]))
  }

  /** Decimal text is an arithmetic value; hex text is a 32-bit pattern, decoded
      as the read path would decode it. None is the source's ValueError. */
  function ParseIntValue(s: string): (r: Option<int>) {
    if HexStart(s) then
      match ParseHex(s)
      case None => None
      case Some(n) => Some(if 0 <= n < 0x1_0000_0000 then CInt32(n) else n)
    else ParseDecimal(s)
  }

  /** The two words are the base-65536 digits of `v` modulo 2^32, high word first. */
  function PackValue(v: int): (r: Option<seq<int>>)
    ensures r.Some? <==> IsInt32(v)
    ensures r.Some? ==>
      && |r.value| == 2
      && r.value[0] == v / 0x1_0000 % 0x1_0000
      && r.value[1] == v % 0x1_0000
  {
    WordSize();
    if IsInt32(v) then Some([LowBits(v / Pow2(WORD_BITS), WORD_BITS), LowBits(v, WORD_BITS)]) else None
  }

  /** A value exactly for two registers that are not both 0xDEAD; every other kind of
      reply has its own code. */
  function ValidateRead(response: Response): (r: ReadResult)
    ensures r.code == NoErr || r.code == LcmErr <==> response.Registers? && |response.words| == 2
    ensures r.code == RegErr <==> response.Registers? && |response.words| != 2
    ensures r.code == ComErr <==> !response.Registers?
    ensures r.code == LcmErr <==> response == Registers([0xDEAD, 0xDEAD])
    ensures r.code == LcmErr || r.code == RegErr ==> r.value == -1
  {
    match response
    case Exception => ReadResult(-1, ComErr)
    case NotPdu => ReadResult(-1, ComErr)
    case ErrorPdu(f) => ReadResult(f, ComErr)
    case Registers(w) =>
      if |w| != 2 then ReadResult(-1, RegErr)
      else if w[0] == DEAD && w[1] == DEAD then ReadResult(-1, LcmErr)
      else ReadResult(CInt32(w[0] * 0x1_0000 + w[1]), NoErr)
  }

  /** The value is the signed 32-bit number the two registers spell. */
  lemma RegistersSpell(hi: int, lo: int)
    requires 0 <= hi < 0x1_0000 && 0 <= lo < 0x1_0000 && !(hi == 0xDEAD && lo == 0xDEAD)
    ensures var w := hi * 0x1_0000 + lo;
      ValidateRead(Registers([hi, lo])) == ReadResult(if w < 0x8000_0000 then w else w - 0x1_0000_0000, NoErr)
  {
  }

  predicate Conclusive(c: Code) {
    c == NoErr || c == LcmErr
  }

  /** The result is that of the last try, the tries before it were inconclusive, and
      fewer than three only because it was conclusive. */
  ghost predicate Retried(reply: nat -> Response, r: ReadResult, tries: nat) {
    && 1 <= tries <= 3 && r == ValidateRead(reply(tries - 1))
    && (forall i | 0 <= i < tries - 1 :: !Conclusive(ValidateRead(reply(i)).code))
    && (Conclusive(r.code) || tries == 3)
  }

  /** Up to three tries; `reply(i)` is what try `i` brings back. Without a link, or
      with arguments that are not one number, nothing is sent. */
  method ReadParameter(linked: bool, args: seq<string>, reply: nat -> Response) returns (r: ReadResult, tries: nat)
    ensures tries == 0 <==> !linked || |args| != 1 || ParseIntValue(args[0]).None?
    ensures tries == 0 ==>
      r == ReadResult(-1, if !linked then LinkErr else if |args| != 1 then ArgErr else ArgIntErr)
    ensures tries > 0 ==> Retried(reply, r, tries)
  {
    tries := 0;
    if !linked { return ReadResult(-1, LinkErr), 0; }
    if |args| != 1 { return ReadResult(-1, ArgErr), 0; }
    if ParseIntValue(args[0]).None? { return ReadResult(-1, ArgIntErr), 0; }
    r := ReadResult(0, NoErr);
    while tries < 3
      invariant tries <= 3
      invariant tries > 0 ==> r == ValidateRead(reply(tries - 1))
      invariant forall i | 0 <= i < tries :: !Conclusive(ValidateRead(reply(i)).code)
    {
      r := ValidateRead(reply(tries));
      tries := tries + 1;
      if Conclusive(r.code) { return; }
    }
  }

  /** Register address of a parameter given as text: twice its number. */
  function ParamAddress(param: string): (r: Option<nat>) {
    if param == "" || exists c | c in param :: !('0' <= c <= '9') then None
    else
      match Digits(param, 10)
      case None => None
      case Some(n) => Some(2 * n)
  }

  /** What the LCM answers when parameter `p` is read and holds `v`. */
  function WireRead(v: int): (r: ReadResult)
    requires IsInt32(v)
  {
    ValidateRead(Registers(PackValue(v).value))
  }

  lemma WordSize()
    ensures Pow2(WORD_BITS) == 0x1_0000
  {
    assert Pow2(8) == 256;
    Pow2Add(8, 8);
  }

  lemma WordsRebuild(v: int)
    requires IsInt32(v)
    ensures v / 0x1_0000 % 0x1_0000 * 0x1_0000 + v % 0x1_0000 == if v < 0 then v + 0x1_0000_0000 else v
  {
    var q := v / 0x1_0000;
    assert -0x8000 <= q < 0x8000;
    assert q % 0x1_0000 == if v < 0 then q + 0x1_0000 else q;
  }

  lemma WordsDecode(v: int, hi: int, lo: int)
    requires IsInt32(v) && 0 <= hi < 0x1_0000 && 0 <= lo < 0x1_0000
    requires hi * 0x1_0000 + lo == if v < 0 then v + 0x1_0000_0000 else v
    ensures CInt32(hi * 0x1_0000 + lo) == v
    ensures hi == DEAD && lo == DEAD <==> v == DEAD_VALUE
  {
  }

  /** Packing, sending and decoding gives the value back, except for the one
      pattern the LCM uses as its error marker. */
  lemma WireRoundTrip(v: int)
    requires IsInt32(v)
    ensures WireRead(v) == if v == DEAD_VALUE then ReadResult(-1, LcmErr) else ReadResult(v, NoErr)
  {
    WordsRebuild(v);
    var words := PackValue(v).value;
    WordsDecode(v, words[0], words[1]);
  }

  /** A register image of `2 * n` words seen as `n` parameters. */
  ghost function View(regs: seq<int>): (m: seq<ReadResult>)
    requires |regs| % 2 == 0
  {
    seq(|regs| / 2, p requires 0 <= p < |regs| / 2 => ValidateRead(Registers(regs[2 * p..2 * p + 2])))
  }

  function WriteRegisters(regs: seq<int>, addr: nat, words: seq<int>): (r: seq<int>)
    requires addr + |words| <= |regs|
    ensures |r| == |regs|
  {
    regs[..addr] + words + regs[addr + |words|..]
  }

  lemma WritePair(regs: seq<int>, p: nat, words: seq<int>)
    requires |regs| % 2 == 0 && 2 * p + 2 <= |regs| && |words| == 2
    ensures View(WriteRegisters(regs, 2 * p, words)) == View(regs)[p := ValidateRead(Registers(words))]
  {
    var regs' := WriteRegisters(regs, 2 * p, words);
    forall q | 0 <= q < |regs| / 2
      ensures regs'[2 * q..2 * q + 2] == if q == p then words else regs[2 * q..2 * q + 2]
    {
      assert q < p || q == p || 2 * q >= 2 * p + 2;
    }
  }

  /** The register array refines a table of signed values: writing parameter `p`
      changes entry `p` to what was written and no other entry. */
  lemma WriteRefinesTable(regs: seq<int>, p: nat, v: int)
    requires |regs| % 2 == 0 && 2 * p + 2 <= |regs| && IsInt32(v)
    ensures View(WriteRegisters(regs, 2 * p, PackValue(v).value))
         == View(regs)[p := if v == DEAD_VALUE then ReadResult(-1, LcmErr) else ReadResult(v, NoErr)]
  {
    WireRoundTrip(v);
    WritePair(regs, p, PackValue(v).value);
  }

  /** Every parameter number as text addresses its own register pair. */
  lemma AddressOf(p: nat)
    ensures ParamAddress(Dec(p)) == Some(2 * p)
  {
    DecNatParses(p);
    DecParses(p);
  }

  /** Only digits make an address. */
  lemma NoAddress(param: string)
    requires param == "" || exists c | c in param :: !('0' <= c <= '9')
    ensures ParamAddress(param) == None
  {
  }

  // ---- reading text values ----

  /** Hexadecimal text is a 32-bit pattern: the upper half of the range is negative. */
  lemma HexIsPattern(n: nat, upper: bool, x: char)
    requires n < 0x1_0000_0000 && (x == 'x' || x == 'X')
    ensures ParseIntValue(['0', x] + Hex(n, upper)) == Some(if n < 0x8000_0000 then n else n - 0x1_0000_0000)
    ensures ParseIntValue(['-', '0', x] + Hex(n, upper)) == Negated(Some(n))
  {
    HexParses(n, upper, x);
    PatternOf(Hex(n, upper), n, x);
  }

  lemma PatternOf(body: string, n: nat, x: char)
    requires n < 0x1_0000_0000 && (x == 'x' || x == 'X')
    ensures ParseHex(['0', x] + body) == Some(n) ==>
      ParseIntValue(['0', x] + body) == Some(if n < 0x8000_0000 then n else n - 0x1_0000_0000)
    ensures ParseHex(['-', '0', x] + body) == Negated(Some(n)) ==> ParseIntValue(['-', '0', x] + body) == Negated(Some(n))
  {
    var t := ['-', '0', x] + body;
    assert t[1..] == ['0', x] + body;
  }

  /** Decimal text is its number, whatever its sign and the spaces around it. */
  lemma DecimalIsNumber(n: nat, before: string, after: string)
    requires forall c | c in before + after :: IsSpace(c)
    ensures ParseIntValue(before + DecNat(n) + after) == Some(n)
    ensures ParseIntValue(before + ("+" + DecNat(n)) + after) == Some(n)
    ensures ParseIntValue(before + ("-" + DecNat(n)) + after) == Negated(Some(n))
  {
    DecimalWithSpaces(n, before, after);
    DecimalValue(before + DecNat(n) + after);
    DecimalValue(before + ("+" + DecNat(n)) + after);
    DecimalValue(before + ("-" + DecNat(n)) + after);
  }

  lemma DecimalValue(s: string)
    requires ParseDecimal(s).Some?
    ensures ParseIntValue(s) == ParseDecimal(s)
  {
    if HexStart(s) { DecimalIsNotHex(s); }
  }

  // ---- writing text values ----

  predicate ResetAlarm(param: string) {
    param == "102" || param == "103" || param == "104"
  }

  /** The number actually put on the bus: old firmware wants reset-alarm values
      shifted left by one. None is a rejected or unpackable value. */
  function SentValue(param: string, value: string, version: int): (r: Option<int>) {
    var n :=
      if ResetAlarm(param) && version <= 349 then
        match ParseDecimal(value)
        case None => None
        case Some(d) => ParseIntValue(Dec(2 * d))
      else ParseIntValue(value);
    if n.Some? && PackValue(n.value).Some? then n else None
  }

  lemma {:induction false} DigitsHaveNoX(s: string)
    requires Digits(s, 10).Some?
    ensures 'x' !in s && 'X' !in s
  {
    var rest := s[..|s| - 1];
    assert s == rest + [s[|s| - 1]];
    if rest != "" {
      if rest[|rest| - 1] == '_' {
        DigitsHaveNoX(rest[..|rest| - 1]);
        assert rest == rest[..|rest| - 1] + ['_'];
      } else {
        DigitsHaveNoX(rest);
      }
    }
  }

  lemma {:induction false} StripRightPrefix(s: string, k: nat)
    requires k < |s| && !IsSpace(s[k])
    ensures |StripRight(s)| > k && StripRight(s) <= s
  {
    if IsSpace(s[|s| - 1]) { StripRightPrefix(s[..|s| - 1], k); }
  }

  lemma DecimalIsNotHex(s: string)
    requires HexStart(s)
    ensures ParseDecimal(s).None?
  {
    var k := if HexPrefixed(s) then 1 else 2;
    assert !IsSpace(s[0]) && !IsSpace(s[k]);
    assert StripLeft(s) == s;
    StripRightPrefix(s, k);
    var t := StripRight(s);
    var body := if t[0] == '-' then t[1..] else t;
    assert body[1] in body;
    if Digits(body, 10).Some? { DigitsHaveNoX(body); }
  }

  /** The value mirrored into the cache after a successful write is the value the
      next read decodes, exactly when the sent number is neither the error
      pattern nor a shifted non-zero reset-alarm value. */
  lemma MirrorMatchesRead(param: string, value: string, version: int)
    ensures SentValue(param, value, version).Some? ==>
      && ParseIntValue(value).Some?
      && var sent := SentValue(param, value, version).value;
      && var mirror := ParseIntValue(value).value;
      && IsInt32(sent)
      && sent == (if ResetAlarm(param) && version <= 349 then 2 * mirror else mirror)
      && (sent == mirror <==> !(ResetAlarm(param) && version <= 349 && mirror != 0))
      && (WireRead(sent) == ReadResult(mirror, NoErr)
          <==> sent != DEAD_VALUE && !(ResetAlarm(param) && version <= 349 && mirror != 0))
  {
    if SentValue(param, value, version).Some? {
      var sent := SentValue(param, value, version).value;
      WireRoundTrip(sent);
      if ResetAlarm(param) && version <= 349 {
        if HexStart(value) { DecimalIsNotHex(value); }
        var d := ParseDecimal(value).value;
        DecParses(2 * d);
        if HexStart(Dec(2 * d)) { DecimalIsNotHex(Dec(2 * d)); }
        assert sent == 2 * d;
      }
    }
  }
}
