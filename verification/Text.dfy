/** The text forms of integers the gateway exchanges: Python's `int(s)`,
    `int(s, 0)` on 0x-prefixed text, and `str(n)`, over ASCII strings. */
module Text {

  datatype Option<+T> = None | Some(value: T)

  predicate IsSpace(c: char) {
    c == ' ' || '\t' <= c <= '\r' || '\U{1c}' <= c <= '\U{1f}'
  }

  function StripLeft(s: string): string {
    if s != "" && IsSpace(s[0]) then StripLeft(s[1..]) else s
  }

  function StripRight(s: string): string {
    if s != "" && IsSpace(s[|s| - 1]) then StripRight(s[..|s| - 1]) else s
  }

  function DigitValue(c: char): int {
    if '0' <= c <= '9' then c as int - '0' as int
    else if 'a' <= c <= 'f' then c as int - 'a' as int + 10
    else if 'A' <= c <= 'F' then c as int - 'A' as int + 10
    else -1
  }

  function Append(h: nat, base: nat, d: nat): (r: nat) {
    h * base + d
  }

  /** Non-empty digits of `base`, single underscores allowed between digits. */
  function Digits(s: string, base: nat): (r: Option<nat>) {
    if s == "" then None
    else
      var d := DigitValue(s[|s| - 1]);
      var rest := s[..|s| - 1];
      if d < 0 || d >= base then None
      else if rest == "" then Some(d)
      else
        var head := if rest[|rest| - 1] == '_' then rest[..|rest| - 1] else rest;
        match Digits(head, base)
        case None => None
        case Some(h) => Some(Append(h, base, d))
  }

  function Negated(r: Option<int>): Option<int> {
    if r.Some? then Some(-r.value) else None
  }

  function Signed(t: string): Option<int> {
    if t == "" then None
    else if t[0] == '-' then Negated(Digits(t[1..], 10))
    else if t[0] == '+' then Digits(t[1..], 10)
    else Digits(t, 10)
  }

  /** `int(s)`. */
  function ParseDecimal(s: string): (r: Option<int>) {
    Signed(StripRight(StripLeft(s)))
  }

  predicate HexPrefixed(s: string) {
    |s| >= 2 && s[0] == '0' && (s[1] == 'x' || s[1] == 'X')
  }

  function HexBody(s: string): Option<nat>
    requires HexPrefixed(s)
  {
    var body := s[2..];
    Digits(if body != "" && body[0] == '_' then body[1..] else body, 16)
  }

  /** `int(s, 0)` for `s` whose lower-case form starts with `0x` or `-0x`. */
  function ParseHex(s: string): (r: Option<int>) {
    var t := StripRight(s);
    if HexPrefixed(t) then HexBody(t)
    else if t != "" && t[0] == '-' && HexPrefixed(t[1..]) then Negated(HexBody(t[1..]))
    else None
  }

  function DigitChar(d: nat): (c: char)
    requires d < 10
    ensures '0' <= c <= '9' && DigitValue(c) == d
  {
    "0123456789"[d]
  }

  ghost predicate AllDigits(s: string) {
    forall i | 0 <= i < |s| :: '0' <= s[i] <= '9'
  }

  function DecNat(n: nat): (s: string)
    ensures |s| > 0 && AllDigits(s)
  {
    if n < 10 then [DigitChar(n)] else DecNat(n / 10) + [DigitChar(n % 10)]
  }

  /** `str(n)`. */
  function Dec(n: int): (s: string)
    ensures |s| > 0
  {
    if n < 0 then "-" + DecNat(-n) else DecNat(n)
  }

  lemma DigitsAppend(rest: string, h: nat, d: nat)
    requires d < 10 && rest != "" && rest[|rest| - 1] != '_' && Digits(rest, 10) == Some(h)
    ensures Digits(rest + [DigitChar(d)], 10) == Some(Append(h, 10, d))
  {
    var s := rest + [DigitChar(d)];
    assert s[..|s| - 1] == rest;
  }

  lemma {:induction false} DecNatParses(n: nat)
    ensures Digits(DecNat(n), 10) == Some(n)
  {
    if n < 10 {
      assert [DigitChar(n)][..0] == "";
    } else {
      DecNatParses(n / 10);
      DigitsAppend(DecNat(n / 10), n / 10, n % 10);
    }
  }

  lemma NothingToStrip(s: string)
    requires s != "" && !IsSpace(s[0]) && !IsSpace(s[|s| - 1])
    ensures StripRight(StripLeft(s)) == s
  {
  }

  lemma SignedDigits(t: string, m: nat)
    requires t != "" && AllDigits(t) && Digits(t, 10) == Some(m)
    ensures ParseDecimal(t) == Some(m) && ParseDecimal("-" + t) == Negated(Some(m))
  {
    NothingToStrip(t);
    NothingToStrip("-" + t);
    assert ("-" + t)[1..] == t;
  }

  /** Rendering and parsing an integer is the identity; the text holds digits
      and at most a leading minus sign. */
  lemma DecParses(n: int)
    ensures ParseDecimal(Dec(n)) == Some(n)
    ensures forall c | c in Dec(n) :: c == '-' || '0' <= c <= '9'
  {
    var m := if n < 0 then -n else n;
    DecNatParses(m);
    SignedDigits(DecNat(m), m);
  }

  lemma DecInjective(m: int, n: int)
    requires Dec(m) == Dec(n)
    ensures m == n
  {
    DecParses(m);
    DecParses(n);
  }

  // ---- what the grammar reads and what it refuses ----

  const LOWER := "0123456789abcdef"
  const UPPER := "0123456789ABCDEF"

  /** The hexadecimal digits of `n`, in lower or upper case. */
  function Hex(n: nat, upper: bool): (s: string)
    ensures |s| > 0
  {
    var digit := if upper then UPPER[n % 16] else LOWER[n % 16];
    if n < 16 then [digit] else Hex(n / 16, upper) + [digit]
  }

  lemma HexDigit(d: nat)
    requires d < 16
    ensures DigitValue(LOWER[d]) == d && DigitValue(UPPER[d]) == d
    ensures !IsSpace(LOWER[d]) && !IsSpace(UPPER[d]) && LOWER[d] != '_' && UPPER[d] != '_'
  {
  }

  lemma DigitsSnoc(rest: string, base: nat, h: nat, c: char)
    requires rest != "" && rest[|rest| - 1] != '_' && Digits(rest, base) == Some(h) && 0 <= DigitValue(c) < base
    ensures Digits(rest + [c], base) == Some(Append(h, base, DigitValue(c)))
  {
    var s := rest + [c];
    assert s[..|s| - 1] == rest;
  }

  lemma OneDigit(c: char, base: nat)
    requires 0 <= DigitValue(c) < base
    ensures Digits([c], base) == Some(DigitValue(c))
  {
    assert [c][..0] == "";
  }

  ghost predicate Plain(s: string) {
    s != "" && forall c | c in s :: !IsSpace(c) && c != '_'
  }

  lemma {:induction false} HexDigitsParse(n: nat, upper: bool)
    ensures Digits(Hex(n, upper), 16) == Some(n) && Plain(Hex(n, upper))
  {
    HexDigit(n % 16);
    var c := if upper then UPPER[n % 16] else LOWER[n % 16];
    if n < 16 {
      OneDigit(c, 16);
    } else {
      HexDigitsParse(n / 16, upper);
      var rest := Hex(n / 16, upper);
      assert rest[|rest| - 1] in rest;
      DigitsSnoc(rest, 16, n / 16, c);
    }
  }

  /** Hexadecimal digits after a prefix, with or without a minus sign. */
  lemma HexText(body: string, v: nat, x: char)
    requires Plain(body) && Digits(body, 16) == Some(v) && (x == 'x' || x == 'X')
    ensures ParseHex(['0', x] + body) == Some(v)
    ensures ParseHex(['-', '0', x] + body) == Negated(Some(v))
  {
    var s, t := ['0', x] + body, ['-', '0', x] + body;
    assert body[|body| - 1] in body && body[0] in body;
    assert s[|s| - 1] == body[|body| - 1] && t[|t| - 1] == body[|body| - 1];
    assert s[2..] == body && t[1..] == s;
  }

  /** Hexadecimal text of every number, in either case of digits and prefix and with
      either sign, parses to it. */
  lemma HexParses(n: nat, upper: bool, x: char)
    requires x == 'x' || x == 'X'
    ensures ParseHex(['0', x] + Hex(n, upper)) == Some(n)
    ensures ParseHex(['-', '0', x] + Hex(n, upper)) == Negated(Some(n))
  {
    HexDigitsParse(n, upper);
    HexText(Hex(n, upper), n, x);
  }

  lemma {:induction false} StripLeftBlanks(blank: string, t: string)
    requires forall c | c in blank :: IsSpace(c)
    requires t != "" && !IsSpace(t[0])
    ensures StripLeft(blank + t) == t
  {
    if blank == "" {
      assert blank + t == t;
    } else {
      assert blank[0] in blank && (blank + t)[0] == blank[0] && (blank + t)[1..] == blank[1..] + t;
      StripLeftBlanks(blank[1..], t);
    }
  }

  lemma {:induction false} StripRightBlanks(t: string, blank: string)
    requires forall c | c in blank :: IsSpace(c)
    requires t != "" && !IsSpace(t[|t| - 1])
    ensures StripRight(t + blank) == t
  {
    var s := t + blank;
    if blank == "" {
      assert s == t;
    } else {
      assert s[|s| - 1] == blank[|blank| - 1] && blank[|blank| - 1] in blank;
      assert s[..|s| - 1] == t + blank[..|blank| - 1];
      StripRightBlanks(t, blank[..|blank| - 1]);
    }
  }

  /** Decimal text parses with either sign and with spaces around it. */
  lemma DecimalWithSpaces(n: nat, before: string, after: string)
    requires forall c | c in before + after :: IsSpace(c)
    ensures ParseDecimal(before + DecNat(n) + after) == Some(n)
    ensures ParseDecimal(before + ("+" + DecNat(n)) + after) == Some(n)
    ensures ParseDecimal(before + ("-" + DecNat(n)) + after) == Negated(Some(n))
  {
    DecNatParses(n);
    SpacedDigits(DecNat(n), n, before, after);
  }

  lemma SpacedDigits(d: string, n: nat, before: string, after: string)
    requires AllDigits(d) && d != "" && Digits(d, 10) == Some(n)
    requires forall c | c in before + after :: IsSpace(c)
    ensures ParseDecimal(before + d + after) == Some(n)
    ensures ParseDecimal(before + ("+" + d) + after) == Some(n)
    ensures ParseDecimal(before + ("-" + d) + after) == Negated(Some(n))
  {
    Surrounded(before, d, after);
    Surrounded(before, "+" + d, after);
    Surrounded(before, "-" + d, after);
    assert ("+" + d)[1..] == d && ("-" + d)[1..] == d;
  }

  lemma Surrounded(before: string, t: string, after: string)
    requires forall c | c in before + after :: IsSpace(c)
    requires t != "" && !IsSpace(t[0]) && !IsSpace(t[|t| - 1])
    ensures StripRight(StripLeft(before + t + after)) == t
  {
    assert forall c | c in before :: c in before + after;
    assert forall c | c in after :: c in before + after;
    assert before + t + after == before + (t + after);
    StripLeftBlanks(before, t + after);
    StripRightBlanks(t, after);
  }

  /** Digits of a base are all there is in what it accepts, but for underscores. */
  lemma {:induction false} DigitsOnly(s: string, base: nat)
    requires Digits(s, base).Some?
    ensures forall c | c in s :: c == '_' || 0 <= DigitValue(c) < base
  {
    var rest, last := s[..|s| - 1], s[|s| - 1];
    assert s == rest + [last];
    if rest != "" {
      var head := if rest[|rest| - 1] == '_' then rest[..|rest| - 1] else rest;
      DigitsOnly(head, base);
      assert rest == head || rest == head + ['_'];
    }
  }
}
