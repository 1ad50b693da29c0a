/** Bit arithmetic on unbounded two's-complement integers, the way Python's
    `&`, `<<` and `>>` see them (Dafny's division by a positive number is floor
    division, so `x / 2` is `x >> 1` for negative `x` too). */
module Bits {

  function Pow2(n: nat): (r: nat)
    ensures r > 0
  {
    if n == 0 then 1 else 2 * Pow2(n - 1)
  }

  /** `x >> i`. */
  function Shr(x: int, i: nat): (r: int)
    decreases i
  {
    if i == 0 then x else Shr(x / 2, i - 1)
  }

  /** Bit `i` of `x`. */
  predicate Bit(x: int, i: nat)
    decreases i
  {
    if i == 0 then x % 2 == 1 else Bit(x / 2, i - 1)
  }

  /** Bitwise `x & y` for any integer `x` and non-negative `y`. */
  function And(x: int, y: nat): (r: nat)
    decreases y
  {
    if y == 0 then 0
    else (if x % 2 == 1 && y % 2 == 1 then 1 else 0) + 2 * And(x / 2, y / 2)
  }

  /** The `n`-bit number whose bit `i` is set iff `lo + i` is in `s`. */
  function Mask(s: set<nat>, lo: nat, n: nat): (r: nat)
    decreases n, s
  {
    if n == 0 then 0 else (if lo in s then 1 else 0) + 2 * Mask(s, lo + 1, n - 1)
  }

  lemma {:induction false} MaskBound(s: set<nat>, lo: nat, n: nat)
    ensures Mask(s, lo, n) < Pow2(n)
    decreases n
  {
    if n > 0 { MaskBound(s, lo + 1, n - 1); }
  }

  lemma TwiceProduct(x: nat, y: nat)
    ensures 2 * (x * y) == (2 * x) * y
  {
  }

  lemma {:induction false} Pow2Add(a: nat, b: nat)
    ensures Pow2(a + b) == Pow2(a) * Pow2(b)
  {
    if a > 0 {
      Pow2Add(a - 1, b);
      TwiceProduct(Pow2(a - 1), Pow2(b));
    }
  }

  lemma {:induction false} BitOfZero(i: nat)
    ensures !Bit(0, i)
  {
    if i > 0 { BitOfZero(i - 1); }
  }

  /** The bits of a mask are the set it was built from. */
  lemma {:induction false} MaskBit(s: set<nat>, lo: nat, n: nat, i: nat)
    ensures Bit(Mask(s, lo, n), i) <==> i < n && lo + i in s
    decreases n
  {
    if n == 0 {
      BitOfZero(i);
    } else if i > 0 {
      MaskBit(s, lo + 1, n - 1, i - 1);
    }
  }

  lemma {:induction false} FullMask(s: set<nat>, lo: nat, n: nat)
    requires forall b: nat :: lo <= b < lo + n ==> b in s
    ensures Mask(s, lo, n) == Pow2(n) - 1
    decreases n
  {
    if n > 0 { FullMask(s, lo + 1, n - 1); }
  }

  lemma AndStep(x: int, y: nat)
    ensures And(x, 2 * y) == 2 * And(x / 2, y)
    ensures And(x, 2 * y + 1) == x % 2 + 2 * And(x / 2, y)
  {
  }

  /** `x & (1 << i)` is non-zero exactly when bit `i` is set. */
  lemma {:induction false} AndPow2(x: int, i: nat)
    ensures And(x, Pow2(i)) == if Bit(x, i) then Pow2(i) else 0
    decreases i
  {
    if i == 0 {
      AndStep(x, 0);
    } else {
      AndPow2(x / 2, i - 1);
      AndStep(x, Pow2(i - 1));
    }
  }

  /** `(x >> i) & 1` is bit `i`. */
  lemma {:induction false} ShrBit(x: int, i: nat)
    ensures And(Shr(x, i), 1) == if Bit(x, i) then 1 else 0
    decreases i
  {
    if i == 0 { AndStep(x, 0); } else { ShrBit(x / 2, i - 1); }
  }

  lemma MultipleBounds(a: int, d: int)
    requires d > 0
    ensures a >= 1 ==> a * d >= d
    ensures a <= -1 ==> a * d <= -d
  {
    assert a * d == (a - 1) * d + d == (a + 1) * d - d;
  }

  lemma DivUnique(x: int, d: int, q: int, r: int)
    requires d > 0 && 0 <= r < d && x == q * d + r
    ensures x / d == q && x % d == r
  {
    var q', r' := x / d, x % d;
    assert x == q' * d + r';
    assert (q - q') * d == q * d - q' * d == r' - r;
    MultipleBounds(q - q', d);
  }

  lemma HalveMod(x: int, d: int, e: int)
    requires d > 0 && e == 2 * d
    ensures x % e == 2 * ((x / 2) % d) + x % 2
  {
    var h := x / 2;
    var q, r := h / d, h % d;
    assert h == q * d + r;
    assert q * e == 2 * (q * d);
    DivUnique(x, e, q, 2 * r + x % 2);
  }

  /** `x & (2^k - 1)` is the remainder modulo `2^k`. */
  lemma {:induction false} AndLowMask(x: int, k: nat)
    ensures And(x, Pow2(k) - 1) == x % Pow2(k)
    decreases k
  {
    if k > 0 {
      AndLowMask(x / 2, k - 1);
      HalveMod(x, Pow2(k - 1), Pow2(k));
      AndStep(x, Pow2(k - 1) - 1);
    }
  }

  /** `x & (2^k - 1)`. */
  function LowBits(x: int, k: nat): (r: nat)
    ensures r == x % Pow2(k)
  {
    AndLowMask(x, k);
    And(x, Pow2(k) - 1)
  }
}
