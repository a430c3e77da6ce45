/** Python's bitwise AND on unbounded integers, for the non-negative masks
    the keyboard code applies to VkKeyScan results and table codes. */
module Bitwise {

  function Pow2(k: nat): (p: nat)
    ensures p >= 1
  {
    if k == 0 then 1 else 2 * Pow2(k - 1)
  }

  /** `x & m` as Python evaluates it: `x` in two's complement of unbounded
      width (so negative `x` is allowed), `m` non-negative. Dafny's `/` and
      `%` by 2 are floor division and a 0/1 remainder, which is exactly
      Python's `x >> 1` and `x & 1`. */
  function BitAnd(x: int, m: nat): nat
    decreases m
  {
    if m == 0 then 0
    else 2 * BitAnd(x / 2, m / 2) + (if x % 2 == 1 && m % 2 == 1 then 1 else 0)
  }

  /** Bit `k` of `x` in two's complement. */
  predicate HasBit(x: int, k: nat)
  {
    (x / Pow2(k)) % 2 == 1
  }

  /** Euclidean division has exactly one quotient and remainder. */
  lemma DivModUnique(x: int, d: int, q: int, r: int)
    requires d > 0 && x == d * q + r && 0 <= r < d
    ensures x / d == q && x % d == r
  {
    var q', r' := x / d, x % d;
    assert d * q' + r' == d * q + r;
    if q' < q {
      MulAtLeast(d, q - q');
    } else if q' > q {
      MulAtLeast(d, q' - q);
    }
  }

  lemma MulAtLeast(d: int, n: int)
    requires d > 0 && n >= 1
    ensures d * n >= d
  {
    assert d * n == d * (n - 1) + d;
  }

  /** The low `k` bits of `x`, rebuilt bit by bit. */
  function LowBits(x: int, k: nat): nat
    decreases k
  {
    if k == 0 then 0 else 2 * LowBits(x / 2, k - 1) + x % 2
  }

  /** `x >> k`. */
  function Shift(x: int, k: nat): int
    decreases k
  {
    if k == 0 then x else Shift(x / 2, k - 1)
  }

  /** `x` is `x >> k` shifted back plus its low `k` bits, which are below `2^k`. */
  lemma {:induction false} ShiftSplit(x: int, k: nat)
    ensures x == Pow2(k) * Shift(x, k) + LowBits(x, k)
    ensures 0 <= LowBits(x, k) < Pow2(k)
    decreases k
  {
    if k > 0 {
      ShiftSplit(x / 2, k - 1);
      SplitStep(x, Pow2(k - 1), Shift(x / 2, k - 1), LowBits(x / 2, k - 1));
    }
  }

  lemma SplitStep(x: int, p: int, s: int, low: int)
    requires x / 2 == p * s + low
    ensures x == (2 * p) * s + (2 * low + x % 2)
  {
    assert x == 2 * (x / 2) + x % 2;
    assert 2 * (p * s) == (2 * p) * s;
  }

  /** Masking with `2^k - 1` keeps the low `k` bits. */
  lemma {:induction false} BitAndLowMask(x: int, k: nat)
    ensures BitAnd(x, Pow2(k) - 1) == LowBits(x, k)
    decreases k
  {
    if k > 0 {
      var p := Pow2(k - 1);
      assert (2 * p - 1) % 2 == 1 && (2 * p - 1) / 2 == p - 1;
      BitAndLowMask(x / 2, k - 1);
    }
  }

  /** `x >> k` is the floor quotient by `2^k`, and the low `k` bits the remainder. */
  lemma ShiftDivMod(x: int, k: nat)
    ensures x / Pow2(k) == Shift(x, k) && x % Pow2(k) == LowBits(x, k)
  {
    ShiftSplit(x, k);
    DivModUnique(x, Pow2(k), Shift(x, k), LowBits(x, k));
  }

  /** Masking with `2^k - 1` is the remainder modulo `2^k`. */
  lemma BitAndLowBits(x: int, k: nat)
    ensures BitAnd(x, Pow2(k) - 1) == x % Pow2(k)
  {
    BitAndLowMask(x, k);
    ShiftDivMod(x, k);
  }

  /** Masking with `2^k` keeps bit 0 of `x >> k`, in place. */
  lemma {:induction false} BitAndBit(x: int, k: nat)
    ensures BitAnd(x, Pow2(k)) == if Shift(x, k) % 2 == 1 then Pow2(k) else 0
    decreases k
  {
    if k == 0 {
      assert BitAnd(x / 2, 0) == 0;
    } else {
      var p := Pow2(k - 1);
      assert (2 * p) % 2 == 0 && (2 * p) / 2 == p;
      BitAndBit(x / 2, k - 1);
    }
  }

  /** Masking with `2^k` is non-zero exactly when bit `k` is set. */
  lemma BitAndSingleBit(x: int, k: nat)
    ensures BitAnd(x, Pow2(k)) == if HasBit(x, k) then Pow2(k) else 0
    ensures BitAnd(x, Pow2(k)) != 0 <==> HasBit(x, k)
  {
    BitAndBit(x, k);
    ShiftDivMod(x, k);
  }

  /** The three masks the keyboard code uses, stated with their literal values. */
  lemma KeyScanMasks(x: int)
    ensures BitAnd(x, 0x00ff) == x % 0x100
    ensures BitAnd(x, 0x0100) != 0 <==> HasBit(x, 8)
    ensures BitAnd(x, 0x0200) != 0 <==> HasBit(x, 9)
    ensures BitAnd(x, 0x0400) != 0 <==> HasBit(x, 10)
  {
    assert Pow2(8) == 0x100 && Pow2(9) == 0x200 && Pow2(10) == 0x400;
    BitAndLowBits(x, 8);
    BitAndSingleBit(x, 8);
    BitAndSingleBit(x, 9);
    BitAndSingleBit(x, 10);
  }
}
