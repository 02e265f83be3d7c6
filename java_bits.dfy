/** Java's fixed-width integers and the two bit operations the normalisers use
    on them: the arithmetic right shift `x >> k` and the mask `x & (2^k - 1)`.

    Both are defined bit by bit on the two's-complement value, the way the JVM
    computes them; the lemmas then show what they amount to arithmetically. */
module JavaBits {

  const MinInt32: int := -0x8000_0000
  const MaxInt32: int := 0x7fff_ffff
  const MinInt64: int := -0x8000_0000_0000_0000
  const MaxInt64: int := 0x7fff_ffff_ffff_ffff

  /** Java `int` */
  type Int32 = x: int | MinInt32 <= x <= MaxInt32
  /** Java `long` */
  type Int64 = x: int | MinInt64 <= x <= MaxInt64

  /** 2^k; never zero, so it can divide. */
  function Pow2(k: nat): (p: nat)
    ensures p >= 1
  {
    if k == 0 then 1 else 2 * Pow2(k - 1)
  }

  /** `x >> k`: every step drops the lowest bit and copies the sign bit in.
      Dafny's `/ 2` rounds towards minus infinity, which is exactly that step
      for negative values too. */
  function ShiftRight(x: int, k: nat): int
    decreases k
  {
    if k == 0 then x else ShiftRight(x / 2, k - 1)
  }

  /** `x & (2^k - 1)`: the lowest `k` bits of the two's-complement value. */
  function MaskLow(x: int, k: nat): int
    decreases k
  {
    if k == 0 then 0 else x % 2 + 2 * MaskLow(x / 2, k - 1)
  }

  /** The shifted-out high part and the masked low part put the value back
      together, and the low part is a `k`-bit unsigned number. */
  lemma {:induction false} ShiftMaskSplit(x: int, k: nat)
    ensures 0 <= MaskLow(x, k) < Pow2(k)
    ensures ShiftRight(x, k) * Pow2(k) + MaskLow(x, k) == x
    decreases k
  {
    if k > 0 {
      ShiftMaskSplit(x / 2, k - 1);
      var s, m, p := ShiftRight(x / 2, k - 1), MaskLow(x / 2, k - 1), Pow2(k - 1);
      assert s * p + m == x / 2;
      calc {
        ShiftRight(x, k) * Pow2(k) + MaskLow(x, k);
        s * (2 * p) + (x % 2 + 2 * m);
        { assert s * (2 * p) == 2 * (s * p); }
        2 * (s * p + m) + x % 2;
        2 * (x / 2) + x % 2;
        x;
      }
    }
  }

  /** Euclidean division by a positive divisor has exactly one quotient and
      remainder. */
  lemma DivModUnique(x: int, d: int, q: int, r: int)
    requires d > 0 && 0 <= r < d && x == q * d + r
    ensures q == x / d && r == x % d
  {
    var q0, r0 := x / d, x % d;
    assert (q - q0) * d == r0 - r;
    if q > q0 {
      MulAtLeast(q - q0, d);
    } else if q < q0 {
      MulAtLeast(q0 - q, d);
    }
  }

  lemma MulAtLeast(a: int, d: int)
    requires a >= 1 && d > 0
    ensures a * d >= d
  {
    var b := a - 1;
    assert a * d == b * d + d;
    assert b * d >= 0;
  }

  /** Java's arithmetic shift is floor division by `2^k`, and the mask is the
      non-negative remainder. */
  lemma ShiftIsFloorDiv(x: int, k: nat)
    ensures ShiftRight(x, k) == x / Pow2(k)
    ensures MaskLow(x, k) == x % Pow2(k)
  {
    ShiftMaskSplit(x, k);
    DivModUnique(x, Pow2(k), ShiftRight(x, k), MaskLow(x, k));
  }
}
