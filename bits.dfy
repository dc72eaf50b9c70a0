/** Integer readings of the C bit operators the controller applies to `int`
    values: arithmetic right shift, masking of the low bits and bit extraction.
    On a two's-complement `int`, `x >> k` (arithmetic) is floor division by
    2^k, which is Dafny's `/` for a positive divisor, and `x & (2^k - 1)` is
    the non-negative remainder modulo 2^k, which is Dafny's `%`. */
module Bits {

  /** 2 to the power k. */
  function Pow2(k: nat): (r: nat)
    ensures r >= 1
  {
    if k == 0 then 1 else 2 * Pow2(k - 1)
  }

  /** `x >> k` on a two's-complement int with an arithmetic shift: the
      quotient q whose block [q * 2^k, (q + 1) * 2^k) holds x. */
  function Shr(x: int, k: nat): (q: int)
    ensures q * Pow2(k) <= x < (q + 1) * Pow2(k)
  {
    x / Pow2(k)
  }

  /** `x & (2^k - 1)`: the low k bits of x, what is left once the shifted
      part `(x >> k) << k` is taken away. */
  function LowBits(x: int, k: nat): (r: int)
    ensures 0 <= r < Pow2(k)
    ensures x - r == Shr(x, k) * Pow2(k)
  {
    x % Pow2(k)
  }

  /** `(x >> k) & 1`: bit k of x, the bit dropped when x >> k is shifted once more. */
  function Bit(x: int, k: nat): (b: int)
    ensures b == 0 || b == 1
    ensures Shr(x, k) == 2 * Shr(x, k + 1) + b
  {
    ShrOneMore(x, k);
    Shr(x, k) % 2
  }

  /** Bits 0, 1 and 2 of x spell out its low three bits, `x & 7`. */
  lemma LowThreeBits(x: int)
    ensures Bit(x, 0) + 2 * Bit(x, 1) + 4 * Bit(x, 2) == LowBits(x, 3)
  {
    var b0, b1, b2 := Bit(x, 0), Bit(x, 1), Bit(x, 2);
    var q := Shr(x, 3);
    assert Pow2(0) == 1 && Pow2(3) == 8;
    assert Shr(x, 0) == x;
    assert x == 8 * q + (4 * b2 + 2 * b1 + b0);
    DivUnique(x, 8, q, 4 * b2 + 2 * b1 + b0);
  }

  /** Euclidean division is determined by its quotient-remainder equation. */
  lemma DivUnique(x: int, d: int, q: int, r: int)
    requires d > 0 && x == q * d + r && 0 <= r < d
    ensures x / d == q && x % d == r
  {
    var q0, r0 := x / d, x % d;
    assert x == q0 * d + r0;
    assert (q - q0) * d == r0 - r;
    if q0 < q {
      assert (q - q0) * d >= d by { MulAtLeast(q - q0, d); }
    } else if q < q0 {
      assert (q0 - q) * d >= d by { MulAtLeast(q0 - q, d); }
    }
  }

  lemma MulAtLeast(a: int, d: int)
    requires a >= 1 && d > 0
    ensures a * d >= d
  {
  }

  /** Conversely, a block that contains x names its quotient. */
  lemma ShrFromBucket(x: int, k: nat, q: int)
    requires q * Pow2(k) <= x < (q + 1) * Pow2(k)
    ensures Shr(x, k) == q
  {
    assert (q + 1) * Pow2(k) == q * Pow2(k) + Pow2(k);
    DivUnique(x, Pow2(k), q, x - q * Pow2(k));
  }

  /** Shifting by k + 1 is shifting by k and then by one more bit, so Shr
      agrees with C's shift performed one bit at a time. */
  lemma {:induction false} ShrOneMore(x: int, k: nat)
    ensures Shr(x, k + 1) == Shr(x, k) / 2
  {
    var p := Pow2(k);
    var q, r := x / p, x % p;
    var h, b := q / 2, q % 2;
    assert x == q * p + r;
    assert q == 2 * h + b;
    assert q * p == h * (2 * p) + b * p;
    assert 0 <= b * p < 2 * p - r by {
      if b == 1 { assert b * p == p; } else { assert b * p == 0; }
    }
    DivUnique(x, 2 * p, h, b * p + r);
  }

  /** Right shifting is monotone. */
  lemma ShrMonotone(a: int, b: int, k: nat)
    requires a <= b
    ensures Shr(a, k) <= Shr(b, k)
  {
    var p := Pow2(k);
    var qa, qb := Shr(a, k), Shr(b, k);
    if qa > qb {
      assert qa * p >= (qb + 1) * p by { MulMonotone(qb + 1, qa, p); }
    }
  }

  lemma MulMonotone(a: int, b: int, p: int)
    requires a <= b && p >= 0
    ensures a * p <= b * p
  {
  }
}
