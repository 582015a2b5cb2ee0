/** Bytes, and the products, quotients and remainders of integers. */
module Integers {

  type Byte = b: int | 0 <= b < 256

  lemma MulNonNegative(x: int, y: int)
    requires x >= 0 && y >= 0
    ensures x * y >= 0
  {
  }

  lemma MulDifference(x: int, y: int, k: int)
    ensures (x - y) * k == x * k - y * k
  {
  }

  /** A common positive factor cancels. */
  lemma Cancel(x: int, y: int, k: int)
    requires k > 0 && x * k < y * k
    ensures x < y
  {
    MulDifference(x, y, k);
    if x >= y {
      MulNonNegative(x - y, k);
    }
  }

  /** Quotient and remainder are what the division by a positive number leaves. */
  lemma Divided(v: int, k: int)
    requires k > 0
    ensures v == (v / k) * k + v % k && 0 <= v % k < k
  {
  }

  /** They are the only ones. */
  lemma DivStep(q: int, r: int, k: int)
    requires k > 0 && 0 <= r < k
    ensures (q * k + r) / k == q && (q * k + r) % k == r
  {
    var x := q * k + r;
    var d, m := x / k, x % k;
    Divided(x, k);
    MulDifference(q, d, k);
    MulDifference(q, 1, k);
    MulDifference(d, 1, k);
    Cancel(q - 1, d, k);
    Cancel(d - 1, q, k);
  }

  lemma DivBound(v: int, k: int, bound: int)
    requires k > 0 && 0 <= v < bound * k
    ensures 0 <= v / k < bound && v == (v / k) * k + v % k && 0 <= v % k < k
  {
    Divided(v, k);
    Cancel(v / k, bound, k);
    MulDifference(v / k, -1, k);
    Cancel(-1, v / k, k);
  }

  lemma SmallMod(x: int, k: int)
    requires 0 <= x < k
    ensures x % k == x && x / k == 0
  {
    DivStep(0, x, k);
  }
}
