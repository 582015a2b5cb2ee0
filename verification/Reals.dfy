/** Small facts about products and quotients of reals, shared by the numeric modules. */
module Reals {

  /** An argument as the caller passes it; only finite ones carry a value. */
  datatype Number = Finite(value: real) | NotFinite {
    function Or0(): real {
      match this
      case Finite(v) => v
      case NotFinite => 0.0
    }
  }

  function Abs(x: real): real {
    if x >= 0.0 then x else -x
  }

  function Min(x: real, y: real): real {
    if x <= y then x else y
  }

  function Max(x: real, y: real): real {
    if x >= y then x else y
  }

  function Min4(a: real, b: real, c: real, d: real): real {
    Min(Min(a, b), Min(c, d))
  }

  function Max4(a: real, b: real, c: real, d: real): real {
    Max(Max(a, b), Max(c, d))
  }

  lemma MulNonNegative(x: real, y: real)
    requires x >= 0.0 && y >= 0.0
    ensures x * y >= 0.0
  {
  }

  lemma MulPositive(x: real, y: real)
    requires x > 0.0 && y > 0.0
    ensures x * y > 0.0
  {
  }

  lemma MulMonotone(x: real, y: real, d: real)
    requires x <= y && d >= 0.0
    ensures x * d <= y * d
    ensures d * x <= d * y
  {
  }

  function Product(x: real, y: real): real {
    x * y
  }

  lemma ProductMonotone(x: real, y: real, d: real)
    requires x <= y && d >= 0.0
    ensures Product(x, d) <= Product(y, d)
    ensures Product(d, x) <= Product(d, y)
  {
  }

  lemma ProductNonNegative(x: real, y: real)
    requires x >= 0.0 && y >= 0.0
    ensures Product(x, y) >= 0.0
  {
  }

  lemma MulAntitone(x: real, y: real, d: real)
    requires x <= y && d <= 0.0
    ensures y * d <= x * d
    ensures d * y <= d * x
  {
  }

  /** A quotient is what multiplies back to the dividend. */
  lemma QuotientIs(x: real, d: real, q: real)
    requires d > 0.0 && q * d == x
    ensures x / d == q
  {
  }

  /** Equal factors may be exchanged inside a product. */
  lemma MulEqual(k: real, x: real, y: real)
    requires x == y
    ensures k * x == k * y
  {
  }

  lemma Cancel(x: real, y: real, d: real)
    requires d > 0.0 && x * d <= y * d
    ensures x <= y
  {
  }

  lemma CancelStrict(x: real, y: real, d: real)
    requires d > 0.0 && x * d < y * d
    ensures x < y
  {
  }

  function Squared(x: real): (r: real)
    ensures r >= 0.0
  {
    Square(x);
    x * x
  }

  lemma Square(x: real)
    ensures x * x >= 0.0
  {
  }
}
