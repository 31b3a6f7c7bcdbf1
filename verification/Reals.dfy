/** Small facts about exact division that the solver needs spelled out. */
module Reals {
  lemma DivUnique(a: real, d: real, q: real)
    requires d != 0.0 && a == q * d
    ensures a / d == q
  {
  }

  lemma DivTimes(a: real, d: real)
    requires d != 0.0
    ensures (a / d) * d == a
  {
  }

  lemma Cancel(a: real, b: real, d: real)
    requires d != 0.0 && a * d == b * d
    ensures a == b
  {
    DivUnique(a * d, d, a);
    DivUnique(b * d, d, b);
  }

  lemma PositiveProduct(a: real, b: real)
    requires a > 0.0 && b > 0.0
    ensures a * b > 0.0
  {
  }

  lemma ScaleLe(a: real, b: real, k: real)
    requires k > 0.0
    ensures a <= b <==> a * k <= b * k
  {
    if a > b {
      PositiveProduct(a - b, k);
    } else if a < b {
      PositiveProduct(b - a, k);
    }
  }

  lemma MulEqual(a: real, b: real, k: real)
    requires a == b
    ensures a * k == b * k
  {
  }
}
