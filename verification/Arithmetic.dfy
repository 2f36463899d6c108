/** The few facts about products and floors that the solver does not find by itself. */
module Arithmetic {

  lemma MulMono(a: int, b: int, k: int)
    requires a <= b && k >= 0
    ensures a * k <= b * k && k * a <= k * b
  {
  }

  lemma CancelFactor(a: int, b: int, k: int)
    requires a * k <= b * k && k > 0
    ensures a <= b
  {
    if a > b {
      MulMono(b + 1, a, k);
    }
  }

  lemma CancelFactorStrict(a: int, b: int, k: int)
    requires k * a < k * b && k > 0
    ensures a < b
  {
    if a >= b {
      MulMono(b, a, k);
    }
  }

  lemma FloorBounds(x: int, c: int)
    requires c > 0
    ensures (x / c) * c <= x < (x / c + 1) * c
  {
  }

  lemma FloorAtLeast(x: int, c: int, q: int)
    requires c > 0 && q * c <= x
    ensures q <= x / c
  {
    FloorBounds(x, c);
    if x / c + 1 <= q {
      MulMono(x / c + 1, q, c);
    }
  }
}
