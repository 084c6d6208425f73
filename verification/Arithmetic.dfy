/** Facts about products and truncated quotients that several modules need. */
module Arithmetic {

  /** A quotient reaches an integer exactly when the numerator reaches that many divisors. */
  lemma QuotientReaches(n: int, d: nat, b: int)
    requires d > 0
    ensures n / d >= b <==> n >= b * d
  {
    assert n == (n / d) * d + n % d;
    if n / d >= b {
      assert (n / d) * d >= b * d;
    } else {
      assert (n / d + 1) * d <= b * d;
    }
  }

  lemma ScaleKeepsOrder(scale: nat, a: int, b: int)
    requires scale >= 1
    ensures a >= b <==> scale * a >= scale * b
  {
    if a >= b {
      assert scale * (a - b) >= 0;
    } else {
      assert scale * (b - a) >= 1;
    }
  }

  lemma ProductGrows(a: nat, b: nat, c: nat)
    requires b <= c
    ensures a * b <= a * c && b * a <= c * a
  {
  }
}
