/**
 * Facts about real multiplication and division that the solver does not find
 * on its own.
 */
module Arith {

  /** x / y <= x' / y' for positive denominators follows from x * y' <= x' * y. */
  lemma CrossMultiplied(x: real, y: real, x': real, y': real)
    requires 0.0 < y && 0.0 < y' && x * y' <= x' * y
    ensures x / y <= x' / y'
  {
  }

  /** Among non-negative reals, comparing squares compares the numbers. */
  lemma NonNegativeRootOrder(x: real, y: real)
    requires 0.0 <= y && x * x <= y * y
    ensures x <= y
  {
    if x > y {
      ProductPositive(x, x - y);
      ProductNonNegative(y, x - y);
    }
  }

  /** The product of non-negative numbers is non-negative. */
  lemma ProductNonNegative(a: real, b: real)
    requires 0.0 <= a && 0.0 <= b
    ensures 0.0 <= a * b
  {
  }

  /** z * z / n is positive for positive z and n. */
  lemma SquareOverPositive(z: real, n: real)
    requires 0.0 < z && 0.0 < n
    ensures 0.0 < z * z / n
  {
    var q := z / n;
    PositiveFactor(q, n, z);
    ProductPositive(z, q);
    assert z * q == z * z / n;
  }

  /** A factor of a positive product with a positive co-factor is positive. */
  lemma PositiveFactor(m: real, n: real, a: real)
    requires 0.0 < n && 0.0 < a && a == m * n
    ensures 0.0 < m
  {
  }

  /** Squares are non-negative. */
  lemma SquareNonNegative(a: real)
    ensures 0.0 <= a * a
  {
  }

  /** The product of positive numbers is positive. */
  lemma ProductPositive(a: real, b: real)
    requires 0.0 < a && 0.0 < b
    ensures 0.0 < a * b
  {
  }

  /** Multiplying by a non-zero number and dividing by it again is the identity. */
  lemma CancelFactor(a: real, n: real)
    requires n != 0.0
    ensures (n * a) / n == a
  {
  }
}
