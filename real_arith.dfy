/** Small facts about products of reals that the solver does not find unaided. */
module RealArith {

  lemma ProductNonNegative(a: real, b: real)
    requires a >= 0.0 && b >= 0.0
    ensures a * b >= 0.0
  {
  }

  lemma ProductPositive(a: real, b: real)
    requires a > 0.0 && b > 0.0
    ensures a * b > 0.0
  {
  }

  lemma ScaleMonotone(k: real, a: real, b: real)
    requires k >= 0.0 && a <= b
    ensures k * a <= k * b
  {
    ProductNonNegative(k, b - a);
  }

  lemma ProductInUnit(a: real, b: real)
    requires 0.0 <= a <= 1.0 && 0.0 <= b <= 1.0
    ensures 0.0 <= a * b <= 1.0
  {
    ProductNonNegative(a, b);
    ProductNonNegative(1.0 - a, b);
    assert a * b <= b;
  }

  lemma SquareNonNegative(d: real)
    ensures d * d >= 0.0
  {
    if d < 0.0 {
      assert d * d == (-d) * (-d);
    }
  }

  /** Dividing a product by a nonzero real divides either factor. */
  lemma CancelFactor(a: real, b: real, n: real)
    requires n != 0.0
    ensures (a * b) / n == b * (a / n)
  {
    var q := a / n;
    assert q * n == a;
    assert (b * q) * n == a * b;
  }

  /** A quotient times its divisor is the dividend. */
  lemma QuotientTimesDivisor(a: real, b: real)
    requires b != 0.0
    ensures (a / b) * b == a
  {
  }

  /** Scaling a quotient scales its dividend. */
  lemma ScaleQuotient(c: real, x: real, n: real)
    requires n != 0.0
    ensures c * x / n == c * (x / n)
  {
    CancelFactor(x, c, n);
    assert x * c == c * x;
  }

  lemma SelfQuotient(n: real)
    requires n != 0.0
    ensures n / n == 1.0
  {
  }

  lemma MultiplyDivide(a: real, n: real)
    requires n != 0.0
    ensures (a * n) / n == a
  {
    CancelFactor(a, n, n);
    SelfQuotient(n);
  }
}
