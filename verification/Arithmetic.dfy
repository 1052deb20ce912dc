/** Products and quotients the solver needs to be told about. */
module Arithmetic {

  lemma ProductNonNegative(a: nat, b: nat)
    ensures a * b >= 0
  {
  }

  lemma MultiplyMonotone(a: nat, b: nat, n: nat)
    requires a <= b
    ensures a * n <= b * n && n * a <= n * b
  {
  }

  /** A multiple other than zero is at least as far from zero as its factor. */
  lemma LargeMultiple(m: int, d: int)
    requires m > 0 && d != 0
    ensures m * d >= m || m * d <= -m
  {
    if d > 0 {
      ProductNonNegative(m, d - 1);
      assert m * (d - 1) == m * d - m;
    } else {
      ProductNonNegative(m, -d - 1);
      assert m * (-d - 1) == -(m * d) - m;
    }
  }

  /** Quotient and remainder are the only ones. */
  lemma DivideUnique(n: nat, m: nat, q: nat, r: nat)
    requires r < m && n == m * q + r
    ensures n / m == q && n % m == r
  {
    var d := n / m - q;
    assert m * d == r - n % m;
    if d != 0 {
      LargeMultiple(m, d);
    }
  }
}
