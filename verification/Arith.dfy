// Division by a variable, used wherever the driver divides by a resolution or a ring size.

module Arith {
  /** The only multiple of d strictly between -d and d is zero. */
  lemma SmallMultiple(d: int, k: int)
    requires d > 0 && -d < d * k < d
    ensures k == 0
  {
    assert k >= 1 ==> d * k >= d;
    assert k <= -1 ==> d * k <= -d;
  }

  /** Quotient and remainder are determined by the division equation. */
  lemma Quotient(n: int, d: int, q: int, r: int)
    requires n == d * q + r && 0 <= r < d
    ensures n / d == q && n % d == r
  {
    var k := n / d - q;
    assert d * k == r - n % d by {
      assert n == d * (n / d) + n % d;
      assert d * k == d * (n / d) - d * q;
    }
    SmallMultiple(d, k);
  }

  /** Division rounds down. */
  lemma QuotientBounds(n: int, d: int)
    requires d > 0
    ensures d * (n / d) <= n < d * (n / d) + d
  {
  }

  lemma MultipleDivides(d: int, k: int)
    requires d > 0
    ensures d * k % d == 0 && d * k / d == k
  {
    Quotient(d * k, d, k, 0);
  }

  lemma QuotientMonotone(m: int, n: int, d: int)
    requires m <= n && d > 0
    ensures m / d <= n / d
  {
    var k := n / d - m / d;
    assert d * k == d * (n / d) - d * (m / d);
    assert k <= -1 ==> d * k <= -d;
  }

  lemma QuotientAtLeast(n: int, d: int, q: int)
    requires d > 0 && d * q <= n
    ensures n / d >= q
  {
    MultipleDivides(d, q);
    QuotientMonotone(d * q, n, d);
  }

  lemma QuotientBelow(n: int, d: int, q: int)
    requires d > 0 && n < d * q
    ensures n / d < q
  {
    assert d * (q - 1) == d * q - d;
    Quotient(d * q - 1, d, q - 1, d - 1);
    QuotientMonotone(n, d * q - 1, d);
  }

  lemma ProductMonotone(m: nat, n: nat, d: nat)
    requires m <= n
    ensures m * d <= n * d
  {
  }
}
