/** Facts about products, quotients and remainders with a symbolic divisor. */
module Arithmetic {

  lemma MulMonotone(d: int, x: int, y: int)
    requires d >= 0 && x <= y
    ensures d * x <= d * y
  {}

  lemma MulOrder(d: int, x: int, y: int)
    requires d > 0
    ensures x < y <==> d * x < d * y
  {
    if x < y {
      MulMonotone(d, x + 1, y);
    } else {
      MulMonotone(d, y, x);
    }
  }

  lemma DivModUnique(n: int, d: int, q: int, m: int)
    requires d > 0 && n == d * q + m && 0 <= m < d
    ensures n / d == q && n % d == m
  {
    assert d * (q + 1) == d * q + d && d * (n / d + 1) == d * (n / d) + d;
    MulOrder(d, q, n / d + 1);
    MulOrder(d, n / d, q + 1);
  }

  lemma QuotientAtLeast(n: int, d: int, q: int)
    requires d > 0 && n >= d * q
    ensures n / d >= q
  {
    assert d * (n / d + 1) == d * (n / d) + d;
    MulOrder(d, q, n / d + 1);
  }

  lemma QuotientBelow(n: int, d: int, q: int)
    requires d > 0 && 0 <= n < d * q
    ensures 0 <= n / d < q
  {
    MulOrder(d, n / d, q);
  }

  lemma ProductAtMost(x: int, a: int, y: int, b: int)
    requires 0 <= x <= a && 0 <= y <= b
    ensures x * y <= a * b
  {
    MulMonotone(y, x, a);
    MulMonotone(a, y, b);
  }
}
