/** What integer division means, for divisors that are not constants. */
module Division {
  lemma MultipleBound(d: int, m: nat)
    ensures d >= 1 ==> d * m >= m
    ensures d <= -1 ==> d * m <= 0 - m
  {
  }

  lemma DivModUnique(v: int, m: nat, q: int, r: int)
    requires 0 <= r < m
    requires v == q * m + r
    ensures v / m == q && v % m == r
  {
    var d := v / m - q;
    assert (v / m) * m + v % m == v;
    assert d * m == r - v % m;
    MultipleBound(d, m);
  }

  lemma QuotientBounds(n: int, d: int)
    requires d > 0
    ensures n / d * d <= n < n / d * d + d
  {
    assert n == n / d * d + n % d;
  }

  lemma BelowQuotient(n: int, d: int, k: int, q: int)
    requires d > 0 && k * d <= n < k * d + d
    ensures q <= k <==> q * d <= n
  {
    if q <= k {
      assert (k - q) * d >= 0;
      assert (k - q) * d == k * d - q * d;
    } else {
      assert (q - k - 1) * d >= 0;
      assert (q - k - 1) * d == q * d - k * d - d;
    }
  }

  lemma FloorDiv(n: int, d: int, q: int)
    requires d > 0
    ensures q <= n / d <==> q * d <= n
  {
    QuotientBounds(n, d);
    BelowQuotient(n, d, n / d, q);
  }

  /** One more in the remainder, or one more in the quotient. */
  lemma CountUp(a: nat, n: nat)
    requires n > 0
    ensures (a + 1) % n == if a % n == n - 1 then 0 else a % n + 1
    ensures (a + 1) / n == if a % n == n - 1 then a / n + 1 else a / n
  {
    var q, r := a / n, a % n;
    assert a == q * n + r;
    if r == n - 1 {
      assert a + 1 == (q + 1) * n;
      DivModUnique(a + 1, n, q + 1, 0);
    } else {
      DivModUnique(a + 1, n, q, r + 1);
    }
  }
}
