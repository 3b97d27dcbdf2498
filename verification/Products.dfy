/**
  Facts about products, quotients and remainders of natural numbers, each stated for variables of its own.
*/
module Products {
  lemma Grows(n: nat, a: nat, b: nat)
    requires a <= b
    ensures n * a <= n * b
  {
  }

  lemma Distributes(n: nat, a: nat, b: nat)
    ensures n * (a + b) == n * a + n * b
  {
  }

  lemma ThreeFactors(a: nat, b: nat, c: nat)
    ensures (a * b) * c == a * (b * c)
  {
  }

  lemma ProductIsPositive(a: nat, b: nat)
    requires a > 0 && b > 0
    ensures a * b > 0
  {
  }

  /** Division with remainder has one result. */
  lemma DivisionIsUnique(n: nat, q: nat, r: nat, q': nat, r': nat)
    requires r < n && r' < n && n * q + r == n * q' + r'
    ensures q == q' && r == r'
  {
    if q < q' {
      Distributes(n, q, 1);
      Grows(n, q + 1, q');
    } else if q > q' {
      Distributes(n, q', 1);
      Grows(n, q' + 1, q);
    }
  }

  lemma QuotientIs(x: nat, n: nat, q: nat, r: nat)
    requires r < n && x == n * q + r
    ensures x / n == q && x % n == r
  {
    DivisionIsUnique(n, x / n, x % n, q, r);
  }

  lemma QuotientOfSum(x: nat, n: nat, m: nat)
    requires n > 0
    ensures (x + n * m) / n == x / n + m && (x + n * m) % n == x % n
  {
    Distributes(n, x / n, m);
    QuotientIs(x + n * m, n, x / n + m, x % n);
  }

  lemma MultipleIsZero(n: nat, q: nat)
    requires n > 0
    ensures (n * q) % n == 0 && (n * q) / n == q
  {
    QuotientIs(n * q, n, q, 0);
  }

  /** If n more than x fit in n times q, the quotient is below q. */
  lemma QuotientBelow(x: nat, n: nat, q: nat)
    requires n > 0 && x + n <= n * q
    ensures x / n < q
  {
    var k := x / n;
    assert n * k <= x;
    if k >= q { Grows(n, q, k); }
  }
}
