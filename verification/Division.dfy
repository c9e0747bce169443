// Quotients and remainders.
module Division {

  lemma {:induction false} MultipleApart(n: int, a: int, b: int)
    requires n >= 0 && a < b
    ensures n * a + n <= n * b
    decreases b - a
  {
    if a + 1 < b {
      MultipleApart(n, a, b - 1);
    }
    assert n * b == n * (b - 1) + n;
  }

  lemma QuotientDecreases(n: int, k: int)
    requires n >= 2 && k >= 0
    ensures 0 <= k / n && (k > 0 ==> k / n < k)
  {
    var q, r := k / n, k % n;
    assert k == n * q + r && 0 <= r < n;
    if q < 0 {
      MultipleApart(n, q, 0);
    } else if q > 0 {
      MultipleApart(n, 0, q);
      TwiceAtMost(n, q);
    }
  }

  lemma TwiceAtMost(n: int, q: int)
    requires n >= 2 && q >= 0
    ensures n * q >= 2 * q
  {
    assert n * q - 2 * q == (n - 2) * q;
  }

  // Quotient and remainder are what they are known to be.
  lemma DividesAs(n: int, k: int, q: int, r: int)
    requires 0 <= r < n && k == n * q + r
    ensures k / n == q && k % n == r
  {
    var q', r' := k / n, k % n;
    assert k == n * q' + r';
    if q < q' {
      MultipleApart(n, q, q');
    } else if q' < q {
      MultipleApart(n, q', q);
    }
  }
}
