/** Products, quotients and remainders of natural numbers. */
module Arithmetic {

  function Abs(a: int): nat { if a < 0 then -a else a }

  lemma LeftMonotone(a: nat, b: nat, n: nat)
    requires a <= b
    ensures a * n <= b * n
  {}

  lemma Unique(q: nat, r: nat, p: nat, s: nat, n: nat)
    requires r < n && s < n && r + q * n == s + p * n
    ensures q == p && r == s
  {
    if q > p {
      LeftMonotone(p + 1, q, n);
    } else if q < p {
      LeftMonotone(q + 1, p, n);
    }
  }

  lemma DivMod(r: nat, q: nat, n: nat)
    requires r < n
    ensures (r + q * n) / n == q && (r + q * n) % n == r
  {
    var k := r + q * n;
    assert k == k / n * n + k % n;
    Unique(k / n, k % n, q, r, n);
  }

  /** Quotient and remainder of the next number. */
  lemma Successor(r: nat, q: nat, n: nat)
    requires r < n
    ensures var t := r + q * n + 1;
            if r + 1 < n then t / n == q && t % n == r + 1 else t / n == q + 1 && t % n == 0
  {
    if r + 1 < n {
      DivMod(r + 1, q, n);
    } else {
      assert (q + 1) * n == r + q * n + 1;
      DivMod(0, q + 1, n);
    }
  }

  lemma Below(r: nat, q: nat, n: nat, m: nat)
    requires r < n && q < m
    ensures r + q * n < m * n
  {
    assert (q + 1) * n <= m * n;
  }

  lemma DivisionFits(k: nat, n: nat, m: nat)
    requires 0 < n && k < m * n
    ensures k / n < m && k % n < n && k == k % n + k / n * n
  {
    if m <= k / n {
      LeftMonotone(m, k / n, n);
    }
  }

  lemma QuotientFits(q: nat, n: nat, k: nat)
    requires 1 <= n && q * n <= k
    ensures q <= k / n
  {
    if q > k / n {
      LeftMonotone(k / n + 1, q, n);
    }
  }
}
