/**
 The minimum distance of a code whose words vanish at consecutive powers of one element: a word that is
 not all zero has more non-zero coefficients than the code has roots.  (With Vandermonde's determinant in
 mind; the proof eliminates one coefficient at a time.)
 */
module Distance {
  import opened Algebra
  import opened Polynomials

  /** The sum of c[k] * x[k]^j. */
  function PowerSum<F(!new)>(r: Ring<F>, c: seq<F>, x: seq<F>, j: nat): F
    requires |c| == |x|
  {
    if c == [] then r.zero
    else
      var k := |c| - 1;
      r.add(PowerSum(r, c[..k], x[..k], j), r.mul(c[k], r.Pow(x[k], j)))
  }

  /** The number of non-zero entries. */
  function Weight<F(==,!new)>(r: Ring<F>, c: seq<F>): nat {
    if c == [] then 0 else Weight(r, c[..|c| - 1]) + if c[|c| - 1] == r.zero then 0 else 1
  }

  lemma {:induction false} ZeroWeight<F(!new)>(r: Ring<F>, c: seq<F>, k: nat)
    requires Weight(r, c) == 0 && k < |c|
    ensures c[k] == r.zero
  {
    if k < |c| - 1 {
      ZeroWeight(r, c[..|c| - 1], k);
    }
  }

  /** Turning one entry to zero, and no other, lowers the weight. */
  lemma {:induction false} WeightWithout<F(!new)>(r: Ring<F>, c: seq<F>, d: seq<F>, t: nat)
    requires |c| == |d| && t < |c|
    requires forall k :: 0 <= k < |c| && k != t ==> (c[k] == r.zero ==> d[k] == r.zero)
    requires d[t] == r.zero
    ensures c[t] != r.zero ==> Weight(r, d) < Weight(r, c)
    ensures Weight(r, d) <= Weight(r, c)
  {
    var n := |c| - 1;
    if t == n {
      WeightMonotone(r, c[..n], d[..n]);
    } else {
      WeightWithout(r, c[..n], d[..n], t);
    }
  }

  lemma {:induction false} WeightMonotone<F(!new)>(r: Ring<F>, c: seq<F>, d: seq<F>)
    requires |c| == |d|
    requires forall k :: 0 <= k < |c| ==> (c[k] == r.zero ==> d[k] == r.zero)
    ensures Weight(r, d) <= Weight(r, c)
  {
    if c != [] {
      WeightMonotone(r, c[..|c| - 1], d[..|c| - 1]);
    }
  }

  /** c[k] * (x[k] - y) */
  function Eliminate<F(!new)>(r: Ring<F>, c: seq<F>, x: seq<F>, y: F): (d: seq<F>)
    requires |c| == |x|
    ensures |d| == |c|
    ensures forall k :: 0 <= k < |d| ==> d[k] == r.mul(c[k], r.add(x[k], y))
  {
    seq(|c|, k requires 0 <= k < |c| => r.mul(c[k], r.add(x[k], y)))
  }

  lemma {:induction false} PowerSumEliminated<F(!new)>(r: Ring<F>, c: seq<F>, x: seq<F>, y: F, j: nat)
    requires r.Valid() && |c| == |x|
    ensures PowerSum(r, Eliminate(r, c, x, y), x, j)
            == r.add(PowerSum(r, c, x, j + 1), r.mul(PowerSum(r, c, x, j), y))
  {
    if c == [] {
      r.MulZero(y);
    } else {
      var n := |c| - 1;
      PowerSumEliminated(r, c[..n], x[..n], y, j);
      assert Eliminate(r, c, x, y)[..n] == Eliminate(r, c[..n], x[..n], y);
      EliminatedTerm(r, c[n], x[n], y, j);
      var s0, s1 := PowerSum(r, c[..n], x[..n], j), PowerSum(r, c[..n], x[..n], j + 1);
      var t0, t1 := r.mul(c[n], r.Pow(x[n], j)), r.mul(c[n], r.Pow(x[n], j + 1));
      r.DistributesRight(y, s0, t0);
      r.Exchange(s1, r.mul(s0, y), t1, r.mul(t0, y));
    }
  }

  /** c(x + y) x^j == c x^(j+1) + c x^j y */
  lemma EliminatedTerm<F(!new)>(r: Ring<F>, c: F, x: F, y: F, j: nat)
    requires r.Valid()
    ensures r.mul(r.mul(c, r.add(x, y)), r.Pow(x, j))
            == r.add(r.mul(c, r.Pow(x, j + 1)), r.mul(r.mul(c, r.Pow(x, j)), y))
  {
    var p := r.Pow(x, j);
    assert r.Associates(c, r.add(x, y), p) && r.Commutes(r.add(x, y), p) && r.Distributes(p, x, y);
    assert r.Distributes(c, r.mul(p, x), r.mul(p, y)) && r.Associates(c, p, y);
  }

  ghost predicate Distinct<F(!new)>(x: seq<F>) {
    forall i, j :: 0 <= i < j < |x| ==> x[i] != x[j]
  }

  lemma FirstPowerSum<F(!new)>(r: Ring<F>, c: seq<F>, x: seq<F>, m: nat)
    requires |c| == |x| && m > 0
    requires forall j: nat :: j < m ==> PowerSum(r, c, x, j) == r.zero
    ensures PowerSum(r, c, x, 0) == r.zero
  {}

  /** If the first m power sums vanish and at most m coefficients are non-zero, then none is. */
  lemma {:induction false} FewCoefficientsVanish<F(!new)>(r: Ring<F>, c: seq<F>, x: seq<F>, m: nat)
    requires r.Valid() && r.NoZeroDivisors()
    requires |c| == |x| && Distinct(x)
    requires forall j: nat :: j < m ==> PowerSum(r, c, x, j) == r.zero
    requires Weight(r, c) <= m
    ensures Weight(r, c) == 0
    decreases m
  {
    if Weight(r, c) > 0 {
      var t := NonZeroEntry(r, c);
      var d := Eliminate(r, c, x, x[t]);
      forall k | 0 <= k < |c| ensures k == t || c[k] == r.zero <==> d[k] == r.zero {
        r.SumIsZero(x[k], x[t]);
        r.MulZero(c[k]);
        r.MulZero(r.add(x[k], x[t]));
      }
      WeightWithout(r, c, d, t);
      forall j: nat | j < m - 1 ensures PowerSum(r, d, x, j) == r.zero {
        PowerSumEliminated(r, c, x, x[t], j);
        r.MulZero(x[t]);
      }
      FewCoefficientsVanish(r, d, x, m - 1);
      forall k | 0 <= k < |c| && k != t ensures c[k] == r.zero {
        ZeroWeight(r, d, k);
      }
      FirstPowerSum(r, c, x, m);
      OneTerm(r, c, x, t);
    }
  }

  lemma {:induction false} NonZeroEntry<F(!new)>(r: Ring<F>, c: seq<F>) returns (t: nat)
    requires Weight(r, c) > 0
    ensures t < |c| && c[t] != r.zero
  {
    var n := |c| - 1;
    if c[n] != r.zero {
      t := n;
    } else {
      t := NonZeroEntry(r, c[..n]);
    }
  }

  /** With a single term, the power sum of exponent 0 is that term. */
  lemma {:induction false} OneTerm<F(!new)>(r: Ring<F>, c: seq<F>, x: seq<F>, t: nat)
    requires r.Valid() && |c| == |x| && t < |c|
    requires forall k :: 0 <= k < |c| && k != t ==> c[k] == r.zero
    ensures PowerSum(r, c, x, 0) == c[t]
  {
    var n := |c| - 1;
    if t == n {
      NoTerms(r, c[..n], x[..n]);
      assert r.AddCommutes(r.zero, c[n]);
    } else {
      OneTerm(r, c[..n], x[..n], t);
    }
  }

  lemma {:induction false} NoTerms<F(!new)>(r: Ring<F>, c: seq<F>, x: seq<F>)
    requires r.Valid() && |c| == |x|
    requires forall k :: 0 <= k < |c| ==> c[k] == r.zero
    ensures PowerSum(r, c, x, 0) == r.zero
  {
    if c != [] {
      NoTerms(r, c[..|c| - 1], x[..|c| - 1]);
    }
  }

  // ----- From values of polynomials to power sums.

  /** The powers a^(n-1), ..., a^1, a^0, which go with the coefficients of a polynomial. */
  function Locators<F(!new)>(r: Ring<F>, a: F, n: nat): (x: seq<F>)
    ensures |x| == n
    ensures forall k :: 0 <= k < n ==> x[k] == r.Pow(a, n - 1 - k)
  {
    seq(n, k requires 0 <= k < n => r.Pow(a, n - 1 - k))
  }

  lemma {:induction false} PowOfPow<F(!new)>(r: Ring<F>, a: F, i: nat, j: nat)
    requires r.Valid()
    ensures r.Pow(r.Pow(a, i), j) == r.Pow(a, i * j)
  {
    if j == 0 {
    } else {
      PowOfPow(r, a, i, j - 1);
      r.PowAdd(a, i * (j - 1), i);
      assert i * (j - 1) + i == i * j;
    }
  }

  /** The leading m coefficients, evaluated at a^j and brought to their places, are m terms of the power sum. */
  lemma {:induction false} EvalIsPowerSum<F(!new)>(r: Ring<F>, w: seq<F>, a: F, j: nat, m: nat)
    requires r.Valid() && m <= |w|
    ensures PowerSum(r, w[..m], Locators(r, a, |w|)[..m], j)
            == r.mul(Eval(r, w[..m], r.Pow(a, j)), r.Pow(r.Pow(a, j), |w| - m))
  {
    var x, y := Locators(r, a, |w|), r.Pow(a, j);
    if m == 0 {
      r.MulZero(r.Pow(y, |w|));
    } else {
      EvalIsPowerSum(r, w, a, j, m - 1);
      assert w[..m][..m - 1] == w[..m - 1] && x[..m][..m - 1] == x[..m - 1];
      var e, rest := Eval(r, w[..m - 1], y), r.Pow(y, |w| - m);
      PowOfPow(r, a, |w| - m, j);
      PowOfPow(r, a, j, |w| - m);
      assert (|w| - m) * j == j * (|w| - m);
      assert r.Pow(x[m - 1], j) == rest;
      r.DistributesRight(rest, r.mul(e, y), w[m - 1]);
      assert r.Associates(e, y, rest) && r.Commutes(y, rest);
      assert r.Pow(y, |w| - m + 1) == r.mul(rest, y);
    }
  }

  /** A word with roots a^0, ..., a^(d-1) has either no non-zero coefficient or more than d of them. */
  lemma WordWeight<F(!new)>(r: Ring<F>, w: seq<F>, a: F, d: nat)
    requires r.Valid() && r.NoZeroDivisors()
    requires forall i: nat :: i < d ==> Eval(r, w, r.Pow(a, i)) == r.zero
    requires Distinct(Locators(r, a, |w|))
    ensures Weight(r, w) == 0 || Weight(r, w) > d
  {
    if Weight(r, w) <= d {
      var x := Locators(r, a, |w|);
      forall j: nat | j < d ensures PowerSum(r, w, x, j) == r.zero {
        EvalIsPowerSum(r, w, a, j, |w|);
        assert w[..|w|] == w && x[..|w|] == x;
        r.MulZero(r.Pow(r.Pow(a, j), 0));
      }
      FewCoefficientsVanish(r, w, x, d);
    }
  }
}
