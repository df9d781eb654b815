/**
 Polynomials over a ring of characteristic two, as sequences of coefficients with the highest power first,
 and the theory of Reed-Solomon codes that rests on them.
 */
module Polynomials {
  import opened Algebra

  function Zeros<F(!new)>(r: Ring<F>, n: nat): (p: seq<F>)
    ensures |p| == n
    ensures forall i :: 0 <= i < n ==> p[i] == r.zero
  {
    seq(n, _ => r.zero)
  }

  /** The value of the polynomial at `x`, by Horner's rule. */
  function Eval<F(!new)>(r: Ring<F>, p: seq<F>, x: F): F {
    if p == [] then r.zero
    else r.add(r.mul(Eval(r, p[..|p| - 1], x), x), p[|p| - 1])
  }

  function Sum<F(!new)>(r: Ring<F>, p: seq<F>, q: seq<F>): (s: seq<F>)
    requires |p| == |q|
    ensures |s| == |p|
    ensures forall i :: 0 <= i < |s| ==> s[i] == r.add(p[i], q[i])
  {
    seq(|p|, i requires 0 <= i < |p| => r.add(p[i], q[i]))
  }

  function Scale<F(!new)>(r: Ring<F>, p: seq<F>, c: F): (s: seq<F>)
    ensures |s| == |p|
    ensures forall i :: 0 <= i < |s| ==> s[i] == r.mul(p[i], c)
  {
    seq(|p|, i requires 0 <= i < |p| => r.mul(p[i], c))
  }

  /** The product of two polynomials. */
  function Times<F(!new)>(r: Ring<F>, q: seq<F>, g: seq<F>): (s: seq<F>)
    requires g != []
    ensures |s| == |q| + |g| - 1
  {
    if q == [] then Zeros(r, |g| - 1)
    else
      var k := |q| - 1;
      Sum(r, Times(r, q[..k], g) + [r.zero], Zeros(r, k) + Scale(r, g, q[k]))
  }

  // ----- Evaluation is a ring homomorphism.

  lemma {:induction false} EvalSum<F(!new)>(r: Ring<F>, p: seq<F>, q: seq<F>, x: F)
    requires r.Valid() && |p| == |q|
    ensures Eval(r, Sum(r, p, q), x) == r.add(Eval(r, p, x), Eval(r, q, x))
  {
    if p == [] {
    } else {
      var k := |p| - 1;
      EvalSum(r, p[..k], q[..k], x);
      assert Sum(r, p, q)[..k] == Sum(r, p[..k], q[..k]);
      var a, b := Eval(r, p[..k], x), Eval(r, q[..k], x);
      r.DistributesRight(x, a, b);
      r.Exchange(r.mul(a, x), r.mul(b, x), p[k], q[k]);
    }
  }

  lemma {:induction false} EvalScale<F(!new)>(r: Ring<F>, p: seq<F>, c: F, x: F)
    requires r.Valid()
    ensures Eval(r, Scale(r, p, c), x) == r.mul(Eval(r, p, x), c)
  {
    if p == [] {
      r.MulZero(c);
    } else {
      var k := |p| - 1;
      EvalScale(r, p[..k], c, x);
      assert Scale(r, p, c)[..k] == Scale(r, p[..k], c);
      var a := Eval(r, p[..k], x);
      r.DistributesRight(c, r.mul(a, x), p[k]);
      assert r.Associates(a, c, x) && r.Commutes(c, x) && r.Associates(a, x, c);
    }
  }

  lemma EvalAppend<F(!new)>(r: Ring<F>, p: seq<F>, c: F, x: F)
    ensures Eval(r, p + [c], x) == r.add(r.mul(Eval(r, p, x), x), c)
  {
    assert (p + [c])[..|p|] == p;
  }

  lemma {:induction false} EvalLeadingZeros<F(!new)>(r: Ring<F>, n: nat, p: seq<F>, x: F)
    requires r.Valid()
    ensures Eval(r, Zeros(r, n) + p, x) == Eval(r, p, x)
  {
    if p == [] {
      if n == 0 {
        assert Zeros(r, n) + p == [];
      } else {
        EvalLeadingZeros(r, n - 1, p, x);
        assert Zeros(r, n) + p == (Zeros(r, n - 1) + p) + [r.zero];
        EvalAppend(r, Zeros(r, n - 1) + p, r.zero, x);
        r.MulZero(x);
      }
    } else {
      var k := |p| - 1;
      EvalLeadingZeros(r, n, p[..k], x);
      assert Zeros(r, n) + p == (Zeros(r, n) + p[..k]) + [p[k]];
      EvalAppend(r, Zeros(r, n) + p[..k], p[k], x);
    }
  }

  lemma {:induction false} EvalTimes<F(!new)>(r: Ring<F>, q: seq<F>, g: seq<F>, x: F)
    requires r.Valid() && g != []
    ensures Eval(r, Times(r, q, g), x) == r.mul(Eval(r, q, x), Eval(r, g, x))
  {
    var e := Eval(r, g, x);
    if q == [] {
      EvalLeadingZeros(r, |g| - 1, [], x);
      assert Zeros(r, |g| - 1) + [] == Zeros(r, |g| - 1);
      r.MulZero(e);
    } else {
      var k := |q| - 1;
      var t := Times(r, q[..k], g);
      EvalTimes(r, q[..k], g, x);
      EvalSum(r, t + [r.zero], Zeros(r, k) + Scale(r, g, q[k]), x);
      EvalAppend(r, t, r.zero, x);
      EvalLeadingZeros(r, k, Scale(r, g, q[k]), x);
      EvalScale(r, g, q[k], x);
      var a := Eval(r, q[..k], x);
      r.DistributesRight(e, r.mul(a, x), q[k]);
      assert r.Associates(a, e, x) && r.Commutes(e, x) && r.Associates(a, x, e) && r.Commutes(e, q[k]);
    }
  }

  // ----- The generator polynomial (x - a^0)(x - a^1)...(x - a^(n-1)).

  function RootProduct<F(!new)>(r: Ring<F>, a: F, n: nat): (p: seq<F>)
    ensures |p| == n + 1
  {
    if n == 0 then [r.one] else Times(r, RootProduct(r, a, n - 1), [r.one, r.Pow(a, n - 1)])
  }

  /** Coefficients of a product with x - c. */
  lemma {:induction false} TimesLinear<F(!new)>(r: Ring<F>, p: seq<F>, c: F, k: nat)
    requires r.Valid() && k <= |p|
    ensures Times(r, p, [r.one, c])[k] ==
            r.add(if k < |p| then p[k] else r.zero, if k > 0 then r.mul(p[k - 1], c) else r.zero)
  {
    if p == [] {
    } else {
      var n := |p| - 1;
      var t := Times(r, p[..n], [r.one, c]) + [r.zero];
      var s := Zeros(r, n) + Scale(r, [r.one, c], p[n]);
      assert r.AddCommutes(r.zero, p[n]) && r.Commutes(r.one, p[n]) && r.Commutes(c, p[n]);
      assert Times(r, p, [r.one, c])[k] == r.add(t[k], s[k]);
      if k <= n {
        TimesLinear(r, p[..n], c, k);
      }
      if k == n {
        var below := if k > 0 then r.mul(p[k - 1], c) else r.zero;
        assert r.AddCommutes(r.zero, below) && r.AddCommutes(below, p[n]);
      } else if k == n + 1 {
        assert r.AddCommutes(r.zero, r.mul(p[n], c));
      }
    }
  }

  lemma {:induction false} RootProductLeads<F(!new)>(r: Ring<F>, a: F, n: nat)
    requires r.Valid()
    ensures RootProduct(r, a, n)[0] == r.one
  {
    if n > 0 {
      RootProductLeads(r, a, n - 1);
      TimesLinear(r, RootProduct(r, a, n - 1), r.Pow(a, n - 1), 0);
    }
  }

  /** x - c vanishes at c. */
  lemma LinearFactor<F(!new)>(r: Ring<F>, c: F)
    requires r.Valid()
    ensures Eval(r, [r.one, c], c) == r.zero
  {
    EvalAppend(r, [r.one], c, c);
    EvalAppend(r, [], r.one, c);
    assert [] + [r.one] == [r.one] && [r.one] + [c] == [r.one, c];
    r.MulZero(c);
    assert r.AddCommutes(r.zero, r.one) && r.Commutes(r.one, c);
  }

  lemma {:induction false} RootProductRoots<F(!new)>(r: Ring<F>, a: F, n: nat, i: nat)
    requires r.Valid() && i < n
    ensures Eval(r, RootProduct(r, a, n), r.Pow(a, i)) == r.zero
  {
    var x, c := r.Pow(a, i), r.Pow(a, n - 1);
    var p := RootProduct(r, a, n - 1);
    EvalTimes(r, p, [r.one, c], x);
    if i == n - 1 {
      LinearFactor(r, c);
      r.MulZero(Eval(r, p, x));
    } else {
      RootProductRoots(r, a, n - 1, i);
      r.MulZero(Eval(r, [r.one, c], x));
    }
  }

  /** Multiplication by x - c, without the leading coefficient of the result. */
  function NextProduct<F(!new)>(r: Ring<F>, p: seq<F>, c: F): (q: seq<F>)
    ensures |q| == |p|
    ensures forall k :: 0 <= k < |q| ==> q[k] == r.add(r.mul(p[k], c), if k + 1 < |p| then p[k + 1] else r.zero)
  {
    seq(|p|, k requires 0 <= k < |p| => r.add(r.mul(p[k], c), if k + 1 < |p| then p[k + 1] else r.zero))
  }

  /** The product of the first i factors, with zeros in front to make `degree` + 1 coefficients. */
  function Padded<F(!new)>(r: Ring<F>, a: F, degree: nat, i: nat): (p: seq<F>)
    requires i <= degree
    ensures |p| == degree + 1
  {
    Zeros(r, degree - i) + RootProduct(r, a, i)
  }

  lemma PaddedStepAt<F(!new)>(r: Ring<F>, a: F, degree: nat, i: nat, k: nat)
    requires r.Valid() && i < degree && 0 < k <= degree
    ensures var p := Padded(r, a, degree, i);
            Padded(r, a, degree, i + 1)[k] ==
            r.add(r.mul(p[k], r.Pow(a, i)), if k < degree then p[k + 1] else r.zero)
  {
    var p, q, c := RootProduct(r, a, i), Padded(r, a, degree, i), r.Pow(a, i);
    var off := degree - i;
    var below := if k < degree then q[k + 1] else r.zero;
    assert r.AddCommutes(r.mul(q[k], c), below);
    r.MulZero(c);
    if k >= off - 1 {
      TimesLinear(r, p, c, k - off + 1);
    }
  }

  lemma PaddedStep<F(!new)>(r: Ring<F>, a: F, degree: nat, i: nat)
    requires r.Valid() && i < degree
    ensures NextProduct(r, Padded(r, a, degree, i)[1..], r.Pow(a, i)) == Padded(r, a, degree, i + 1)[1..]
  {
    var p, q := Padded(r, a, degree, i)[1..], Padded(r, a, degree, i + 1)[1..];
    forall k | 0 <= k < degree ensures NextProduct(r, p, r.Pow(a, i))[k] == q[k] {
      PaddedStepAt(r, a, degree, i, k + 1);
    }
  }

  // ----- Division by a monic polynomial whose coefficients below the leading one are `g`.

  /** One step of the shift register: the next coefficient `b` of the dividend comes in. */
  function RemainderStep<F(!new)>(r: Ring<F>, g: seq<F>, rem: seq<F>, b: F): (s: seq<F>)
    requires |g| == |rem| > 0
    ensures |s| == |g|
  {
    Sum(r, rem[1..] + [r.zero], Scale(r, g, r.add(b, rem[0])))
  }

  function Remainder<F(!new)>(r: Ring<F>, g: seq<F>, data: seq<F>): (s: seq<F>)
    requires g != []
    ensures |s| == |g|
  {
    if data == [] then Zeros(r, |g|)
    else RemainderStep(r, g, Remainder(r, g, data[..|data| - 1]), data[|data| - 1])
  }

  function Quotient<F(!new)>(r: Ring<F>, g: seq<F>, data: seq<F>): (q: seq<F>)
    requires g != []
    ensures |q| == |data|
  {
    if data == [] then []
    else
      var k := |data| - 1;
      Quotient(r, g, data[..k]) + [r.add(data[k], Remainder(r, g, data[..k])[0])]
  }

  /** Adding the divisor, scaled by the coefficient that must vanish, performs one step of the division. */
  lemma DivisionRow<F(!new)>(r: Ring<F>, g: seq<F>, init: seq<F>, rem: seq<F>, b: F)
    requires r.Valid() && |g| == |rem| > 0
    ensures Sum(r, init + rem + [r.zero], Zeros(r, |init|) + Scale(r, [r.one] + g, r.add(b, rem[0])))
            == init + [b] + RemainderStep(r, g, rem, b)
  {
    var k, f := |init|, r.add(b, rem[0]);
    var t, s := init + rem + [r.zero], Zeros(r, k) + Scale(r, [r.one] + g, f);
    var sum, goal := Sum(r, t, s), init + [b] + RemainderStep(r, g, rem, b);
    forall i | 0 <= i < |goal| ensures sum[i] == goal[i] {
      if i < k {
        assert s[i] == r.zero;
      } else if i == k {
        assert s[k] == r.mul(r.one, f) && r.Commutes(r.one, f);
        assert r.AddCommutes(b, rem[0]) && r.AddAssociates(rem[0], rem[0], b) && r.AddCommutes(r.zero, b);
      } else {
        var j := i - k - 1;
        assert s[i] == Scale(r, [r.one] + g, f)[j + 1] == r.mul(g[j], f);
        assert t[i] == (rem[1..] + [r.zero])[j];
        assert goal[i] == RemainderStep(r, g, rem, b)[j];
      }
    }
  }

  lemma TimesAppend<F(!new)>(r: Ring<F>, q: seq<F>, c: F, g: seq<F>)
    requires g != []
    ensures Times(r, q + [c], g) == Sum(r, Times(r, q, g) + [r.zero], Zeros(r, |q|) + Scale(r, g, c))
  {
    assert (q + [c])[..|q|] == q;
  }

  /** The data followed by its remainder is the quotient times the divisor. */
  lemma {:induction false} Division<F(!new)>(r: Ring<F>, g: seq<F>, data: seq<F>)
    requires r.Valid() && g != []
    ensures Times(r, Quotient(r, g, data), [r.one] + g) == data + Remainder(r, g, data)
  {
    if data == [] {
      assert Zeros(r, |g|) == data + Remainder(r, g, data);
    } else {
      var init, b := data[..|data| - 1], data[|data| - 1];
      var rem := Remainder(r, g, init);
      Division(r, g, init);
      DivisionRow(r, g, init, rem, b);
      TimesAppend(r, Quotient(r, g, init), r.add(b, rem[0]), [r.one] + g);
      assert Times(r, Quotient(r, g, data), [r.one] + g) == init + [b] + Remainder(r, g, data);
      assert data == init + [b];
    }
  }

  /** A codeword vanishes at every root of its generator. */
  lemma CodewordRoots<F(!new)>(r: Ring<F>, g: seq<F>, data: seq<F>, x: F)
    requires r.Valid() && g != []
    requires Eval(r, [r.one] + g, x) == r.zero
    ensures Eval(r, data + Remainder(r, g, data), x) == r.zero
  {
    var q := Quotient(r, g, data);
    Division(r, g, data);
    EvalTimes(r, q, [r.one] + g, x);
    r.MulZero(Eval(r, q, x));
  }
}
