/**
 Rings of characteristic two, and the polynomials of a linear operator over their additive groups.
 Everything here is stated for an arbitrary carrier, so that no proof depends on how bytes are represented.
 Each law is a predicate of its own, to be named where it is used.
 */
module Algebra {

  /** An additive group in which every element is its own inverse, with an operator on it. */
  datatype Space<!G(!new)> = Space(zero: G, add: (G, G) -> G, op: G -> G) {

    ghost predicate Commutes(a: G, b: G) { add(a, b) == add(b, a) }
    ghost predicate Associates(a: G, b: G, c: G) { add(add(a, b), c) == add(a, add(b, c)) }
    ghost predicate Linear(a: G, b: G) { op(add(a, b)) == add(op(a), op(b)) }

    ghost predicate Valid() {
      && (forall a, b :: Commutes(a, b))
      && (forall a, b, c :: Associates(a, b, c))
      && (forall a :: add(a, zero) == a)
      && (forall a :: add(a, a) == zero)
      && (forall a, b :: Linear(a, b))
    }

    /** (a + b) + (c + d) == (a + c) + (b + d) */
    lemma Exchange(a: G, b: G, c: G, d: G)
      requires Valid()
      ensures add(add(a, b), add(c, d)) == add(add(a, c), add(b, d))
    {
      assert Associates(a, b, add(c, d)) && Associates(b, c, d) && Commutes(b, c);
      assert Associates(c, b, d) && Associates(a, c, add(b, d));
    }

    lemma OpZero()
      requires Valid()
      ensures op(zero) == zero
    {
      assert Linear(zero, zero);
    }

    function Choose(c: bool, a: G): G { if c then a else zero }

    /**
     The operator polynomial with coefficients `p` (p[i] belonging to the i-th power) applied to `a`:
     p[0]*a + op(p[1]*a + op(p[2]*a + ...)).
     */
    function Apply(p: seq<bool>, a: G): G {
      if p == [] then zero else add(Choose(p[0], a), op(Apply(p[1..], a)))
    }

    lemma {:induction false} ApplyAdd(p: seq<bool>, a: G, b: G)
      requires Valid()
      ensures Apply(p, add(a, b)) == add(Apply(p, a), Apply(p, b))
    {
      if p == [] {
      } else {
        ApplyAdd(p[1..], a, b);
        assert Linear(Apply(p[1..], a), Apply(p[1..], b));
        Exchange(Choose(p[0], a), Choose(p[0], b), op(Apply(p[1..], a)), op(Apply(p[1..], b)));
      }
    }

    lemma {:induction false} ApplyZero(p: seq<bool>)
      requires Valid()
      ensures Apply(p, zero) == zero
    {
      OpZero();
      if p != [] {
        ApplyZero(p[1..]);
      }
    }

    lemma {:induction false} ApplyOp(p: seq<bool>, a: G)
      requires Valid()
      ensures Apply(p, op(a)) == op(Apply(p, a))
    {
      OpZero();
      if p != [] {
        ApplyOp(p[1..], a);
        assert Linear(Choose(p[0], a), op(Apply(p[1..], a)));
      }
    }

    /** Polynomials of one operator commute. */
    lemma {:induction false} ApplyCommutes(p: seq<bool>, q: seq<bool>, a: G)
      requires Valid()
      ensures Apply(p, Apply(q, a)) == Apply(q, Apply(p, a))
    {
      if q == [] {
        ApplyZero(p);
      } else {
        var rest := Apply(q[1..], a);
        ApplyCommutes(p, q[1..], a);
        ApplyAdd(p, Choose(q[0], a), op(rest));
        ApplyOp(p, rest);
        ApplyZero(p);
      }
    }
  }

  /** A commutative ring of characteristic two: addition and subtraction coincide. */
  datatype Ring<!F(!new)> = Ring(zero: F, one: F, add: (F, F) -> F, mul: (F, F) -> F) {

    ghost predicate AddCommutes(a: F, b: F) { add(a, b) == add(b, a) }
    ghost predicate AddAssociates(a: F, b: F, c: F) { add(add(a, b), c) == add(a, add(b, c)) }
    ghost predicate Commutes(a: F, b: F) { mul(a, b) == mul(b, a) }
    ghost predicate Associates(a: F, b: F, c: F) { mul(mul(a, b), c) == mul(a, mul(b, c)) }
    ghost predicate Distributes(a: F, b: F, c: F) { mul(a, add(b, c)) == add(mul(a, b), mul(a, c)) }

    ghost predicate Valid() {
      && one != zero
      && (forall a, b :: AddCommutes(a, b))
      && (forall a, b, c :: AddAssociates(a, b, c))
      && (forall a :: add(a, zero) == a)
      && (forall a :: add(a, a) == zero)
      && (forall a, b :: Commutes(a, b))
      && (forall a, b, c :: Associates(a, b, c))
      && (forall a :: mul(a, one) == a)
      && (forall a, b, c :: Distributes(a, b, c))
    }

    ghost predicate NoZeroDivisors() {
      forall a, b :: mul(a, b) == zero ==> a == zero || b == zero
    }

    /** (a + b) + (c + d) == (a + c) + (b + d) */
    lemma Exchange(a: F, b: F, c: F, d: F)
      requires Valid()
      ensures add(add(a, b), add(c, d)) == add(add(a, c), add(b, d))
    {
      assert AddAssociates(a, b, add(c, d)) && AddAssociates(b, c, d) && AddCommutes(b, c);
      assert AddAssociates(c, b, d) && AddAssociates(a, c, add(b, d));
    }

    lemma MulZero(a: F)
      requires Valid()
      ensures mul(a, zero) == zero
      ensures mul(zero, a) == zero
    {
      assert Distributes(a, zero, zero) && Commutes(a, zero);
    }

    /** (b + c) * a == b * a + c * a */
    lemma DistributesRight(a: F, b: F, c: F)
      requires Valid()
      ensures mul(add(b, c), a) == add(mul(b, a), mul(c, a))
    {
      assert Distributes(a, b, c) && Commutes(a, b) && Commutes(a, c) && Commutes(a, add(b, c));
    }

    /** An element with an inverse divides zero only trivially. */
    lemma UnitIsNoZeroDivisor(a: F, inverse: F, b: F)
      requires Valid()
      requires mul(a, inverse) == one && mul(a, b) == zero
      ensures b == zero
    {
      assert Commutes(a, inverse) && Associates(inverse, a, b) && Commutes(one, b);
      MulZero(inverse);
    }

    lemma SumIsZero(a: F, b: F)
      requires Valid()
      ensures add(a, b) == zero <==> a == b
    {
      if add(a, b) == zero {
        assert AddAssociates(a, b, b) && AddCommutes(zero, b);
      }
    }

    // ----- Powers of one element.

    function Pow(a: F, k: nat): F {
      if k == 0 then one else mul(Pow(a, k - 1), a)
    }

    lemma {:induction false} PowAdd(a: F, i: nat, j: nat)
      requires Valid()
      ensures mul(Pow(a, i), Pow(a, j)) == Pow(a, i + j)
    {
      if j == 0 {
      } else {
        PowAdd(a, i, j - 1);
        assert Associates(Pow(a, i), Pow(a, j - 1), a);
      }
    }

    lemma {:induction false} PowMultiple(a: F, m: nat, q: nat)
      requires Valid()
      requires Pow(a, m) == one
      ensures Pow(a, m * q) == one
    {
      if q == 0 {
      } else {
        PowMultiple(a, m, q - 1);
        PowAdd(a, m * (q - 1), m);
        assert m * (q - 1) + m == m * q;
      }
    }

    /** The 15th, 51st and 85th powers of `a` are not 1, but the 255th is. */
    ghost predicate HasOrder255(a: F, n15: nat, n51: nat, n85: nat, n255: nat) {
      && n15 == 15 && n51 == 51 && n85 == 85 && n255 == 255
      && Pow(a, n15) != one && Pow(a, n51) != one && Pow(a, n85) != one && Pow(a, n255) == one
    }

    lemma {:induction false} NoShortPeriod(a: F, m: nat, n15: nat, n51: nat, n85: nat, n255: nat)
      requires Valid() && HasOrder255(a, n15, n51, n85, n255)
      requires 0 < m < n255
      ensures Pow(a, m) != one
      decreases m
    {
      if Pow(a, m) == one {
        var q, r := n255 / m, n255 % m;
        assert m * q + r == n255;
        PowMultiple(a, m, q);
        PowAdd(a, m * q, r);
        assert Commutes(one, Pow(a, r));
        if r > 0 {
          NoShortPeriod(a, r, n15, n51, n85, n255);
        } else {
          var d := DivisorsOf255(m, n15, n51, n85);
          PowMultiple(a, m, d);
        }
      }
    }

    /** The powers of an element of order 255 are distinct below that order. */
    lemma DistinctPowers(a: F, i: nat, j: nat, n15: nat, n51: nat, n85: nat, n255: nat)
      requires Valid() && HasOrder255(a, n15, n51, n85, n255)
      requires i < j < n255
      ensures Pow(a, i) != Pow(a, j)
    {
      if Pow(a, i) == Pow(a, j) {
        PowAdd(a, i, n255 - j);
        PowAdd(a, j, n255 - j);
        NoShortPeriod(a, n255 - (j - i), n15, n51, n85, n255);
      }
    }
  }

  /** A proper divisor of 255 divides 15, 51 or 85. */
  lemma DivisorsOf255(m: nat, n15: nat, n51: nat, n85: nat) returns (d: nat)
    requires 0 < m < 255 && 255 % m == 0
    requires n15 == 15 && n51 == 51 && n85 == 85
    ensures m * d == n15 || m * d == n51 || m * d == n85
  {
    var q := 255 / m;
    assert q * m == 255;
    if m <= 15 {
      assert m == 1 || m == 3 || m == 5 || m == 15 by {
        assert m == 1 || m == 2 || m == 3 || m == 4 || m == 5 || m == 6 || m == 7 || m == 8
            || m == 9 || m == 10 || m == 11 || m == 12 || m == 13 || m == 14 || m == 15;
      }
      d := 15 / m;
    } else {
      assert q <= 15 by {
        if q >= 16 { ProductBound(q, m); }
      }
      assert m == 17 || m == 51 || m == 85 by {
        assert q == 2 || q == 3 || q == 4 || q == 5 || q == 6 || q == 7 || q == 8
            || q == 9 || q == 10 || q == 11 || q == 12 || q == 13 || q == 14 || q == 15;
      }
      d := if m == 17 then 3 else 1;
    }
  }

  lemma ProductBound(q: nat, m: nat)
    requires q >= 16 && m >= 16
    ensures q * m >= 256
  {}
}
