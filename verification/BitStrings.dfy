/** Numbers written as bit strings, most significant bit first. */
module BitStrings {

  function Pow2(n: nat): (p: nat)
    ensures p > 0
  {
    if n == 0 then 1 else 2 * Pow2(n - 1)
  }

  lemma SmallPowers()
    ensures Pow2(0) == 1 && Pow2(2) == 4 && Pow2(3) == 8 && Pow2(4) == 16 && Pow2(6) == 64 && Pow2(7) == 128
    ensures Pow2(8) == 256 && Pow2(10) == 1024 && Pow2(11) == 2048 && Pow2(14) == 16384 && Pow2(21) == 2097152
  {
    assert Pow2(4) == 16;
    assert Pow2(7) == 8 * Pow2(4) && Pow2(8) == 2 * Pow2(7);
    assert Pow2(11) == 8 * Pow2(8) && Pow2(10) == 4 * Pow2(8);
    assert Pow2(14) == 8 * Pow2(11);
    assert Pow2(17) == 8 * Pow2(14);
    assert Pow2(20) == 8 * Pow2(17) && Pow2(21) == 2 * Pow2(20);
  }

  /** The `n` low-order bits of `v`. */
  function BitsOf(v: nat, n: nat): (s: seq<bool>)
    ensures |s| == n
  {
    if n == 0 then [] else BitsOf(v / 2, n - 1) + [v % 2 == 1]
  }

  /** The number that a bit string stands for. */
  function NumberOf(s: seq<bool>): (v: nat)
    ensures v < Pow2(|s|)
  {
    if s == [] then 0
    else 2 * NumberOf(s[..|s| - 1]) + if s[|s| - 1] then 1 else 0
  }

  lemma {:induction false} NumberOfBits(v: nat, n: nat)
    requires v < Pow2(n)
    ensures NumberOf(BitsOf(v, n)) == v
  {
    if n == 0 {
    } else {
      NumberOfBits(v / 2, n - 1);
      assert BitsOf(v, n)[..n - 1] == BitsOf(v / 2, n - 1);
    }
  }

  lemma {:induction false} NumberInjective(s: seq<bool>, t: seq<bool>)
    requires |s| == |t| && NumberOf(s) == NumberOf(t)
    ensures s == t
  {
    if s == [] {
    } else {
      var i := |s| - 1;
      NumberInjective(s[..i], t[..i]);
      assert s == s[..i] + [s[i]] && t == t[..i] + [t[i]];
    }
  }

  lemma {:induction false} ZeroBits(n: nat)
    ensures NumberOf(seq(n, _ => false)) == 0
  {
    if n > 0 {
      ZeroBits(n - 1);
      assert seq(n, _ => false)[..n - 1] == seq(n - 1, _ => false);
    }
  }

  /** Bit `i` of the string of `v`, as the source extracts it. */
  lemma {:induction false} BitsOfAt(v: nat, n: nat, i: nat)
    requires i < n
    ensures BitsOf(v, n)[n - 1 - i] == (v / Pow2(i) % 2 == 1)
  {
    if i == 0 {
    } else {
      BitsOfAt(v / 2, n - 1, i - 1);
      DivDiv(v, Pow2(i - 1));
    }
  }

  lemma DivDiv(v: nat, p: nat)
    requires p > 0
    ensures v / 2 / p == v / (2 * p)
  {
    var q := v / 2 / p;
    assert v / 2 == q * p + v / 2 % p;
    assert v == q * (2 * p) + (2 * (v / 2 % p) + v % 2);
    assert 0 <= 2 * (v / 2 % p) + v % 2 < 2 * p;
    DivUnique(v, 2 * p, q, 2 * (v / 2 % p) + v % 2);
  }

  lemma DivUnique(v: int, d: int, q: int, r: int)
    requires d > 0 && v == q * d + r && 0 <= r < d
    ensures v / d == q && v % d == r
  {
    var e := v / d - q;
    assert e * d == r - v % d;
    assert -d < e * d < d;
    assert e == 0 by {
      if e > 0 {
        ScaledByAtLeastOne(e, d);
        assert false;
      } else if e < 0 {
        ScaledByAtLeastOne(-e, d);
        assert false;
      }
    }
  }

  lemma ScaledByAtLeastOne(e: int, d: int)
    requires e >= 1 && d > 0
    ensures e * d >= d && (-e) * d <= -d
  {}

  /** The high and the low bits of a number, one behind the other. */
  lemma {:induction false} BitsSplit(v: nat, high: nat, low: nat, m: nat, n: nat)
    requires v == high * Pow2(n) + low && low < Pow2(n)
    ensures BitsOf(v, m + n) == BitsOf(high, m) + BitsOf(low, n)
  {
    if n == 0 {
      assert BitsOf(v, m) + BitsOf(low, 0) == BitsOf(v, m);
    } else {
      SplitHalf(v, high, low, Pow2(n - 1));
      BitsSplit(v / 2, high, low / 2, m, n - 1);
      LastBit(v, m + n);
      LastBit(low, n);
      hide BitsOf;
      assert (BitsOf(high, m) + BitsOf(low / 2, n - 1)) + [v % 2 == 1] ==
          BitsOf(high, m) + (BitsOf(low / 2, n - 1) + [v % 2 == 1]);
    }
  }

  lemma SplitHalf(v: nat, high: nat, low: nat, p: nat)
    requires v == high * (2 * p) + low && low < 2 * p
    ensures v / 2 == high * p + low / 2 && v % 2 == low % 2 && low / 2 < p
  {
    assert high * (2 * p) == 2 * (high * p);
  }

  lemma LastBit(v: nat, n: nat)
    requires n > 0
    ensures BitsOf(v, n) == BitsOf(v / 2, n - 1) + [v % 2 == 1]
  {}

  lemma JoinBits(a: seq<bool>, b: seq<bool>, c: seq<bool>)
    ensures a + (b + c) == (a + b) + c
  {}
}
