/**
 The Reed-Solomon error correction of QR Codes: the generator polynomial and the remainder, computed in place,
 and what makes the codewords able to detect and correct errors.
 */
module ReedSolomon {
  import opened Bytes
  import opened GaloisField
  import opened PowersOfTwo
  import opened Polynomials
  import opened Distance

  const DEGREE_MAX := 30

  /** The coefficients below the leading one of (x - 2^0)(x - 2^1)...(x - 2^(degree-1)). */
  function Generator(degree: nat): (g: seq<Byte>)
    ensures |g| == degree
  {
    RootProduct(GF256, TWO, degree)[1..]
  }

  lemma DivisorStart(degree: nat, i: nat)
    requires degree >= 1 && i == 0
    ensures Padded(GF256, TWO, degree, i)[1..] == Zeros(GF256, degree - 1) + [ONE]
    ensures Power(i) == ONE
  {}

  lemma DivisorStep(degree: nat, i: nat)
    requires i < degree
    ensures NextProduct(GF256, Padded(GF256, TWO, degree, i)[1..], Power(i)) == Padded(GF256, TWO, degree, i + 1)[1..]
    ensures Mul(Power(i), TWO) == Power(i + 1)
  {
    RingLaws();
    PaddedStep(GF256, TWO, degree, i);
  }

  lemma DivisorEnd(degree: nat)
    ensures Padded(GF256, TWO, degree, degree)[1..] == Generator(degree)
  {
    assert Padded(GF256, TWO, degree, degree) == RootProduct(GF256, TWO, degree);
  }

  /** The inner loop of `reedSolomonComputeDivisor`: multiply the current product by (x - root). */
  method MultiplyByFactor(degree: nat, root: Byte, result: array<Byte>)
    requires degree <= result.Length
    modifies result
    ensures result[..degree] == NextProduct(GF256, old(result[..degree]), root)
    ensures result[degree..] == old(result[degree..])
  {
    hide Mul, Xor;
    ghost var p := result[..degree];
    var j := 0;
    while j < degree
      invariant 0 <= j <= degree
      invariant forall k :: 0 <= k < j ==> result[k] == NextProduct(GF256, p, root)[k]
      invariant forall k :: j <= k < degree ==> result[k] == p[k]
      invariant result[degree..] == old(result[degree..])
    {
      var product := Multiply(result[j], root);
      result[j] := product;
      if j + 1 < degree {
        result[j] := Xor(result[j], result[j + 1]);
      } else {
        XorIdentity(product);
      }
      j := j + 1;
    }
  }

  /** `reedSolomonComputeDivisor` */
  method ComputeDivisor(degree: nat, result: array<Byte>)
    requires 1 <= degree <= DEGREE_MAX && degree <= result.Length
    modifies result
    ensures result[..degree] == Generator(degree)
    ensures result[degree..] == old(result[degree..])
  {
    hide Mul, Xor, Power, Padded, NextProduct, TimesX, Generator;
    forall k | 0 <= k < degree {
      result[k] := ZERO;
    }
    result[degree - 1] := ONE;
    var root := ONE;
    var i := 0;
    DivisorStart(degree, i);
    while i < degree
      invariant 0 <= i <= degree
      invariant root == Power(i)
      invariant result[..degree] == Padded(GF256, TWO, degree, i)[1..]
      invariant result[degree..] == old(result[degree..])
    {
      DivisorStep(degree, i);
      MultiplyByFactor(degree, root, result);
      root := Multiply(root, TWO);
      i := i + 1;
    }
    DivisorEnd(degree);
  }

  /** The inner loop of `reedSolomonComputeRemainder`: subtract a multiple of the generator from the register. */
  method SubtractMultiple(factor: Byte, generator: array<Byte>, degree: nat, result: array<Byte>, to: nat)
    requires degree <= generator.Length && to + degree <= result.Length
    requires generator != result
    modifies result
    ensures result[to..to + degree] ==
            Sum(GF256, old(result[to..to + degree]), Scale(GF256, generator[..degree], factor))
    ensures forall k :: 0 <= k < to || to + degree <= k < result.Length ==> result[k] == old(result[k])
  {
    hide Mul, Xor, Sum, Scale;
    ghost var s := Sum(GF256, result[to..to + degree], Scale(GF256, generator[..degree], factor));
    var j := 0;
    while j < degree
      invariant 0 <= j <= degree
      invariant forall k :: to <= k < to + j ==> result[k] == s[k - to]
      invariant forall k :: to + j <= k < result.Length ==> result[k] == old(result[k])
      invariant forall k :: 0 <= k < to ==> result[k] == old(result[k])
    {
      var product := Multiply(generator[j], factor);
      result[to + j] := Xor(result[to + j], product);
      j := j + 1;
    }
  }

  /** The loop body of `reedSolomonComputeRemainder`: shift the register by one and divide. */
  method ShiftRegister(b: Byte, generator: array<Byte>, degree: nat, result: array<Byte>, to: nat)
    requires 1 <= degree <= generator.Length && to + degree <= result.Length
    requires generator != result
    modifies result
    ensures result[to..to + degree] ==
            RemainderStep(GF256, generator[..degree], old(result[to..to + degree]), b)
    ensures forall k :: 0 <= k < to || to + degree <= k < result.Length ==> result[k] == old(result[k])
  {
    hide Mul, Xor;
    ghost var rem := result[to..to + degree];
    var factor := Xor(b, result[to]);
    forall k | to <= k < to + degree - 1 {
      result[k] := result[k + 1];
    }
    result[to + degree - 1] := ZERO;
    assert result[to..to + degree] == rem[1..] + [ZERO];
    SubtractMultiple(factor, generator, degree, result, to);
  }

  /**
   `reedSolomonComputeRemainder`, with its pointers as offsets: the divided data starts at data[from] and the
   remainder is left at result[to].  The two may lie in one array as long as they do not overlap.
   */
  method ComputeRemainder(data: array<Byte>, from: nat, dataLen: nat, generator: array<Byte>, degree: nat,
                          result: array<Byte>, to: nat)
    requires 1 <= degree <= DEGREE_MAX
    requires from + dataLen <= data.Length && degree <= generator.Length && to + degree <= result.Length
    requires generator != result
    requires data == result ==> from + dataLen <= to || to + degree <= from
    modifies result
    ensures result[to..to + degree] == Remainder(GF256, generator[..degree], old(data[from..from + dataLen]))
    ensures forall k :: 0 <= k < to || to + degree <= k < result.Length ==> result[k] == old(result[k])
  {
    hide Mul, Xor, RemainderStep;
    ghost var g := generator[..degree];
    ghost var input := data[from..from + dataLen];
    forall k | to <= k < to + degree {
      result[k] := ZERO;
    }
    assert result[to..to + degree] == Zeros(GF256, degree);
    var i := 0;
    while i < dataLen
      invariant 0 <= i <= dataLen
      invariant data[from..from + dataLen] == input && generator[..degree] == g
      invariant result[to..to + degree] == Remainder(GF256, g, input[..i])
      invariant forall k :: 0 <= k < to || to + degree <= k < result.Length ==> result[k] == old(result[k])
    {
      assert input[..i + 1][..i] == input[..i] && input[..i + 1][i] == input[i];
      assert data[from + i] == input[i];
      ShiftRegister(data[from + i], generator, degree, result, to);
      i := i + 1;
    }
    assert input[..dataLen] == input;
  }

  // ----- What the error correction codewords are good for.

  /** A block as it is sent: the data, then its error correction codewords. */
  function Codeword(data: seq<Byte>, degree: nat): (w: seq<Byte>)
    requires degree > 0
    ensures |w| == |data| + degree
  {
    data + Remainder(GF256, Generator(degree), data)
  }

  /** The generator, with its implicit leading 1, is the product of the first `degree` factors (x - 2^i). */
  lemma GeneratorIsProduct(degree: nat)
    ensures [ONE] + Generator(degree) == RootProduct(GF256, TWO, degree)
  {
    hide Xor, Mul, RootProduct;
    RingLaws();
    RootProductLeads(GF256, TWO, degree);
    assert RootProduct(GF256, TWO, degree) ==
        [RootProduct(GF256, TWO, degree)[0]] + RootProduct(GF256, TWO, degree)[1..];
  }

  lemma GeneratorRoots(degree: nat, i: nat)
    requires i < degree
    ensures Eval(GF256, [ONE] + Generator(degree), Power(i)) == ZERO
  {
    hide Generator, Xor, Mul, Eval;
    RingLaws();
    GeneratorIsProduct(degree);
    RootProductRoots(GF256, TWO, degree, i);
  }

  /** Every block sent is a multiple of the generator polynomial. */
  lemma CodewordIsMultiple(data: seq<Byte>, degree: nat)
    requires degree > 0
    ensures exists q: seq<Byte> :: |q| == |data| && Times(GF256, q, [ONE] + Generator(degree)) == Codeword(data, degree)
  {
    hide Generator, Xor, Mul, Times;
    RingLaws();
    var q := Quotient(GF256, Generator(degree), data);
    Division(GF256, Generator(degree), data);
    assert |q| == |data| && Times(GF256, q, [ONE] + Generator(degree)) == Codeword(data, degree);
  }

  /** Every block sent, read as a polynomial, vanishes at 2^0, 2^1, ..., 2^(degree-1). */
  lemma CodewordVanishes(data: seq<Byte>, degree: nat, i: nat)
    requires i < degree
    ensures Eval(GF256, Codeword(data, degree), Power(i)) == ZERO
  {
    hide Generator, Xor, Mul, Eval;
    RingLaws();
    GeneratorRoots(degree, i);
    CodewordRoots(GF256, Generator(degree), data, Power(i));
  }

  /** The number of positions at which two words differ. */
  function Differences(s: seq<Byte>, t: seq<Byte>): nat
    requires |s| == |t|
  {
    if s == [] then 0
    else Differences(s[..|s| - 1], t[..|t| - 1]) + if s[|s| - 1] == t[|t| - 1] then 0 else 1
  }

  lemma {:induction false} DifferencesIsWeight(s: seq<Byte>, t: seq<Byte>)
    requires |s| == |t|
    ensures Differences(s, t) == Weight(GF256, Sum(GF256, s, t))
  {
    hide Xor;
    if s == [] {
    } else {
      var n := |s| - 1;
      DifferencesIsWeight(s[..n], t[..n]);
      assert Sum(GF256, s, t)[..n] == Sum(GF256, s[..n], t[..n]);
      RingLaws();
      GF256.SumIsZero(s[n], t[n]);
    }
  }

  lemma {:induction false} NoDifferences(s: seq<Byte>, t: seq<Byte>)
    requires |s| == |t| && Differences(s, t) == 0
    ensures s == t
  {
    if s == [] {
    } else {
      var n := |s| - 1;
      NoDifferences(s[..n], t[..n]);
      assert s == s[..n] + [s[n]] && t == t[..n] + [t[n]];
    }
  }

  lemma LocatorAt(n: nat, i: nat)
    requires i < n
    ensures Locators(GF256, TWO, n)[i] == Power(n - 1 - i)
  {}

  lemma LocatorsDistinct(n: nat)
    requires n <= 255
    ensures Distinct(Locators(GF256, TWO, n))
  {
    hide Locators, Power, Mul, Xor;
    forall i, j | 0 <= i < j < n ensures Locators(GF256, TWO, n)[i] != Locators(GF256, TWO, n)[j] {
      LocatorAt(n, i);
      LocatorAt(n, j);
      DistinctPowers(n - 1 - j, n - 1 - i);
    }
  }

  /** Two words with the same roots differ nowhere or in more places than there are roots. */
  lemma SameRoots(s: seq<Byte>, t: seq<Byte>, degree: nat)
    requires |s| == |t| <= 255
    requires forall i: nat :: i < degree ==> Eval(GF256, s, Power(i)) == ZERO && Eval(GF256, t, Power(i)) == ZERO
    ensures s == t || Differences(s, t) > degree
  {
    hide Xor, Mul, Eval, Differences, Weight, Distinct;
    FieldLaws();
    var w := Sum(GF256, s, t);
    forall i: nat | i < degree ensures Eval(GF256, w, GF256.Pow(TWO, i)) == GF256.zero {
      assert Power(i) == GF256.Pow(TWO, i);
      EvalSum(GF256, s, t, Power(i));
      GF256.SumIsZero(ZERO, ZERO);
    }
    LocatorsDistinct(|w|);
    WordWeight(GF256, w, TWO, degree);
    DifferencesIsWeight(s, t);
    if Differences(s, t) == 0 {
      NoDifferences(s, t);
    }
  }

  /**
   The code detects any `degree` byte errors in a block and can correct half as many: blocks sent for different
   data differ in more than `degree` positions.
   */
  lemma MinimumDistance(data: seq<Byte>, other: seq<Byte>, degree: nat)
    requires degree > 0 && |data| == |other| && |data| + degree <= 255
    requires data != other
    ensures Differences(Codeword(data, degree), Codeword(other, degree)) > degree
  {
    hide Eval, Differences, Generator;
    var s, t := Codeword(data, degree), Codeword(other, degree);
    forall i: nat | i < degree ensures Eval(GF256, s, Power(i)) == ZERO && Eval(GF256, t, Power(i)) == ZERO {
      CodewordVanishes(data, degree, i);
      CodewordVanishes(other, degree, i);
    }
    assert s[..|data|] == data && t[..|data|] == other;
    SameRoots(s, t, degree);
  }

  /** Received bytes pass the root test exactly when the last `degree` of them belong to the others. */
  lemma RootTest(data: seq<Byte>, ecc: seq<Byte>, degree: nat)
    requires |ecc| == degree > 0 && |data| + degree <= 255
    ensures (forall i: nat :: i < degree ==> Eval(GF256, data + ecc, Power(i)) == ZERO)
            <==> data + ecc == Codeword(data, degree)
  {
    hide Eval, Differences, Generator;
    var s, t := data + ecc, Codeword(data, degree);
    forall i: nat | i < degree ensures Eval(GF256, t, Power(i)) == ZERO {
      CodewordVanishes(data, degree, i);
    }
    if forall i: nat :: i < degree ==> Eval(GF256, s, Power(i)) == ZERO {
      SameRoots(s, t, degree);
      DifferencesInTail(data, ecc, t[|data|..]);
      assert t == data + t[|data|..];
    }
  }

  lemma {:induction false} DifferencesInTail(data: seq<Byte>, a: seq<Byte>, b: seq<Byte>)
    requires |a| == |b|
    ensures Differences(data + a, data + b) <= |a|
  {
    if a == [] {
      assert data + a == data && data + b == data;
      SelfDifferences(data);
    } else {
      var n := |a| - 1;
      DifferencesInTail(data, a[..n], b[..n]);
      assert (data + a)[..|data| + n] == data + a[..n] && (data + b)[..|data| + n] == data + b[..n];
    }
  }

  lemma {:induction false} SelfDifferences(s: seq<Byte>)
    ensures Differences(s, s) == 0
  {
    if s != [] {
      SelfDifferences(s[..|s| - 1]);
    }
  }
}
