/**
 The field GF(2^8) modulo x^8 + x^4 + x^3 + x^2 + 1 (0x11D) and the multiplication loop of the encoder.
 A byte is a polynomial over GF(2), bit i being the coefficient of x^i, so that exclusive-or is both
 addition and subtraction.
 */
module GaloisField {
  import opened Bytes
  import opened Algebra

  /** 0x11D without its leading term. */
  const REDUCER: Byte := [true, false, true, true, true, false, false, false]

  /** The low eight bits of `z << 1`. */
  function ShiftLeft(z: Byte): Byte {
    [false] + z[..7]
  }

  /** Multiplication by the polynomial x: a carry out of bit 7 is replaced by the rest of 0x11D. */
  function TimesX(z: Byte): Byte {
    Xor(ShiftLeft(z), if z[7] then REDUCER else ZERO)
  }

  /** The polynomial with coefficients b[i], b[i + 1], ... evaluated at x and multiplied by `a`. */
  function HighPart(a: Byte, b: Byte, i: nat): Byte
    requires i <= |b|
    decreases |b| - i
  {
    if i == |b| then ZERO else Xor(TimesX(HighPart(a, b, i + 1)), if b[i] then a else ZERO)
  }

  /** The product in the field. */
  function Mul(a: Byte, b: Byte): Byte {
    HighPart(a, b, 8 - |b|)
  }

  /** `reedSolomonMultiply`: Russian-peasant multiplication, from the highest bit of `y` down. */
  method Multiply(x: Byte, y: Byte) returns (z: Byte)
    ensures z == Mul(x, y)
  {
    z := ZERO;
    var i := 7;
    while i >= 0
      invariant -1 <= i <= 7
      invariant z == HighPart(x, y, i + 1)
    {
      z := Xor(ShiftLeft(z), if z[7] then REDUCER else ZERO);
      z := Xor(z, if y[i] then x else ZERO);
      i := i - 1;
    }
  }

  // ----- The laws of the field.

  /** Bytes under exclusive-or, with multiplication by x as the operator. */
  const ByteSpace: Space<Byte> := Space(ZERO, (a: Byte, b: Byte) => Xor(a, b), (a: Byte) => TimesX(a))

  lemma TimesXAt(z: Byte)
    ensures var t := TimesX(z);
            && t[0] == z[7] && t[1] == z[0] && t[2] == (z[1] != z[7]) && t[3] == (z[2] != z[7])
            && t[4] == (z[3] != z[7]) && t[5] == z[4] && t[6] == z[5] && t[7] == z[6]
  {
    XorAt(ShiftLeft(z), REDUCER);
    XorAt(ShiftLeft(z), ZERO);
  }

  lemma TimesXXor(a: Byte, b: Byte)
    ensures TimesX(Xor(a, b)) == Xor(TimesX(a), TimesX(b))
  {
    hide TimesX, XorBits;
    TimesXAt(a);
    TimesXAt(b);
    XorAt(a, b);
    TimesXAt(Xor(a, b));
    XorAt(TimesX(a), TimesX(b));
    ByteEquality(TimesX(Xor(a, b)), Xor(TimesX(a), TimesX(b)));
  }

  lemma ByteSpaceValid()
    ensures ByteSpace.Valid()
  {
    var s := ByteSpace;
    forall a: Byte, b: Byte ensures s.Commutes(a, b) {
      XorCommutative(a, b);
    }
    forall a: Byte, b: Byte, c: Byte ensures s.Associates(a, b, c) {
      XorAssociative(a, b, c);
    }
    forall a: Byte ensures s.add(a, s.zero) == a && s.add(a, a) == s.zero {
      XorIdentity(a);
    }
    forall a: Byte, b: Byte ensures s.Linear(a, b) {
      TimesXXor(a, b);
    }
  }

  lemma {:induction false} HighPartIsApply(a: Byte, b: Byte, i: nat)
    requires i <= |b|
    ensures HighPart(a, b, i) == ByteSpace.Apply(b[i..], a)
    decreases |b| - i
  {
    if i < |b| {
      HighPartIsApply(a, b, i + 1);
      assert b[i..][0] == b[i] && b[i..][1..] == b[i + 1..];
      XorCommutative(TimesX(HighPart(a, b, i + 1)), ByteSpace.Choose(b[i], a));
    }
  }

  /** The product is the polynomial `b` in the operator TimesX, applied to `a`. */
  lemma MulIsApply(a: Byte, b: Byte)
    ensures Mul(a, b) == ByteSpace.Apply(b, a)
  {
    HighPartIsApply(a, b, 8 - |b|);
    assert b[8 - |b|..] == b;
  }

  lemma MulCommutative(a: Byte, b: Byte)
    ensures Mul(a, b) == Mul(b, a)
  {
    ByteSpaceValid();
    MulIsApply(a, b);
    MulIsApply(b, a);
    ApplyToOne(a);
    ApplyToOne(b);
    ByteSpace.ApplyCommutes(b, a, ONE);
  }

  lemma MulAssociative(a: Byte, b: Byte, c: Byte)
    ensures Mul(Mul(a, b), c) == Mul(a, Mul(b, c))
  {
    ByteSpaceValid();
    MulCommutative(a, b);
    MulCommutative(a, Mul(b, c));
    MulIsApply(b, a);
    MulIsApply(Mul(b, a), c);
    MulIsApply(b, c);
    MulIsApply(Mul(b, c), a);
    ByteSpace.ApplyCommutes(c, a, b);
  }

  lemma MulDistributes(a: Byte, b: Byte, c: Byte)
    ensures Mul(a, Xor(b, c)) == Xor(Mul(a, b), Mul(a, c))
  {
    ByteSpaceValid();
    MulCommutative(a, b);
    MulCommutative(a, c);
    MulCommutative(a, Xor(b, c));
    MulIsApply(b, a);
    MulIsApply(c, a);
    MulIsApply(Xor(b, c), a);
    ByteSpace.ApplyAdd(a, b, c);
  }

  /** GF(2^8) modulo 0x11D, with exclusive-or as addition. */
  const GF256: Ring<Byte> :=
    Ring(ZERO, ONE, (a: Byte, b: Byte) => Xor(a, b), (a: Byte, b: Byte) => Mul(a, b))

  lemma RingLaws()
    ensures GF256.Valid()
  {
    var f := GF256;
    assert ONE[0] && !ZERO[0];
    forall a: Byte, b: Byte ensures f.AddCommutes(a, b) {
      XorCommutative(a, b);
    }
    forall a: Byte, b: Byte, c: Byte ensures f.AddAssociates(a, b, c) {
      XorAssociative(a, b, c);
    }
    forall a: Byte ensures f.add(a, f.zero) == a && f.add(a, a) == f.zero {
      XorIdentity(a);
    }
    forall a: Byte, b: Byte ensures f.Commutes(a, b) {
      MulCommutative(a, b);
    }
    forall a: Byte, b: Byte, c: Byte ensures f.Associates(a, b, c) {
      MulAssociative(a, b, c);
    }
    forall a: Byte ensures f.mul(a, f.one) == a {
      MulOne(a);
    }
    forall a: Byte, b: Byte, c: Byte ensures f.Distributes(a, b, c) {
      MulDistributes(a, b, c);
    }
  }

  lemma MulTimesX(a: Byte, b: Byte)
    ensures Mul(TimesX(a), b) == TimesX(Mul(a, b))
  {
    ByteSpaceValid();
    MulIsApply(a, b);
    MulIsApply(TimesX(a), b);
    ByteSpace.ApplyOp(b, a);
  }

  lemma MulOne(a: Byte)
    ensures Mul(a, ONE) == a
    ensures Mul(ONE, a) == a
  {
    MulIsApply(ONE, a);
    ApplyToOne(a);
    MulCommutative(a, ONE);
  }

  /** A byte is the sum of the powers of x that occur in it. */
  lemma ApplyToOne(a: Byte)
    ensures ByteSpace.Apply(a, ONE) == a
  {
    SuffixApplied(a, 8 - |a|);
    assert ShiftedDown(a, 8 - |a|) == a;
  }

  /** `a >> i` */
  function ShiftedDown(a: Byte, i: nat): Byte
    requires i <= 8
  {
    a[i..] + seq(i, _ => false)
  }

  lemma ShiftedDownStep(a: Byte, i: nat)
    requires i < 8
    ensures [a[i]] + ShiftedDown(a, i + 1)[..7] == ShiftedDown(a, i)
    ensures !ShiftedDown(a, i + 1)[7]
  {}

  lemma ShiftAndAdd(c: bool, r: Byte)
    requires !r[7]
    ensures Xor(if c then ONE else ZERO, TimesX(r)) == [c] + r[..7]
  {
    TimesXAt(r);
    XorAt(ZERO, TimesX(r));
    XorAt(ONE, TimesX(r));
  }

  lemma {:induction false} SuffixApplied(a: Byte, i: nat)
    requires i <= 8
    ensures ByteSpace.Apply(a[i..], ONE) == ShiftedDown(a, i)
    decreases 8 - i
  {
    if i == 8 {
    } else {
      SuffixApplied(a, i + 1);
      assert a[i..][0] == a[i] && a[i..][1..] == a[i + 1..];
      ShiftAndAdd(a[i], ShiftedDown(a, i + 1));
      ShiftedDownStep(a, i);
    }
  }
}
