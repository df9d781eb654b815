/**
 The order of 2 in the field: the powers of 2 are followed, sixteen at a time, round to 2^255 == 1.
 Octets are bytes as records, on which the verifier evaluates closed terms quickly.
 */
module PowersOfTwo {
  import opened Bytes
  import opened GaloisField
  import BitStrings
  import Finite

  datatype Octet = Octet(b0: bool, b1: bool, b2: bool, b3: bool, b4: bool, b5: bool, b6: bool, b7: bool) {
    function ToByte(): Byte {
      [b0, b1, b2, b3, b4, b5, b6, b7]
    }

    /** Multiplication by x, and by its second, fourth, eighth and sixteenth powers. */
    function X1(): Octet { Octet(b7, b0, b1 != b7, b2 != b7, b3 != b7, b4, b5, b6) }
    function X2(): Octet { X1().X1() }
    function X4(): Octet { X2().X2() }
    function X3(): Octet { X2().X1() }
    function X5(): Octet { X4().X1() }
    function X8(): Octet { X4().X4() }
    function X16(): Octet { X8().X8() }
    function X15(): Octet { X8().X4().X2().X1() }
  }

  lemma X1IsTimesX(z: Octet)
    ensures z.X1().ToByte() == TimesX(z.ToByte())
  {
    hide TimesX;
    TimesXAt(z.ToByte());
    ByteEquality(z.X1().ToByte(), TimesX(z.ToByte()));
  }

  /** The powers of 2 that are reached in steps of sixteen. */
  const P0 := Octet(true, false, false, false, false, false, false, false)
  const P16 := Octet(false, false, true, true, false, false, true, false)
  const P32 := Octet(true, false, true, true, true, false, false, true)
  const P48 := Octet(false, true, true, false, false, false, true, false)
  const P64 := Octet(true, true, true, true, true, false, true, false)
  const P80 := Octet(true, false, true, true, true, true, true, true)
  const P96 := Octet(true, false, false, true, true, false, true, true)
  const P112 := Octet(true, false, false, false, false, false, false, true)
  const P128 := Octet(true, false, true, false, false, false, false, true)
  const P144 := Octet(false, false, false, true, false, true, false, true)
  const P160 := Octet(false, true, true, false, false, true, true, true)
  const P176 := Octet(true, true, false, false, false, true, true, true)
  const P192 := Octet(false, true, false, false, false, false, false, true)
  const P208 := Octet(true, false, false, false, true, false, true, false)
  const P224 := Octet(false, true, false, false, true, false, false, false)
  const P240 := Octet(false, false, true, true, false, true, false, false)

  /** 2^255 is 1, and no smaller divisor of 255 will do. */
  lemma LastSteps()
    ensures P240.X15() == P0
    ensures P0.X15() != P0
    ensures P48.X3() != P0
    ensures P80.X5() != P0
  {}

  const TWO: Byte := TimesX(ONE)

  lemma TimesTwo(a: Byte)
    ensures Mul(a, TWO) == TimesX(a)
  {
    MulCommutative(a, TWO);
    MulTimesX(ONE, a);
    MulOne(a);
  }

  /** 2 to the power k in the field. */
  function Power(k: nat): Byte {
    GF256.Pow(TWO, k)
  }

  lemma PowerStep(k: nat)
    ensures Power(k + 1) == TimesX(Power(k))
  {
    TimesTwo(Power(k));
  }

  lemma PowerBase(k: nat)
    requires k == 0
    ensures Power(k) == ONE == P0.ToByte()
  {}

  lemma PowerOctet(k: nat, z: Octet)
    requires Power(k) == z.ToByte()
    ensures Power(k + 1) == z.X1().ToByte()
    ensures Power(k + 2) == z.X2().ToByte()
    ensures Power(k + 4) == z.X4().ToByte()
  {
    hide Power, TimesX;
    X1IsTimesX(z);
    X1IsTimesX(z.X1());
    X1IsTimesX(z.X2());
    X1IsTimesX(z.X2().X1());
    PowerStep(k);
    PowerStep(k + 1);
    PowerStep(k + 2);
    PowerStep(k + 3);
  }

  lemma PowerOctet16(k: nat, z: Octet)
    requires Power(k) == z.ToByte()
    ensures Power(k + 8) == z.X8().ToByte()
    ensures Power(k + 16) == z.X16().ToByte()
  {
    hide Power, TimesX;
    PowerOctet(k, z);
    PowerOctet(k + 4, z.X4());
    PowerOctet(k + 8, z.X8());
    PowerOctet(k + 12, z.X8().X4());
  }

  lemma ToByteInjective(a: Octet, b: Octet)
    requires a.ToByte() == b.ToByte()
    ensures a == b
  {
    var s, t := a.ToByte(), b.ToByte();
    assert s[0] == t[0] && s[1] == t[1] && s[2] == t[2] && s[3] == t[3];
    assert s[4] == t[4] && s[5] == t[5] && s[6] == t[6] && s[7] == t[7];
  }

  // Each milestone is sixteen steps after the one before.

  lemma Reach16(k: nat)
    requires k == 16
    ensures Power(k) == P16.ToByte()
  {
    hide Power, TimesX;
    PowerBase(k - 16);
    PowerOctet16(k - 16, P0);
    assert P0.X16() == P16;
  }

  lemma Reach32(k: nat)
    requires k == 32
    ensures Power(k) == P32.ToByte()
  {
    hide Power, TimesX;
    Reach16(k - 16);
    PowerOctet16(k - 16, P16);
    assert P16.X16() == P32;
  }

  lemma Reach48(k: nat)
    requires k == 48
    ensures Power(k) == P48.ToByte()
  {
    hide Power, TimesX;
    Reach32(k - 16);
    PowerOctet16(k - 16, P32);
    assert P32.X16() == P48;
  }

  lemma Reach64(k: nat)
    requires k == 64
    ensures Power(k) == P64.ToByte()
  {
    hide Power, TimesX;
    Reach48(k - 16);
    PowerOctet16(k - 16, P48);
    assert P48.X16() == P64;
  }

  lemma Reach80(k: nat)
    requires k == 80
    ensures Power(k) == P80.ToByte()
  {
    hide Power, TimesX;
    Reach64(k - 16);
    PowerOctet16(k - 16, P64);
    assert P64.X16() == P80;
  }

  lemma Reach96(k: nat)
    requires k == 96
    ensures Power(k) == P96.ToByte()
  {
    hide Power, TimesX;
    Reach80(k - 16);
    PowerOctet16(k - 16, P80);
    assert P80.X16() == P96;
  }

  lemma Reach112(k: nat)
    requires k == 112
    ensures Power(k) == P112.ToByte()
  {
    hide Power, TimesX;
    Reach96(k - 16);
    PowerOctet16(k - 16, P96);
    assert P96.X16() == P112;
  }

  lemma Reach128(k: nat)
    requires k == 128
    ensures Power(k) == P128.ToByte()
  {
    hide Power, TimesX;
    Reach112(k - 16);
    PowerOctet16(k - 16, P112);
    assert P112.X16() == P128;
  }

  lemma Reach144(k: nat)
    requires k == 144
    ensures Power(k) == P144.ToByte()
  {
    hide Power, TimesX;
    Reach128(k - 16);
    PowerOctet16(k - 16, P128);
    assert P128.X16() == P144;
  }

  lemma Reach160(k: nat)
    requires k == 160
    ensures Power(k) == P160.ToByte()
  {
    hide Power, TimesX;
    Reach144(k - 16);
    PowerOctet16(k - 16, P144);
    assert P144.X16() == P160;
  }

  lemma Reach176(k: nat)
    requires k == 176
    ensures Power(k) == P176.ToByte()
  {
    hide Power, TimesX;
    Reach160(k - 16);
    PowerOctet16(k - 16, P160);
    assert P160.X16() == P176;
  }

  lemma Reach192(k: nat)
    requires k == 192
    ensures Power(k) == P192.ToByte()
  {
    hide Power, TimesX;
    Reach176(k - 16);
    PowerOctet16(k - 16, P176);
    assert P176.X16() == P192;
  }

  lemma Reach208(k: nat)
    requires k == 208
    ensures Power(k) == P208.ToByte()
  {
    hide Power, TimesX;
    Reach192(k - 16);
    PowerOctet16(k - 16, P192);
    assert P192.X16() == P208;
  }

  lemma Reach224(k: nat)
    requires k == 224
    ensures Power(k) == P224.ToByte()
  {
    hide Power, TimesX;
    Reach208(k - 16);
    PowerOctet16(k - 16, P208);
    assert P208.X16() == P224;
  }

  lemma Reach240(k: nat)
    requires k == 240
    ensures Power(k) == P240.ToByte()
  {
    hide Power, TimesX;
    Reach224(k - 16);
    PowerOctet16(k - 16, P224);
    assert P224.X16() == P240;
  }

  /** The last fifteen steps before a multiple of sixteen. */
  lemma PowerOctet15(k: nat, z: Octet)
    requires Power(k) == z.ToByte()
    ensures Power(k + 15) == z.X15().ToByte()
  {
    hide Power, TimesX;
    PowerOctet16(k, z);
    PowerOctet(k + 8, z.X8());
    PowerOctet(k + 12, z.X8().X4());
    PowerOctet(k + 14, z.X8().X4().X2());
  }

  lemma PowerOctet3(k: nat, z: Octet)
    requires Power(k) == z.ToByte()
    ensures Power(k + 3) == z.X3().ToByte()
  {
    hide Power, TimesX;
    PowerOctet(k, z);
    PowerOctet(k + 2, z.X2());
  }

  lemma PowerOctet5(k: nat, z: Octet)
    requires Power(k) == z.ToByte()
    ensures Power(k + 5) == z.X5().ToByte()
  {
    hide Power, TimesX;
    PowerOctet(k, z);
    PowerOctet(k + 4, z.X4());
  }

  lemma PowerAt255(k: nat)
    requires k == 255
    ensures Power(k) == ONE
  {
    hide Power, TimesX;
    Reach240(k - 15);
    PowerOctet15(k - 15, P240);
    LastSteps();
  }

  lemma PowerAt15(k: nat)
    requires k == 15
    ensures Power(k) != ONE
  {
    hide Power, TimesX;
    PowerBase(k - 15);
    PowerOctet15(k - 15, P0);
    LastSteps();
    if Power(k) == ONE { ToByteInjective(P0.X15(), P0); }
  }

  lemma PowerAt51(k: nat)
    requires k == 51
    ensures Power(k) != ONE
  {
    hide Power, TimesX;
    Reach48(k - 3);
    PowerOctet3(k - 3, P48);
    LastSteps();
    if Power(k) == ONE { ToByteInjective(P48.X3(), P0); }
  }

  lemma PowerAt85(k: nat)
    requires k == 85
    ensures Power(k) != ONE
  {
    hide Power, TimesX;
    Reach80(k - 5);
    PowerOctet5(k - 5, P80);
    LastSteps();
    if Power(k) == ONE { ToByteInjective(P80.X5(), P0); }
  }

  /** The first 255 powers of 2 are distinct: 2 generates the multiplicative group. */
  lemma DistinctPowers(i: nat, j: nat)
    requires i < j < 255
    ensures Power(i) != Power(j)
  {
    RingLaws();
    var n15, n51, n85, n255 := j + (15 - j), j + (51 - j), j + (85 - j), j + (255 - j);
    PowerAt15(n15);
    PowerAt51(n51);
    PowerAt85(n85);
    PowerAt255(n255);
    GF256.DistinctPowers(TWO, i, j, n15, n51, n85, n255);
  }

  lemma NumberOfByte(a: Byte)
    ensures BitStrings.NumberOf(a) < 256
    ensures BitStrings.NumberOf(a) == 0 <==> a == ZERO
  {
    assert BitStrings.Pow2(8) == 256;
    BitStrings.ZeroBits(8);
    assert seq(8, _ => false) == ZERO;
    if BitStrings.NumberOf(a) == 0 {
      BitStrings.NumberInjective(a, ZERO);
    }
  }

  lemma PowerNonZero(k: nat)
    requires k <= 255
    ensures Power(k) != ZERO
  {
    RingLaws();
    GF256.PowAdd(TWO, k, 255 - k);
    PowerAt255(k + (255 - k));
    if Power(k) == ZERO {
      GF256.MulZero(Power(255 - k));
    }
  }

  /** Every non-zero byte is a power of 2. */
  lemma Logarithm(a: Byte) returns (k: nat)
    requires a != ZERO
    ensures k < 255 && Power(k) == a
  {
    hide Power, BitStrings.NumberOf, Finite.Values, Finite.Range;
    var s := seq(255, i requires 0 <= i < 255 => BitStrings.NumberOf(Power(i)));
    forall i, j | 0 <= i < j < 255 ensures s[i] != s[j] {
      DistinctPowers(i, j);
      if s[i] == s[j] {
        BitStrings.NumberInjective(Power(i), Power(j));
      }
    }
    forall i | 0 <= i < 255 ensures 1 <= s[i] < 256 {
      PowerNonZero(i);
      NumberOfByte(Power(i));
    }
    NumberOfByte(a);
    k := Finite.Pigeonhole(s, 1, 256, BitStrings.NumberOf(a));
    BitStrings.NumberInjective(Power(k), a);
  }

  lemma InverseExists(a: Byte) returns (b: Byte)
    requires a != ZERO
    ensures Mul(a, b) == ONE
  {
    var k := Logarithm(a);
    RingLaws();
    GF256.PowAdd(TWO, k, 255 - k);
    PowerAt255(k + (255 - k));
    b := Power(255 - k);
  }

  /** The ring is a field. */
  lemma FieldLaws()
    ensures GF256.Valid()
    ensures GF256.NoZeroDivisors()
  {
    RingLaws();
    forall a: Byte, b: Byte | GF256.mul(a, b) == GF256.zero ensures a == GF256.zero || b == GF256.zero {
      if a != GF256.zero {
        var c := InverseExists(a);
        GF256.UnitIsNoZeroDivisor(a, c, b);
      }
    }
  }
}
