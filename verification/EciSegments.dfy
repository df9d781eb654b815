/** Extended Channel Interpretation segments (section 7.4.2 of ISO/IEC 18004:2015). */
module EciSegments {
  import opened Options
  import opened Bytes
  import opened BitStrings
  import opened BitBuffer
  import opened Segments

  /** An assignment number, as `qrcodegen_makeEci` asserts it. */
  type Assignment = v: int | 0 <= v < 1_000_000

  /** The designator: one, two or three bytes, told apart by their first bits. */
  function Designator(v: Assignment): (s: seq<bool>)
    ensures |s| == 8 * DesignatorLen(v)
  {
    if v < 128 then BitsOf(v, 8)
    else if v < 16384 then BitsOf(2, 2) + BitsOf(v, 14)
    else BitsOf(6, 3) + BitsOf(v, 21)
  }

  function DesignatorLen(v: Assignment): nat {
    if v < 128 then 1 else if v < 16384 then 2 else 3
  }

  /** What a decoder makes of the payload. */
  function Assigned(payload: seq<bool>): nat
    requires EciLen(payload) == Some(|payload|)
  {
    if |payload| == 8 then NumberOf(payload)
    else if |payload| == 16 then NumberOf(payload[2..])
    else NumberOf(payload[3..])
  }

  lemma Prefixes()
    ensures BitsOf(2, 2) == [true, false] && BitsOf(6, 3) == [true, true, false]
  {
    assert BitsOf(1, 1) == [true] by { assert BitsOf(0, 0) == []; }
    assert BitsOf(2, 2) == BitsOf(1, 1) + [false];
    assert BitsOf(3, 2) == BitsOf(1, 1) + [true];
    assert BitsOf(6, 3) == BitsOf(3, 2) + [false];
  }

  /** The first bits of a designator tell its length. */
  lemma DesignatorTellsLen(v: Assignment)
    ensures EciLen(Designator(v)) == Some(|Designator(v)|)
  {
    hide BitsOf, Pow2;
    Prefixes();
    SmallPowers();
    if v < 128 {
      BitsOfAt(v, 8, 7);
    }
  }

  /** One byte up to 127, two up to 16383, three for larger numbers. */
  lemma DesignatorBits(v: Assignment)
    ensures v <= 127 ==> Designator(v) == [false] + BitsOf(v, 7)
    ensures 128 <= v <= 16383 ==> Designator(v) == [true, false] + BitsOf(v, 14)
    ensures 16384 <= v ==> Designator(v) == [true, true, false] + BitsOf(v, 21)
  {
    hide BitsOf, Pow2;
    Prefixes();
    SmallPowers();
    if v <= 127 {
      BitsSplit(v, 0, v, 1, 7);
      ZeroBit();
    }
  }

  lemma ZeroBit()
    ensures BitsOf(0, 1) == [false]
  {
    assert BitsOf(0, 0) == [];
  }

  /** Decoding a designator gives the assignment number back. */
  lemma EciRoundTrip(v: Assignment)
    ensures EciLen(Designator(v)) == Some(|Designator(v)|) && Assigned(Designator(v)) == v
  {
    hide BitsOf, Pow2, NumberOf, EciLen;
    Prefixes();
    SmallPowers();
    DesignatorTellsLen(v);
    if v < 128 {
      NumberOfBits(v, 8);
    } else if v < 16384 {
      NumberOfBits(v, 14);
      assert Designator(v)[2..] == BitsOf(v, 14);
    } else {
      NumberOfBits(v, 21);
      assert Designator(v)[3..] == BitsOf(v, 21);
    }
  }

  /** The writes of the three cases. */
  method WriteDesignator(v: Assignment, buf: array<Byte>) returns (bitLength: nat)
    requires DesignatorLen(v) <= buf.Length
    requires Holds(buf[..], DesignatorLen(v), [])
    modifies buf
    ensures Holds(buf[..], DesignatorLen(v), Designator(v)) && bitLength == |Designator(v)|
  {
    hide BitsOf, Pow2, Holds;
    Prefixes();
    SmallPowers();
    var n := DesignatorLen(v);
    if v < 128 {
      bitLength := AppendToClean(v, 8, buf, 0, n, []);
      assert [] + BitsOf(v, 8) == BitsOf(v, 8);
    } else if v < 16384 {
      bitLength := AppendToClean(2, 2, buf, 0, n, []);
      assert [] + BitsOf(2, 2) == BitsOf(2, 2);
      bitLength := AppendToClean(v, 14, buf, bitLength, n, BitsOf(2, 2));
    } else {
      bitLength := AppendToClean(6, 3, buf, 0, n, []);
      assert [] + BitsOf(6, 3) == BitsOf(6, 3);
      bitLength := AppendToClean(v / 1024, 11, buf, bitLength, n, BitsOf(6, 3));
      bitLength := AppendToClean(v % 1024, 10, buf, bitLength, n, BitsOf(6, 3) + BitsOf(v / 1024, 11));
      BitsSplit(v, v / 1024, v % 1024, 11, 10);
      JoinBits(BitsOf(6, 3), BitsOf(v / 1024, 11), BitsOf(v % 1024, 10));
    }
  }

  /** `qrcodegen_makeEci` */
  method MakeEci(assignVal: Assignment, buf: array<Byte>) returns (seg: RawSegment)
    requires DesignatorLen(assignVal) <= buf.Length
    modifies buf
    ensures seg.Valid() && seg.mode == ECI && seg.numChars == 0 && seg.data == buf[..]
    ensures WellFormed(seg) && seg.Payload() == Designator(assignVal)
  {
    hide Designator, Holds, RawSegment.Payload, EciLen;
    Clear(buf, DesignatorLen(assignVal));
    var bitLength := WriteDesignator(assignVal, buf);
    seg := RawSegment.Segment(ECI, 0, buf[..], bitLength);
    HeldPayload(seg, DesignatorLen(assignVal), Designator(assignVal));
    DesignatorTellsLen(assignVal);
  }
}
