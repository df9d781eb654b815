/**
 Segments of a QR Code: modes, lengths, the bit string they make up, and a parser for that string
 (section 7.4 of ISO/IEC 18004:2015).
 */
module Segments {
  import opened Options
  import opened Bytes
  import opened BitStrings
  import opened BitBuffer

  const INT16_MAX := 32767

  datatype Mode = NUMERIC | ALPHANUMERIC | BYTE | KANJI | ECI

  /** The mode indicator. */
  function Indicator(mode: Mode): nat {
    match mode
    case NUMERIC => 1
    case ALPHANUMERIC => 2
    case BYTE => 4
    case KANJI => 8
    case ECI => 7
  }

  /** `numCharCountBits`: the width of the character count. */
  function CountBits(mode: Mode, version: nat): (n: nat)
    requires 1 <= version <= 40
    ensures n <= 16
  {
    var i := (version + 7) / 17;
    match mode
    case NUMERIC => if i == 0 then 10 else if i == 1 then 12 else 14
    case ALPHANUMERIC => if i == 0 then 9 else if i == 1 then 11 else 13
    case BYTE => if i == 0 then 8 else 16
    case KANJI => if i == 0 then 8 else if i == 1 then 10 else 12
    case ECI => 0
  }

  /** The widths of numeric, alphanumeric, byte, Kanji and ECI counts: they change with versions 10 and 27. */
  lemma CountWidths(version: nat)
    requires 1 <= version <= 40
    ensures [CountBits(NUMERIC, version), CountBits(ALPHANUMERIC, version), CountBits(BYTE, version),
             CountBits(KANJI, version), CountBits(ECI, version)] ==
            if version <= 9 then [10, 9, 8, 8, 0] else if version <= 26 then
                [12, 11, 16, 10, 0] else [14, 13, 16, 12, 0]
  {
    var i := (version + 7) / 17;
    assert i == if version <= 9 then 0 else if version <= 26 then 1 else 2;
  }

  /** `calcSegmentBitLength`: the number of payload bits of `numChars` characters, if it is a valid length. */
  function SegmentBitLength(mode: Mode, numChars: nat): Option<nat> {
    if numChars > INT16_MAX then None
    else
      var result :=
        match mode
        case NUMERIC => Some((numChars * 10 + 2) / 3)
        case ALPHANUMERIC => Some((numChars * 11 + 1) / 2)
        case BYTE => Some(numChars * 8)
        case KANJI => Some(numChars * 13)
        case ECI => if numChars == 0 then Some(24) else None;
      if result.Some? && result.value > INT16_MAX then None else result
  }

  /** A segment as the encoder is given it.  Its lengths are within the bounds that the encoder asserts. */
  datatype RawSegment = Segment(mode: Mode, numChars: nat, data: seq<Byte>, bitLength: nat) {
    predicate Valid() {
      numChars <= INT16_MAX && bitLength <= INT16_MAX && bitLength <= 8 * |data|
    }

    function Payload(): (s: seq<bool>)
      requires Valid()
      ensures |s| == bitLength
    {
      AllBits(data)[..bitLength]
    }
  }

  type Segment = s: RawSegment | s.Valid() witness Segment(BYTE, 0, [], 0)

  lemma HeldPayload(seg: RawSegment, n: nat, bits: seq<bool>)
    requires Holds(seg.data, n, bits) && seg.bitLength == |bits| && seg.numChars <= INT16_MAX && |bits| <= INT16_MAX
    ensures seg.Valid() && seg.Payload() == bits
  {}

  /** The count fits its field. */
  predicate CountFits(seg: Segment, version: nat)
    requires 1 <= version <= 40
  {
    seg.numChars < Pow2(CountBits(seg.mode, version))
  }

  /** Mode, count and payload of one segment. */
  function SegmentBits(seg: Segment, version: nat): (s: seq<bool>)
    requires 1 <= version <= 40
    ensures |s| == 4 + CountBits(seg.mode, version) + seg.bitLength
  {
    BitsOf(Indicator(seg.mode), 4) + BitsOf(seg.numChars, CountBits(seg.mode, version)) + seg.Payload()
  }

  /** The mode indicators, bit by bit. */
  lemma SegmentStarts(seg: Segment, version: nat)
    requires 1 <= version <= 40
    ensures SegmentBits(seg, version)[..4] ==
            match seg.mode
            case NUMERIC => [false, false, false, true]
            case ALPHANUMERIC => [false, false, true, false]
            case BYTE => [false, true, false, false]
            case KANJI => [true, false, false, false]
            case ECI => [false, true, true, true]
  {
    hide RawSegment.Payload, CountBits, BitsOf;
    IndicatorBits();
  }

  lemma IndicatorBits()
    ensures BitsOf(1, 4) == [false, false, false, true] && BitsOf(2, 4) == [false, false, true, false]
    ensures BitsOf(4, 4) == [false, true, false, false] && BitsOf(8, 4) == [true, false, false, false]
    ensures BitsOf(7, 4) == [false, true, true, true]
  {
    hide BitsOf;
    TwoBits();
    LastBit(0, 3);
    LastBit(1, 3);
    LastBit(2, 3);
    LastBit(3, 3);
    LastBit(4, 3);
    LastBit(1, 4);
    LastBit(2, 4);
    LastBit(4, 4);
    LastBit(8, 4);
    LastBit(7, 4);
  }

  lemma TwoBits()
    ensures BitsOf(0, 2) == [false, false] && BitsOf(1, 2) == [false, true] && BitsOf(2, 2) == [true, false]
  {
    assert BitsOf(0, 1) == [false] && BitsOf(1, 1) == [true] by {
      assert BitsOf(0, 0) == [];
    }
  }

  /** The bits of all segments. */
  function DataBits(segs: seq<Segment>, version: nat): seq<bool>
    requires 1 <= version <= 40
  {
    if segs == [] then [] else DataBits(segs[..|segs| - 1], version) + SegmentBits(segs[|segs| - 1], version)
  }

  /** The bit string can be written at this version: all counts fit and it is not overlong. */
  predicate Writable(segs: seq<Segment>, version: nat)
    requires 1 <= version <= 40
  {
    (forall i :: 0 <= i < |segs| ==> CountFits(segs[i], version)) && |DataBits(segs, version)| <= INT16_MAX
  }

  lemma {:induction false} PrefixIsShorter(segs: seq<Segment>, version: nat, k: nat)
    requires 1 <= version <= 40 && k <= |segs|
    ensures |DataBits(segs[..k], version)| <= |DataBits(segs, version)|
  {
    if k == |segs| {
      assert segs[..k] == segs;
    } else {
      PrefixIsShorter(segs[..|segs| - 1], version, k);
      assert segs[..|segs| - 1][..k] == segs[..k];
    }
  }

  lemma DataBitsStep(segs: seq<Segment>, version: nat, k: nat)
    requires 1 <= version <= 40 && k < |segs|
    ensures DataBits(segs[..k + 1], version) == DataBits(segs[..k], version) + SegmentBits(segs[k], version)
  {
    assert segs[..k + 1][..k] == segs[..k];
  }

  /** `getTotalBits` */
  method TotalBits(segs: seq<Segment>, version: nat) returns (r: Option<nat>)
    requires 1 <= version <= 40
    ensures r == if Writable(segs, version) then Some(|DataBits(segs, version)|) else None
  {
    hide CountBits, Pow2, SegmentBits, RawSegment.Payload;
    var result := 0;
    var i := 0;
    while i < |segs|
      invariant 0 <= i <= |segs|
      invariant forall j :: 0 <= j < i ==> CountFits(segs[j], version)
      invariant result == |DataBits(segs[..i], version)| <= INT16_MAX
    {
      var ccbits := CountBits(segs[i].mode, version);
      if segs[i].numChars >= Pow2(ccbits) {
        assert !CountFits(segs[i], version);
        return None;
      }
      DataBitsStep(segs, version, i);
      PrefixIsShorter(segs, version, i + 1);
      result := result + 4 + ccbits + segs[i].bitLength;
      if result > INT16_MAX {
        return None;
      }
      i := i + 1;
    }
    assert segs[..i] == segs;
    return Some(result);
  }

  // ----- Reading the bit string back.

  datatype Token = Token(mode: Mode, numChars: nat, payload: seq<bool>)

  function ModeOf(indicator: nat): Option<Mode> {
    if indicator == 1 then Some(NUMERIC) else if indicator == 2 then Some(ALPHANUMERIC)
    else if indicator == 4 then Some(BYTE) else if indicator == 8 then Some(KANJI)
    else if indicator == 7 then Some(ECI) else None
  }

  /**
   The length of the payload of an ECI segment, which its first bits tell: 0 for one byte, 10 for two and 110 for three
   (section 7.4.2).
   */
  function EciLen(bits: seq<bool>): (len: Option<nat>) {
    if |bits| >= 1 && !bits[0] then Some(8)
    else if |bits| >= 2 && !bits[1] then Some(16)
    else if |bits| >= 3 && !bits[2] then Some(24)
    else None
  }

  /** The length of the payload at the front of `bits`. */
  function PayloadLen(mode: Mode, numChars: nat, bits: seq<bool>): (len: Option<nat>) {
    if mode == ECI then EciLen(bits) else SegmentBitLength(mode, numChars)
  }

  /** A decoder: segments are read until fewer than four bits or the terminator 0000 remain. */
  function Parse(bits: seq<bool>, version: nat): Option<seq<Token>>
    requires 1 <= version <= 40
  {
    if |bits| < 4 || NumberOf(bits[..4]) == 0 then Some([])
    else
      match ModeOf(NumberOf(bits[..4]))
      case None => None
      case Some(mode) =>
        var cc := CountBits(mode, version);
        if |bits| < 4 + cc then None
        else
          var count := NumberOf(bits[4..4 + cc]);
          match PayloadLen(mode, count, bits[4 + cc..])
          case None => None
          case Some(len) =>
            if |bits| < 4 + cc + len then None
            else
              match Parse(bits[4 + cc + len..], version)
              case None => None
              case Some(tokens) => Some([Token(mode, count, bits[4 + cc..4 + cc + len])] + tokens)
  }

  /** The payload has the length that belongs to the mode and the count, or to its own first bits. */
  predicate WellFormed(seg: Segment) {
    PayloadLen(seg.mode, seg.numChars, seg.Payload()) == Some(seg.bitLength)
  }

  function TokenOf(seg: Segment): Token {
    Token(seg.mode, seg.numChars, seg.Payload())
  }

  function TokensOf(segs: seq<Segment>): (t: seq<Token>)
    ensures |t| == |segs| && forall i :: 0 <= i < |t| ==> t[i] == TokenOf(segs[i])
  {
    seq(|segs|, i requires 0 <= i < |segs| => TokenOf(segs[i]))
  }

  lemma ModeRoundTrip(mode: Mode)
    ensures NumberOf(BitsOf(Indicator(mode), 4)) == Indicator(mode) && ModeOf(Indicator(mode)) == Some(mode)
  {
    assert Pow2(4) == 16;
    NumberOfBits(Indicator(mode), 4);
  }

  lemma PayloadInFront(mode: Mode, numChars: nat, payload: seq<bool>, rest: seq<bool>)
    requires PayloadLen(mode, numChars, payload) == Some(|payload|)
    ensures PayloadLen(mode, numChars, payload + rest) == Some(|payload|)
  {
    hide SegmentBitLength;
  }

  lemma ParseSegment(seg: Segment, rest: seq<bool>, version: nat)
    requires 1 <= version <= 40 && WellFormed(seg) && CountFits(seg, version)
    requires Parse(rest, version).Some?
    ensures Parse(SegmentBits(seg, version) + rest, version) == Some([TokenOf(seg)] + Parse(rest, version).value)
  {
    hide CountBits, BitsOf, NumberOf, PayloadLen, RawSegment.Payload;
    var bits, cc, len := SegmentBits(seg, version) + rest, CountBits(seg.mode, version), seg.bitLength;
    ModeRoundTrip(seg.mode);
    NumberOfBits(seg.numChars, cc);
    assert bits[..4] == BitsOf(Indicator(seg.mode), 4);
    assert bits[4..4 + cc] == BitsOf(seg.numChars, cc);
    assert bits[4 + cc..] == seg.Payload() + rest;
    PayloadInFront(seg.mode, seg.numChars, seg.Payload(), rest);
    assert bits[4 + cc..4 + cc + len] == seg.Payload();
    assert bits[4 + cc + len..] == rest;
  }

  /** The segments come back from their bits, whatever follows the terminator. */
  lemma {:induction false} ParseData(segs: seq<Segment>, done: nat, rest: seq<bool>, version: nat)
    requires 1 <= version <= 40 && done <= |segs|
    requires forall i :: 0 <= i < |segs| ==> WellFormed(segs[i]) && CountFits(segs[i], version)
    requires Parse(rest, version) == Some(TokensOf(segs[done..]))
    ensures Parse(DataBits(segs[..done], version) + rest, version) == Some(TokensOf(segs))
    decreases done
  {
    hide Parse, SegmentBits, CountFits, WellFormed;
    if done == 0 {
      assert segs[done..] == segs && DataBits(segs[..done], version) + rest == rest;
    } else {
      var k := done - 1;
      ParseSegment(segs[k], rest, version);
      assert [TokenOf(segs[k])] + TokensOf(segs[done..]) == TokensOf(segs[k..]);
      ParseData(segs, k, SegmentBits(segs[k], version) + rest, version);
      DataBitsStep(segs, version, k);
      assert DataBits(segs[..k], version) + (SegmentBits(segs[k], version) + rest) ==
          DataBits(segs[..done], version) + rest;
    }
  }
}
