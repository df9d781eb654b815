/**
 The first half of `qrcodegen_encodeSegmentsAdvanced`: the choice of version and error correction level, and the
 data codewords (section 7.4 of ISO/IEC 18004:2015).
 */
module DataEncoder {
  import opened Options
  import opened Bytes
  import opened BitStrings
  import opened BitBuffer
  import opened Segments
  import opened Capacity

  /** The number of data bits at a version and level. */
  function CapacityBits(version: int, ecl: int): int
    requires IsVersion(version) && IsLevel(ecl)
  {
    hide NumDataCodewords; NumDataCodewords(version, ecl) * 8
  }

  /** The segments fit into a symbol of this version and level. */
  predicate Fits(segs: seq<Segment>, version: int, ecl: int)
    requires IsVersion(version) && IsLevel(ecl)
  {
    Writable(segs, version) && |DataBits(segs, version)| <= CapacityBits(version, ecl)
  }

  function ZeroBitString(n: nat): (s: seq<bool>)
    ensures |s| == n && forall i :: 0 <= i < n ==> !s[i]
  {
    seq(n, _ => false)
  }

  /** `k` pad bytes, alternating between 0xEC and 0x11. */
  function PadBytes(k: nat): (s: seq<bool>)
    ensures |s| == 8 * k
  {
    if k == 0 then [] else PadBytes(k - 1) + BitsOf(if (k - 1) % 2 == 0 then 0xEC else 0x11, 8)
  }

  function TerminatorLen(len: nat, capacity: nat): nat
    requires len <= capacity
  {
    if capacity - len > 4 then 4 else capacity - len
  }

  /** The zeros after `len` bits of data: the terminator, and up to a full byte. */
  function ZeroLen(len: nat, capacity: nat): nat
    requires len <= capacity
  {
    var t := TerminatorLen(len, capacity);
    t + (8 - (len + t) % 8) % 8
  }

  lemma ZeroLenFits(len: nat, capacity: nat)
    requires len <= capacity && capacity % 8 == 0
    ensures len + ZeroLen(len, capacity) <= capacity
    ensures 8 * ((capacity - len - ZeroLen(len, capacity)) / 8) == capacity - len - ZeroLen(len, capacity)
  {
    var t := TerminatorLen(len, capacity);
    RoundUp(len + t, capacity);
  }

  /** The zeros end on a byte and include a terminator of four, unless the capacity is reached before; no fewer do. */
  lemma ZeroLenLeast(len: nat, capacity: nat, z: nat)
    requires len <= capacity && capacity % 8 == 0
    requires (len + z) % 8 == 0 && (z >= 4 || len + z >= capacity)
    ensures (len + ZeroLen(len, capacity)) % 8 == 0 &&
            (ZeroLen(len, capacity) >= 4 || len + ZeroLen(len, capacity) == capacity)
    ensures ZeroLen(len, capacity) <= z
  {
    ZeroLenFits(len, capacity);
    var t := TerminatorLen(len, capacity);
    LeastRound(len + t, z - t);
  }

  lemma LeastRound(n: nat, y: int)
    requires y >= 0 && (n + y) % 8 == 0
    ensures (8 - n % 8) % 8 <= y && (n + (8 - n % 8) % 8) % 8 == 0
  {}

  /** The pad bytes, bit by bit. */
  lemma {:induction false} PadByteAt(k: nat, i: nat)
    requires i < k
    ensures PadBytes(k)[8 * i..8 * i + 8] ==
            if i % 2 == 0 then [true, true, true, false, true, true, false, false]
            else [false, false, false, true, false, false, false, true]
  {
    hide BitsOf;
    PadBits();
    if i < k - 1 {
      PadByteAt(k - 1, i);
      assert PadBytes(k)[8 * i..8 * i + 8] == PadBytes(k - 1)[8 * i..8 * i + 8];
    }
  }

  lemma PadBits()
    ensures BitsOf(0xEC, 8) == [true, true, true, false, true, true, false, false]
    ensures BitsOf(0x11, 8) == [false, false, false, true, false, false, false, true]
  {
    hide BitsOf;
    SmallPowers();
    BitsSplit(0xEC, 14, 12, 4, 4);
    BitsSplit(0x11, 1, 1, 4, 4);
    IndicatorBits();
    LastBit(14, 4);
    LastBit(12, 4);
    LastBit(7, 3);
    LastBit(6, 3);
    LastBit(3, 2);
    LastBit(1, 1);
    NoBits();
  }

  lemma NoBits()
    ensures BitsOf(0, 0) == []
  {}

  lemma RoundUp(n: nat, capacity: nat)
    requires n <= capacity && capacity % 8 == 0
    ensures n + (8 - n % 8) % 8 <= capacity && (n + (8 - n % 8) % 8) % 8 == 0
  {}

  /** All data codewords, as bits: the data, the zeros and the pad bytes. */
  function CodewordBits(data: seq<bool>, capacity: nat): (s: seq<bool>)
    requires |data| <= capacity && capacity % 8 == 0
    ensures |s| == capacity
  {
    hide ZeroLen;
    ZeroLenFits(|data|, capacity);
    var z := ZeroLen(|data|, capacity);
    data + ZeroBitString(z) + PadBytes((capacity - |data| - z) / 8)
  }

  /** The data codewords hold the segments: a decoder gets them back, and stops at the padding. */
  lemma DecodeCodewords(segs: seq<Segment>, version: int, capacity: nat)
    requires IsVersion(version) && Writable(segs, version)
    requires |DataBits(segs, version)| <= capacity && capacity % 8 == 0
    requires forall i :: 0 <= i < |segs| ==> WellFormed(segs[i])
    ensures Parse(CodewordBits(DataBits(segs, version), capacity), version) == Some(TokensOf(segs))
  {
    hide DataBits, WellFormed, CountFits, PadBytes;
    var data := DataBits(segs, version);
    var z := ZeroLen(|data|, capacity);
    ZeroLenFits(|data|, capacity);
    var rest := ZeroBitString(z) + PadBytes((capacity - |data| - z) / 8);
    assert CodewordBits(data, capacity) == data + rest;
    if |rest| >= 4 {
      assert rest[..4] == seq(4, _ => false);
      ZeroBits(4);
    }
    assert segs[..|segs|] == segs && segs[|segs|..] == [];
    assert Parse(rest, version) == Some(TokensOf([]));
    ParseData(segs, |segs|, rest, version);
  }

  // ----- The choice of version and level.

  /** The loops over versions and levels. */
  method ChooseVersion(segs: seq<Segment>, ecl: int, minVersion: int, maxVersion: int, boostEcl: bool)
      returns (ok: bool, version: int, level: int)
    requires VERSION_MIN <= minVersion <= maxVersion <= VERSION_MAX && IsLevel(ecl)
    ensures !ok ==> forall v :: minVersion <= v <= maxVersion ==> !Fits(segs, v, ecl)
    ensures ok ==> minVersion <= version <= maxVersion && ecl <= level <= 3 && Fits(segs, version, level)
    ensures ok ==> Fits(segs, version, ecl) && forall v :: minVersion <= v < version ==> !Fits(segs, v, ecl)
    ensures ok && !boostEcl ==> level == ecl
    ensures ok && boostEcl ==> forall e :: level < e <= 3 ==> !Fits(segs, version, e)
  {
    hide Writable, CapacityBits, DataBits;
    level := ecl;
    version := minVersion;
    var dataUsedBits;
    while true
      invariant minVersion <= version <= maxVersion
      invariant forall v :: minVersion <= v < version ==> !Fits(segs, v, ecl)
      decreases maxVersion - version
    {
      dataUsedBits := TotalBits(segs, version);
      if dataUsedBits.Some? && dataUsedBits.value <= CapacityBits(version, ecl) {
        break;
      }
      if version >= maxVersion {
        return false, version, level;
      }
      version := version + 1;
    }
    var i := 1;
    while i <= 3
      invariant 1 <= i <= 4
      invariant 0 <= level <= 3 && Fits(segs, version, level)
      invariant level == ecl || level < i
      invariant i > ecl ==> level >= ecl
      invariant !boostEcl ==> level == ecl
      invariant boostEcl ==> forall e :: level < e < i ==> !Fits(segs, version, e)
    {
      if boostEcl && dataUsedBits.value <= CapacityBits(version, i) {
        level := i;
      }
      i := i + 1;
    }
    return true, version, level;
  }

  // ----- Writing the codewords.

  /** Mode, count and payload of one segment, appended to the buffer. */
  method WriteSegment(seg: Segment, version: int, qrcode: array<Byte>, bitLen: nat, ghost n: nat, ghost bits: seq<bool>)
      returns (next: nat)
    requires IsVersion(version) && CountFits(seg, version)
    requires Holds(qrcode[..], n, bits) && bitLen == |bits| && bitLen + |SegmentBits(seg, version)| <= 8 * n
    modifies qrcode
    ensures Holds(qrcode[..], n, bits + SegmentBits(seg, version)) && next == bitLen + |SegmentBits(seg, version)|
  {
    hide Holds, BitsOf, CountBits, Pow2, NumberOf;
    IndicatorFits(seg.mode);
    ghost var head := BitsOf(Indicator(seg.mode), 4);
    ghost var count := BitsOf(seg.numChars, CountBits(seg.mode, version));
    next := AppendToClean(Indicator(seg.mode), 4, qrcode, bitLen, n, bits);
    next := AppendToClean(seg.numChars, CountBits(seg.mode, version), qrcode, next, n, bits + head);
    ghost var start := bits + head + count;
    var j := 0;
    assert start + seg.Payload()[..0] == start;
    while j < seg.bitLength
      invariant 0 <= j <= seg.bitLength && next == |start| + j
      invariant Holds(qrcode[..], n, start + seg.Payload()[..j])
    {
      var bit := if seg.data[j / 8][7 - j % 8] then 1 else 0;
      OneBit(seg.Payload()[j], bit);
      next := AppendToClean(bit, 1, qrcode, next, n, start + seg.Payload()[..j]);
      assert start + seg.Payload()[..j] + [seg.Payload()[j]] == start + seg.Payload()[..j + 1];
      j := j + 1;
    }
    assert start + seg.Payload()[..j] == bits + SegmentBits(seg, version);
  }

  lemma IndicatorFits(mode: Mode)
    ensures Indicator(mode) < Pow2(4)
  {
    assert Pow2(4) == 16;
  }

  lemma OneBit(b: bool, bit: nat)
    requires bit == if b then 1 else 0
    ensures bit < Pow2(1) && BitsOf(bit, 1) == [b]
  {
    assert Pow2(1) == 2 && BitsOf(bit / 2, 0) == [];
  }

  lemma ZeroBitsOf(n: nat)
    ensures 0 < Pow2(n) && BitsOf(0, n) == ZeroBitString(n)
  {
    if n > 0 {
      ZeroBitsOf(n - 1);
    }
  }

  /** The terminator and the alignment to a byte. */
  method WriteZeros(capacity: nat, qrcode: array<Byte>, bitLen: nat, ghost data: seq<bool>) returns (next: nat)
    requires bitLen == |data| <= capacity && capacity % 8 == 0 && capacity / 8 <= qrcode.Length
    requires Holds(qrcode[..], capacity / 8, data)
    modifies qrcode
    ensures next == bitLen + ZeroLen(bitLen, capacity) <= capacity
    ensures Holds(qrcode[..], capacity / 8, data + ZeroBitString(ZeroLen(bitLen, capacity)))
  {
    hide Holds, BitsOf, Pow2;
    ZeroLenFits(bitLen, capacity);
    var terminatorBits := capacity - bitLen;
    if terminatorBits > 4 {
      terminatorBits := 4;
    }
    ZeroBitsOf(terminatorBits);
    next := AppendToClean(0, terminatorBits, qrcode, bitLen, capacity / 8, data);
    var align := (8 - next % 8) % 8;
    ZeroBitsOf(align);
    ZerosJoin(data, terminatorBits, align, capacity);
    next := AppendToClean(0, align, qrcode, next, capacity / 8, data + BitsOf(0, terminatorBits));
  }

  /** Alternating pad bytes up to the capacity. */
  method WritePadBytes(capacity: nat, qrcode: array<Byte>, bitLen: nat, ghost start: seq<bool>)
    requires bitLen == |start| <= capacity && (capacity - bitLen) % 8 == 0 &&
             capacity <= 8 * (capacity / 8) <= 8 * qrcode.Length
    requires Holds(qrcode[..], capacity / 8, start)
    modifies qrcode
    ensures Holds(qrcode[..], capacity / 8, start + PadBytes((capacity - bitLen) / 8))
  {
    hide Holds, BitsOf, PadBytes, Pow2;
    PadStart(start);
    PadByteFits();
    var next := bitLen;
    var padByte := 0xEC;
    ghost var k := 0;
    while next < capacity
      invariant next == bitLen + 8 * k <= capacity
      invariant padByte == if k % 2 == 0 then 0xEC else 0x11
      invariant Holds(qrcode[..], capacity / 8, start + PadBytes(k))
      decreases capacity - next
    {
      next := AppendToClean(padByte, 8, qrcode, next, capacity / 8, start + PadBytes(k));
      PadStep(start, k);
      padByte := if padByte == 0xEC then 0x11 else 0xEC;
      k := k + 1;
    }
  }

  lemma ZerosJoin(data: seq<bool>, terminatorBits: nat, align: nat, capacity: nat)
    requires |data| <= capacity && terminatorBits == TerminatorLen(|data|, capacity)
    requires align == (8 - (|data| + terminatorBits) % 8) % 8
    ensures data + ZeroBitString(terminatorBits) + ZeroBitString(align) ==
            data + ZeroBitString(ZeroLen(|data|, capacity))
  {}

  lemma PadStart(start: seq<bool>)
    ensures start + PadBytes(0) == start
  {}

  lemma PadStep(start: seq<bool>, k: nat)
    ensures start + PadBytes(k) + BitsOf(if k % 2 == 0 then 0xEC else 0x11, 8) == start + PadBytes(k + 1)
  {
    hide BitsOf;
  }

  lemma PadByteFits()
    ensures 0xEC < Pow2(8) && 0x11 < Pow2(8)
  {
    assert Pow2(8) == 256;
  }

  lemma CapacityBounds(version: int, ecl: int)
    requires IsVersion(version) && IsLevel(ecl)
    ensures NumDataCodewords(version, ecl) <= BufferLen(version)
  {
    hide BlockEccLen, NumBlocks;
    assert 0 <= BlockEccLen(version, ecl) * NumBlocks(version, ecl);
    assert (16 * version + 128) * version + 64 <= SideLength(version) * SideLength(version);
    if version >= 2 {
      var a := version / 7 + 2;
      assert (25 * a - 10) * a >= 40 * a >= 80;
    }
  }

  /** The buffer starts with the data codewords of the segments. */
  ghost predicate HoldsCodewords(buf: seq<Byte>, segs: seq<Segment>, version: int, ecl: int)
    requires IsVersion(version) && IsLevel(ecl)
  {
    hide NumDataCodewords, DataBits;
    Fits(segs, version, ecl) &&
    Holds(buf, NumDataCodewords(version, ecl), CodewordBits(DataBits(segs, version), CapacityBits(version, ecl)))
  }

  /** The buffer is cleared, and the segments, the zeros and the pad bytes are written into it. */
  method WriteCodewords(segs: seq<Segment>, version: int, level: int, qrcode: array<Byte>)
    requires IsVersion(version) && IsLevel(level) && Fits(segs, version, level) &&
             1 <= BufferLen(version) <= qrcode.Length
    modifies qrcode
    ensures HoldsCodewords(qrcode[..], segs, version, level)
  {
    hide Holds, DataBits, SegmentBits, NumDataCodewords, ZeroLen, PadBytes, BufferLen;
    CapacityBounds(version, level);
    forall k | 0 <= k < BufferLen(version) {
      qrcode[k] := ZERO;
    }
    ghost var n := NumDataCodewords(version, level);
    ClearHolds(qrcode[..], n, segs, version);
    var bitLen := 0;
    var i := 0;
    while i < |segs|
      invariant 0 <= i <= |segs|
      invariant Holds(qrcode[..], n, DataBits(segs[..i], version)) && bitLen == |DataBits(segs[..i], version)|
    {
      DataBitsStep(segs, version, i);
      PrefixIsShorter(segs, version, i + 1);
      bitLen := WriteSegment(segs[i], version, qrcode, bitLen, n, DataBits(segs[..i], version));
      i := i + 1;
    }
    assert segs[..i] == segs;
    var capacity := NumDataCodewords(version, level) * 8;
    ZeroLenFits(bitLen, capacity);
    bitLen := WriteZeros(capacity, qrcode, bitLen, DataBits(segs, version));
    WritePadBytes(capacity, qrcode, bitLen,
                  DataBits(segs, version) + ZeroBitString(bitLen - |DataBits(segs, version)|));
  }

  /**
   The encoder up to its data codewords.  If the segments fit a version in range, the smallest such version is
   used, the level is raised as far as that version allows, and the buffer holds the codewords of the segments.
   */
  method EncodeData(segs: seq<Segment>, ecl: int, minVersion: int, maxVersion: int, boostEcl: bool, qrcode: array<Byte>)
      returns (ok: bool, version: int, level: int)
    requires VERSION_MIN <= minVersion <= maxVersion <= VERSION_MAX && IsLevel(ecl)
    requires BufferLen(maxVersion) <= qrcode.Length
    modifies qrcode
    ensures !ok ==> (forall v :: minVersion <= v <= maxVersion ==> !Fits(segs, v, ecl)) && qrcode[0] == ZERO
    ensures ok ==> minVersion <= version <= maxVersion && ecl <= level <= 3 && Fits(segs, version, level)
    ensures ok ==> Fits(segs, version, ecl) && forall v :: minVersion <= v < version ==> !Fits(segs, v, ecl)
    ensures ok && !boostEcl ==> level == ecl
    ensures ok && boostEcl ==> forall e :: level < e <= 3 ==> !Fits(segs, version, e)
    ensures ok ==> HoldsCodewords(qrcode[..], segs, version, level)
  {
    hide Holds, DataBits, SegmentBits, CountFits, NumDataCodewords, ZeroLen, PadBytes;
    ok, version, level := ChooseVersion(segs, ecl, minVersion, maxVersion, boostEcl);
    BufferLenMonotone(minVersion, maxVersion);
    if !ok {
      qrcode[0] := ZERO;
      return;
    }
    BufferLenMonotone(version, maxVersion);
    WriteCodewords(segs, version, level, qrcode);
  }

  lemma ClearHolds(buf: seq<Byte>, n: nat, segs: seq<Segment>, version: int)
    requires IsVersion(version) && n <= |buf| && forall k :: 0 <= k < n ==> buf[k] == ZERO
    ensures Holds(buf, n, DataBits(segs[..0], version)) && DataBits(segs[..0], version) == []
  {}

  lemma BufferLenMonotone(v: int, w: int)
    requires VERSION_MIN <= v <= w <= VERSION_MAX
    ensures 1 <= BufferLen(v) <= BufferLen(w)
  {
    assert SideLength(v) * SideLength(v) <= SideLength(w) * SideLength(w);
  }
}
