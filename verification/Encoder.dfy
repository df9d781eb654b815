/**
 `qrcodegen_encodeSegmentsAdvanced` from the segments to the finished symbol, and a decoder that gets the segments
 back from the modules.
 */
module Encoder {
  import opened Options
  import opened Alignment
  import opened Appearance
  import opened BitBuffer
  import opened Bytes
  import opened Capacity
  import opened DataEncoder
  import opened FunctionCount
  import opened FunctionModules
  import opened FunctionPatterns
  import opened Grids
  import opened Interleaving
  import opened MaskChoice
  import opened Masks
  import opened Segments
  import opened Zigzag

  // ----- Reading a symbol.

  /** The function modules of a version, black on white. */
  ghost function FunctionPicture(version: int): (p: seq<seq<bool>>)
    requires IsVersion(version)
    ensures ShowsFunctions(version, p)
  {
    hide InFrame, InPatternBefore, InVersionBlock;
    seq(SideOf(version), y requires 0 <= y < SideOf(version) =>
      seq(SideOf(version), x requires 0 <= x < SideOf(version) => IsFunction(version, x, y)))
  }

  /** Byte `i` of a bit string, most significant bit first. */
  function ByteAt(bits: seq<bool>, i: nat): Byte
    requires 8 * i + 8 <= |bits|
  {
    seq(8, j requires 0 <= j < 8 => bits[8 * i + (7 - j)])
  }

  function BytesOf(bits: seq<bool>, count: nat): (b: seq<Byte>)
    requires 8 * count <= |bits|
    ensures |b| == count
  {
    seq(count, i requires 0 <= i < count => ByteAt(bits, i))
  }

  lemma ByteOfBits(b: seq<Byte>, rest: seq<bool>, i: nat)
    requires i < |b|
    ensures ByteAt(AllBits(b) + rest, i) == b[i]
  {
    hide AllBits;
    forall j | 0 <= j < 8 ensures ByteAt(AllBits(b) + rest, i)[j] == b[i][j] {
      var k := 8 * i + (7 - j);
      assert k / 8 == i && k % 8 == 7 - j;
      assert (AllBits(b) + rest)[k] == AllBits(b)[k] == BitAt(b, k);
    }
  }

  lemma BytesOfBits(b: seq<Byte>, rest: seq<bool>)
    ensures BytesOf(AllBits(b) + rest, |b|) == b
  {
    hide AllBits, ByteAt;
    forall i | 0 <= i < |b| ensures BytesOf(AllBits(b) + rest, |b|)[i] == b[i] {
      ByteOfBits(b, rest, i);
    }
  }

  /** All codewords of a symbol: the mask is removed, and the free modules are read along the scan. */
  ghost function ReadCodewords(p: seq<seq<bool>>, version: int, mask: nat): seq<Byte>
    requires IsVersion(version) && Square(p, SideOf(version)) && mask <= 7
  {
    hide ShowsFunctions, Rank, ScanLen, NumRawDataModules;
    var n, fn := SideOf(version), FunctionPicture(version);
    FunctionSquare(version, fn);
    FreeModules(version, fn);
    BytesOf(ReadBits(fn, Masked(fn, p, mask, n), n, ScanLen(n)), NumRawDataModules(version) / 8)
  }

  lemma FunctionSquare(version: int, fn: seq<seq<bool>>)
    requires IsVersion(version) && ShowsFunctions(version, fn)
    ensures Square(fn, SideOf(version)) && NumRawDataModules(version) >= 0
  {
    hide BlockEccLen, NumBlocks;
    RoomForBlocks(version, 0);
  }

  /** A decoder of undamaged symbols. */
  ghost function Decode(p: seq<seq<bool>>, version: int, level: int, mask: nat): Option<seq<Token>>
    requires IsVersion(version) && IsLevel(level) && Square(p, SideOf(version)) && mask <= 7
  {
    hide BlocksOf, Parse, ReadBits, Masked, ScanLen, NumRawDataModules, FunctionPicture, Joined;
    var codewords, l := ReadCodewords(p, version, mask), BlocksOf(version, level);
    BlocksSizes(version, level);
    if |codewords| != l.Raw() then None else Parse(AllBits(Joined(l, codewords, l.blocks)), version)
  }

  /** A decoder that finds version, level and mask in the symbol itself. */
  ghost function DecodeModules(p: seq<seq<bool>>): Option<seq<Token>>
  {
    hide Decode, LevelOf, MaskOf, ReadFormat;
    var n := |p|;
    if n < 21 || n > 177 || n % 4 != 1 || !Square(p, n) then None
    else
      var bits := ReadFormat(p, n);
      if LevelOf(bits) > 3 || MaskOf(bits) > 7 then None
      else Decode(p, (n - 17) / 4, LevelOf(bits), MaskOf(bits))
  }

  // ----- What the steps of the encoder leave for the decoder.

  /** The picture holds the codewords in its free modules, white in the remainder. */
  ghost predicate Carries(p: seq<seq<bool>>, version: int, codewords: seq<Byte>)
    requires IsVersion(version)
  {
    hide ShowsFunctions, Rank, ScanLen, NumRawDataModules;
    var n, fn := SideOf(version), FunctionPicture(version);
    FunctionSquare(version, fn);
    Square(p, n) && exists rest: seq<bool> :: ReadBits(fn, p, n, ScanLen(n)) == AllBits(codewords) + rest
  }

  lemma FunctionPictureUnique(version: int, p: seq<seq<bool>>)
    requires IsVersion(version) && ShowsFunctions(version, p)
    ensures p == FunctionPicture(version)
  {
    hide IsFunction;
    SamePicture(p, FunctionPicture(version), SideOf(version));
  }

  /** Reading depends on the free modules alone. */
  lemma {:induction false} SameReading(fn: seq<seq<bool>>, p: seq<seq<bool>>, q: seq<seq<bool>>, n: Side, t: nat)
    requires Square(fn, n) && Square(p, n) && Square(q, n) && t <= ScanLen(n)
    requires forall x: nat, y: nat :: x < n && y < n && !fn[y][x] ==> p[y][x] == q[y][x]
    ensures ReadBits(fn, p, n, t) == ReadBits(fn, q, n, t)
  {
    hide ScanCell, ScanLen;
    if t > 0 {
      SameReading(fn, p, q, n, t - 1);
    }
  }

  /** The picture with the codewords drawn carries them. */
  lemma DrawnCarries(version: int, codewords: seq<Byte>, p: seq<seq<bool>>)
    requires IsVersion(version) && |codewords| == NumRawDataModules(version) / 8
    requires Drawn(FunctionPicture(version), SideOf(version), AllBits(codewords), ScanLen(SideOf(version)), p)
    ensures Carries(p, version, codewords)
  {
    hide ShowsFunctions, Rank, ScanLen, NumRawDataModules, ReadBits, AllBits;
    var n, fn := SideOf(version), FunctionPicture(version);
    FunctionSquare(version, fn);
    FreeModules(version, fn);
    ReadBack(fn, n, AllBits(codewords), p);
    DrawnSquare(fn, n, AllBits(codewords), ScanLen(n), p);
  }

  lemma DrawnSquare(fn: seq<seq<bool>>, n: Side, bits: seq<bool>, t: nat, p: seq<seq<bool>>)
    requires Drawn(fn, n, bits, t, p)
    ensures Square(p, n)
  {}

  /** Changes of function modules do not matter. */
  lemma KeptCarries(version: int, codewords: seq<Byte>, p: seq<seq<bool>>, q: seq<seq<bool>>)
    requires IsVersion(version) && Carries(p, version, codewords) && OthersKept(version, p, q)
    ensures Carries(q, version, codewords)
  {
    hide IsFunction, Rank, ScanLen, NumRawDataModules, ReadBits, AllBits;
    var n, fn := SideOf(version), FunctionPicture(version);
    SameReading(fn, p, q, n, ScanLen(n));
  }

  /** The function modules show their patterns. */
  ghost predicate FunctionsDrawn(version: int, p: seq<seq<bool>>)
    requires IsVersion(version)
  {
    hide IsFunction, DesignAt, FunctionPicture, VersionBits;
    FunctionSquare(version, FunctionPicture(version));
    Square(p, SideOf(version)) &&
    forall x: nat, y: nat :: x < SideOf(version) && y < SideOf(version) && IsFunction(version, x, y) ==>
      p[y][x] == DesignAt(version, VersionBits(version), FunctionPicture(version), x, y)
  }

  lemma DesignDrawn(version: int, bits: seq<bool>, drawn: seq<seq<bool>>, p: seq<seq<bool>>)
    requires IsVersion(version) && ShowsDesign(version, VersionBits(version), drawn, p)
    requires Drawn(FunctionPicture(version), SideOf(version), bits, ScanLen(SideOf(version)), drawn)
    ensures FunctionsDrawn(version, p)
  {
    hide IsFunction, RingBefore, CenterBefore, TimingWhite, FinderWhite, InVersionBlock, Drawn, ScanLen, VersionBit,
         VersionBits;
    var fn := FunctionPicture(version);
    forall x: nat, y: nat | x < SideOf(version) && y < SideOf(version) && IsFunction(version, x, y)
      ensures p[y][x] == DesignAt(version, VersionBits(version), fn, x, y)
    {
      FunctionModulesStay(fn, SideOf(version), bits, drawn, x, y);
    }
  }

  lemma FormatIsFunction(version: int, fn: seq<seq<bool>>)
    requires IsVersion(version) && ShowsFunctions(version, fn)
    ensures FormatReserved(fn, SideOf(version))
  {
    hide InPatternBefore, InVersionBlock;
  }

  lemma FormatKeepsOthers(version: int, fn: seq<seq<bool>>, p: seq<seq<bool>>, bits: seq<bool>)
    requires IsVersion(version) && ShowsFunctions(version, fn) && Square(p, SideOf(version)) && |bits| == 15
    ensures OthersKept(version, p, WithFormat(p, bits, SideOf(version)))
  {
    hide IsFunction, FirstCopy, SecondCopy;
    FormatIsFunction(version, fn);
  }

  /** The decoder reads the codewords from the finished symbol, whichever mask was chosen. */
  lemma ReadSymbol(version: int, codewords: seq<Byte>, p: seq<seq<bool>>, level: nat, mask: nat)
    requires IsVersion(version) && |codewords| == NumRawDataModules(version) / 8 && level <= 3 && mask <= 7
    requires Carries(p, version, codewords)
    ensures ReadCodewords(Candidate(FunctionPicture(version), p, level, mask, SideOf(version)), version, mask) ==
            codewords
  {
    hide IsFunction, Rank, ScanLen, NumRawDataModules, ReadBits, AllBits, Masked, WithFormat, FormatBits, BytesOf;
    hide ShowsFunctions;
    hide FormatReserved, OthersKept;
    var n, fn := SideOf(version), FunctionPicture(version);
    FunctionSquare(version, fn);
    FormatIsFunction(version, fn);
    TryMask(fn, p, p, level, mask, n, FormatBits(level, mask));
    var q := WithFormat(p, FormatBits(level, mask), n);
    FormatKeepsOthers(version, fn, p, FormatBits(level, mask));
    KeptCarries(version, codewords, p, q);
    var rest: seq<bool> :| ReadBits(fn, q, n, ScanLen(n)) == AllBits(codewords) + rest;
    BytesOfBits(codewords, rest);
  }

  lemma HeldBits(buf: seq<Byte>, n: nat, bits: seq<bool>)
    requires Holds(buf, n, bits) && |bits| == 8 * n
    ensures AllBits(buf[..n]) == bits
  {
    forall k | 0 <= k < 8 * n ensures AllBits(buf[..n])[k] == bits[k] {
      assert BitAt(buf[..n], k) == BitAt(buf, k);
    }
  }

  /** The whole way back: codewords, blocks, bit string, segments. */
  lemma DecodeSymbol(segs: seq<Segment>, version: int, level: int, mask: nat, data: seq<Byte>, codewords: seq<Byte>,
                     p: seq<seq<bool>>)
    requires IsVersion(version) && IsLevel(level) && mask <= 7 && forall i :: 0 <= i < |segs| ==> WellFormed(segs[i])
    requires HoldsCodewords(data, segs, version, level) && HoldsInterleaved(codewords, data, version, level)
    requires |codewords| == NumRawDataModules(version) / 8 && Carries(p, version, codewords)
    ensures var symbol := Candidate(FunctionPicture(version), p, level, mask, SideOf(version));
            Decode(symbol, version, level, mask) == Some(TokensOf(segs))
  {
    hide NumRawDataModules, NumDataCodewords, Carries, ReadCodewords, Candidate, FunctionPicture, BlocksOf;
    hide CodewordBits, DataBits, Parse, Interleaved, Joined, Holds, AllBits, WellFormed, CountFits;
    var l := BlocksOf(version, level);
    BlocksSizes(version, level);
    ReadSymbol(version, codewords, p, level, mask);
    assert codewords[..l.Raw()] == codewords;
    var input := data[..l.DataLen()];
    JoinRoundTrip(l, input, l.blocks);
    BlocksTile(l, 0);
    assert input[..l.Offset(l.blocks)] == input;
    HeldBits(data, l.DataLen(), CodewordBits(DataBits(segs, version), CapacityBits(version, level)));
    DecodeCodewords(segs, version, CapacityBits(version, level));
  }

  // ----- The encoder.

  /** The codewords in the symbol are the interleaved blocks of the data codewords of the segments. */
  ghost predicate HoldsSegments(p: seq<seq<bool>>, segs: seq<Segment>, version: int, level: int, mask: nat)
    requires IsVersion(version) && IsLevel(level) && Square(p, SideOf(version)) && mask <= 7
  {
    hide ReadCodewords, HoldsCodewords, HoldsInterleaved;
    exists data: seq<Byte> :: HoldsCodewords(data, segs, version, level) &&
      HoldsInterleaved(ReadCodewords(p, version, mask), data, version, level)
  }

  /** What the caller gets: a finished symbol, with the best mask if none was asked for. */
  ghost predicate IsSymbol(p: seq<seq<bool>>, segs: seq<Segment>, version: int, level: int, mask: int, chosen: nat)
    requires IsVersion(version) && IsLevel(level)
  {
    hide HoldsSegments, FunctionPicture, DecodeModules, Best, Candidate, FunctionsDrawn;
    chosen <= 7 && Square(p, SideOf(version)) &&
    exists plain :: Square(plain, SideOf(version)) && FunctionsDrawn(version, plain) &&
      p == Candidate(FunctionPicture(version), plain, level, chosen, SideOf(version)) &&
      (if mask == -1 then Best(FunctionPicture(version), plain, level, chosen, SideOf(version), 8)
       else chosen == mask) &&
      HoldsSegments(p, segs, version, level, chosen) &&
      ((forall i :: 0 <= i < |segs| ==> WellFormed(segs[i])) ==>
         DecodeModules(p) == Some(TokensOf(segs)))
  }

  /** Neither masks nor format bits touch the other function modules. */
  lemma SymbolDesign(p: seq<seq<bool>>, segs: seq<Segment>, version: int, level: int, mask: int, chosen: nat,
                     x: nat, y: nat)
    requires IsVersion(version) && IsLevel(level) && IsSymbol(p, segs, version, level, mask, chosen)
    requires x < SideOf(version) && y < SideOf(version) && IsFunction(version, x, y)
    requires FirstCopy(x, y) < 0 && SecondCopy(SideOf(version), x, y) < 0
    ensures p[y][x] == DesignAt(version, VersionBits(version), FunctionPicture(version), x, y)
  {
    hide HoldsSegments, DecodeModules, Best, DesignAt, IsFunction, VersionBits, FormatBits, FirstCopy, SecondCopy,
         Inverts;
    var n, fn := SideOf(version), FunctionPicture(version);
    var plain :| Square(plain, n) && FunctionsDrawn(version, plain) && p == Candidate(fn, plain, level, chosen, n);
    assert fn[y][x];
    assert p[y][x] == FormatAt(Masked(fn, plain, chosen, n), FormatBits(level, chosen), n, 15, 16, x, y);
    assert Masked(fn, plain, chosen, n)[y][x] == plain[y][x];
  }

  /** The finished symbol shows the finder patterns with their separators, and the timing patterns. */
  lemma SymbolLook(p: seq<seq<bool>>, segs: seq<Segment>, version: int, level: int, mask: int, chosen: nat,
                   x: nat, y: nat, k: nat)
    requires IsVersion(version) && IsLevel(level) && IsSymbol(p, segs, version, level, mask, chosen)
    requires x < 8 && y < 8 && 8 <= k < SideOf(version) - 8
    ensures var n := SideOf(version);
            Square(p, n) && p[y][x] == p[y][n - 1 - x] == p[n - 1 - y][x] == FinderDark(x, y)
    ensures p[6][k] == p[k][6] == (k % 2 == 0)
  {
    hide DesignAt, FunctionPicture, VersionBits, FinderDark, HoldsSegments, FunctionsDrawn, Candidate;
    var n := SideOf(version);
    FrameIsFunction(version, x, y, k);
    SymbolDesign(p, segs, version, level, mask, chosen, x, y);
    SymbolDesign(p, segs, version, level, mask, chosen, n - 1 - x, y);
    SymbolDesign(p, segs, version, level, mask, chosen, x, n - 1 - y);
    SymbolDesign(p, segs, version, level, mask, chosen, k, 6);
    SymbolDesign(p, segs, version, level, mask, chosen, 6, k);
    FinderLook(version, VersionBits(version), FunctionPicture(version), x, y);
    TimingLook(version, VersionBits(version), FunctionPicture(version), k);
  }

  lemma FrameIsFunction(version: int, x: nat, y: nat, k: nat)
    requires IsVersion(version) && x < 8 && y < 8 && 8 <= k < SideOf(version) - 8
    ensures var n := SideOf(version);
            && IsFunction(version, x, y) && IsFunction(version, n - 1 - x, y) && IsFunction(version, x, n - 1 - y)
            && IsFunction(version, k, 6) && IsFunction(version, 6, k)
  {
    hide InPatternBefore, InVersionBlock;
  }

  /** And the alignment patterns. */
  lemma SymbolAlignment(p: seq<seq<bool>>, segs: seq<Segment>, version: int, level: int, mask: int, chosen: nat,
                        i: nat, j: nat, u: int, v: int)
    requires 2 <= version <= 40 && IsLevel(level) && IsSymbol(p, segs, version, level, mask, chosen)
    requires i < AlignCount(version) && j < AlignCount(version) && !IsCorner(AlignCount(version), i, j)
    requires -2 <= u <= 2 && -2 <= v <= 2
    ensures var x, y := AlignPos(version, i) + u, AlignPos(version, j) + v;
            Square(p, SideOf(version)) && 0 <= x < SideOf(version) && 0 <= y < SideOf(version) &&
            p[y][x] == (u == -2 || u == 2 || v == -2 || v == 2 || (u == 0 && v == 0))
  {
    hide DesignAt, FunctionPicture, VersionBits, HoldsSegments, FunctionsDrawn, Candidate, AlignPos, AlignCount;
    AlignmentLook(version, VersionBits(version), FunctionPicture(version), i, j, u, v);
    var x, y := AlignPos(version, i) + u, AlignPos(version, j) + v;
    assert InPattern(version, i, j, x, y);
    AlignmentUnformatted(version, i, j, x, y);
    SymbolDesign(p, segs, version, level, mask, chosen, x, y);
  }

  lemma AlignmentUnformatted(version: int, i: nat, j: nat, x: nat, y: nat)
    requires 2 <= version <= 40 && i < AlignCount(version) && j < AlignCount(version) && InPattern(version, i, j, x, y)
    ensures FirstCopy(x, y) < 0 && SecondCopy(SideOf(version), x, y) < 0 && IsFunction(version, x, y)
  {
    hide AlignPos, AlignCount;
    FirstPos(version, i);
    FirstPos(version, j);
    PatternOffCorners(version, i, j, x, y);
    hide InFrame, InVersionBlock;
    assert IsFunction(version, x, y);
  }

  /** The finished symbol says itself how it is to be read. */
  lemma ModulesDecode(p: seq<seq<bool>>, plain: seq<seq<bool>>, version: int, level: nat, chosen: nat)
    requires IsVersion(version) && level <= 3 && chosen <= 7 && Square(plain, SideOf(version))
    requires p == Candidate(FunctionPicture(version), plain, level, chosen, SideOf(version))
    ensures DecodeModules(p) == Decode(p, version, level, chosen)
  {
    hide Decode, FunctionPicture, Masked, WithFormat, FormatBits, ReadFormat, LevelOf, MaskOf;
    var n := SideOf(version);
    FunctionSquare(version, FunctionPicture(version));
    FormatReadBack(Masked(FunctionPicture(version), plain, chosen, n), FormatBits(level, chosen), n);
    FormatMeaning(level, chosen);
  }

  lemma RawFits(version: int)
    requires IsVersion(version)
    ensures 0 <= NumRawDataModules(version) / 8 <= BufferLen(version)
  {
    hide BlockEccLen, NumBlocks;
    RoomForBlocks(version, 0);
    if version >= 2 {
      var a := version / 7 + 2;
      assert (25 * a - 10) * a >= 40 * a >= 80;
    }
    assert (16 * version + 128) * version + 64 <= SideLength(version) * SideLength(version);
  }

  /** Error correction, function modules and codewords are drawn. */
  method DrawCodewordsAndFunctions(version: int, level: int, tempBuffer: array<Byte>, qrcode: array<Byte>)
      returns (ghost codewords: seq<Byte>)
    requires IsVersion(version) && IsLevel(level) && tempBuffer != qrcode
    requires BufferLen(version) <= tempBuffer.Length && BufferLen(version) <= qrcode.Length
    modifies tempBuffer, qrcode
    ensures |codewords| == NumRawDataModules(version) / 8 &&
            HoldsInterleaved(codewords, old(qrcode[..]), version, level)
    ensures IsGrid(qrcode[..], SideOf(version)) && Carries(Picture(qrcode[..], SideOf(version)), version, codewords)
    ensures FunctionsDrawn(version, Picture(qrcode[..], SideOf(version)))
    ensures IsGrid(tempBuffer[..], SideOf(version)) &&
            Picture(tempBuffer[..], SideOf(version)) == FunctionPicture(version)
  {
    hide NumRawDataModules, Carries, FunctionPicture, BlocksOf, Interleaved, AllBits, IsGrid, Picture, ShowsFunctions;
    hide Drawn, Rank, ScanLen, OthersKept, ShowsDesign, BufferLen, FunctionsDrawn, VersionBits;
    ghost var n := SideOf(version);
    RawFits(version);
    AddEccAndInterleave(qrcode, version, level, tempBuffer);
    codewords := tempBuffer[..NumRawDataModules(version) / 8];
    BlocksSizes(version, level);
    assert codewords[..|codewords|] == codewords;
    InitializeFunctionModules(version, qrcode);
    FunctionPictureUnique(version, Picture(qrcode[..], n));
    FreeModules(version, Picture(qrcode[..], n));
    DrawCodewords(tempBuffer, NumRawDataModules(version) / 8, qrcode, n);
    ghost var drawn := Picture(qrcode[..], n);
    DrawnCarries(version, codewords, drawn);
    DrawWhiteFunctionModules(qrcode, version);
    DesignKeepsOthers(version, VersionBits(version), drawn, Picture(qrcode[..], n));
    DesignDrawn(version, AllBits(codewords), drawn, Picture(qrcode[..], n));
    KeptCarries(version, codewords, drawn, Picture(qrcode[..], n));
    InitializeFunctionModules(version, tempBuffer);
    FunctionPictureUnique(version, Picture(tempBuffer[..], n));
  }

  /** `qrcodegen_encodeSegmentsAdvanced` */
  method EncodeSegmentsAdvanced(segs: seq<Segment>, ecl: int, minVersion: int, maxVersion: int, mask: int,
                                boostEcl: bool, tempBuffer: array<Byte>, qrcode: array<Byte>)
      returns (ok: bool, version: int, level: int, chosen: nat)
    requires VERSION_MIN <= minVersion <= maxVersion <= VERSION_MAX && IsLevel(ecl) && -1 <= mask <= 7
    requires tempBuffer != qrcode && BufferLen(maxVersion) <= qrcode.Length &&
             BufferLen(maxVersion) <= tempBuffer.Length
    modifies tempBuffer, qrcode
    ensures !ok ==> (forall v :: minVersion <= v <= maxVersion ==> !Fits(segs, v, ecl)) && qrcode[0] == ZERO
    ensures ok ==> minVersion <= version <= maxVersion && ecl <= level <= 3 && Fits(segs, version, level)
    ensures ok ==> Fits(segs, version, ecl) && forall v :: minVersion <= v < version ==> !Fits(segs, v, ecl)
    ensures ok && !boostEcl ==> level == ecl
    ensures ok && boostEcl ==> forall e :: level < e <= 3 ==> !Fits(segs, version, e)
    ensures ok ==> IsGrid(qrcode[..], SideOf(version)) &&
                   IsSymbol(Picture(qrcode[..], SideOf(version)), segs, version, level, mask, chosen)
  {
    hide NumRawDataModules, NumDataCodewords, Carries, FunctionPicture, IsGrid, Picture, Fits, BufferLen;
    hide Candidate, Best, Decode, DecodeModules;
    hide HoldsCodewords, HoldsInterleaved, FormatReserved, ShowsFunctions, WellFormed, ReadCodewords, FunctionsDrawn;
    chosen := 0;
    ok, version, level := EncodeData(segs, ecl, minVersion, maxVersion, boostEcl, qrcode);
    if !ok {
      return;
    }
    BufferLenMonotone(version, maxVersion);
    ghost var data := qrcode[..];
    ghost var codewords := DrawCodewordsAndFunctions(version, level, tempBuffer, qrcode);
    FormatIsFunction(version, Picture(tempBuffer[..], SideOf(version)));
    ghost var plain := Picture(qrcode[..], SideOf(version));
    chosen := DrawMask(tempBuffer, qrcode, level, mask, SideOf(version));
    ReadSymbol(version, codewords, plain, level, chosen);
    if forall i :: 0 <= i < |segs| ==> WellFormed(segs[i]) {
      DecodeSymbol(segs, version, level, chosen, data, codewords, plain);
      ModulesDecode(Picture(qrcode[..], SideOf(version)), plain, version, level, chosen);
    }
  }
}
