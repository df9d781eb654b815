/** `drawWhiteFunctionModules`: what the function modules show. */
module FunctionPatterns {
  import opened Arithmetic
  import opened Alignment
  import opened BchCodes
  import opened BitStrings
  import opened Bytes
  import opened Capacity
  import opened FunctionModules
  import opened Grids

  /** The distance of a module from a center, along the axis that is farther. */
  function AxisDistance(dx: int, dy: int): nat { if Abs(dy) > Abs(dx) then Abs(dy) else Abs(dx) }

  predicate TimingWhite(last: int, x: int, y: int) {
    (x == 6 && 7 <= y < last && y % 2 == 1) || (y == 6 && 7 <= x < last && x % 2 == 1)
  }

  /** The white rings around the center of a finder pattern. */
  predicate InRings(dx: int, dy: int) { AxisDistance(dx, dy) == 2 || AxisDistance(dx, dy) == 4 }

  predicate FinderWhite(n: int, x: int, y: int) {
    InRings(x - 3, y - 3) || InRings(x - (n - 4), y - 3) || InRings(x - 3, y - (n - 4))
  }

  /** The white ring of an alignment pattern. */
  predicate PatternRing(version: int, i: nat, j: nat, x: int, y: int)
    requires IsVersion(version) && i < AlignCount(version) && j < AlignCount(version)
  {
    !IsCorner(AlignCount(version), i, j) && AxisDistance(x - AlignPos(version, i), y - AlignPos(version, j)) == 1
  }

  predicate PatternCenter(version: int, i: nat, j: nat, x: int, y: int)
    requires IsVersion(version) && i < AlignCount(version) && j < AlignCount(version)
  {
    !IsCorner(AlignCount(version), i, j) && x == AlignPos(version, i) && y == AlignPos(version, j)
  }

  ghost predicate RingBefore(version: int, i: nat, j: nat, x: int, y: int)
    requires IsVersion(version)
  {
    exists a: nat, b: nat :: a < AlignCount(version) && b < AlignCount(version) && PatternRing(version, a, b, x, y) &&
      (a < i || (a == i && b < j))
  }

  ghost predicate CenterBefore(version: int, i: nat, j: nat, x: int, y: int)
    requires IsVersion(version)
  {
    exists a: nat, b: nat :: a < AlignCount(version) && b < AlignCount(version) && PatternCenter(version, a, b, x, y) &&
      (a < i || (a == i && b < j))
  }

  /** The version bit at a module of the version blocks. */
  function VersionBit(n: int, x: int, y: int): int {
    if InRectangle(n - 11, 0, 3, 6, x, y) then 3 * y + (x - (n - 11)) else 3 * x + (y - (n - 11))
  }

  /** The 18 version bits, least significant bit first. */
  function VersionBits(version: nat): (bits: seq<bool>)
    ensures |bits| == 18
  {
    Reversed(VersionCode(BitsOf(version, 6)))
  }

  function Reversed(s: seq<bool>): (r: seq<bool>)
    ensures |r| == |s|
  {
    seq(|s|, k requires 0 <= k < |s| => s[|s| - 1 - k])
  }

  lemma ReversedTwice(s: seq<bool>)
    ensures Reversed(Reversed(s)) == s
  {}

  /**
   From the most significant bit on: the first six version bits tell the version, and those of different versions differ
   in at least 8 places, so that 3 errors can be corrected.
   */
  lemma VersionsApart(version: nat, version': nat)
    requires version < 64 && version' < 64
    ensures NumberOf(Reversed(VersionBits(version))[..6]) == version
    ensures version != version' ==> Distance(Reversed(VersionBits(version)), Reversed(VersionBits(version'))) >= 8
  {
    hide BitsOf, NumberOf, VersionCode, Reversed, Distance, Pow2;
    SmallPowers();
    NumberOfBits(version, 6);
    NumberOfBits(version', 6);
    ReversedTwice(VersionCode(BitsOf(version, 6)));
    ReversedTwice(VersionCode(BitsOf(version', 6)));
    VersionStart(BitsOf(version, 6));
    if version != version' {
      VersionDistance(BitsOf(version, 6), BitsOf(version', 6));
    }
  }

  lemma VersionStart(data: seq<bool>)
    requires |data| == 6
    ensures VersionCode(data)[..6] == data
  {
    hide Rounds, VersionGenerator;
  }

  /** The version bits of version 7 (annex D of ISO/IEC 18004:2015). */
  lemma VersionWord()
    ensures Reads(Reversed(VersionBits(7)), "000111110010010100")
  {
    hide VersionCode, Reversed, BitsOf;
    var d := [false, false, false, true, true, true];
    SevenBits();
    ReversedTwice(VersionCode(d));
    VersionCodeIs(d);
  }

  lemma SevenBits()
    ensures BitsOf(7, 6) == [false, false, false, true, true, true]
  {
    assert BitsOf(0, 3) == [false, false, false] by {
      assert BitsOf(0, 1) == [false] by { assert BitsOf(0, 0) == []; }
    }
    assert BitsOf(1, 4) == [false, false, false, true];
    assert BitsOf(3, 5) == [false, false, false, true, true];
  }

  /** The computation of the version bits. */
  method ComputeVersion(version: nat) returns (bits: seq<bool>)
    ensures bits == VersionBits(version)
  {
    hide VersionGenerator, BitsOf;
    var data := BitsOf(version, 6);
    var rem := Divide(seq(6, _ => false) + data, VersionGenerator(), 12);
    bits := Reversed(data + rem);
  }

  /** The module at column `x` and row `y` when all function modules have been drawn over the picture `p`. */
  ghost predicate DesignAt(version: int, versionBits: seq<bool>, p: seq<seq<bool>>, x: nat, y: nat)
    requires IsVersion(version) && |versionBits| == 18 && Square(p, SideOf(version)) && x < SideOf(version) &&
             y < SideOf(version)
  {
    var n := SideOf(version);
    if InVersionBlock(version, n, x, y) then versionBits[VersionBit(n, x, y)]
    else
      CenterBefore(version, AlignCount(version), 0, x, y) ||
      (p[y][x] && !TimingWhite(n - 7, x, y) && !FinderWhite(n, x, y) &&
       !RingBefore(version, AlignCount(version), 0, x, y))
  }

  ghost predicate ShowsDesign(version: int, versionBits: seq<bool>, p: seq<seq<bool>>, now: seq<seq<bool>>)
    requires IsVersion(version) && |versionBits| == 18
  {
    Square(p, SideOf(version)) && Square(now, SideOf(version)) &&
    forall x: nat, y: nat :: x < SideOf(version) && y < SideOf(version) ==>
        now[y][x] == DesignAt(version, versionBits, p, x, y)
  }

  // ----- The loops.

  /** `setModuleBounded`, and `setModule` where the module is in bounds. */
  method SetModuleBounded(qrcode: array<Byte>, x: int, y: int, isBlack: bool, ghost n: Side)
    requires IsGrid(qrcode[..], n)
    modifies qrcode
    ensures IsGrid(qrcode[..], n)
    ensures forall u: nat, v: nat :: u < n && v < n ==>
              Picture(qrcode[..], n)[v][u] == if u == x && v == y then isBlack else old(Picture(qrcode[..], n))[v][u]
  {
    hide IsGrid, Module, Put;
    ghost var before := qrcode[..];
    var qrsize := GetSize(qrcode, n);
    if 0 <= x < qrsize && 0 <= y < qrsize {
      SetModule(qrcode, x, y, isBlack, n);
      forall u: nat, v: nat | u < n && v < n
        ensures Picture(qrcode[..], n)[v][u] == if u == x && v == y then isBlack else Picture(before, n)[v][u]
      {
        PutModule(before, n, x, y, isBlack, u, v);
      }
    }
  }

  /** The white modules of the timing patterns. */
  method DrawTiming(qrcode: array<Byte>, ghost n: Side)
    requires IsGrid(qrcode[..], n)
    modifies qrcode
    ensures IsGrid(qrcode[..], n)
    ensures forall x: nat, y: nat :: x < n && y < n ==>
              Picture(qrcode[..], n)[y][x] == (old(Picture(qrcode[..], n))[y][x] && !TimingWhite(n - 7, x, y))
  {
    hide IsGrid, Module;
    ghost var p := Picture(qrcode[..], n);
    var qrsize := GetSize(qrcode, n);
    var i := 7;
    while i < qrsize - 7
      invariant i % 2 == 1 && (if 7 <= qrsize - 7 then 7 <= i <= qrsize - 6 else i == 7) && IsGrid(qrcode[..], n)
      invariant forall x: nat, y: nat :: x < n && y < n ==>
                  Picture(qrcode[..], n)[y][x] == (p[y][x] && !TimingWhite(i, x, y))
    {
      SetModuleBounded(qrcode, 6, i, false, n);
      SetModuleBounded(qrcode, i, 6, false, n);
      i := i + 2;
    }
    forall x: int, y: int ensures TimingWhite(i, x, y) == TimingWhite(n - 7, x, y) {
      TimingEnd(n, i, x, y);
    }
  }

  lemma TimingEnd(n: Side, i: nat, x: int, y: int)
    requires i % 2 == 1 && n - 7 <= i && (if 7 <= n - 7 then i <= n - 6 else i == 7)
    ensures TimingWhite(i, x, y) == TimingWhite(n - 7, x, y)
  {}

  /** A module of the rings that comes before the offset `dx`, `dy`. */
  predicate RingsUpTo(dx: int, dy: int, u: int, v: int) {
    InRings(u, v) && (v < dy || (v == dy && u < dx))
  }

  predicate FinderUpTo(n: int, dx: int, dy: int, x: int, y: int) {
    RingsUpTo(dx, dy, x - 3, y - 3) || RingsUpTo(dx, dy, x - (n - 4), y - 3) || RingsUpTo(dx, dy, x - 3, y - (n - 4))
  }

  /** The loop body for the finder patterns. */
  method DrawFinderModules(qrcode: array<Byte>, qrsize: nat, dx: int, dy: int, ghost n: Side, ghost p: seq<seq<bool>>)
    requires IsGrid(qrcode[..], n) && Square(p, n) && qrsize == n
    requires forall x: nat, y: nat :: x < n && y < n ==>
             Picture(qrcode[..], n)[y][x] == (p[y][x] && !FinderUpTo(n, dx, dy, x, y))
    modifies qrcode
    ensures IsGrid(qrcode[..], n)
    ensures forall x: nat, y: nat :: x < n && y < n ==>
              Picture(qrcode[..], n)[y][x] == (p[y][x] && !FinderUpTo(n, dx + 1, dy, x, y))
  {
    hide IsGrid, Module;
    var dist := Abs(dx);
    if Abs(dy) > dist {
      dist := Abs(dy);
    }
    assert dist == AxisDistance(dx, dy);
    hide AxisDistance;
    if dist == 2 || dist == 4 {
      SetModuleBounded(qrcode, 3 + dx, 3 + dy, false, n);
      SetModuleBounded(qrcode, qrsize - 4 + dx, 3 + dy, false, n);
      SetModuleBounded(qrcode, 3 + dx, qrsize - 4 + dy, false, n);
    }
  }

  lemma RingsBounds(dx: int, dy: int)
    requires InRings(dx, dy)
    ensures -4 <= dx <= 4 && -4 <= dy <= 4
  {}

  /** The white rings of the finder patterns. */
  method DrawFinders(qrcode: array<Byte>, ghost n: Side)
    requires IsGrid(qrcode[..], n)
    modifies qrcode
    ensures IsGrid(qrcode[..], n)
    ensures forall x: nat, y: nat :: x < n && y < n ==>
              Picture(qrcode[..], n)[y][x] == (old(Picture(qrcode[..], n))[y][x] && !FinderWhite(n, x, y))
  {
    hide IsGrid, Module, InRings;
    ghost var p := Picture(qrcode[..], n);
    var qrsize := GetSize(qrcode, n);
    forall u: int, v: int | InRings(u, v) ensures -4 <= u <= 4 && -4 <= v <= 4 {
      RingsBounds(u, v);
    }
    var dy: int := -4;
    while dy <= 4
      invariant -4 <= dy <= 5 && IsGrid(qrcode[..], n)
      invariant forall x: nat, y: nat :: x < n && y < n ==>
                  Picture(qrcode[..], n)[y][x] == (p[y][x] && !FinderUpTo(n, -4, dy, x, y))
    {
      var dx: int := -4;
      while dx <= 4
        invariant -4 <= dx <= 5 && IsGrid(qrcode[..], n)
        invariant forall x: nat, y: nat :: x < n && y < n ==>
                    Picture(qrcode[..], n)[y][x] == (p[y][x] && !FinderUpTo(n, dx, dy, x, y))
      {
        DrawFinderModules(qrcode, qrsize, dx, dy, n, p);
        dx := dx + 1;
      }
      dy := dy + 1;
    }
  }

  /** A module of the three by three around a center that comes before the offset `dx`, `dy`. */
  predicate BlockUpTo(dx: int, dy: int, u: int, v: int) {
    -1 <= u <= 1 && -1 <= v <= 1 && (v < dy || (v == dy && u < dx))
  }

  /** The three by three modules of one alignment pattern. */
  method DrawPattern(version: int, i: nat, j: nat, alignPatPos: array<int>, numAlign: nat, qrcode: array<Byte>,
                     ghost n: Side)
    requires IsVersion(version) && n == SideOf(version) && IsGrid(qrcode[..], n) && alignPatPos.Length == 7
    requires i < numAlign == AlignCount(version) <= 7 && j < numAlign
    requires forall k: nat :: k < numAlign ==> alignPatPos[k] == AlignPos(version, k)
    modifies qrcode
    ensures IsGrid(qrcode[..], n)
    ensures forall x: nat, y: nat :: x < n && y < n ==>
              Picture(qrcode[..], n)[y][x] ==
                (PatternCenter(version, i, j, x, y) ||
                 (old(Picture(qrcode[..], n))[y][x] && !PatternRing(version, i, j, x, y)))
  {
    hide IsGrid, Module, AlignPos, AlignCount;
    ghost var p := Picture(qrcode[..], n);
    if (i == 0 && j == 0) || (i == 0 && j == numAlign - 1) || (i == numAlign - 1 && j == 0) {
      return;
    }
    var cx, cy := alignPatPos[i], alignPatPos[j];
    var dy: int := -1;
    while dy <= 1
      invariant -1 <= dy <= 2 && IsGrid(qrcode[..], n)
      invariant forall x: nat, y: nat :: x < n && y < n ==>
                  Picture(qrcode[..], n)[y][x] ==
                    if BlockUpTo(-1, dy, x - cx, y - cy) then x == cx && y == cy else p[y][x]
    {
      var dx: int := -1;
      while dx <= 1
        invariant -1 <= dx <= 2 && IsGrid(qrcode[..], n)
        invariant forall x: nat, y: nat :: x < n && y < n ==>
                    Picture(qrcode[..], n)[y][x] ==
                      if BlockUpTo(dx, dy, x - cx, y - cy) then x == cx && y == cy else p[y][x]
      {
        SetModuleBounded(qrcode, cx + dx, cy + dy, dx == 0 && dy == 0, n);
        dx := dx + 1;
      }
      dy := dy + 1;
    }
  }

  /** The patterns before positions `i` and `j` have been drawn. */
  ghost predicate PatternsDrawn(version: int, i: nat, j: nat, p: seq<seq<bool>>, now: seq<seq<bool>>)
    requires IsVersion(version)
  {
    Square(p, SideOf(version)) && Square(now, SideOf(version)) &&
    forall x: nat, y: nat :: x < SideOf(version) && y < SideOf(version) ==>
      now[y][x] == (CenterBefore(version, i, j, x, y) || (p[y][x] && !RingBefore(version, i, j, x, y)))
  }

  lemma NextDrawn(version: int, i: nat, j: nat, x: int, y: int)
    requires 2 <= version <= 40 && i < AlignCount(version) && j < AlignCount(version)
    ensures RingBefore(version, i, j + 1, x, y) == (RingBefore(version, i, j, x, y) || PatternRing(version, i, j, x, y))
    ensures CenterBefore(version, i, j + 1, x, y) ==
            (CenterBefore(version, i, j, x, y) || PatternCenter(version, i, j, x, y))
    ensures PatternRing(version, i, j, x, y) ==> !CenterBefore(version, i, j, x, y)
  {
    hide PatternRing, PatternCenter, AlignCount;
    if PatternRing(version, i, j, x, y) && CenterBefore(version, i, j, x, y) {
      var a: nat, b: nat :| a < AlignCount(version) && b < AlignCount(version) && PatternCenter(version, a, b, x, y) &&
        (a < i || (a == i && b < j));
      RingInPattern(version, i, j, x, y);
      CenterInPattern(version, a, b, x, y);
      PatternsApart(version, i, j, a, b, x, y);
    }
  }

  lemma RingInPattern(version: int, i: nat, j: nat, x: int, y: int)
    requires IsVersion(version) && i < AlignCount(version) && j < AlignCount(version) &&
             PatternRing(version, i, j, x, y)
    ensures InPattern(version, i, j, x, y)
  {
    hide AlignPos, AlignCount;
  }

  lemma CenterInPattern(version: int, i: nat, j: nat, x: int, y: int)
    requires IsVersion(version) && i < AlignCount(version) && j < AlignCount(version) &&
             PatternCenter(version, i, j, x, y)
    ensures InPattern(version, i, j, x, y)
  {
    hide AlignPos, AlignCount;
  }

  lemma PatternDrawn(version: int, i: nat, j: nat, p: seq<seq<bool>>, now: seq<seq<bool>>, next: seq<seq<bool>>)
    requires 2 <= version <= 40 && i < AlignCount(version) && j < AlignCount(version) &&
             PatternsDrawn(version, i, j, p, now)
    requires Square(next, SideOf(version)) && forall x: nat, y: nat :: x < SideOf(version) && y < SideOf(version) ==>
               next[y][x] == (PatternCenter(version, i, j, x, y) || (now[y][x] && !PatternRing(version, i, j, x, y)))
    ensures PatternsDrawn(version, i, j + 1, p, next)
  {
    hide PatternRing, PatternCenter, AlignCount, RingBefore, CenterBefore;
    forall x: nat, y: nat | x < SideOf(version) && y < SideOf(version)
      ensures next[y][x] == (CenterBefore(version, i, j + 1, x, y) || (p[y][x] && !RingBefore(version, i, j + 1, x, y)))
    {
      NextDrawn(version, i, j, x, y);
    }
  }

  lemma PatternRowDrawn(version: int, i: nat, p: seq<seq<bool>>, now: seq<seq<bool>>)
    requires IsVersion(version) && i < AlignCount(version) && PatternsDrawn(version, i, AlignCount(version), p, now)
    ensures PatternsDrawn(version, i + 1, 0, p, now)
  {
    hide PatternRing, PatternCenter, AlignCount;
    forall x: nat, y: nat | x < SideOf(version) && y < SideOf(version)
      ensures RingBefore(version, i, AlignCount(version), x, y) == RingBefore(version, i + 1, 0, x, y)
      ensures CenterBefore(version, i, AlignCount(version), x, y) == CenterBefore(version, i + 1, 0, x, y)
    {}
  }

  lemma NoneDrawn(version: int, p: seq<seq<bool>>)
    requires IsVersion(version) && Square(p, SideOf(version))
    ensures PatternsDrawn(version, 0, 0, p, p)
  {
    hide PatternRing, PatternCenter;
  }

  method DrawPatterns(version: int, qrcode: array<Byte>, ghost n: Side)
    requires IsVersion(version) && n == SideOf(version) && IsGrid(qrcode[..], n)
    modifies qrcode
    ensures IsGrid(qrcode[..], n)
    ensures PatternsDrawn(version, AlignCount(version), 0, old(Picture(qrcode[..], n)), Picture(qrcode[..], n))
  {
    hide IsGrid, Module, PatternsDrawn, AlignPos, AlignCount;
    ghost var p := Picture(qrcode[..], n);
    var alignPatPos := new int[7];
    var numAlign := GetAlignmentPatternPositions(version, alignPatPos);
    ManyPatterns(version);
    NoneDrawn(version, p);
    var i := 0;
    while i < numAlign
      invariant 0 <= i <= numAlign && IsGrid(qrcode[..], n)
      invariant forall k: nat :: k < numAlign ==> alignPatPos[k] == AlignPos(version, k)
      invariant PatternsDrawn(version, i, 0, p, Picture(qrcode[..], n))
    {
      var j := 0;
      while j < numAlign
        invariant 0 <= j <= numAlign && IsGrid(qrcode[..], n)
        invariant forall k: nat :: k < numAlign ==> alignPatPos[k] == AlignPos(version, k)
        invariant PatternsDrawn(version, i, j, p, Picture(qrcode[..], n))
      {
        ghost var now := Picture(qrcode[..], n);
        DrawPattern(version, i, j, alignPatPos, numAlign, qrcode, n);
        PatternDrawn(version, i, j, p, now, Picture(qrcode[..], n));
        j := j + 1;
      }
      PatternRowDrawn(version, i, p, Picture(qrcode[..], n));
      i := i + 1;
    }
  }

  /** A module of the version blocks that comes before bit `j` of row `i`. */
  predicate VersionUpTo(n: int, i: int, j: int, x: int, y: int) {
    (InRectangle(n - 11, 0, 3, 6, x, y) || InRectangle(0, n - 11, 6, 3, x, y)) && VersionBit(n, x, y) < 3 * i + j
  }

  /** Both copies of the 18 version bits. */
  method DrawVersionBits(versionBits: seq<bool>, qrcode: array<Byte>, ghost n: Side)
    requires n >= 45 && IsGrid(qrcode[..], n) && |versionBits| == 18
    modifies qrcode
    ensures IsGrid(qrcode[..], n)
    ensures forall x: nat, y: nat :: x < n && y < n ==>
              Picture(qrcode[..], n)[y][x] == if VersionUpTo(n, 6, 0, x, y) then versionBits[VersionBit(n, x, y)]
                                              else old(Picture(qrcode[..], n))[y][x]
  {
    hide IsGrid, Module;
    ghost var p := Picture(qrcode[..], n);
    var qrsize := GetSize(qrcode, n);
    var i := 0;
    while i < 6
      invariant 0 <= i <= 6 && IsGrid(qrcode[..], n)
      invariant forall x: nat, y: nat :: x < n && y < n ==>
                  Picture(qrcode[..], n)[y][x] ==
                    if VersionUpTo(n, i, 0, x, y) then versionBits[VersionBit(n, x, y)] else p[y][x]
    {
      var j := 0;
      while j < 3
        invariant 0 <= j <= 3 && IsGrid(qrcode[..], n)
        invariant forall x: nat, y: nat :: x < n && y < n ==>
                    Picture(qrcode[..], n)[y][x] ==
                      if VersionUpTo(n, i, j, x, y) then versionBits[VersionBit(n, x, y)] else p[y][x]
      {
        var k := qrsize - 11 + j;
        SetModuleBounded(qrcode, k, i, versionBits[3 * i + j], n);
        SetModuleBounded(qrcode, i, k, versionBits[3 * i + j], n);
        j := j + 1;
      }
      i := i + 1;
    }
  }

  /** `drawWhiteFunctionModules` */
  method DrawWhiteFunctionModules(qrcode: array<Byte>, version: int)
    requires IsVersion(version) && IsGrid(qrcode[..], SideOf(version))
    modifies qrcode
    ensures IsGrid(qrcode[..], SideOf(version))
    ensures ShowsDesign(version, VersionBits(version), old(Picture(qrcode[..], SideOf(version))),
                        Picture(qrcode[..], SideOf(version)))
  {
    hide IsGrid, Module, RingBefore, CenterBefore, AlignCount, FinderWhite, TimingWhite, VersionBits;
    ghost var n := SideOf(version);
    DrawTiming(qrcode, n);
    DrawFinders(qrcode, n);
    DrawPatterns(version, qrcode, n);
    if version >= 7 {
      var versionBits := ComputeVersion(version);
      DrawVersionBits(versionBits, qrcode, n);
    }
  }

  // ----- Only function modules are drawn.

  /** No module but function modules has changed. */
  ghost predicate OthersKept(version: int, p: seq<seq<bool>>, now: seq<seq<bool>>)
    requires IsVersion(version)
  {
    Square(p, SideOf(version)) && Square(now, SideOf(version)) &&
    forall x: nat, y: nat :: x < SideOf(version) && y < SideOf(version) && !IsFunction(version, x, y) ==>
        now[y][x] == p[y][x]
  }

  lemma WhiteInFrame(version: int, x: nat, y: nat)
    requires IsVersion(version) && x < SideOf(version) && y < SideOf(version)
    requires TimingWhite(SideOf(version) - 7, x, y) || FinderWhite(SideOf(version), x, y)
    ensures InFrame(SideOf(version), x, y)
  {}

  lemma PatternIsFunction(version: int, x: nat, y: nat)
    requires IsVersion(version)
    requires RingBefore(version, AlignCount(version), 0, x, y) || CenterBefore(version, AlignCount(version), 0, x, y)
    ensures InPatternBefore(version, AlignCount(version), 0, x, y)
  {
    hide PatternRing, PatternCenter, InPattern, AlignCount;
    if RingBefore(version, AlignCount(version), 0, x, y) {
      var a: nat, b: nat :| a < AlignCount(version) && b < AlignCount(version) && PatternRing(version, a, b, x, y);
      RingInPattern(version, a, b, x, y);
    } else {
      var a: nat, b: nat :| a < AlignCount(version) && b < AlignCount(version) && PatternCenter(version, a, b, x, y);
      CenterInPattern(version, a, b, x, y);
    }
  }

  /** Drawing the function modules does not touch the others. */
  lemma DesignKeepsOthers(version: int, versionBits: seq<bool>, p: seq<seq<bool>>, now: seq<seq<bool>>)
    requires IsVersion(version) && |versionBits| == 18 && ShowsDesign(version, versionBits, p, now)
    ensures OthersKept(version, p, now)
  {
    hide RingBefore, CenterBefore, InPatternBefore, AlignCount, FinderWhite, TimingWhite, InFrame, InVersionBlock;
    forall x: nat, y: nat | x < SideOf(version) && y < SideOf(version) && !IsFunction(version, x, y)
      ensures now[y][x] == p[y][x]
    {
      if TimingWhite(SideOf(version) - 7, x, y) || FinderWhite(SideOf(version), x, y) {
        WhiteInFrame(version, x, y);
      }
      if RingBefore(version, AlignCount(version), 0, x, y) || CenterBefore(version, AlignCount(version), 0, x, y) {
        PatternIsFunction(version, x, y);
      }
    }
  }
}
