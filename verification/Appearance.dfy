/** What the function modules look like (section 6.3 of ISO/IEC 18004:2015). */
module Appearance {
  import opened Alignment
  import opened BchCodes
  import opened Capacity
  import opened FunctionCount
  import opened FunctionModules
  import opened FunctionPatterns
  import opened Grids

  // ----- Finder patterns.

  /** The corners of eight by eight modules that finder patterns and their separators take. */
  predicate InCorner(n: int, x: int, y: int) {
    (x < 8 && y < 8) || (x >= n - 8 && y < 8) || (x < 8 && y >= n - 8)
  }

  /** A dark frame of seven by seven modules around a dark square of three by three. */
  predicate FinderDark(u: int, v: int) {
    u <= 6 && v <= 6 && (u == 0 || u == 6 || v == 0 || v == 6 || (2 <= u <= 4 && 2 <= v <= 4))
  }

  lemma PatternOffCorners(version: int, i: nat, j: nat, x: int, y: int)
    requires 2 <= version <= 40 && i < AlignCount(version) && j < AlignCount(version) && InPattern(version, i, j, x, y)
    ensures !InCorner(SideOf(version), x, y)
  {
    hide AlignPos, AlignCount;
    FirstPos(version, i);
    FirstPos(version, j);
    var last := AlignCount(version) - 1;
    if i == 0 {
      PosApart(version, j, last);
    } else if j == 0 {
      PosApart(version, i, last);
    }
    FirstPos(version, last);
  }

  /** No alignment pattern reaches into the corners. */
  lemma NoPatternInCorner(version: int, x: nat, y: nat)
    requires IsVersion(version) && InCorner(SideOf(version), x, y)
    ensures !RingBefore(version, AlignCount(version), 0, x, y) && !CenterBefore(version, AlignCount(version), 0, x, y)
  {
    hide InPattern, PatternRing, PatternCenter, AlignCount, RingBefore, CenterBefore, InCorner;
    if RingBefore(version, AlignCount(version), 0, x, y) || CenterBefore(version, AlignCount(version), 0, x, y) {
      PatternIsFunction(version, x, y);
      var a: nat, b: nat :| a < AlignCount(version) && b < AlignCount(version) && InPattern(version, a, b, x, y);
      ManyPatterns(version);
      PatternOffCorners(version, a, b, x, y);
    }
  }

  lemma RingsMirrored(dx: int, dy: int)
    ensures InRings(-dx, dy) == InRings(dx, dy) == InRings(dx, -dy)
  {}

  lemma RingsAre(u: nat, v: nat)
    requires u < 8 && v < 8
    ensures InRings(u - 3, v - 3) == !FinderDark(u, v)
  {}

  lemma FarFromCenter(dx: int, dy: int)
    requires dx < -4 || dx > 4 || dy < -4 || dy > 4
    ensures !InRings(dx, dy)
  {}

  lemma FinderWhiteIs(n: Side, x: nat, y: nat)
    requires n >= 21 && x < 8 && y < 8
    ensures FinderWhite(n, x, y) == FinderWhite(n, n - 1 - x, y) == FinderWhite(n, x, n - 1 - y) == !FinderDark(x, y)
  {
    hide InRings, FinderDark;
    RingsAre(x, y);
    RingsMirrored(x - 3, y - 3);
    FarFromCenter(x - (n - 4), y - 3);
    FarFromCenter(x - 3, y - (n - 4));
    FarFromCenter(n - 1 - x - 3, y - 3);
    FarFromCenter(n - 1 - x - 3, y - (n - 4));
    FarFromCenter(x - 3, n - 1 - y - 3);
    FarFromCenter(x - (n - 4), n - 1 - y - 3);
  }

  lemma TimingOffCorner(n: Side, x: nat, y: nat)
    requires n >= 21 && x < 8 && y < 8 && FinderDark(x, y)
    ensures !TimingWhite(n - 7, x, y) && !TimingWhite(n - 7, n - 1 - x, y) && !TimingWhite(n - 7, x, n - 1 - y)
  {}

  lemma CornerDesign(version: int, versionBits: seq<bool>, fn: seq<seq<bool>>, x: nat, y: nat)
    requires IsVersion(version) && |versionBits| == 18 && ShowsFunctions(version, fn)
    requires x < SideOf(version) && y < SideOf(version) && InCorner(SideOf(version), x, y)
    ensures var n := SideOf(version);
            DesignAt(version, versionBits, fn, x, y) == !(TimingWhite(n - 7, x, y) || FinderWhite(n, x, y))
  {
    NoPatternInCorner(version, x, y);
    hide RingBefore, CenterBefore, InPatternBefore, AlignCount, FinderWhite, TimingWhite, VersionBit;
  }

  /** The three finder patterns with their separators. */
  lemma FinderLook(version: int, versionBits: seq<bool>, fn: seq<seq<bool>>, x: nat, y: nat)
    requires IsVersion(version) && |versionBits| == 18 && ShowsFunctions(version, fn) && x < 8 && y < 8
    ensures DesignAt(version, versionBits, fn, x, y) == FinderDark(x, y)
    ensures DesignAt(version, versionBits, fn, SideOf(version) - 1 - x, y) == FinderDark(x, y)
    ensures DesignAt(version, versionBits, fn, x, SideOf(version) - 1 - y) == FinderDark(x, y)
  {
    hide DesignAt, FinderWhite, TimingWhite, FinderDark, ShowsFunctions;
    var n := SideOf(version);
    CornerDesign(version, versionBits, fn, x, y);
    CornerDesign(version, versionBits, fn, n - 1 - x, y);
    CornerDesign(version, versionBits, fn, x, n - 1 - y);
    FinderWhiteIs(n, x, y);
    if FinderDark(x, y) {
      TimingOffCorner(n, x, y);
    }
  }

  // ----- Timing patterns.

  lemma {:induction false} PosEven(version: int, i: nat)
    requires 2 <= version <= 40 && i < AlignCount(version)
    ensures AlignPos(version, i) % 2 == 0
    decreases AlignCount(version) - i
  {
    hide AlignStep, AlignCount;
    StepIsSmallest(version);
    if 0 < i < AlignCount(version) - 1 {
      PosEven(version, i + 1);
    }
  }

  /** The alignment patterns in row 6 agree with the timing pattern. */
  lemma TimingAndPatterns(version: int, k: nat)
    requires IsVersion(version)
    ensures RingBefore(version, AlignCount(version), 0, k, 6) || RingBefore(version, AlignCount(version), 0, 6, k) ==>
              k % 2 == 1
    ensures CenterBefore(version, AlignCount(version), 0, k, 6) ||
            CenterBefore(version, AlignCount(version), 0, 6, k) ==>
              k % 2 == 0
  {
    hide AlignPos, AlignCount;
    forall a: nat, b: nat | a < AlignCount(version) && b < AlignCount(version)
      ensures PatternRing(version, a, b, k, 6) ==> k % 2 == 1
      ensures PatternRing(version, a, b, 6, k) ==> k % 2 == 1
      ensures PatternCenter(version, a, b, k, 6) ==> k % 2 == 0
      ensures PatternCenter(version, a, b, 6, k) ==> k % 2 == 0
    {
      ManyPatterns(version);
      FirstPos(version, a);
      FirstPos(version, b);
      PosEven(version, a);
      PosEven(version, b);
    }
    hide PatternRing, PatternCenter;
  }

  lemma FinderOffTiming(n: Side, k: nat)
    requires n >= 21 && 8 <= k < n - 8
    ensures !FinderWhite(n, k, 6) && !FinderWhite(n, 6, k)
    ensures TimingWhite(n - 7, k, 6) == TimingWhite(n - 7, 6, k) == (k % 2 == 1)
  {}

  lemma TimingDesign(version: int, versionBits: seq<bool>, fn: seq<seq<bool>>, x: nat, y: nat)
    requires IsVersion(version) && |versionBits| == 18 && ShowsFunctions(version, fn)
    requires x < SideOf(version) && y < SideOf(version) && (x == 6 || y == 6)
    ensures var n := SideOf(version);
            DesignAt(version, versionBits, fn, x, y) ==
            (CenterBefore(version, AlignCount(version), 0, x, y) ||
             !(TimingWhite(n - 7, x, y) || FinderWhite(n, x, y) || RingBefore(version, AlignCount(version), 0, x, y)))
  {
    hide RingBefore, CenterBefore, InPatternBefore, AlignCount, FinderWhite, TimingWhite, VersionBit;
  }

  /** The timing patterns in row 6 and column 6 alternate, dark at even places. */
  lemma TimingLook(version: int, versionBits: seq<bool>, fn: seq<seq<bool>>, k: nat)
    requires IsVersion(version) && |versionBits| == 18 && ShowsFunctions(version, fn) && 8 <= k < SideOf(version) - 8
    ensures DesignAt(version, versionBits, fn, k, 6) == (k % 2 == 0)
    ensures DesignAt(version, versionBits, fn, 6, k) == (k % 2 == 0)
  {
    hide DesignAt, RingBefore, CenterBefore, AlignCount, FinderWhite, TimingWhite, ShowsFunctions;
    TimingDesign(version, versionBits, fn, k, 6);
    TimingDesign(version, versionBits, fn, 6, k);
    FinderOffTiming(SideOf(version), k);
    TimingAndPatterns(version, k);
  }

  // ----- Alignment patterns.

  lemma OnePattern(version: int, i: nat, j: nat, x: int, y: int)
    requires 2 <= version <= 40 && i < AlignCount(version) && j < AlignCount(version) && InPattern(version, i, j, x, y)
    ensures RingBefore(version, AlignCount(version), 0, x, y) == PatternRing(version, i, j, x, y)
    ensures CenterBefore(version, AlignCount(version), 0, x, y) == PatternCenter(version, i, j, x, y)
  {
    hide InPattern, PatternRing, PatternCenter, AlignCount;
    forall a: nat, b: nat | a < AlignCount(version) && b < AlignCount(version) && PatternRing(version, a, b, x, y)
      ensures a == i && b == j
    {
      RingInPattern(version, a, b, x, y);
      PatternsApart(version, i, j, a, b, x, y);
    }
    forall a: nat, b: nat | a < AlignCount(version) && b < AlignCount(version) && PatternCenter(version, a, b, x, y)
      ensures a == i && b == j
    {
      CenterInPattern(version, a, b, x, y);
      PatternsApart(version, i, j, a, b, x, y);
    }
  }

  lemma FinderInCorner(n: Side, x: nat, y: nat)
    requires FinderWhite(n, x, y) && x < n && y < n
    ensures InCorner(n, x, y)
  {}

  /** In an alignment pattern, only the ring is white. */
  lemma PatternDesign(version: int, versionBits: seq<bool>, fn: seq<seq<bool>>, i: nat, j: nat, x: nat, y: nat)
    requires 2 <= version <= 40 && |versionBits| == 18 && ShowsFunctions(version, fn)
    requires i < AlignCount(version) && j < AlignCount(version) && InPattern(version, i, j, x, y)
    requires x < SideOf(version) && y < SideOf(version)
    ensures TimingWhite(SideOf(version) - 7, x, y) ==> PatternRing(version, i, j, x, y)
    ensures DesignAt(version, versionBits, fn, x, y) == !PatternRing(version, i, j, x, y)
  {
    hide RingBefore, CenterBefore, AlignCount, AlignPos;
    FirstPos(version, i);
    FirstPos(version, j);
    PosEven(version, i);
    PosEven(version, j);
    OnePattern(version, i, j, x, y);
    assert IsFunction(version, x, y);
    assert !InVersionBlock(version, SideOf(version), x, y) by {
      if x != 6 && y != 6 {
        AlignmentAway(version, x, y);
      }
    }
    if FinderWhite(SideOf(version), x, y) {
      FinderInCorner(SideOf(version), x, y);
      PatternOffCorners(version, i, j, x, y);
    }
    hide FinderWhite;
  }

  /** An alignment pattern: a dark frame of five by five modules, a white one, and a dark module in the center. */
  lemma AlignmentLook(version: int, versionBits: seq<bool>, fn: seq<seq<bool>>, i: nat, j: nat, u: int, v: int)
    requires 2 <= version <= 40 && |versionBits| == 18 && ShowsFunctions(version, fn)
    requires i < AlignCount(version) && j < AlignCount(version) && !IsCorner(AlignCount(version), i, j)
    requires -2 <= u <= 2 && -2 <= v <= 2
    ensures var x, y := AlignPos(version, i) + u, AlignPos(version, j) + v;
            0 <= x < SideOf(version) && 0 <= y < SideOf(version) &&
            DesignAt(version, versionBits, fn, x, y) ==
            (u == -2 || u == 2 || v == -2 || v == 2 || (u == 0 && v == 0))
  {
    hide AlignPos, AlignCount, DesignAt, ShowsFunctions;
    FirstPos(version, i);
    FirstPos(version, j);
    PatternDesign(version, versionBits, fn, i, j, AlignPos(version, i) + u, AlignPos(version, j) + v);
  }

  // ----- Version blocks.

  /** Both copies of the version bits, from version 7 on. */
  lemma VersionLook(version: int, versionBits: seq<bool>, fn: seq<seq<bool>>, i: nat, j: nat)
    requires 7 <= version <= 40 && |versionBits| == 18 && ShowsFunctions(version, fn) && i < 6 && j < 3
    ensures DesignAt(version, versionBits, fn, SideOf(version) - 11 + j, i) == versionBits[3 * i + j]
    ensures DesignAt(version, versionBits, fn, i, SideOf(version) - 11 + j) == versionBits[3 * i + j]
  {}
}
