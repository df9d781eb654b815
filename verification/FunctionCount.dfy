/** The number of modules that are free for codewords is what `getNumRawDataModules` says, for every version. */
module FunctionCount {
  import opened Alignment
  import opened Capacity
  import opened FunctionModules
  import opened Grids
  import opened Zigzag

  type Cell = (int, int)

  function Rect(left: int, top: int, width: nat, height: nat): set<Cell> {
    set x: int, y: int | left <= x < left + width && top <= y < top + height :: (x, y)
  }

  lemma {:induction false} RowSize(left: int, top: int, width: nat)
    ensures |Rect(left, top, width, 1)| == width
  {
    if width == 0 {
      assert Rect(left, top, width, 1) == {};
    } else {
      RowSize(left, top, width - 1);
      assert Rect(left, top, width, 1) == Rect(left, top, width - 1, 1) + {(left + width - 1, top)};
    }
  }

  lemma {:induction false} RectSize(left: int, top: int, width: nat, height: nat)
    ensures |Rect(left, top, width, height)| == width * height
  {
    if height == 0 {
      assert Rect(left, top, width, height) == {};
    } else {
      RectSize(left, top, width, height - 1);
      RowSize(left, top + height - 1, width);
      RectSplit(left, top, width, height);
      hide Rect;
      assert width * height == width * (height - 1) + width;
    }
  }

  lemma RectSplit(left: int, top: int, width: nat, height: nat)
    requires height > 0
    ensures Rect(left, top, width, height) ==
            Rect(left, top, width, height - 1) + Rect(left, top + height - 1, width, 1)
    ensures Rect(left, top, width, height - 1) !! Rect(left, top + height - 1, width, 1)
  {}

  // ----- Free modules, counted by the scan.

  /** The free modules that the first `t` steps of the scan come to. */
  function Visited(fn: seq<seq<bool>>, n: Side, t: nat): set<Cell>
    requires Square(fn, n) && t <= ScanLen(n)
  {
    if t == 0 then {}
    else Visited(fn, n, t - 1) + if Free(fn, n, t - 1) then {(ScanCell(n, t - 1).0, ScanCell(n, t - 1).1)} else {}
  }

  lemma {:induction false} VisitedCell(fn: seq<seq<bool>>, n: Side, t: nat, x: nat, y: nat)
    requires Square(fn, n) && t <= ScanLen(n) && x < n && y < n && x != 6
    ensures (x, y) in Visited(fn, n, t) <==> TimeOf(n, x, y) < t && !fn[y][x]
  {
    hide ScanCell, TimeOf, ScanLen;
    if t > 0 {
      VisitedCell(fn, n, t - 1, x, y);
      TimeOfScan(n, t - 1);
      ScanOfTime(n, x, y);
    }
  }

  lemma {:induction false} VisitedRange(fn: seq<seq<bool>>, n: Side, t: nat, c: Cell)
    requires Square(fn, n) && t <= ScanLen(n) && c in Visited(fn, n, t)
    ensures 0 <= c.0 < n && 0 <= c.1 < n && c.0 != 6
  {
    hide ScanCell, ScanLen;
    if t > 0 && c in Visited(fn, n, t - 1) {
      VisitedRange(fn, n, t - 1, c);
    }
  }

  lemma {:induction false} VisitedSize(fn: seq<seq<bool>>, n: Side, t: nat)
    requires Square(fn, n) && t <= ScanLen(n)
    ensures |Visited(fn, n, t)| == Rank(fn, n, t)
  {
    hide ScanCell, ScanLen, Free;
    if t > 0 {
      hide Visited;
      VisitedSize(fn, n, t - 1);
      VisitedStep(fn, n, t - 1);
    } else {
      assert Visited(fn, n, t) == {};
    }
  }

  lemma VisitedStep(fn: seq<seq<bool>>, n: Side, t: nat)
    requires Square(fn, n) && t < ScanLen(n)
    ensures |Visited(fn, n, t + 1)| == |Visited(fn, n, t)| + if Free(fn, n, t) then 1 else 0
  {
    hide ScanCell, ScanLen, Free;
    NewCell(fn, n, t);
  }

  lemma NewCell(fn: seq<seq<bool>>, n: Side, t: nat)
    requires Square(fn, n) && t < ScanLen(n)
    ensures (ScanCell(n, t).0, ScanCell(n, t).1) !in Visited(fn, n, t)
  {
    hide ScanCell, TimeOf, ScanLen, Visited;
    VisitedCell(fn, n, t, ScanCell(n, t).0, ScanCell(n, t).1);
    TimeOfScan(n, t);
  }

  /** The modules that are not function modules. */
  ghost function FreeCells(version: int): set<Cell>
    requires IsVersion(version)
  {
    set c | c in Rect(0, 0, SideOf(version), SideOf(version)) && !IsFunction(version, c.0, c.1)
  }

  lemma RankIsFreeCells(version: int, fn: seq<seq<bool>>)
    requires IsVersion(version) && ShowsFunctions(version, fn)
    ensures Rank(fn, SideOf(version), ScanLen(SideOf(version))) == |FreeCells(version)|
  {
    hide ScanLen, TimeOf, InPatternBefore, InVersionBlock, Visited;
    var n := SideOf(version);
    VisitedSize(fn, n, ScanLen(n));
    forall c: Cell ensures c in Visited(fn, n, ScanLen(n)) <==> c in FreeCells(version) {
      if c in Visited(fn, n, ScanLen(n)) {
        VisitedRange(fn, n, ScanLen(n), c);
      }
      if 0 <= c.0 < n && 0 <= c.1 < n && c.0 != 6 {
        VisitedCell(fn, n, ScanLen(n), c.0, c.1);
        ScanOfTime(n, c.0, c.1);
      }
    }
    assert Visited(fn, n, ScanLen(n)) == FreeCells(version);
  }

  // ----- Function modules, counted by their patterns.

  ghost function FrameCells(n: nat): set<Cell> {
    set c | c in Rect(0, 0, n, n) && InFrame(n, c.0, c.1)
  }

  lemma FrameSize(n: nat)
    requires n >= 21
    ensures |FrameCells(n)| == 2 * (n - 17) + 225
  {
    RectSize(6, 9, 1, n - 17);
    RectSize(9, 6, n - 17, 1);
    RectSize(0, 0, 9, 9);
    RectSize(n - 8, 0, 8, 9);
    RectSize(0, n - 8, 9, 8);
    FrameParts(n);
  }

  lemma FrameParts(n: nat)
    requires n >= 21
    ensures |FrameCells(n)| == |Rect(6, 9, 1, n - 17)| + |Rect(9, 6, n - 17, 1)| + |Rect(0, 0, 9, 9)| +
                               |Rect(n - 8, 0, 8, 9)| + |Rect(0, n - 8, 9, 8)|
  {
    var a, b := Rect(6, 9, 1, n - 17), Rect(9, 6, n - 17, 1);
    var c, d, e := Rect(0, 0, 9, 9), Rect(n - 8, 0, 8, 9), Rect(0, n - 8, 9, 8);
    assert a !! b !! c !! d !! e;
    assert FrameCells(n) == a + b + c + d + e;
  }

  ghost function VersionCells(version: int): set<Cell>
    requires IsVersion(version)
  {
    set c | c in Rect(0, 0, SideOf(version), SideOf(version)) && InVersionBlock(version, SideOf(version), c.0, c.1)
  }

  lemma VersionSize(version: int)
    requires IsVersion(version)
    ensures |VersionCells(version)| == if version >= 7 then 36 else 0
  {
    var n: int := SideOf(version);
    if version >= 7 {
      RectSize(n - 11, 0, 3, 6);
      RectSize(0, n - 11, 6, 3);
      assert Rect(n - 11, 0, 3, 6) !! Rect(0, n - 11, 6, 3);
      assert VersionCells(version) == Rect(n - 11, 0, 3, 6) + Rect(0, n - 11, 6, 3);
    } else {
      assert VersionCells(version) == {};
    }
  }

  /** One alignment pattern, without the timing patterns. */
  ghost function PatternCells(version: int, i: nat, j: nat): set<Cell>
    requires IsVersion(version) && i < AlignCount(version) && j < AlignCount(version)
  {
    set c | c in Rect(AlignPos(version, i) - 2, AlignPos(version, j) - 2, 5, 5) && InPattern(version, i, j, c.0, c.1) &&
      c.0 != 6 && c.1 != 6
  }

  /** The size of a pattern without the timing patterns. */
  function PatternArea(count: nat, i: nat, j: nat): nat {
    if IsCorner(count, i, j) then 0 else if i == 0 || j == 0 then 20 else 25
  }

  lemma LeftPattern(version: int, j: nat)
    requires 2 <= version <= 40 && j < AlignCount(version) && !IsCorner(AlignCount(version), 0, j)
    ensures |PatternCells(version, 0, j)| == 20
  {
    hide AlignCount, AlignPos;
    var x, y := AlignPos(version, 0) - 2, AlignPos(version, j) - 2;
    FirstPos(version, 0);
    FirstPos(version, j);
    RectSize(x, y, 2, 5);
    RectSize(x + 3, y, 2, 5);
    assert Rect(x, y, 2, 5) !! Rect(x + 3, y, 2, 5);
    assert PatternCells(version, 0, j) == Rect(x, y, 2, 5) + Rect(x + 3, y, 2, 5);
  }

  lemma TopPattern(version: int, i: nat)
    requires 2 <= version <= 40 && i < AlignCount(version) && !IsCorner(AlignCount(version), i, 0) && i > 0
    ensures |PatternCells(version, i, 0)| == 20
  {
    hide AlignCount, AlignPos;
    var x, y := AlignPos(version, i) - 2, AlignPos(version, 0) - 2;
    FirstPos(version, i);
    FirstPos(version, 0);
    RectSize(x, y, 5, 2);
    RectSize(x, y + 3, 5, 2);
    assert Rect(x, y, 5, 2) !! Rect(x, y + 3, 5, 2);
    assert PatternCells(version, i, 0) == Rect(x, y, 5, 2) + Rect(x, y + 3, 5, 2);
  }

  lemma PatternSize(version: int, i: nat, j: nat)
    requires 2 <= version <= 40 && i < AlignCount(version) && j < AlignCount(version)
    ensures |PatternCells(version, i, j)| == PatternArea(AlignCount(version), i, j)
  {
    hide AlignCount, AlignPos;
    if IsCorner(AlignCount(version), i, j) {
      assert PatternCells(version, i, j) == {};
    } else if i == 0 {
      LeftPattern(version, j);
    } else if j == 0 {
      TopPattern(version, i);
    } else {
      var x, y := AlignPos(version, i) - 2, AlignPos(version, j) - 2;
      FirstPos(version, i);
      FirstPos(version, j);
      RectSize(x, y, 5, 5);
      assert PatternCells(version, i, j) == Rect(x, y, 5, 5);
    }
  }

  lemma FirstPos(version: int, i: nat)
    requires 2 <= version <= 40 && i < AlignCount(version)
    ensures if i == 0 then AlignPos(version, i) == 6 else AlignPos(version, i) >= 18
    ensures AlignPos(version, i) + 2 < SideOf(version)
    ensures if i == AlignCount(version) - 1 && i > 0 then AlignPos(version, i) == SideOf(version) - 7
            else AlignPos(version, i) <= SideOf(version) - 19 || i == 0
  {
    hide AlignCount, AlignStep;
    PosSpacing(version, i);
    if i > 0 {
      PosApart(version, 0, i);
      if i < AlignCount(version) - 1 {
        PosApart(version, i, AlignCount(version) - 1);
      }
    }
  }

  /** The alignment patterns before positions `i` and `j`, without the timing patterns. */
  ghost function CellsBefore(version: int, i: nat, j: nat): set<Cell>
    requires IsVersion(version)
  {
    set c | c in Rect(0, 0, SideOf(version), SideOf(version)) && InPatternBefore(version, i, j, c.0, c.1) && c.0 != 6 &&
        c.1 != 6
  }

  function AreaBefore(count: nat, i: nat, j: nat): nat
    requires i <= count && j <= count
    decreases i, j
  {
    if j > 0 then AreaBefore(count, i, j - 1) + PatternArea(count, i, j - 1)
    else if i > 0 then AreaBefore(count, i - 1, count)
    else 0
  }

  lemma NextCells(version: int, i: nat, j: nat)
    requires 2 <= version <= 40 && i < AlignCount(version) && j < AlignCount(version)
    ensures CellsBefore(version, i, j + 1) == CellsBefore(version, i, j) + PatternCells(version, i, j)
    ensures CellsBefore(version, i, j) !! PatternCells(version, i, j)
  {
    hide AlignCount, AlignPos, InPattern, InPatternBefore;
    forall c: Cell
      ensures c in CellsBefore(version, i, j + 1) <==>
              c in CellsBefore(version, i, j) || c in PatternCells(version, i, j)
    {
      NextPattern(version, i, j, c.0, c.1);
      PatternInside(version, i, j, c);
    }
    forall c: Cell | c in CellsBefore(version, i, j) && c in PatternCells(version, i, j) ensures false {
      NotBefore(version, i, j, c.0, c.1);
    }
  }

  lemma NotBefore(version: int, i: nat, j: nat, x: int, y: int)
    requires 2 <= version <= 40 && i < AlignCount(version) && j < AlignCount(version) && InPattern(version, i, j, x, y)
    ensures !InPatternBefore(version, i, j, x, y)
  {
    hide AlignCount, AlignPos, InPattern;
    if InPatternBefore(version, i, j, x, y) {
      var a: nat, b: nat :| a < AlignCount(version) && b < AlignCount(version) && InPattern(version, a, b, x, y) &&
        (a < i || (a == i && b < j));
      PatternsApart(version, i, j, a, b, x, y);
    }
  }

  lemma PatternInside(version: int, i: nat, j: nat, c: Cell)
    requires 2 <= version <= 40 && i < AlignCount(version) && j < AlignCount(version)
    ensures InPattern(version, i, j, c.0, c.1) ==> c in Rect(0, 0, SideOf(version), SideOf(version))
    ensures InPattern(version, i, j, c.0, c.1) ==> c in Rect(AlignPos(version, i) - 2, AlignPos(version, j) - 2, 5, 5)
  {
    hide AlignCount, AlignPos;
    FirstPos(version, i);
    FirstPos(version, j);
  }

  lemma NextRowCells(version: int, i: nat)
    requires 2 <= version <= 40 && i < AlignCount(version)
    ensures CellsBefore(version, i, AlignCount(version)) == CellsBefore(version, i + 1, 0)
  {
    hide AlignCount, InPatternBefore;
    forall c: Cell ensures c in CellsBefore(version, i, AlignCount(version)) <==> c in CellsBefore(version, i + 1, 0) {
      NextPatternRow(version, i, c.0, c.1);
    }
  }

  lemma {:induction false} CellsBeforeSize(version: int, i: nat, j: nat)
    requires 2 <= version <= 40 && i <= AlignCount(version) && j <= AlignCount(version) &&
             (i == AlignCount(version) ==> j == 0)
    ensures |CellsBefore(version, i, j)| == AreaBefore(AlignCount(version), i, j)
    decreases i, j
  {
    hide AlignCount, AlignPos, InPattern, InPatternBefore, PatternCells, PatternArea;
    if j > 0 {
      CellsBeforeSize(version, i, j - 1);
      NextCells(version, i, j - 1);
      PatternSize(version, i, j - 1);
    } else if i > 0 {
      CellsBeforeSize(version, i - 1, AlignCount(version));
      NextRowCells(version, i - 1);
    } else {
      NoCells(version);
    }
  }

  lemma NoCells(version: int)
    requires IsVersion(version)
    ensures CellsBefore(version, 0, 0) == {}
  {
    hide InPattern;
  }

  lemma {:induction false} RowArea(count: nat, i: nat, j: nat)
    requires i < count && 1 <= j <= count && count >= 2
    ensures AreaBefore(count, i, j) == AreaBefore(count, i, 0) +
              if i == 0 then (if j == count then 20 * (count - 2) else 20 * (j - 1))
              else 25 * (j - 1) + if i == count - 1 then 0 else 20
  {
    if j > 1 {
      RowArea(count, i, j - 1);
    } else {
      assert AreaBefore(count, i, 1) == AreaBefore(count, i, 0) + PatternArea(count, i, 0);
    }
  }

  lemma {:induction false} TotalArea(count: nat, i: nat)
    requires 1 <= i <= count && count >= 2
    ensures AreaBefore(count, i, 0) ==
            20 * (count - 2) + (i - 1) * (25 * (count - 1)) + 20 * if i == count then count - 2 else i - 1
  {
    RowArea(count, i - 1, count);
    if i > 1 {
      TotalArea(count, i - 1);
    } else {
      assert AreaBefore(count, 1, 0) == AreaBefore(count, 0, count);
    }
  }

  /** Alignment patterns do not overlap finder patterns and version blocks. */
  lemma PatternAway(version: int, i: nat, j: nat, x: int, y: int)
    requires 2 <= version <= 40 && i < AlignCount(version) && j < AlignCount(version)
    requires InPattern(version, i, j, x, y) && x != 6 && y != 6
    ensures !InFrame(SideOf(version), x, y) && !InVersionBlock(version, SideOf(version), x, y)
  {
    hide AlignCount, AlignPos;
    FirstPos(version, i);
    FirstPos(version, j);
  }

  ghost function AlignmentCells(version: int): set<Cell>
    requires IsVersion(version)
  {
    CellsBefore(version, AlignCount(version), 0)
  }

  lemma AlignmentSize(version: int)
    requires IsVersion(version)
    ensures |AlignmentCells(version)| ==
            if version == 1 then 0 else (25 * AlignCount(version) - 10) * AlignCount(version) - 55
  {
    hide CellsBefore, AreaBefore;
    var a := AlignCount(version);
    if version == 1 {
      NoCells(version);
    } else {
      CellsBeforeSize(version, a, 0);
      TotalArea(a, a);
    }
  }

  lemma CellsPartition(version: int)
    requires IsVersion(version)
    ensures var n := SideOf(version);
            n * n == |FreeCells(version)| + |FrameCells(n)| + |VersionCells(version)| + |AlignmentCells(version)|
  {
    hide AlignCount, InPatternBefore, InFrame, InVersionBlock;
    var n := SideOf(version);
    var a, b, c, d := FreeCells(version), FrameCells(n), VersionCells(version), AlignmentCells(version);
    RectSize(0, 0, n, n);
    FrameAndVersion(version);
    forall e: Cell | e in d ensures e !in b && e !in c {
      AlignmentAway(version, e.0, e.1);
    }
    forall e: Cell | e in Rect(0, 0, n, n) ensures e in a || e in b || e in c || e in d {
      if e.0 == 6 || e.1 == 6 {
        TimingInFrame(n, e.0, e.1);
      }
    }
    assert a !! b && (a + b) !! c && (a + b + c) !! d;
    assert Rect(0, 0, n, n) == a + b + c + d;
  }

  lemma TimingInFrame(n: nat, x: int, y: int)
    requires 0 <= x < n && 0 <= y < n && (x == 6 || y == 6)
    ensures InFrame(n, x, y)
  {}

  lemma FrameAndVersion(version: int)
    requires IsVersion(version)
    ensures FrameCells(SideOf(version)) !! VersionCells(version)
  {}

  lemma AlignmentAway(version: int, x: int, y: int)
    requires IsVersion(version) && InPatternBefore(version, AlignCount(version), 0, x, y) && x != 6 && y != 6
    ensures !InFrame(SideOf(version), x, y) && !InVersionBlock(version, SideOf(version), x, y)
  {
    hide AlignCount, InPattern, InFrame, InVersionBlock;
    ManyPatterns(version);
    var a: nat, b: nat :| a < AlignCount(version) && b < AlignCount(version) && InPattern(version, a, b, x, y);
    PatternAway(version, a, b, x, y);
  }

  /** The free modules hold exactly the raw data bits. */
  lemma FreeModules(version: int, fn: seq<seq<bool>>)
    requires IsVersion(version) && ShowsFunctions(version, fn)
    ensures Rank(fn, SideOf(version), ScanLen(SideOf(version))) == NumRawDataModules(version)
  {
    hide ShowsFunctions, Rank, ScanLen, FreeCells, FrameCells, VersionCells, AlignmentCells, NumRawDataModules,
         AlignCount;
    var n := SideOf(version);
    RankIsFreeCells(version, fn);
    CellsPartition(version);
    FrameSize(n);
    VersionSize(version);
    AlignmentSize(version);
    RawFormula(version, n);
  }

  lemma RawFormula(version: int, n: int)
    requires IsVersion(version) && n == 4 * version + 17
    ensures NumRawDataModules(version) == n * n - (2 * (n - 17) + 225) - (if version >= 7 then 36 else 0) -
              (if version == 1 then 0 else (25 * AlignCount(version) - 10) * AlignCount(version) - 55)
  {
    SideSquare(version, n);
  }

  lemma SideSquare(v: int, n: int)
    requires n == 4 * v + 17
    ensures n * n - (2 * (n - 17) + 225) == (16 * v + 128) * v + 64
  {
    assert n * n == 16 * (v * v) + 136 * v + 289;
    assert (16 * v + 128) * v == 16 * (v * v) + 128 * v;
  }
}
