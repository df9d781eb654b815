/** The modules that are not available for data. */
module FunctionModules {
  import opened Alignment
  import opened BitStrings
  import opened Bytes
  import opened Capacity
  import opened Grids

  function SideOf(version: int): (n: Side)
    requires IsVersion(version)
    ensures n == SideLength(version) && 21 <= n <= 177
  {
    SideLength(version)
  }

  predicate InRectangle(left: int, top: int, width: nat, height: nat, x: int, y: int) {
    left <= x < left + width && top <= y < top + height
  }

  /** The corners where finder patterns are. */
  predicate IsCorner(count: nat, i: nat, j: nat) {
    (i == 0 && j == 0) || (i == 0 && j == count - 1) || (i == count - 1 && j == 0)
  }

  /** A module of the alignment pattern at positions `i` and `j`. */
  predicate InPattern(version: int, i: nat, j: nat, x: int, y: int)
    requires IsVersion(version) && i < AlignCount(version) && j < AlignCount(version)
  {
    !IsCorner(AlignCount(version), i, j) && InRectangle(AlignPos(version, i) - 2, AlignPos(version, j) - 2, 5, 5, x, y)
  }

  /** A module of one of the alignment patterns that come before positions `i` and `j`. */
  ghost predicate InPatternBefore(version: int, i: nat, j: nat, x: int, y: int)
    requires IsVersion(version)
  {
    exists a: nat, b: nat :: a < AlignCount(version) && b < AlignCount(version) && InPattern(version, a, b, x, y) &&
      (a < i || (a == i && b < j))
  }

  /** Timing and finder patterns, and format bits. */
  predicate InFrame(n: nat, x: int, y: int) {
    InRectangle(6, 0, 1, n, x, y) || InRectangle(0, 6, n, 1, x, y) ||
    InRectangle(0, 0, 9, 9, x, y) || InRectangle(n - 8, 0, 8, 9, x, y) || InRectangle(0, n - 8, 9, 8, x, y)
  }

  predicate InVersionBlock(version: int, n: nat, x: int, y: int) {
    version >= 7 && (InRectangle(n - 11, 0, 3, 6, x, y) || InRectangle(0, n - 11, 6, 3, x, y))
  }

  /** The module at column `x` and row `y` is a function module. */
  ghost predicate IsFunction(version: int, x: nat, y: nat)
    requires IsVersion(version)
  {
    InFrame(SideOf(version), x, y) || InPatternBefore(version, AlignCount(version), 0, x, y) ||
    InVersionBlock(version, SideOf(version), x, y)
  }

  /** The picture in which exactly the function modules are black. */
  ghost predicate ShowsFunctions(version: int, p: seq<seq<bool>>)
    requires IsVersion(version)
  {
    Square(p, SideOf(version)) &&
    forall x: nat, y: nat :: x < SideOf(version) && y < SideOf(version) ==> p[y][x] == IsFunction(version, x, y)
  }

  // ----- Filling rectangles.

  /** A picture with the first `dy` rows, and the first `dx` modules of the next row, of a rectangle filled. */
  ghost predicate Filled(p: seq<seq<bool>>, n: nat, left: nat, top: nat, width: nat, dx: nat, dy: nat,
                         now: seq<seq<bool>>) {
    Square(p, n) && Square(now, n) &&
    forall x: nat, y: nat :: x < n && y < n ==>
      now[y][x] == (p[y][x] || InRectangle(left, top, width, dy, x, y) || InRectangle(left, top + dy, dx, 1, x, y))
  }

  /** `setModule` with black. */
  method Blacken(qrcode: array<Byte>, x: nat, y: nat, ghost n: Side)
    requires IsGrid(qrcode[..], n) && x < n && y < n
    modifies qrcode
    ensures IsGrid(qrcode[..], n)
    ensures forall u: nat, v: nat :: u < n && v < n ==>
              Picture(qrcode[..], n)[v][u] == (old(Picture(qrcode[..], n))[v][u] || (u == x && v == y))
  {
    hide Module, IsGrid, Put;
    ghost var before := qrcode[..];
    SetModule(qrcode, x, y, true, n);
    forall u: nat, v: nat | u < n && v < n
      ensures Picture(qrcode[..], n)[v][u] == (Picture(before, n)[v][u] || (u == x && v == y))
    {
      PutModule(before, n, x, y, true, u, v);
    }
  }

  /** `fillRectangle` */
  method FillRectangle(left: nat, top: nat, width: nat, height: nat, qrcode: array<Byte>, ghost n: Side)
    requires IsGrid(qrcode[..], n) && left + width <= n && top + height <= n
    modifies qrcode
    ensures IsGrid(qrcode[..], n)
    ensures forall x: nat, y: nat :: x < n && y < n ==>
              Picture(qrcode[..], n)[y][x] ==
                  (old(Picture(qrcode[..], n))[y][x] || InRectangle(left, top, width, height, x, y))
  {
    hide IsGrid, Module;
    ghost var p := Picture(qrcode[..], n);
    var dy := 0;
    while dy < height
      invariant 0 <= dy <= height && IsGrid(qrcode[..], n)
      invariant Filled(p, n, left, top, width, 0, dy, Picture(qrcode[..], n))
    {
      var dx := 0;
      while dx < width
        invariant 0 <= dx <= width && IsGrid(qrcode[..], n)
        invariant Filled(p, n, left, top, width, dx, dy, Picture(qrcode[..], n))
      {
        Blacken(qrcode, left + dx, top + dy, n);
        dx := dx + 1;
      }
      dy := dy + 1;
    }
  }

  // ----- Marking the function modules.

  /** The number `n`, below 256, as a byte. */
  function ByteOf(n: nat): Byte {
    var s := BitsOf(n, 8);
    [s[7], s[6], s[5], s[4], s[3], s[2], s[1], s[0]]
  }

  lemma ValueOfByte(n: nat)
    requires n < 256
    ensures Value(ByteOf(n)) == n
  {
    hide NumberOf, BitsOf;
    var s, b := BitsOf(n, 8), ByteOf(n);
    assert Pow2(8) == 256;
    NumberOfBits(n, 8);
    assert [b[7], b[6], b[5], b[4], b[3], b[2], b[1], b[0]] == s;
  }

  /** The size byte and a white grid. */
  method ClearGrid(version: int, qrcode: array<Byte>, ghost n: Side)
    requires IsVersion(version) && n == SideOf(version) && BufferLen(version) <= qrcode.Length
    modifies qrcode
    ensures IsGrid(qrcode[..], n)
    ensures forall x: nat, y: nat :: x < n && y < n ==> !Picture(qrcode[..], n)[y][x]
  {
    hide Value, ByteOf;
    var qrsize := version * 4 + 17;
    forall k | 0 <= k < BufferLen(version) {
      qrcode[k] := ZERO;
    }
    qrcode[0] := ByteOf(qrsize);
    ValueOfByte(qrsize);
    forall x: nat, y: nat | x < n && y < n ensures !Module(qrcode[..], n, x, y) {
      IndexFits(n, x, y);
    }
  }

  /** The alignment patterns before positions `i` and `j` have been filled. */
  ghost predicate PatternsFilled(version: int, i: nat, j: nat, p: seq<seq<bool>>, now: seq<seq<bool>>)
    requires IsVersion(version)
  {
    Square(p, SideOf(version)) && Square(now, SideOf(version)) &&
    forall x: nat, y: nat :: x < SideOf(version) && y < SideOf(version) ==>
      now[y][x] == (p[y][x] || InPatternBefore(version, i, j, x, y))
  }

  lemma NextPattern(version: int, i: nat, j: nat, x: int, y: int)
    requires IsVersion(version) && i < AlignCount(version) && j < AlignCount(version)
    ensures InPatternBefore(version, i, j + 1, x, y) ==
            (InPatternBefore(version, i, j, x, y) || InPattern(version, i, j, x, y))
  {
    hide InPattern;
  }

  lemma NextPatternRow(version: int, i: nat, x: int, y: int)
    requires IsVersion(version) && i < AlignCount(version)
    ensures InPatternBefore(version, i, AlignCount(version), x, y) == InPatternBefore(version, i + 1, 0, x, y)
  {
    hide InPattern;
  }

  /** One alignment pattern, unless it would lie on a finder pattern. */
  method FillPattern(version: int, i: nat, j: nat, alignPatPos: array<int>, numAlign: nat, qrcode: array<Byte>,
                     ghost n: Side, ghost p: seq<seq<bool>>)
    requires IsVersion(version) && n == SideOf(version) && IsGrid(qrcode[..], n) && alignPatPos.Length == 7
    requires i < numAlign == AlignCount(version) <= 7 && j < numAlign
    requires forall k: nat :: k < numAlign ==> alignPatPos[k] == AlignPos(version, k)
    requires PatternsFilled(version, i, j, p, Picture(qrcode[..], n))
    modifies qrcode
    ensures IsGrid(qrcode[..], n) && PatternsFilled(version, i, j + 1, p, Picture(qrcode[..], n))
  {
    hide IsGrid, Module, InPatternBefore, AlignPos, AlignCount;
    ghost var before := Picture(qrcode[..], n);
    forall x: nat, y: nat | x < n && y < n
      ensures InPatternBefore(version, i, j + 1, x, y) ==
              (InPatternBefore(version, i, j, x, y) || InPattern(version, i, j, x, y))
    {
      NextPattern(version, i, j, x, y);
    }
    if !((i == 0 && j == 0) || (i == 0 && j == numAlign - 1) || (i == numAlign - 1 && j == 0)) {
      ManyPatterns(version);
      PosSpacing(version, i);
      PosSpacing(version, j);
      FillRectangle(alignPatPos[i] - 2, alignPatPos[j] - 2, 5, 5, qrcode, n);
    }
  }

  lemma ManyPatterns(version: int)
    requires IsVersion(version)
    ensures AlignCount(version) > 0 ==> version >= 2
  {}

  method FillPatterns(version: int, qrcode: array<Byte>, ghost n: Side)
    requires IsVersion(version) && n == SideOf(version) && IsGrid(qrcode[..], n)
    modifies qrcode
    ensures IsGrid(qrcode[..], n)
    ensures PatternsFilled(version, AlignCount(version), 0, old(Picture(qrcode[..], n)), Picture(qrcode[..], n))
  {
    hide IsGrid, Module, PatternsFilled, AlignPos, AlignCount;
    ghost var p := Picture(qrcode[..], n);
    var alignPatPos := new int[7];
    var numAlign := GetAlignmentPatternPositions(version, alignPatPos);
    NoPatterns(version, p);
    ManyPatterns(version);
    var i := 0;
    while i < numAlign
      invariant 0 <= i <= numAlign && IsGrid(qrcode[..], n)
      invariant forall k: nat :: k < numAlign ==> alignPatPos[k] == AlignPos(version, k)
      invariant PatternsFilled(version, i, 0, p, Picture(qrcode[..], n))
    {
      var j := 0;
      while j < numAlign
        invariant 0 <= j <= numAlign && IsGrid(qrcode[..], n)
        invariant forall k: nat :: k < numAlign ==> alignPatPos[k] == AlignPos(version, k)
        invariant PatternsFilled(version, i, j, p, Picture(qrcode[..], n))
      {
        FillPattern(version, i, j, alignPatPos, numAlign, qrcode, n, p);
        j := j + 1;
      }
      PatternRowFilled(version, i, p, Picture(qrcode[..], n));
      i := i + 1;
    }
  }

  lemma NoPatterns(version: int, p: seq<seq<bool>>)
    requires IsVersion(version) && Square(p, SideOf(version))
    ensures PatternsFilled(version, 0, 0, p, p)
  {
    hide InPattern;
  }

  lemma PatternRowFilled(version: int, i: nat, p: seq<seq<bool>>, now: seq<seq<bool>>)
    requires IsVersion(version) && i < AlignCount(version) && PatternsFilled(version, i, AlignCount(version), p, now)
    ensures PatternsFilled(version, i + 1, 0, p, now)
  {
    hide InPatternBefore, AlignCount;
    forall x: nat, y: nat | x < SideOf(version) && y < SideOf(version)
      ensures InPatternBefore(version, i, AlignCount(version), x, y) == InPatternBefore(version, i + 1, 0, x, y)
    {
      NextPatternRow(version, i, x, y);
    }
  }

  /** `initializeFunctionModules` */
  method InitializeFunctionModules(version: int, qrcode: array<Byte>)
    requires IsVersion(version) && BufferLen(version) <= qrcode.Length
    modifies qrcode
    ensures IsGrid(qrcode[..], SideOf(version)) && ShowsFunctions(version, Picture(qrcode[..], SideOf(version)))
  {
    hide IsGrid, Module, InPatternBefore, AlignCount;
    var qrsize := version * 4 + 17;
    ghost var n := SideOf(version);
    ClearGrid(version, qrcode, n);
    FillRectangle(6, 0, 1, qrsize, qrcode, n);
    FillRectangle(0, 6, qrsize, 1, qrcode, n);
    FillRectangle(0, 0, 9, 9, qrcode, n);
    FillRectangle(qrsize - 8, 0, 8, 9, qrcode, n);
    FillRectangle(0, qrsize - 8, 9, 8, qrcode, n);
    ghost var p := Picture(qrcode[..], n);
    assert forall x: nat, y: nat :: x < n && y < n ==> p[y][x] == InFrame(n, x, y);
    FillPatterns(version, qrcode, n);
    if version >= 7 {
      FillRectangle(qrsize - 11, 0, 3, 6, qrcode, n);
      FillRectangle(0, qrsize - 11, 6, 3, qrcode, n);
    }
  }

  /** Different alignment patterns do not overlap. */
  lemma PatternsApart(version: int, i: nat, j: nat, a: nat, b: nat, x: int, y: int)
    requires 2 <= version <= 40 && i < AlignCount(version) && j < AlignCount(version)
    requires a < AlignCount(version) && b < AlignCount(version)
    requires InPattern(version, i, j, x, y) && InPattern(version, a, b, x, y)
    ensures i == a && j == b
  {
    hide AlignCount, AlignPos;
    if i < a {
      PosApart(version, i, a);
    } else if a < i {
      PosApart(version, a, i);
    }
    if j < b {
      PosApart(version, j, b);
    } else if b < j {
      PosApart(version, b, j);
    }
  }
}
