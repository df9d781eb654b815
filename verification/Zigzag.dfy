/**
 `drawCodewords`: the zigzag scan that places the codewords, for every odd side length of at least 9
 (section 7.7.3 of ISO/IEC 18004:2015).
 */
module Zigzag {
  import opened Arithmetic
  import opened Bytes
  import opened BitBuffer
  import opened Grids

  // ----- The scan.

  /** The number of column pairs. */
  function Pairs(n: Side): nat { (n - 1) / 2 }

  /** The number of modules of a column pair. */
  function PairLen(n: Side): (l: nat)
    ensures l > 0
  {
    2 * n
  }

  /** The right column of column pair `c`. */
  function Right(n: Side, c: nat): (x: nat)
    requires c < Pairs(n)
    ensures 1 <= x < n && x != 6 && x != 7
  {
    if n - 1 - 2 * c > 6 then n - 1 - 2 * c else n - 2 - 2 * c
  }

  predicate Upward(right: nat) { (right + 1) / 2 % 2 == 0 }

  /** Step `r` of the scan of column pair `c`: column and row. */
  function PairCell(n: Side, c: nat, r: nat): (cell: (nat, nat))
    requires c < Pairs(n) && r < PairLen(n)
    ensures cell.0 < n && cell.1 < n && cell.0 != 6
  {
    (Right(n, c) - r % 2, if Upward(Right(n, c)) then n - 1 - r / 2 else r / 2)
  }

  /** The number of steps. */
  function ScanLen(n: Side): nat
  {
    Pairs(n) * PairLen(n)
  }

  function ScanPair(n: Side, t: nat): (c: nat)
    requires t < ScanLen(n)
    ensures c < Pairs(n)
  {
    hide Pairs, PairLen;
    DivisionFits(t, PairLen(n), Pairs(n));
    t / PairLen(n)
  }

  function ScanStep(n: Side, t: nat): (r: nat)
    requires t < ScanLen(n)
    ensures r < PairLen(n) && t == r + ScanPair(n, t) * PairLen(n)
  {
    hide Pairs, PairLen;
    DivisionFits(t, PairLen(n), Pairs(n));
    t % PairLen(n)
  }

  /** Step `t` of the whole scan. */
  function ScanCell(n: Side, t: nat): (cell: (nat, nat))
    requires t < ScanLen(n)
    ensures cell.0 < n && cell.1 < n && cell.0 != 6
  {
    hide ScanLen, ScanPair, ScanStep;
    PairCell(n, ScanPair(n, t), ScanStep(n, t))
  }

  function PairOf(n: Side, x: nat): (c: nat)
    requires x < n && x != 6
    ensures c < Pairs(n) && Right(n, c) - 1 <= x <= Right(n, c)
  {
    if x > 6 then (n - 1 - x) / 2 else (n - 2 - x) / 2
  }

  function StepOf(n: Side, x: nat, y: nat): (r: nat)
    requires x < n && y < n && x != 6
    ensures r < PairLen(n)
  {
    var right := Right(n, PairOf(n, x));
    2 * (if Upward(right) then n - 1 - y else y) + (right - x)
  }

  /** When the scan comes to a cell. */
  function TimeOf(n: Side, x: nat, y: nat): nat
    requires x < n && y < n && x != 6
  {
    StepOf(n, x, y) + PairOf(n, x) * PairLen(n)
  }

  lemma PairOfRight(n: Side, c: nat, x: nat)
    requires c < Pairs(n) && Right(n, c) - 1 <= x <= Right(n, c)
    ensures x != 6 && PairOf(n, x) == c
  {}

  lemma TimeOfPair(n: Side, c: nat, r: nat)
    requires c < Pairs(n) && r < PairLen(n)
    ensures PairOf(n, PairCell(n, c, r).0) == c && StepOf(n, PairCell(n, c, r).0, PairCell(n, c, r).1) == r
  {
    hide Right, Upward, PairOf;
    PairOfRight(n, c, PairCell(n, c, r).0);
  }

  lemma PairOfTime(n: Side, x: nat, y: nat)
    requires x < n && y < n && x != 6
    ensures PairCell(n, PairOf(n, x), StepOf(n, x, y)) == (x, y)
  {
    hide Right, Upward, PairOf;
  }

  /** The scan visits no cell twice. */
  lemma TimeOfScan(n: Side, t: nat)
    requires t < ScanLen(n)
    ensures TimeOf(n, ScanCell(n, t).0, ScanCell(n, t).1) == t
  {
    hide Right, Upward, PairOf, StepOf, PairCell, ScanLen, ScanPair, ScanStep;
    TimeOfPair(n, ScanPair(n, t), ScanStep(n, t));
  }

  /** The scan visits every cell outside column 6. */
  lemma ScanOfTime(n: Side, x: nat, y: nat)
    requires x < n && y < n && x != 6
    ensures TimeOf(n, x, y) < ScanLen(n) && ScanCell(n, TimeOf(n, x, y)) == (x, y)
  {
    hide Right, Upward, PairOf, StepOf, PairCell, Pairs, PairLen, ScanPair, ScanStep;
    PairOfTime(n, x, y);
    Below(StepOf(n, x, y), PairOf(n, x), PairLen(n), Pairs(n));
    var t := TimeOf(n, x, y);
    Unique(ScanPair(n, t), ScanStep(n, t), PairOf(n, x), StepOf(n, x, y), PairLen(n));
  }

  // ----- The order of the scan, told from one step to the next.

  lemma ScanSize(n: Side)
    ensures ScanLen(n) == n * (n - 1)
  {
    var p := Pairs(n);
    assert 2 * p == n - 1;
    assert p * (2 * n) == 2 * p * n;
  }

  /** Symbols have sides of length 17 + 4 * version; the scan of those starts at the bottom right. */
  lemma ScanStart(n: Side)
    requires n % 4 == 1
    ensures 0 < ScanLen(n) && ScanCell(n, 0) == (n - 1, n - 1)
  {
    ScanSize(n);
    Unique(ScanPair(n, 0), ScanStep(n, 0), 0, 0, PairLen(n));
  }

  lemma PairTurns(n: Side, c: nat)
    requires n % 4 == 1 && c < Pairs(n)
    ensures Upward(Right(n, c)) == (c % 2 == 0)
  {}

  /** The next step of the same column pair. */
  lemma StepWithin(n: Side, c: nat, r: nat)
    requires n % 4 == 1 && c < Pairs(n) && r + 1 < PairLen(n)
    ensures r % 2 == 0 ==>
            PairCell(n, c, r).0 > 0 && PairCell(n, c, r + 1) == (PairCell(n, c, r).0 - 1, PairCell(n, c, r).1)
    ensures r % 2 == 1 ==> PairCell(n, c, r + 1) == (PairCell(n, c, r).0 + 1, PairCell(n, c, r + 1).1)
    ensures r % 2 == 1 ==> PairCell(n, c, r + 1).1 - PairCell(n, c, r).1 == if c % 2 == 0 then -1 else 1
  {
    hide Right, Upward;
    PairTurns(n, c);
  }

  lemma LastOfPair(n: Side, c: nat)
    requires n % 4 == 1 && c < Pairs(n)
    ensures PairCell(n, c, PairLen(n) - 1) == (Right(n, c) - 1, if c % 2 == 0 then 0 else n - 1)
  {
    hide Right, Upward, Pairs;
    PairTurns(n, c);
    var r := PairLen(n) - 1;
    assert r % 2 == 1 && r / 2 == n - 1;
  }

  lemma FirstOfPair(n: Side, c: nat)
    requires n % 4 == 1 && c < Pairs(n)
    ensures PairCell(n, c, 0) == (Right(n, c), if c % 2 == 0 then n - 1 else 0)
  {
    hide Right, Upward, Pairs;
    PairTurns(n, c);
  }

  lemma NextRight(n: Side, c: nat)
    requires c + 1 < Pairs(n)
    ensures Right(n, c) > 2 && Right(n, c + 1) == if Right(n, c) == 8 then 5 else Right(n, c) - 2
  {}

  /** The first step of the next column pair. */
  lemma StepAcross(n: Side, c: nat)
    requires n % 4 == 1 && c + 1 < Pairs(n)
    ensures PairCell(n, c, PairLen(n) - 1).0 > 1
    ensures var cell := PairCell(n, c, PairLen(n) - 1);
            PairCell(n, c + 1, 0) == (if cell.0 == 7 then 5 else cell.0 - 1, cell.1)
  {
    hide Right, Upward, Pairs, PairCell;
    LastOfPair(n, c);
    FirstOfPair(n, c + 1);
    NextRight(n, c);
  }

  lemma NextStep(n: Side, t: nat)
    requires t + 1 < ScanLen(n)
    ensures if ScanStep(n, t) + 1 < PairLen(n)
            then ScanPair(n, t + 1) == ScanPair(n, t) && ScanStep(n, t + 1) == ScanStep(n, t) + 1
            else ScanPair(n, t + 1) == ScanPair(n, t) + 1 && ScanStep(n, t + 1) == 0
  {
    hide PairLen, Pairs, ScanLen;
    Successor(ScanStep(n, t), ScanPair(n, t), PairLen(n));
  }

  /** A step of the scan, by its column pair and its place in the pair. */
  lemma NextCell(n: Side, t: nat)
    requires n % 4 == 1 && t + 1 < ScanLen(n)
    ensures var now, next := ScanCell(n, t), ScanCell(n, t + 1);
            next == if ScanStep(n, t) % 2 == 0 then (now.0 - 1, now.1)
                    else if ScanStep(n, t) == PairLen(n) - 1 then (if now.0 == 7 then 5 else now.0 - 1, now.1)
                    else (now.0 + 1, if ScanPair(n, t) % 2 == 0 then now.1 - 1 else now.1 + 1)
  {
    hide PairCell, Pairs, Right, Upward, ScanLen, ScanPair, ScanStep;
    NextStep(n, t);
    if ScanStep(n, t) + 1 < PairLen(n) {
      StepWithin(n, ScanPair(n, t), ScanStep(n, t));
    } else {
      StepAcross(n, ScanPair(n, t));
    }
  }

  lemma PlaceOf(n: Side, t: nat)
    requires t < ScanLen(n)
    ensures ScanPair(n, t) == t / (2 * n) && ScanStep(n, t) == t % (2 * n)
  {
    hide ScanLen;
  }

  lemma SameParity(n: Side, t: nat)
    requires t < ScanLen(n)
    ensures ScanStep(n, t) % 2 == t % 2
  {
    hide ScanStep, ScanPair, ScanLen;
    EvenPart(t, ScanStep(n, t), ScanPair(n, t), n);
  }

  /**
   The scan goes in pairs of columns from the right: left and right alternate, and every other step goes one row on,
   upward in the first pair and in the other direction in each next one. From a pair it goes on in the same row, in
   the next column on the left, and passes over column 6.
   */
  lemma ScanOrder(n: Side, t: nat)
    requires n % 4 == 1 && t + 1 < ScanLen(n)
    ensures var now, next := ScanCell(n, t), ScanCell(n, t + 1);
            next == if t % 2 == 0 then (now.0 - 1, now.1)
                    else if t % (2 * n) == 2 * n - 1 then (if now.0 == 7 then 5 else now.0 - 1, now.1)
                    else (now.0 + 1, if t / (2 * n) % 2 == 0 then now.1 - 1 else now.1 + 1)
  {
    hide ScanCell, ScanLen, ScanPair, ScanStep;
    NextCell(n, t);
    PlaceOf(n, t);
    SameParity(n, t);
  }

  lemma EvenPart(t: nat, r: nat, c: nat, n: nat)
    requires t == r + c * (2 * n)
    ensures t % 2 == r % 2
  {
    assert c * (2 * n) == 2 * (c * n);
  }

  // ----- What is drawn.

  /** Step `t` comes to a module that is white, so not a function module. */
  predicate Free(fn: seq<seq<bool>>, n: Side, t: nat)
    requires Square(fn, n) && t < ScanLen(n)
  {
    !fn[ScanCell(n, t).1][ScanCell(n, t).0]
  }

  /** The number of free modules before step `t`. */
  function Rank(fn: seq<seq<bool>>, n: Side, t: nat): nat
    requires Square(fn, n) && t <= ScanLen(n)
  {
    if t == 0 then 0 else Rank(fn, n, t - 1) + if Free(fn, n, t - 1) then 1 else 0
  }

  /** A module after `t` steps: the free modules hold the bits in turn, all others are as before. */
  predicate ModuleAfter(fn: seq<seq<bool>>, n: Side, bits: seq<bool>, t: nat, x: nat, y: nat)
    requires Square(fn, n) && x < n && y < n && t <= ScanLen(n)
  {
    if x == 6 || fn[y][x] || TimeOf(n, x, y) >= t || Rank(fn, n, TimeOf(n, x, y)) >= |bits|
    then fn[y][x]
    else bits[Rank(fn, n, TimeOf(n, x, y))]
  }

  ghost predicate Drawn(fn: seq<seq<bool>>, n: Side, bits: seq<bool>, t: nat, now: seq<seq<bool>>) {
    Square(fn, n) && Square(now, n) && t <= ScanLen(n) &&
    forall x: nat, y: nat :: x < n && y < n ==> now[y][x] == ModuleAfter(fn, n, bits, t, x, y)
  }

  lemma NothingDrawn(fn: seq<seq<bool>>, n: Side, bits: seq<bool>)
    requires Square(fn, n)
    ensures Drawn(fn, n, bits, 0, fn) && BitsDrawn(fn, n, |bits|, 0) == 0
  {}

  /** The module that step `t` comes to has not been changed by the steps before. */
  lemma StillFunctionModule(fn: seq<seq<bool>>, n: Side, bits: seq<bool>, t: nat, now: seq<seq<bool>>)
    requires Drawn(fn, n, bits, t, now) && t < ScanLen(n)
    ensures now[ScanCell(n, t).1][ScanCell(n, t).0] == !Free(fn, n, t)
  {
    hide ScanCell, TimeOf, Rank;
    TimeOfScan(n, t);
  }

  lemma ModuleAfterStep(fn: seq<seq<bool>>, n: Side, bits: seq<bool>, t: nat, x: nat, y: nat)
    requires Square(fn, n) && t < ScanLen(n) && x < n && y < n
    ensures ModuleAfter(fn, n, bits, t + 1, x, y) ==
            if (x, y) == ScanCell(n, t) && Free(fn, n, t) && Rank(fn, n, t) < |bits| then bits[Rank(fn, n, t)]
            else ModuleAfter(fn, n, bits, t, x, y)
  {
    hide ScanCell, TimeOf, Rank, ScanLen;
    if (x, y) == ScanCell(n, t) {
      TimeOfScan(n, t);
    } else if x != 6 {
      ScanOfTime(n, x, y);
    }
  }

  /** One step of the scan. */
  lemma DrawStep(fn: seq<seq<bool>>, n: Side, bits: seq<bool>, t: nat, now: seq<seq<bool>>, next: seq<seq<bool>>)
    requires Drawn(fn, n, bits, t, now) && t < ScanLen(n) && Square(next, n)
    requires forall x: nat, y: nat :: x < n && y < n ==>
               next[y][x] == if (x, y) == ScanCell(n, t) && Free(fn, n, t) && Rank(fn, n, t) < |bits|
                             then bits[Rank(fn, n, t)] else now[y][x]
    ensures Drawn(fn, n, bits, t + 1, next)
  {
    hide ScanCell, TimeOf, Rank, ScanLen, ModuleAfter;
    forall x: nat, y: nat | x < n && y < n ensures next[y][x] == ModuleAfter(fn, n, bits, t + 1, x, y) {
      ModuleAfterStep(fn, n, bits, t, x, y);
    }
  }

  /** The free modules of the drawn grid, in the order of the scan. */
  function ReadBits(fn: seq<seq<bool>>, now: seq<seq<bool>>, n: Side, t: nat): (s: seq<bool>)
    requires Square(fn, n) && Square(now, n) && t <= ScanLen(n)
    ensures |s| == Rank(fn, n, t)
  {
    if t == 0 then []
    else ReadBits(fn, now, n, t - 1) +
         if Free(fn, n, t - 1) then [now[ScanCell(n, t - 1).1][ScanCell(n, t - 1).0]] else []
  }

  lemma {:induction false} ReadDrawnBits(fn: seq<seq<bool>>, n: Side, bits: seq<bool>, now: seq<seq<bool>>, t: nat)
    requires Drawn(fn, n, bits, ScanLen(n), now) && t <= ScanLen(n)
    ensures forall k :: 0 <= k < Rank(fn, n, t) ==> ReadBits(fn, now, n, t)[k] == (k < |bits| && bits[k])
  {
    hide ScanCell, TimeOf, ScanLen;
    if t > 0 {
      ReadDrawnBits(fn, n, bits, now, t - 1);
      TimeOfScan(n, t - 1);
    }
  }

  /** Reading the drawn grid gives the codewords back, and white remainder modules. */
  lemma ReadBack(fn: seq<seq<bool>>, n: Side, bits: seq<bool>, now: seq<seq<bool>>)
    requires Drawn(fn, n, bits, ScanLen(n), now) && |bits| <= Rank(fn, n, ScanLen(n))
    ensures ReadBits(fn, now, n, ScanLen(n)) ==
            bits + seq(Rank(fn, n, ScanLen(n)) - |bits|, _ => false)
  {
    hide ReadBits, Rank, ScanLen, Drawn;
    ReadDrawnBits(fn, n, bits, now, ScanLen(n));
  }

  /** Function modules stay black, column 6 stays as it is. */
  lemma FunctionModulesStay(fn: seq<seq<bool>>, n: Side, bits: seq<bool>, now: seq<seq<bool>>, x: nat, y: nat)
    requires Drawn(fn, n, bits, ScanLen(n), now) && x < n && y < n
    requires fn[y][x] || x == 6
    ensures now[y][x] == fn[y][x]
  {}

  // ----- The loops.

  /** The number of bits drawn after `t` steps. */
  function BitsDrawn(fn: seq<seq<bool>>, n: Side, total: nat, t: nat): nat
    requires Square(fn, n) && t <= ScanLen(n)
  {
    if Rank(fn, n, t) < total then Rank(fn, n, t) else total
  }

  /** The body of the innermost loop: the module at column `x` and row `y` gets the next bit if it is free. */
  method DrawModule(data: array<Byte>, dataLen: nat, qrcode: array<Byte>, x: nat, y: nat, i: nat,
                    ghost n: Side, ghost fn: seq<seq<bool>>, ghost t: nat)
      returns (next: nat)
    requires data != qrcode && dataLen <= data.Length && t < ScanLen(n) && (x, y) == ScanCell(n, t)
    requires IsGrid(qrcode[..], n) && Drawn(fn, n, AllBits(data[..dataLen]), t, Picture(qrcode[..], n))
    requires i == BitsDrawn(fn, n, 8 * dataLen, t)
    modifies qrcode
    ensures IsGrid(qrcode[..], n) && Drawn(fn, n, AllBits(data[..dataLen]), t + 1, Picture(qrcode[..], n))
    ensures next == BitsDrawn(fn, n, 8 * dataLen, t + 1)
  {
    hide ScanCell, Module, IsGrid, ScanLen, Put, AllBits, Drawn;
    next := i;
    ghost var bits := AllBits(data[..dataLen]);
    ghost var before := qrcode[..];
    DrawnIsSquare(fn, n, bits, t, Picture(before, n));
    StillFunctionModule(fn, n, bits, t, Picture(before, n));
    var taken := GetModule(qrcode, x, y, n);
    if !taken && i < 8 * dataLen {
      var black := data[i / 8][7 - i % 8];
      assert black == bits[i];
      SetModule(qrcode, x, y, black, n);
      next := i + 1;
      forall u: nat, v: nat | u < n && v < n
        ensures Picture(qrcode[..], n)[v][u] == if u == x && v == y then bits[i] else Picture(before, n)[v][u]
      {
        PutModule(before, n, x, y, black, u, v);
      }
    }
    DrawStep(fn, n, bits, t, Picture(before, n), Picture(qrcode[..], n));
  }

  lemma DrawnIsSquare(fn: seq<seq<bool>>, n: Side, bits: seq<bool>, t: nat, now: seq<seq<bool>>)
    requires Drawn(fn, n, bits, t, now)
    ensures Square(fn, n)
  {}

  lemma PairStep(n: Side, c: nat, start: nat, vert: nat, j: nat)
    requires c < Pairs(n) && vert < n && j < 2 && start == c * PairLen(n)
    ensures start + 2 * vert + j < ScanLen(n) && ScanCell(n, start + 2 * vert + j) == PairCell(n, c, 2 * vert + j)
  {
    hide PairCell, Right, Pairs;
    StepFits(n, vert, j);
    hide PairLen;
    var r, t := 2 * vert + j, start + 2 * vert + j;
    Below(r, c, PairLen(n), Pairs(n));
    Unique(ScanPair(n, t), ScanStep(n, t), c, r, PairLen(n));
  }

  lemma StepFits(n: Side, vert: nat, j: nat)
    requires vert < n && j < 2
    ensures 2 * vert + j < PairLen(n)
  {}

  /** The innermost loop: two modules of one row. */
  method DrawRow(data: array<Byte>, dataLen: nat, qrcode: array<Byte>, qrsize: nat, right: nat, vert: nat, i: nat,
                 ghost n: Side, ghost fn: seq<seq<bool>>, ghost c: nat, ghost start: nat)
      returns (next: nat)
    requires data != qrcode && dataLen <= data.Length && c < Pairs(n) && right == Right(n, c) && qrsize == n && vert < n
    requires start == c * PairLen(n) && start + 2 * vert <= ScanLen(n)
    requires IsGrid(qrcode[..], n) && Drawn(fn, n, AllBits(data[..dataLen]), start + 2 * vert, Picture(qrcode[..], n))
    requires i == BitsDrawn(fn, n, 8 * dataLen, start + 2 * vert)
    modifies qrcode
    ensures start + 2 * vert + 2 <= ScanLen(n)
    ensures IsGrid(qrcode[..], n) &&
            Drawn(fn, n, AllBits(data[..dataLen]), start + 2 * vert + 2, Picture(qrcode[..], n))
    ensures next == BitsDrawn(fn, n, 8 * dataLen, start + 2 * vert + 2)
  {
    hide ScanCell, Right, Module, IsGrid, ScanLen, AllBits, Drawn, BitsDrawn;
    DrawnIsSquare(fn, n, AllBits(data[..dataLen]), start + 2 * vert, Picture(qrcode[..], n));
    next := i;
    var j := 0;
    while j < 2
      invariant 0 <= j <= 2 && start + 2 * vert + j <= ScanLen(n)
      invariant IsGrid(qrcode[..], n) &&
                Drawn(fn, n, AllBits(data[..dataLen]), start + 2 * vert + j, Picture(qrcode[..], n))
      invariant next == BitsDrawn(fn, n, 8 * dataLen, start + 2 * vert + j)
    {
      PairStep(n, c, start, vert, j);
      var x := right - j;
      var upward := (right + 1) / 2 % 2 == 0;
      var y := if upward then qrsize - 1 - vert else vert;
      next := DrawModule(data, dataLen, qrcode, x, y, next, n, fn, start + 2 * vert + j);
      j := j + 1;
    }
  }

  /** The loops over one pair of columns. */
  method DrawPair(data: array<Byte>, dataLen: nat, qrcode: array<Byte>, right: nat, i: nat,
                  ghost n: Side, ghost fn: seq<seq<bool>>, ghost c: nat, ghost start: nat)
      returns (next: nat)
    requires data != qrcode && dataLen <= data.Length && c < Pairs(n) && right == Right(n, c)
    requires start == c * PairLen(n) && start <= ScanLen(n)
    requires IsGrid(qrcode[..], n) && Drawn(fn, n, AllBits(data[..dataLen]), start, Picture(qrcode[..], n))
    requires i == BitsDrawn(fn, n, 8 * dataLen, start)
    modifies qrcode
    ensures start + PairLen(n) <= ScanLen(n)
    ensures IsGrid(qrcode[..], n) && Drawn(fn, n, AllBits(data[..dataLen]), start + PairLen(n), Picture(qrcode[..], n))
    ensures next == BitsDrawn(fn, n, 8 * dataLen, start + PairLen(n))
  {
    hide ScanCell, Right, Module, IsGrid, ScanLen, AllBits, Drawn, BitsDrawn;
    DrawnIsSquare(fn, n, AllBits(data[..dataLen]), start, Picture(qrcode[..], n));
    var qrsize := GetSize(qrcode, n);
    next := i;
    var vert := 0;
    while vert < qrsize
      invariant 0 <= vert <= qrsize && start + 2 * vert <= ScanLen(n)
      invariant IsGrid(qrcode[..], n) &&
                Drawn(fn, n, AllBits(data[..dataLen]), start + 2 * vert, Picture(qrcode[..], n))
      invariant next == BitsDrawn(fn, n, 8 * dataLen, start + 2 * vert)
    {
      next := DrawRow(data, dataLen, qrcode, qrsize, right, vert, next, n, fn, c, start);
      vert := vert + 1;
    }
  }

  /** `drawCodewords`: there must be a free module for every bit, as the last assertion of the source says. */
  method DrawCodewords(data: array<Byte>, dataLen: nat, qrcode: array<Byte>, ghost n: Side)
    requires data != qrcode && dataLen <= data.Length && IsGrid(qrcode[..], n)
    requires 8 * dataLen <= Rank(Picture(qrcode[..], n), n, ScanLen(n))
    modifies qrcode
    ensures IsGrid(qrcode[..], n)
    ensures Drawn(old(Picture(qrcode[..], n)), n, AllBits(data[..dataLen]), ScanLen(n), Picture(qrcode[..], n))
  {
    hide ScanCell, Module, IsGrid, AllBits, Drawn, Rank, PairLen, BitsDrawn;
    ghost var fn := Picture(qrcode[..], n);
    ghost var bits := AllBits(data[..dataLen]);
    NothingDrawn(fn, n, bits);
    var qrsize := GetSize(qrcode, n);
    var i := 0;
    var right: int := qrsize - 1;
    ghost var c, start := 0, 0;
    while right >= 1
      invariant c <= Pairs(n) && right == if n - 1 - 2 * c >= 6 then n - 1 - 2 * c else n - 2 - 2 * c
      invariant start == c * PairLen(n) && start <= ScanLen(n)
      invariant IsGrid(qrcode[..], n) && Drawn(fn, n, AllBits(data[..dataLen]), start, Picture(qrcode[..], n))
      invariant i == BitsDrawn(fn, n, 8 * dataLen, start)
      decreases right
    {
      if right == 6 {
        right := 5;
      }
      i := DrawPair(data, dataLen, qrcode, right, i, n, fn, c, start);
      right := right - 2;
      c, start := c + 1, start + PairLen(n);
    }
    assert c == Pairs(n);
  }
}
