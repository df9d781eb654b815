/** The penalty score of a grid (section 7.8.3 of ISO/IEC 18004:2015). */
module Penalties {
  import opened Arithmetic
  import opened Bytes
  import opened Grids
  import opened Runs

  // ----- The history of runs.

  /** The last seven of the runs, the latest first; zero where there are fewer. */
  function Recent(q: seq<nat>): (h: seq<nat>)
    ensures |h| == 7
  {
    seq(7, i requires 0 <= i < 7 => if i < |q| then q[|q| - 1 - i] else 0)
  }

  /** `finderPenaltyAddHistory` */
  method AddHistory(currentRunLength: nat, runHistory: array<nat>, ghost q: seq<nat>)
    requires runHistory.Length == 7 && runHistory[..] == Recent(q)
    modifies runHistory
    ensures runHistory[..] == Recent(q + [currentRunLength])
  {
    ghost var h := runHistory[..];
    forall i | 1 <= i < 7 {
      runHistory[i] := runHistory[i - 1];
    }
    runHistory[0] := currentRunLength;
    assert forall i :: 0 <= i < 7 ==> runHistory[i] == if i == 0 then currentRunLength else h[i - 1];
  }

  /** The patterns in the window that ends with the latest run. */
  function LatestPatterns(q: seq<nat>): nat {
    if |q| < 7 then 0 else FinderWindow(q[|q| - 7..])
  }

  /** `finderPenaltyCountPatterns` */
  method CountPatterns(runHistory: array<nat>, ghost q: seq<nat>) returns (count: nat)
    requires runHistory.Length == 7 && runHistory[..] == Recent(q)
    ensures count == LatestPatterns(q)
  {
    var n := runHistory[1];
    var core := n > 0 && runHistory[2] == n && runHistory[3] == n * 3 && runHistory[4] == n && runHistory[5] == n;
    count := (if core && runHistory[0] >= n * 4 && runHistory[6] >= n then 1 else 0) +
             (if core && runHistory[6] >= n * 4 && runHistory[0] >= n then 1 else 0);
    assert forall i :: 0 <= i < 7 ==> runHistory[i] == Recent(q)[i];
    if |q| >= 7 {
      ghost var w := q[|q| - 7..];
      assert forall i :: 0 <= i < 7 ==> w[i] == Recent(q)[6 - i];
    }
  }

  // ----- One line.

  /** The runs that have been completed, with the white border before the first. */
  function Completed(r: seq<nat>, n: nat): seq<nat>
    requires |r| > 0
  {
    PadFront(r, n)[..|r| - 1]
  }

  /** What a scan has counted when it has come across the runs `r`: the score, and the color and length of the last. */
  ghost predicate Counted(r: seq<nat>, n: nat, score: nat, runColor: bool, run: nat, padRun: nat, history: seq<nat>)
    requires |r| > 0
  {
    runColor == Black(|r| - 1) && run == r[|r| - 1] && padRun == (if |r| == 1 then n else 0) &&
    history == Recent(Completed(r, n)) && score == RunScores(r) + FinderPatterns(Completed(r, n)) * PENALTY_N3
  }

  /** The same after `x` modules of a line. */
  ghost predicate Scanned(line: seq<bool>, x: nat, n: nat, score: nat, runColor: bool, run: nat, padRun: nat,
                          history: seq<nat>) {
    x <= |line| && Counted(RunsOf(line[..x]), n, score, runColor, run, padRun, history)
  }

  lemma SameColor(line: seq<bool>, x: nat, n: nat, score: nat, runColor: bool, run: nat, padRun: nat, history: seq<nat>)
    requires Scanned(line, x, n, score, runColor, run, padRun, history) && x < |line| && line[x] == runColor
    ensures Scanned(line, x + 1, n,
                    score + (if run + 1 == 5 then PENALTY_N1 else if run + 1 > 5 then 1 else 0), runColor,
                    run + 1, padRun, history)
  {
    hide RunsOf, FinderPatterns, Recent;
    assert line[..x + 1] == line[..x] + [line[x]];
    RunsStep(line[..x], line[x]);
    var r, q := RunsOf(line[..x]), RunsOf(line[..x + 1]);
    assert Completed(q, n) == Completed(r, n);
    assert q[..|q| - 1] == r[..|r| - 1];
  }

  lemma OtherRuns(line: seq<bool>, x: nat)
    requires x < |line| && line[x] != Black(|RunsOf(line[..x])| - 1)
    ensures RunsOf(line[..x + 1]) == RunsOf(line[..x]) + [1]
  {
    assert line[..x + 1] == line[..x] + [line[x]];
    RunsStep(line[..x], line[x]);
  }

  lemma OtherScore(r: seq<nat>)
    ensures RunScores(r + [1]) == RunScores(r)
  {
    assert (r + [1])[..|r|] == r;
  }

  lemma OtherPatterns(r: seq<nat>, n: nat)
    requires |r| > 0
    ensures var run := r[|r| - 1] + if |r| == 1 then n else 0;
            FinderPatterns(Completed(r + [1], n)) ==
              FinderPatterns(Completed(r, n)) + if Black(|r| - 1) then 0 else LatestPatterns(Completed(r, n) + [run])
  {
    hide FinderWindow, FinderPatterns, LatestPatterns;
    CompletedStep(r, n, 1);
    FinderStep(Completed(r, n), r[|r| - 1] + if |r| == 1 then n else 0);
  }

  lemma NextRun(r: seq<nat>, n: nat, score: nat, runColor: bool, run: nat, padRun: nat, history: seq<nat>)
    requires |r| > 0 && Counted(r, n, score, runColor, run, padRun, history)
    ensures var q := Completed(r, n) + [run + padRun];
            Counted(r + [1], n, score + (if runColor then 0 else LatestPatterns(q) * PENALTY_N3), !runColor, 1, 0,
                    Recent(q))
  {
    hide Recent, FinderWindow, RunScores, FinderPatterns, LatestPatterns, Completed, PadFront, Black;
    CompletedStep(r, n, 1);
    OtherScore(r);
    OtherPatterns(r, n);
    BlackNext(|r|);
  }

  lemma BlackNext(i: nat)
    requires i > 0
    ensures Black(i) == !Black(i - 1)
  {}

  lemma OtherColor(line: seq<bool>, x: nat, n: nat, score: nat, runColor: bool, run: nat, padRun: nat,
                   history: seq<nat>, next: seq<nat>)
    requires Scanned(line, x, n, score, runColor, run, padRun, history) && x < |line| && line[x] != runColor
    requires next == Recent(Completed(RunsOf(line[..x]), n) + [run + padRun])
    ensures Scanned(line, x + 1, n,
                    score + (if runColor then 0
                             else LatestPatterns(Completed(RunsOf(line[..x]), n) + [run + padRun]) * PENALTY_N3),
                    !runColor, 1, 0, next)
  {
    hide RunsOf, Recent, LatestPatterns, Completed, Counted, FinderPatterns, RunScores, FinderWindow, Black, PadFront,
         Extend;
    CountedColor(RunsOf(line[..x]), n, score, runColor, run, padRun, history);
    NextRun(RunsOf(line[..x]), n, score, runColor, run, padRun, history);
    OtherRuns(line, x);
  }

  lemma CountedColor(r: seq<nat>, n: nat, score: nat, runColor: bool, run: nat, padRun: nat, history: seq<nat>)
    requires |r| > 0 && Counted(r, n, score, runColor, run, padRun, history)
    ensures runColor == Black(|r| - 1)
  {}

  lemma CompletedStep(r: seq<nat>, n: nat, next: nat)
    requires |r| > 0
    ensures Completed(r + [next], n) == PadFront(r, n) == Completed(r, n) + [r[|r| - 1] + if |r| == 1 then n else 0]
  {}

  lemma FinderStep(q: seq<nat>, run: nat)
    ensures FinderPatterns(q + [run]) == FinderPatterns(q) + if Black(|q|) then 0 else LatestPatterns(q + [run])
  {
    hide FinderWindow;
    assert (q + [run])[..|q|] == q;
  }

  /** The end of a line: the border completes the runs. */
  lemma LineEnd(line: seq<bool>, n: nat, score: nat, runColor: bool, run: nat, padRun: nat, history: seq<nat>)
    requires |line| == n > 0 && Scanned(line, n, n, score, runColor, run, padRun, history)
    ensures var q := Completed(RunsOf(line), n);
            LineScore(line) == score + PENALTY_N3 *
              if runColor then LatestPatterns(q + [run + padRun] + [n]) else LatestPatterns(q + [run + padRun + n])
  {
    hide RunsOf, Recent, FinderWindow, LatestPatterns, FinderPatterns, RunScores;
    assert line[..n] == line;
    var r := RunsOf(line);
    var q := Completed(r, n);
    PaddedRuns(line, n);
    CompletedStep(r, n, 0);
    if runColor {
      FinderStep(q, run + padRun);
      FinderStep(q + [run + padRun], n);
    } else {
      assert PadBack(PadFront(r, n), n) == q + [run + padRun + n];
      FinderStep(q, run + padRun + n);
    }
  }

  /** Row or column `k` of a picture. */
  function Line(p: seq<seq<bool>>, n: nat, k: nat, vertical: bool): (line: seq<bool>)
    requires Square(p, n) && k < n
    ensures |line| == n
  {
    if vertical then seq(n, i requires 0 <= i < n => p[i][k]) else p[k]
  }

  /** `finderPenaltyTerminateAndCount` */
  method TerminateAndCount(currentRunColor: bool, currentRunLength: nat, runHistory: array<nat>, qrsize: nat,
                           ghost q: seq<nat>)
      returns (count: nat)
    requires runHistory.Length == 7 && runHistory[..] == Recent(q)
    modifies runHistory
    ensures count == if currentRunColor then LatestPatterns(q + [currentRunLength] + [qrsize])
                     else LatestPatterns(q + [currentRunLength + qrsize])
  {
    hide Recent, LatestPatterns;
    ghost var runs := q;
    var length := currentRunLength;
    if currentRunColor {
      AddHistory(length, runHistory, runs);
      runs := runs + [length];
      length := 0;
    }
    length := length + qrsize;
    AddHistory(length, runHistory, runs);
    count := CountPatterns(runHistory, runs + [length]);
  }

  /** The loop over one row or column. */
  method ScanLine(qrcode: array<Byte>, qrsize: nat, k: nat, vertical: bool, ghost n: Side) returns (score: nat)
    requires IsGrid(qrcode[..], n) && k < n && qrsize == n
    ensures score == LineScore(Line(Picture(qrcode[..], n), n, k, vertical))
  {
    hide Module, IsGrid, Recent, LatestPatterns, Scanned, RunsOf, Completed, LineScore;
    ghost var line := Line(Picture(qrcode[..], n), n, k, vertical);
    score := 0;
    var runColor, run, padRun := false, 0, qrsize;
    var runHistory := new nat[7](_ => 0);
    LineStart(line, n, runHistory[..]);
    var x := 0;
    while x < qrsize
      invariant 0 <= x <= qrsize && IsGrid(qrcode[..], n) && line == Line(Picture(qrcode[..], n), n, k, vertical)
      invariant runHistory.Length == 7 && fresh(runHistory)
      invariant Scanned(line, x, n, score, runColor, run, padRun, runHistory[..])
    {
      var black := GetModule(qrcode, if vertical then k else x, if vertical then x else k, n);
      assert black == line[x];
      if black == runColor {
        SameColor(line, x, n, score, runColor, run, padRun, runHistory[..]);
        run := run + 1;
        if run == 5 {
          score := score + PENALTY_N1;
        } else if run > 5 {
          score := score + 1;
        }
      } else {
        ghost var q := ScannedHistory(line, x, n, score, runColor, run, padRun, runHistory[..]);
        ghost var before := runHistory[..];
        ghost var runs := q + [run + padRun];
        AddHistory(run + padRun, runHistory, q);
        OtherColor(line, x, n, score, runColor, run, padRun, before, runHistory[..]);
        padRun := 0;
        if !runColor {
          var patterns := CountPatterns(runHistory, runs);
          score := score + patterns * PENALTY_N3;
        }
        runColor := black;
        run := 1;
      }
      x := x + 1;
    }
    LineEnd(line, n, score, runColor, run, padRun, runHistory[..]);
    assert line[..x] == line;
    ghost var q := ScannedHistory(line, x, n, score, runColor, run, padRun, runHistory[..]);
    var patterns := TerminateAndCount(runColor, run + padRun, runHistory, qrsize, q);
    score := score + patterns * PENALTY_N3;
  }

  lemma LineStart(line: seq<bool>, n: nat, history: seq<nat>)
    requires history == seq(7, _ => 0)
    ensures Scanned(line, 0, n, 0, false, 0, n, history)
  {}

  lemma ScannedHistory(line: seq<bool>, x: nat, n: nat, score: nat, runColor: bool, run: nat, padRun: nat,
                       history: seq<nat>)
      returns (q: seq<nat>)
    requires Scanned(line, x, n, score, runColor, run, padRun, history)
    ensures q == Completed(RunsOf(line[..x]), n) && history == Recent(q)
  {
    q := Completed(RunsOf(line[..x]), n);
  }

  // ----- The whole grid.

  /** The scores of the first `k` rows or columns. */
  function LineScores(p: seq<seq<bool>>, n: nat, k: nat, vertical: bool): nat
    requires Square(p, n) && k <= n
  {
    if k == 0 then 0 else LineScores(p, n, k - 1, vertical) + LineScore(Line(p, n, k - 1, vertical))
  }

  /** The 2x2 block whose top left module is at column `x` and row `y` has one color. */
  predicate Uniform(p: seq<seq<bool>>, n: nat, x: nat, y: nat)
    requires Square(p, n) && x + 1 < n && y + 1 < n
  {
    p[y][x] == p[y][x + 1] == p[y + 1][x] == p[y + 1][x + 1]
  }

  /** The number of uniform blocks in the first `x` columns of rows `y` and `y + 1`. */
  function UniformInRow(p: seq<seq<bool>>, n: nat, x: nat, y: nat): nat
    requires Square(p, n) && x < n && y + 1 < n
  {
    if x == 0 then 0 else UniformInRow(p, n, x - 1, y) + if Uniform(p, n, x - 1, y) then 1 else 0
  }

  /** The number of uniform blocks that start in the first `y` rows. */
  function UniformBlocks(p: seq<seq<bool>>, n: nat, y: nat): nat
    requires Square(p, n) && y < n
  {
    if y == 0 then 0 else UniformBlocks(p, n, y - 1) + UniformInRow(p, n, n - 1, y - 1)
  }

  /** The number of black modules among the first `x` of a row. */
  function BlackInRow(row: seq<bool>, x: nat): (k: nat)
    requires x <= |row|
    ensures k <= x
  {
    if x == 0 then 0 else BlackInRow(row, x - 1) + if row[x - 1] then 1 else 0
  }

  /** The number of black modules in the first `y` rows. */
  function BlackModules(p: seq<seq<bool>>, n: nat, y: nat): (k: nat)
    requires Square(p, n) && y <= n
    ensures k <= y * n
  {
    if y == 0 then 0 else BlackModules(p, n, y - 1) + BlackInRow(p[y - 1], n)
  }

  /** The share of black is within 50% -+ 5(k+1)%. */
  predicate Balanced(black: nat, total: nat, k: nat) {
    Abs(20 * black - 10 * total) <= (k + 1) * total
  }

  /** The smallest number of steps of 5%, at least `k`, that the share of black needs. */
  function BalanceSteps(black: nat, total: nat, k: nat): (r: nat)
    requires total > 0
    ensures r >= k && Balanced(black, total, r) && forall i :: k <= i < r ==> !Balanced(black, total, i)
    decreases Abs(20 * black - 10 * total) - (k + 1) * total
  {
    if Balanced(black, total, k) then k else BalanceSteps(black, total, k + 1)
  }

  /** The score: lines, blocks of one color and the balance of black and white. */
  function Penalty(p: seq<seq<bool>>, n: Side): nat
    requires Square(p, n)
  {
    LineScores(p, n, n, false) + LineScores(p, n, n, true) +
    UniformBlocks(p, n, n - 1) * PENALTY_N2 +
    BalanceSteps(BlackModules(p, n, n), n * n, 0) * PENALTY_N4
  }

  /** The closed form of the source, for an odd number of modules. */
  lemma BalanceFormula(black: nat, total: nat)
    requires total % 2 == 1
    ensures (Abs(20 * black - 10 * total) + total - 1) / total - 1 == BalanceSteps(black, total, 0)
  {
    hide BalanceSteps;
    var d, k := Abs(20 * black - 10 * total), BalanceSteps(black, total, 0);
    assert d != 0;
    assert d <= (k + 1) * total && (k > 0 ==> !Balanced(black, total, k - 1));
    QuotientIs(d + total - 1, total, k + 1);
  }

  lemma QuotientIs(a: nat, n: nat, q: nat)
    requires n > 0 && q * n <= a < q * n + n
    ensures a / n == q
  {
    DivMod(a - q * n, q, n);
  }

  /** The loops over the rows or the columns. */
  method ScanLines(qrcode: array<Byte>, qrsize: nat, vertical: bool, ghost n: Side) returns (result: nat)
    requires IsGrid(qrcode[..], n) && qrsize == n
    ensures result == LineScores(Picture(qrcode[..], n), n, n, vertical)
  {
    hide IsGrid, LineScore, Line;
    result := 0;
    var k := 0;
    while k < qrsize
      invariant 0 <= k <= qrsize && result == LineScores(Picture(qrcode[..], n), n, k, vertical)
    {
      var score := ScanLine(qrcode, qrsize, k, vertical, n);
      result := result + score;
      k := k + 1;
    }
  }

  method CountBlocks(qrcode: array<Byte>, qrsize: nat, ghost n: Side) returns (result: nat)
    requires IsGrid(qrcode[..], n) && qrsize == n
    ensures result == UniformBlocks(Picture(qrcode[..], n), n, n - 1) * PENALTY_N2
  {
    hide IsGrid, Module;
    ghost var p := Picture(qrcode[..], n);
    result := 0;
    var y := 0;
    while y < qrsize - 1
      invariant 0 <= y <= qrsize - 1 && result == UniformBlocks(p, n, y) * PENALTY_N2
    {
      var x := 0;
      while x < qrsize - 1
        invariant 0 <= x <= qrsize - 1 && result == (UniformBlocks(p, n, y) + UniformInRow(p, n, x, y)) * PENALTY_N2
      {
        var color := GetModule(qrcode, x, y, n);
        var right := GetModule(qrcode, x + 1, y, n);
        var below := GetModule(qrcode, x, y + 1, n);
        var diagonal := GetModule(qrcode, x + 1, y + 1, n);
        if color == right && color == below && color == diagonal {
          result := result + PENALTY_N2;
        }
        x := x + 1;
      }
      y := y + 1;
    }
  }

  method CountBlack(qrcode: array<Byte>, qrsize: nat, ghost n: Side) returns (black: nat)
    requires IsGrid(qrcode[..], n) && qrsize == n
    ensures black == BlackModules(Picture(qrcode[..], n), n, n)
  {
    hide IsGrid, Module;
    ghost var p := Picture(qrcode[..], n);
    black := 0;
    var y := 0;
    while y < qrsize
      invariant 0 <= y <= qrsize && black == BlackModules(p, n, y)
    {
      var x := 0;
      while x < qrsize
        invariant 0 <= x <= qrsize && black == BlackModules(p, n, y) + BlackInRow(p[y], x)
      {
        var isBlack := GetModule(qrcode, x, y, n);
        if isBlack {
          black := black + 1;
        }
        x := x + 1;
      }
      y := y + 1;
    }
  }

  /** `getPenaltyScore` */
  method GetPenaltyScore(qrcode: array<Byte>, ghost n: Side) returns (result: nat)
    requires IsGrid(qrcode[..], n)
    ensures result == Penalty(Picture(qrcode[..], n), n)
  {
    hide IsGrid, LineScores, UniformBlocks, BlackModules, BalanceSteps;
    var qrsize := GetSize(qrcode, n);
    result := ScanLines(qrcode, qrsize, false, n);
    var columns := ScanLines(qrcode, qrsize, true, n);
    result := result + columns;
    var blocks := CountBlocks(qrcode, qrsize, n);
    result := result + blocks;
    var black := CountBlack(qrcode, qrsize, n);
    var total: int := qrsize * qrsize;
    OddSquare(n);
    BalanceFormula(black, total);
    var k := (Abs(black * 20 - total * 10) + total - 1) / total - 1;
    result := result + k * PENALTY_N4;
  }

  lemma OddSquare(n: Side)
    ensures n * n % 2 == 1
  {
    assert n * n == 2 * (n / 2 * n + n / 2) + 1;
  }

  // ----- The score fits a C long of 32 bits.

  const LONG_MAX := 0x7FFFFFFF

  lemma {:induction false} LineBound(s: seq<bool>)
    ensures RunScores(RunsOf(s)) <= 3 * |s| && |RunsOf(s)| <= |s| + 1
  {
    if s == [] {
      assert RunScores([0]) == RunScores([0][..0]) + RunScore(0);
    } else {
      var r, b := RunsOf(s[..|s| - 1]), s[|s| - 1];
      LineBound(s[..|s| - 1]);
      assert Extend(r, b)[..|Extend(r, b)| - 1] == if b == Black(|r| - 1) then r[..|r| - 1] else r;
    }
  }

  lemma {:induction false} FinderBound(r: seq<nat>)
    ensures FinderPatterns(r) <= 2 * |r|
  {
    if |r| >= 7 {
      FinderBound(r[..|r| - 1]);
    }
  }

  lemma LineScoreBound(s: seq<bool>)
    requires |s| <= 177 && |s| > 0
    ensures LineScore(s) <= 15000
  {
    hide RunsOf, FinderPatterns, RunScores;
    LineBound(s);
    PaddedRuns(s, |s|);
    FinderBound(PadBack(PadFront(RunsOf(s), |s|), |s|));
  }

  lemma {:induction false} LinesBound(p: seq<seq<bool>>, n: nat, k: nat, vertical: bool)
    requires Square(p, n) && k <= n <= 177
    ensures LineScores(p, n, k, vertical) <= 15000 * k
  {
    hide LineScore;
    if k > 0 {
      LinesBound(p, n, k - 1, vertical);
      LineScoreBound(Line(p, n, k - 1, vertical));
    }
  }

  lemma {:induction false} InRowBound(p: seq<seq<bool>>, n: nat, x: nat, y: nat)
    requires Square(p, n) && x < n && y + 1 < n
    ensures UniformInRow(p, n, x, y) <= x
  {
    if x > 0 {
      InRowBound(p, n, x - 1, y);
    }
  }

  lemma {:induction false} BlocksBound(p: seq<seq<bool>>, n: nat, y: nat)
    requires Square(p, n) && y < n <= 177
    ensures UniformBlocks(p, n, y) <= 177 * y
  {
    if y > 0 {
      BlocksBound(p, n, y - 1);
      InRowBound(p, n, n - 1, y - 1);
    }
  }

  lemma BalanceBound(black: nat, total: nat)
    requires black <= total && total > 0
    ensures BalanceSteps(black, total, 0) <= 9
  {
    hide BalanceSteps;
    assert Balanced(black, total, 9);
  }

  lemma PenaltyBound(p: seq<seq<bool>>, n: Side)
    requires Square(p, n) && n <= 177
    ensures Penalty(p, n) < LONG_MAX
  {
    hide BalanceSteps, UniformBlocks, LineScores, BlackModules;
    LinesBound(p, n, n, false);
    LinesBound(p, n, n, true);
    BlocksBound(p, n, n - 1);
    BalanceBound(BlackModules(p, n, n), n * n);
  }
}
