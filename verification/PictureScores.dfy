/** The penalty score as the number of what it counts in the picture (section 7.8.3 of ISO/IEC 18004:2015). */
module PictureScores {
  import opened Arithmetic
  import opened Grids
  import opened Runs
  import opened Penalties
  import opened LinePatterns

  // ----- Sizes of sets of pairs.

  /** The pairs with one first part. */
  function Tagged<T>(k: nat, s: set<T>): set<(nat, T)> {
    set x | x in s :: (k, x)
  }

  lemma {:induction false} TaggedSize<T>(k: nat, s: set<T>)
    ensures |Tagged(k, s)| == |s|
    decreases |s|
  {
    if s == {} {
      assert Tagged(k, s) == {};
    } else {
      var x :| x in s;
      TaggedSize(k, s - {x});
      assert Tagged(k, s) == Tagged(k, s - {x}) + {(k, x)};
    }
  }

  /** The pairs whose first part is the index of a set and whose second part is in it. */
  function AllTagged<T>(a: seq<set<T>>): set<(nat, T)> {
    if a == [] then {} else AllTagged(a[..|a| - 1]) + Tagged(|a| - 1, a[|a| - 1])
  }

  function Sizes<T>(a: seq<set<T>>): nat {
    if a == [] then 0 else Sizes(a[..|a| - 1]) + |a[|a| - 1]|
  }

  lemma {:induction false} InAllTagged<T>(a: seq<set<T>>, k: nat, x: T)
    ensures (k, x) in AllTagged(a) <==> k < |a| && x in a[k]
  {
    if a != [] {
      InAllTagged(a[..|a| - 1], k, x);
    }
  }

  lemma {:induction false} AllTaggedSize<T>(a: seq<set<T>>)
    ensures |AllTagged(a)| == Sizes(a)
  {
    if a != [] {
      var n := |a| - 1;
      AllTaggedSize(a[..n]);
      TaggedSize(n, a[n]);
      forall c | c in AllTagged(a[..n]) ensures c !in Tagged(n, a[n]) {
        InAllTagged(a[..n], c.0, c.1);
      }
      assert AllTagged(a[..n]) !! Tagged(n, a[n]);
    }
  }

  // ----- Rows and columns.

  /** The places in all rows or columns where five modules of one color start. */
  function AllFives(p: seq<seq<bool>>, n: nat, vertical: bool): set<(nat, nat)>
    requires Square(p, n)
  {
    set k: nat, x: nat | k < n && x in Fives(Line(p, n, k, vertical)) :: (k, x)
  }

  /** Those at which a stretch starts. */
  function AllFirstFives(p: seq<seq<bool>>, n: nat, vertical: bool): set<(nat, nat)>
    requires Square(p, n)
  {
    set k: nat, x: nat | k < n && x in FirstFives(Line(p, n, k, vertical)) :: (k, x)
  }

  /** The finder-like patterns in all rows or columns between their borders: place and unit. */
  function AllFinders(p: seq<seq<bool>>, n: nat, vertical: bool, fourBefore: bool): set<(nat, (nat, nat))>
    requires Square(p, n)
  {
    set k: nat, c: (nat, nat) | k < n && c in Finders(Bordered(Line(p, n, k, vertical)), fourBefore) :: (k, c)
  }

  /** What is found in the first `m` lines. */
  function FivesOf(p: seq<seq<bool>>, n: nat, m: nat, vertical: bool): (a: seq<set<nat>>)
    requires Square(p, n) && m <= n
    ensures |a| == m
  {
    seq(m, k requires 0 <= k < m => Fives(Line(p, n, k, vertical)))
  }

  function FirstFivesOf(p: seq<seq<bool>>, n: nat, m: nat, vertical: bool): (a: seq<set<nat>>)
    requires Square(p, n) && m <= n
    ensures |a| == m
  {
    seq(m, k requires 0 <= k < m => FirstFives(Line(p, n, k, vertical)))
  }

  function FindersOf(p: seq<seq<bool>>, n: nat, m: nat, vertical: bool, fourBefore: bool): (a: seq<set<(nat, nat)>>)
    requires Square(p, n) && m <= n
    ensures |a| == m
  {
    seq(m, k requires 0 <= k < m => Finders(Bordered(Line(p, n, k, vertical)), fourBefore))
  }

  lemma SizesStep<T>(a: seq<set<T>>, b: seq<set<T>>, s: set<T>)
    requires b == a + [s]
    ensures Sizes(b) == Sizes(a) + |s|
  {
    assert b[..|b| - 1] == a;
  }

  lemma {:induction false} LineScoresSizes(p: seq<seq<bool>>, n: nat, m: nat, vertical: bool)
    requires Square(p, n) && m <= n
    ensures LineScores(p, n, m, vertical) ==
            Sizes(FivesOf(p, n, m, vertical)) + 2 * Sizes(FirstFivesOf(p, n, m, vertical)) +
            40 * (Sizes(FindersOf(p, n, m, vertical, true)) + Sizes(FindersOf(p, n, m, vertical, false)))
  {
    hide LineScore, Fives, FirstFives, Finders, Line, Bordered, Sizes;
    if m == 0 {
      NoSizes<nat>();
      NoSizes<(nat, nat)>();
    } else {
      var line := Line(p, n, m - 1, vertical);
      LineScoresSizes(p, n, m - 1, vertical);
      LineMeaning(line);
      SizesStep(FivesOf(p, n, m - 1, vertical), FivesOf(p, n, m, vertical), Fives(line));
      SizesStep(FirstFivesOf(p, n, m - 1, vertical), FirstFivesOf(p, n, m, vertical), FirstFives(line));
      SizesStep(FindersOf(p, n, m - 1, vertical, true), FindersOf(p, n, m, vertical, true),
                Finders(Bordered(line), true));
      SizesStep(FindersOf(p, n, m - 1, vertical, false), FindersOf(p, n, m, vertical, false),
                Finders(Bordered(line), false));
    }
  }

  lemma NoSizes<T>()
    ensures Sizes<T>([]) == 0
  {}

  lemma FivesTagged(p: seq<seq<bool>>, n: nat, vertical: bool)
    requires Square(p, n)
    ensures Sizes(FivesOf(p, n, n, vertical)) == |AllFives(p, n, vertical)|
    ensures Sizes(FirstFivesOf(p, n, n, vertical)) == |AllFirstFives(p, n, vertical)|
  {
    hide Fives, FirstFives, Line, AllTagged;
    var a, b := FivesOf(p, n, n, vertical), FirstFivesOf(p, n, n, vertical);
    AllTaggedSize(a);
    AllTaggedSize(b);
    forall c: (nat, nat) ensures c in AllFives(p, n, vertical) <==> c in AllTagged(a) {
      InAllTagged(a, c.0, c.1);
    }
    forall c: (nat, nat) ensures c in AllFirstFives(p, n, vertical) <==> c in AllTagged(b) {
      InAllTagged(b, c.0, c.1);
    }
    assert AllFives(p, n, vertical) == AllTagged(a);
    assert AllFirstFives(p, n, vertical) == AllTagged(b);
  }

  lemma FindersTagged(p: seq<seq<bool>>, n: nat, vertical: bool, fourBefore: bool)
    requires Square(p, n)
    ensures Sizes(FindersOf(p, n, n, vertical, fourBefore)) == |AllFinders(p, n, vertical, fourBefore)|
  {
    hide Finders, Bordered, Line, AllTagged;
    var a := FindersOf(p, n, n, vertical, fourBefore);
    AllTaggedSize(a);
    forall c: (nat, (nat, nat)) ensures c in AllFinders(p, n, vertical, fourBefore) <==> c in AllTagged(a) {
      InAllTagged(a, c.0, c.1);
    }
    assert AllFinders(p, n, vertical, fourBefore) == AllTagged(a);
  }

  /** The scores of all rows, or of all columns. */
  lemma LinesMeaning(p: seq<seq<bool>>, n: nat, vertical: bool)
    requires Square(p, n)
    ensures LineScores(p, n, n, vertical) ==
            |AllFives(p, n, vertical)| + 2 * |AllFirstFives(p, n, vertical)| +
            40 * (|AllFinders(p, n, vertical, true)| + |AllFinders(p, n, vertical, false)|)
  {
    hide LineScores, FivesOf, FirstFivesOf, FindersOf, AllFives, AllFirstFives, AllFinders;
    LineScoresSizes(p, n, n, vertical);
    FivesTagged(p, n, vertical);
    FindersTagged(p, n, vertical, true);
    FindersTagged(p, n, vertical, false);
  }

  // ----- Blocks and black modules.

  /** The blocks of one color, by row and column. */
  function Blocks(p: seq<seq<bool>>, n: nat): set<(nat, nat)>
    requires Square(p, n)
  {
    set y: nat, x: nat | y + 1 < n && x + 1 < n && p[y][x] == p[y][x + 1] == p[y + 1][x] == p[y + 1][x + 1] :: (y, x)
  }

  function Blacks(p: seq<seq<bool>>, n: nat): set<(nat, nat)>
    requires Square(p, n)
  {
    set y: nat, x: nat | y < n && x < n && p[y][x] :: (y, x)
  }

  function BlocksIn(p: seq<seq<bool>>, n: nat, x: nat, y: nat): set<nat>
    requires Square(p, n) && x < n && y + 1 < n
  {
    set u: nat | u < x && Uniform(p, n, u, y)
  }

  function BlacksIn(row: seq<bool>, x: nat): set<nat>
    requires x <= |row|
  {
    set u: nat | u < x && row[u]
  }

  lemma {:induction false} BlocksInSize(p: seq<seq<bool>>, n: nat, x: nat, y: nat)
    requires Square(p, n) && x < n && y + 1 < n
    ensures UniformInRow(p, n, x, y) == |BlocksIn(p, n, x, y)|
  {
    if x == 0 {
      assert BlocksIn(p, n, x, y) == {};
    } else {
      BlocksInSize(p, n, x - 1, y);
      assert BlocksIn(p, n, x, y) == BlocksIn(p, n, x - 1, y) + if Uniform(p, n, x - 1, y) then {x - 1} else {};
    }
  }

  lemma {:induction false} BlacksInSize(row: seq<bool>, x: nat)
    requires x <= |row|
    ensures BlackInRow(row, x) == |BlacksIn(row, x)|
  {
    if x == 0 {
      assert BlacksIn(row, x) == {};
    } else {
      BlacksInSize(row, x - 1);
      assert BlacksIn(row, x) == BlacksIn(row, x - 1) + if row[x - 1] then {x - 1} else {};
    }
  }

  function BlocksOf(p: seq<seq<bool>>, n: nat, m: nat): (a: seq<set<nat>>)
    requires Square(p, n) && m < n
    ensures |a| == m
  {
    seq(m, y requires 0 <= y < m => BlocksIn(p, n, n - 1, y))
  }

  function BlacksOf(p: seq<seq<bool>>, n: nat, m: nat): (a: seq<set<nat>>)
    requires Square(p, n) && m <= n
    ensures |a| == m
  {
    seq(m, y requires 0 <= y < m => BlacksIn(p[y], n))
  }

  lemma {:induction false} BlocksSizes(p: seq<seq<bool>>, n: nat, m: nat)
    requires Square(p, n) && m < n
    ensures UniformBlocks(p, n, m) == Sizes(BlocksOf(p, n, m))
  {
    hide BlocksIn, UniformInRow, Sizes;
    if m == 0 {
      NoSizes<nat>();
    } else {
      BlocksSizes(p, n, m - 1);
      BlocksInSize(p, n, n - 1, m - 1);
      SizesStep(BlocksOf(p, n, m - 1), BlocksOf(p, n, m), BlocksIn(p, n, n - 1, m - 1));
    }
  }

  lemma {:induction false} BlacksSizes(p: seq<seq<bool>>, n: nat, m: nat)
    requires Square(p, n) && m <= n
    ensures BlackModules(p, n, m) == Sizes(BlacksOf(p, n, m))
  {
    hide BlacksIn, BlackInRow, Sizes;
    if m == 0 {
      NoSizes<nat>();
    } else {
      BlacksSizes(p, n, m - 1);
      BlacksInSize(p[m - 1], n);
      SizesStep(BlacksOf(p, n, m - 1), BlacksOf(p, n, m), BlacksIn(p[m - 1], n));
    }
  }

  lemma BlocksMeaning(p: seq<seq<bool>>, n: nat)
    requires Square(p, n) && n > 0
    ensures UniformBlocks(p, n, n - 1) == |Blocks(p, n)|
  {
    hide UniformBlocks, AllTagged;
    BlocksSizes(p, n, n - 1);
    var a := BlocksOf(p, n, n - 1);
    AllTaggedSize(a);
    forall c: (nat, nat) ensures c in Blocks(p, n) <==> c in AllTagged(a) {
      InAllTagged(a, c.0, c.1);
    }
    assert Blocks(p, n) == AllTagged(a);
  }

  lemma BlacksMeaning(p: seq<seq<bool>>, n: nat)
    requires Square(p, n)
    ensures BlackModules(p, n, n) == |Blacks(p, n)|
  {
    hide BlackModules, AllTagged;
    BlacksSizes(p, n, n);
    var a := BlacksOf(p, n, n);
    AllTaggedSize(a);
    forall c: (nat, nat) ensures c in Blacks(p, n) <==> c in AllTagged(a) {
      InAllTagged(a, c.0, c.1);
    }
    assert Blacks(p, n) == AllTagged(a);
  }

  // ----- The whole score.

  /** What stretches and finder-like patterns score in all rows, or in all columns. */
  function LinePoints(p: seq<seq<bool>>, n: nat, vertical: bool): nat
    requires Square(p, n)
  {
    |AllFives(p, n, vertical)| + 2 * |AllFirstFives(p, n, vertical)| +
    40 * (|AllFinders(p, n, vertical, true)| + |AllFinders(p, n, vertical, false)|)
  }

  /**
   The score: the points of rows and columns, 3 for every block of one color, and 10 for every step of 5% that the
   share of black modules is away from 50%, but for the first.
   */
  lemma PenaltyMeaning(p: seq<seq<bool>>, n: Side) returns (steps: nat)
    requires Square(p, n)
    ensures Abs(20 * |Blacks(p, n)| - 10 * (n * n)) <= (steps + 1) * (n * n)
    ensures steps > 0 ==> Abs(20 * |Blacks(p, n)| - 10 * (n * n)) > steps * (n * n)
    ensures Penalty(p, n) ==
            LinePoints(p, n, false) + LinePoints(p, n, true) + 3 * |Blocks(p, n)| + 10 * steps
  {
    hide LineScores, UniformBlocks, BlackModules, BalanceSteps, AllFives, AllFirstFives, AllFinders, Blocks, Blacks;
    LinesMeaning(p, n, false);
    LinesMeaning(p, n, true);
    BlocksMeaning(p, n);
    BlacksMeaning(p, n);
    steps := BalanceSteps(BlackModules(p, n, n), n * n, 0);
    if steps > 0 {
      assert !Balanced(BlackModules(p, n, n), n * n, steps - 1);
    }
  }

  // ----- Rows and columns exchanged.

  function Transposed(p: seq<seq<bool>>, n: nat): (q: seq<seq<bool>>)
    requires Square(p, n)
    ensures Square(q, n)
    ensures forall x, y :: 0 <= x < n && 0 <= y < n ==> q[y][x] == p[x][y]
  {
    seq(n, y requires 0 <= y < n => seq(n, x requires 0 <= x < n => p[x][y]))
  }

  function Swapped(s: set<(nat, nat)>): set<(nat, nat)> {
    set c | c in s :: (c.1, c.0)
  }

  lemma {:induction false} SwappedSize(s: set<(nat, nat)>)
    ensures |Swapped(s)| == |s|
    decreases |s|
  {
    if s == {} {
      assert Swapped(s) == {};
    } else {
      var c :| c in s;
      SwappedSize(s - {c});
      assert Swapped(s) == Swapped(s - {c}) + {(c.1, c.0)};
      assert (c.1, c.0) !in Swapped(s - {c});
    }
  }

  lemma {:induction false} LinesTransposed(p: seq<seq<bool>>, n: nat, k: nat, vertical: bool)
    requires Square(p, n) && k <= n
    ensures LineScores(Transposed(p, n), n, k, vertical) == LineScores(p, n, k, !vertical)
  {
    hide LineScore;
    if k > 0 {
      LinesTransposed(p, n, k - 1, vertical);
      assert Line(Transposed(p, n), n, k - 1, vertical) == Line(p, n, k - 1, !vertical);
    }
  }

  lemma BlocksTransposed(p: seq<seq<bool>>, n: nat)
    requires Square(p, n)
    ensures |Blocks(Transposed(p, n), n)| == |Blocks(p, n)|
  {
    var q := Transposed(p, n);
    SwappedSize(Blocks(p, n));
    forall c: (nat, nat) ensures c in Blocks(q, n) <==> c in Swapped(Blocks(p, n)) {
      assert c in Blocks(q, n) <==> (c.1, c.0) in Blocks(p, n);
    }
    assert Blocks(q, n) == Swapped(Blocks(p, n));
  }

  lemma BlacksTransposed(p: seq<seq<bool>>, n: nat)
    requires Square(p, n)
    ensures |Blacks(Transposed(p, n), n)| == |Blacks(p, n)|
  {
    var q := Transposed(p, n);
    SwappedSize(Blacks(p, n));
    forall c: (nat, nat) ensures c in Blacks(q, n) <==> c in Swapped(Blacks(p, n)) {
      assert c in Blacks(q, n) <==> (c.1, c.0) in Blacks(p, n);
    }
    assert Blacks(q, n) == Swapped(Blacks(p, n));
  }

  /** Rows and columns count alike. */
  lemma PenaltyTransposed(p: seq<seq<bool>>, n: Side)
    requires Square(p, n)
    ensures Penalty(Transposed(p, n), n) == Penalty(p, n)
  {
    hide LineScores, UniformBlocks, BlackModules, BalanceSteps, Blocks, Blacks, Transposed;
    var q := Transposed(p, n);
    LinesTransposed(p, n, n, false);
    LinesTransposed(p, n, n, true);
    BlocksMeaning(p, n);
    BlocksMeaning(q, n);
    BlocksTransposed(p, n);
    BlacksMeaning(p, n);
    BlacksMeaning(q, n);
    BlacksTransposed(p, n);
  }
}
