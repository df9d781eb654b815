/** What the scores of a line count, told by the modules of the line (section 7.8.3 of ISO/IEC 18004:2015). */
module LinePatterns {
  import opened Runs
  import opened Penalties

  /** The modules from `p` up to `e` have the color `b`. */
  predicate Colored(t: seq<bool>, p: int, e: int, b: bool) {
    0 <= p <= e <= |t| && forall k :: p <= k < e ==> t[k] == b
  }

  // ----- Finder-like patterns.

  /**
   From module `x` on: dark, light, dark, light and dark modules in the ratio 1:1:3:1:1 with the unit `m`, between
   light ones, at least four units on the one side and one unit on the other.
   */
  predicate Finder(t: seq<bool>, x: int, m: int, fourBefore: bool) {
    && m >= 1
    && Colored(t, x - (if fourBefore then 4 * m else m), x, false)
    && Colored(t, x, x + m, true)
    && Colored(t, x + m, x + 2 * m, false)
    && Colored(t, x + 2 * m, x + 5 * m, true)
    && Colored(t, x + 5 * m, x + 6 * m, false)
    && Colored(t, x + 6 * m, x + 7 * m, true)
    && Colored(t, x + 7 * m, x + 7 * m + (if fourBefore then m else 4 * m), false)
  }

  /** The places and units of the patterns with the wide light area on one side. */
  function Finders(t: seq<bool>, fourBefore: bool): set<(nat, nat)> {
    set x: nat, m: nat | x < |t| && m <= |t| && Finder(t, x, m, fourBefore) :: (x, m)
  }

  /** Where run `i` starts; the runs before the first are empty. */
  function Start(r: seq<nat>, i: int): nat
    requires i <= |r|
  {
    if i <= 0 then 0 else |Spell(r[..i])|
  }

  lemma StartNext(r: seq<nat>, i: int)
    requires 0 <= i < |r|
    ensures Start(r, i + 1) == Start(r, i) + r[i]
  {
    assert r[..i + 1][..i] == r[..i];
    SpellLast(r[..i + 1]);
    if i == 0 {
      assert Spell(r[..0]) == [];
    }
  }

  lemma {:induction false} RunColored(r: seq<nat>, i: int)
    requires 0 <= i < |r|
    ensures Colored(Spell(r), Start(r, i), Start(r, i + 1), Black(i))
  {
    hide Black, Spell;
    var n := |r| - 1;
    StartNext(r, i);
    SpellLast(r);
    if i < n {
      RunColored(r[..n], i);
      assert r[..n][..i] == r[..i] && r[..n][..i + 1] == r[..i + 1];
    } else {
      assert r[..n + 1] == r;
    }
  }

  /** A stretch from its first module on. */
  predicate Stretch(t: seq<bool>, p: int, e: int, b: bool) {
    Colored(t, p, e, b) && (p == 0 || t[p - 1] != b)
  }

  /** Every run is a stretch, and so are the empty ones before the first. */
  lemma RunIsStretch(r: seq<nat>, i: int)
    requires i < |r| && forall j :: 0 < j < |r| ==> r[j] > 0
    ensures Stretch(Spell(r), Start(r, i), Start(r, i + 1), Black(i)) && 0 <= Start(r, i) <= Start(r, i + 1)
  {
    hide Spell, Black, Start, Colored, Stretch;
    StartNothing(r, i);
    StartNothing(r, i + 1);
    if i < 0 {
      EmptyStretch(Spell(r), Black(i));
    } else {
      RunColored(r, i);
      if i == 0 {
        FirstStretch(Spell(r), Start(r, 1), Black(0));
      } else {
        RunColored(r, i - 1);
        Alternate(i);
        StartPositive(r, i);
        NextStretch(Spell(r), Start(r, i - 1), Start(r, i), Start(r, i + 1), Black(i));
      }
    }
  }

  lemma EmptyStretch(t: seq<bool>, b: bool)
    ensures Stretch(t, 0, 0, b)
  {}

  lemma FirstStretch(t: seq<bool>, e: int, b: bool)
    requires Colored(t, 0, e, b)
    ensures Stretch(t, 0, e, b)
  {}

  lemma NextStretch(t: seq<bool>, o: int, p: int, e: int, b: bool)
    requires Colored(t, o, p, !b) && Colored(t, p, e, b) && (p == 0 || o < p)
    ensures Stretch(t, p, e, b) && 0 <= p <= e
  {}

  lemma StartPositive(r: seq<nat>, i: int)
    requires 0 < i <= |r| && forall j :: 0 < j < |r| ==> r[j] > 0
    ensures Start(r, i) == 0 || Start(r, i - 1) < Start(r, i)
  {
    hide Spell;
    StartNext(r, i - 1);
    StartNothing(r, 0);
  }

  lemma StartNothing(r: seq<nat>, i: int)
    requires i <= |r|
    ensures i <= 0 ==> Start(r, i) == 0
  {}

  /** Two stretches that end together start together. */
  lemma Edge(t: seq<bool>, p: int, q: int, e: int, b: bool)
    requires Stretch(t, p, e, b) && 1 <= q < e && Colored(t, q, e, b) && t[q - 1] != b
    ensures p == q
  {}

  /** The stretches of a window of runs, of which the last one ends the line. */
  predicate Window(t: seq<bool>, p: seq<int>) {
    && |p| == 8 && 0 <= p[0] <= p[1] <= p[2] <= p[3] <= p[4] <= p[5] <= p[6] <= p[7] == |t|
    && Stretch(t, p[0], p[1], false) && Stretch(t, p[1], p[2], true) && Stretch(t, p[2], p[3], false)
    && Stretch(t, p[3], p[4], true) && Stretch(t, p[4], p[5], false) && Stretch(t, p[5], p[6], true)
    && Stretch(t, p[6], p[7], false)
  }

  function Lengths(p: seq<int>): (w: seq<nat>)
    requires |p| == 8 && p[0] <= p[1] <= p[2] <= p[3] <= p[4] <= p[5] <= p[6] <= p[7]
    ensures |w| == 7
  {
    [p[1] - p[0], p[2] - p[1], p[3] - p[2], p[4] - p[3], p[5] - p[4], p[6] - p[5], p[7] - p[6]]
  }

  /** The window has the ratios of a finder pattern, with four units of light on one side. */
  predicate Ratios(w: seq<nat>, fourBefore: bool)
    requires |w| == 7
  {
    var m := w[1];
    m > 0 && w[2] == m && w[3] == 3 * m && w[4] == m && w[5] == m &&
    w[0] >= (if fourBefore then 4 * m else m) && w[6] >= (if fourBefore then m else 4 * m)
  }

  lemma WindowRatios(w: seq<nat>)
    requires |w| == 7
    ensures FinderWindow(w) == (if Ratios(w, true) then 1 else 0) + (if Ratios(w, false) then 1 else 0)
  {}

  /** A window with the ratios is a pattern. */
  lemma RatiosFinder(t: seq<bool>, p: seq<int>, fourBefore: bool)
    requires Window(t, p) && Ratios(Lengths(p), fourBefore)
    ensures Finder(t, p[1], p[2] - p[1], fourBefore) && p[1] + 7 * (p[2] - p[1]) == p[6]
  {}

  /** A pattern whose last dark modules are the last of the line is the window. */
  lemma FinderRatios(t: seq<bool>, p: seq<int>, x: int, m: int, fourBefore: bool)
    requires Window(t, p) && Finder(t, x, m, fourBefore) && x + 7 * m == p[6]
    ensures x == p[1] && m == p[2] - p[1] && Ratios(Lengths(p), fourBefore)
  {
    Edge(t, p[5], x + 6 * m, p[6], true);
    Edge(t, p[4], x + 5 * m, p[5], false);
    Edge(t, p[3], x + 2 * m, p[4], true);
    Edge(t, p[2], x + m, p[3], false);
    Edge(t, p[1], x, p[2], true);
    FirstEdge(t, p[0], x - (if fourBefore then 4 * m else m), p[1], false);
  }

  /** A stretch reaches at least as far as equal modules do. */
  lemma FirstEdge(t: seq<bool>, p: int, q: int, e: int, b: bool)
    requires Stretch(t, p, e, b) && Colored(t, q, e, b)
    ensures p <= q
  {}

  /** A pattern that is not in the line without its last, light, stretch ends where that starts. */
  lemma NewFinder(t: seq<bool>, e: int, x: int, m: int, fourBefore: bool)
    requires Stretch(t, e, |t|, false) && Finder(t, x, m, fourBefore) && !Finder(t[..e], x, m, fourBefore)
    ensures x + 7 * m == e
  {
    var a := if fourBefore then m else 4 * m;
    assert t[x + 7 * m - 1];
    assert e == 0 || t[e - 1];
  }

  /** A pattern of the beginning of a line. */
  lemma OldFinder(t: seq<bool>, e: nat, x: int, m: int, fourBefore: bool)
    requires e <= |t| && Finder(t[..e], x, m, fourBefore)
    ensures Finder(t, x, m, fourBefore) && x + 7 * m < e
  {}

  /** A dark stretch adds no pattern. */
  lemma DarkEnd(t: seq<bool>, e: nat, x: int, m: int, fourBefore: bool)
    requires Stretch(t, e, |t|, true) && Finder(t, x, m, fourBefore)
    ensures Finder(t[..e], x, m, fourBefore)
  {
    var a := if fourBefore then m else 4 * m;
    assert !t[x + 7 * m + a - 1];
  }

  lemma InFinders(t: seq<bool>, x: nat, m: nat, fourBefore: bool)
    ensures Finder(t, x, m, fourBefore) ==> x < |t| && m <= |t|
    ensures (x, m) in Finders(t, fourBefore) <==> Finder(t, x, m, fourBefore)
  {}

  lemma FindersDark(t: seq<bool>, e: nat, fourBefore: bool)
    requires Stretch(t, e, |t|, true)
    ensures Finders(t, fourBefore) == Finders(t[..e], fourBefore)
  {
    hide Finder, Finders;
    forall c: (nat, nat) ensures c in Finders(t, fourBefore) <==> c in Finders(t[..e], fourBefore) {
      var (x, m) := c;
      InFinders(t, x, m, fourBefore);
      InFinders(t[..e], x, m, fourBefore);
      if Finder(t, x, m, fourBefore) {
        DarkEnd(t, e, x, m, fourBefore);
      }
      if Finder(t[..e], x, m, fourBefore) {
        OldFinder(t, e, x, m, fourBefore);
      }
    }
  }

  lemma FindersLight(t: seq<bool>, p: seq<int>, fourBefore: bool)
    requires Window(t, p)
    ensures |Finders(t, fourBefore)| ==
            |Finders(t[..p[6]], fourBefore)| + if Ratios(Lengths(p), fourBefore) then 1 else 0
  {
    hide Finder, Finders, Stretch, Ratios;
    var e: nat, x: nat, m: nat := p[6], p[1], p[2] - p[1];
    var added := if Ratios(Lengths(p), fourBefore) then {(x, m)} else {};
    forall c: (nat, nat)
      ensures c in Finders(t, fourBefore) <==> c in Finders(t[..e], fourBefore) || c in added
    {
      var (u, v) := c;
      LightFinder(t, p, u, v, fourBefore);
    }
    assert Finders(t, fourBefore) == Finders(t[..e], fourBefore) + added;
    if Ratios(Lengths(p), fourBefore) {
      RatiosFinder(t, p, fourBefore);
      InFinders(t[..e], x, m, fourBefore);
      if Finder(t[..e], x, m, fourBefore) {
        OldFinder(t, e, x, m, fourBefore);
      }
    }
  }

  lemma LightFinder(t: seq<bool>, p: seq<int>, x: nat, m: nat, fourBefore: bool)
    requires Window(t, p)
    ensures (x, m) in Finders(t, fourBefore) <==>
            (x, m) in Finders(t[..p[6]], fourBefore) ||
            (Ratios(Lengths(p), fourBefore) && x == p[1] && m == p[2] - p[1])
  {
    hide Finder, Finders, Stretch, Ratios;
    var e: nat := p[6];
    InFinders(t, x, m, fourBefore);
    InFinders(t[..e], x, m, fourBefore);
    if Finder(t[..e], x, m, fourBefore) {
      OldFinder(t, e, x, m, fourBefore);
    } else if Finder(t, x, m, fourBefore) {
      NewFinder(t, e, x, m, fourBefore);
      FinderRatios(t, p, x, m, fourBefore);
    }
    if Ratios(Lengths(p), fourBefore) {
      RatiosFinder(t, p, fourBefore);
    }
  }

  // ----- The runs of a line.

  /** The starts of the last seven runs, and the end of the line. */
  function LastStarts(r: seq<nat>): (p: seq<int>)
    requires |r| > 0
    ensures |p| == 8
  {
    var k := |r| - 7;
    [Start(r, k), Start(r, k + 1), Start(r, k + 2), Start(r, k + 3), Start(r, k + 4), Start(r, k + 5), Start(r, k + 6),
     Start(r, k + 7)]
  }

  lemma LastWindow(r: seq<nat>)
    requires |r| > 0 && !Black(|r| - 1) && forall j :: 0 < j < |r| ==> r[j] > 0
    ensures Window(Spell(r), LastStarts(r))
  {
    hide Spell, Colored, Start, Black;
    var k := |r| - 7;
    Alternate(k + 1);
    Alternate(k + 2);
    Alternate(k + 3);
    Alternate(k + 4);
    Alternate(k + 5);
    Alternate(k + 6);
    StartEnd(r);
    RunIsStretch(r, k);
    RunIsStretch(r, k + 1);
    RunIsStretch(r, k + 2);
    RunIsStretch(r, k + 3);
    RunIsStretch(r, k + 4);
    RunIsStretch(r, k + 5);
    RunIsStretch(r, k + 6);
  }

  lemma StartEnd(r: seq<nat>)
    ensures Start(r, |r|) == |Spell(r)|
  {
    assert r[..|r|] == r;
  }

  /** The number of patterns on both sides. */
  function FinderCount(t: seq<bool>): nat {
    |Finders(t, true)| + |Finders(t, false)|
  }

  lemma LastRun(r: seq<nat>)
    requires |r| > 0
    ensures var e := Start(r, |r| - 1);
            e <= |Spell(r)| && Spell(r)[..e] == Spell(r[..|r| - 1])
  {
    SpellLast(r);
  }

  /** With fewer than seven runs, the window starts with empty ones. */
  lemma FewRuns(r: seq<nat>, fourBefore: bool)
    requires 0 < |r| < 7 && !Black(|r| - 1) && Window(Spell(r), LastStarts(r))
    ensures !Ratios(Lengths(LastStarts(r)), fourBefore)
  {
    hide Spell;
    var k := |r| - 7;
    StartNothing(r, k + 1);
    StartNothing(r, k + 2);
  }

  lemma FullWindow(r: seq<nat>)
    requires |r| >= 7 && Window(Spell(r), LastStarts(r))
    ensures Lengths(LastStarts(r)) == r[|r| - 7..]
  {
    hide Spell, Start, Window, Lengths, LastStarts;
    var w := r[|r| - 7..];
    StartsApart(r, 0);
    StartsApart(r, 1);
    StartsApart(r, 2);
    StartsApart(r, 3);
    StartsApart(r, 4);
    StartsApart(r, 5);
    StartsApart(r, 6);
    LengthsAre(LastStarts(r), w);
  }

  lemma StartsApart(r: seq<nat>, i: nat)
    requires |r| >= 7 && i < 7
    ensures LastStarts(r)[i + 1] == LastStarts(r)[i] + r[|r| - 7..][i]
  {
    hide Start;
    StartNext(r, |r| - 7 + i);
    StartAt(r, i);
    StartAt(r, i + 1);
  }

  lemma StartAt(r: seq<nat>, i: nat)
    requires |r| > 0 && i < 8
    ensures LastStarts(r)[i] == Start(r, |r| - 7 + i)
  {
    hide Start;
  }

  lemma LengthsAre(p: seq<int>, w: seq<nat>)
    requires |p| == 8 && |w| == 7 && p[1] == p[0] + w[0] && p[2] == p[1] + w[1] && p[3] == p[2] + w[2]
    requires p[4] == p[3] + w[3] && p[5] == p[4] + w[4] && p[6] == p[5] + w[5] && p[7] == p[6] + w[6]
    ensures Lengths(p) == w
  {}

  /** What the last run adds. */
  lemma RunAdds(r: seq<nat>)
    requires |r| > 0 && forall j :: 0 < j < |r| ==> r[j] > 0
    ensures FinderCount(Spell(r)) == FinderCount(Spell(r[..|r| - 1])) + if Black(|r| - 1) then 0 else LatestPatterns(r)
  {
    hide Spell, Finders, Stretch, Ratios, FinderWindow, Start, Black, Lengths, LastStarts, Window;
    LastRun(r);
    var t, e := Spell(r), Start(r, |r| - 1);
    if Black(|r| - 1) {
      RunIsStretch(r, |r| - 1);
      StartEnd(r);
      FindersDark(t, e, true);
      FindersDark(t, e, false);
    } else {
      LastWindow(r);
      var p := LastStarts(r);
      LastStart(r);
      FindersLight(t, p, true);
      FindersLight(t, p, false);
      if |r| < 7 {
        FewRuns(r, true);
        FewRuns(r, false);
      } else {
        FullWindow(r);
        WindowRatios(r[|r| - 7..]);
      }
    }
  }

  lemma LastStart(r: seq<nat>)
    requires |r| > 0
    ensures LastStarts(r)[6] == Start(r, |r| - 1)
  {}

  /** The windows of runs are the patterns of the line. */
  lemma {:induction false} WindowsCount(r: seq<nat>)
    requires forall j :: 0 < j < |r| ==> r[j] > 0
    ensures FinderPatterns(r) == FinderCount(Spell(r))
  {
    hide Spell, Finders, FinderPatterns, LatestPatterns, FinderCount, Black;
    if r == [] {
      NoRuns();
    } else {
      var n := |r| - 1;
      WindowsCount(r[..n]);
      RunAdds(r);
      FinderStep(r[..n], r[n]);
      assert r[..n] + [r[n]] == r;
    }
  }

  lemma NoRuns()
    ensures FinderPatterns([]) == 0 == FinderCount(Spell([]))
  {
    assert Finders([], true) == {} && Finders([], false) == {};
  }

  // ----- Long stretches.

  /** The places where five modules of one color start. */
  function Fives(s: seq<bool>): set<nat> {
    set x: nat | x + 5 <= |s| && Colored(s, x, x + 5, s[x])
  }

  /** Those at which a stretch starts. */
  function FirstFives(s: seq<bool>): set<nat> {
    set x: nat | x + 5 <= |s| && Stretch(s, x, x + 5, s[x])
  }

  /** The last run of a line. */
  lemma Tail(s: seq<bool>)
    ensures var r := RunsOf(s);
            var i := |r| - 1;
            r[i] <= |s| && Stretch(s, |s| - r[i], |s|, Black(i))
  {
    hide Spell, RunsOf, Start, Stretch, Black;
    var r := RunsOf(s);
    SpellRuns(s);
    RunIsStretch(r, |r| - 1);
    StartNext(r, |r| - 1);
    StartEnd(r);
  }

  /** What one more module scores. */
  function ModuleScore(run: nat): nat {
    if run < 5 then 0 else if run == 5 then 3 else 1
  }

  lemma ScoreStep(r: seq<nat>, b: bool)
    requires |r| > 0
    ensures var q := Extend(r, b);
            RunScores(q) == RunScores(r) + ModuleScore(q[|q| - 1])
  {
    hide Black;
    var q := Extend(r, b);
    if |q| == |r| {
      assert q[..|q| - 1] == r[..|r| - 1];
    } else {
      assert q[..|q| - 1] == r;
    }
  }

  /** The last five modules. */
  lemma LastFive(s: seq<bool>, p: nat, b: bool)
    requires p < |s| && Stretch(s, p, |s|, b)
    ensures |s| - p >= 5 <==> |s| >= 5 && Colored(s, |s| - 5, |s|, s[|s| - 5])
    ensures |s| - p == 5 <==> |s| >= 5 && Stretch(s, |s| - 5, |s|, s[|s| - 5])
  {
    assert s[|s| - 1] == b;
    if |s| >= 5 && Colored(s, |s| - 5, |s|, s[|s| - 5]) {
      assert s[|s| - 1] == s[|s| - 5];
    }
  }

  lemma PrefixFive(s: seq<bool>, x: nat)
    requires |s| > 0 && x + 5 < |s|
    ensures Colored(s, x, x + 5, s[x]) == Colored(s[..|s| - 1], x, x + 5, s[x])
    ensures Stretch(s, x, x + 5, s[x]) == Stretch(s[..|s| - 1], x, x + 5, s[x])
  {}

  lemma FivesStep(s: seq<bool>)
    requires |s| > 0
    ensures var n, five := |s| - 1, |s| >= 5 && Colored(s, |s| - 5, |s|, s[|s| - 5]);
            |Fives(s)| == |Fives(s[..n])| + if five then 1 else 0
  {
    hide Colored;
    var n, five := |s| - 1, |s| >= 5 && Colored(s, |s| - 5, |s|, s[|s| - 5]);
    forall x: nat ensures x in Fives(s) <==> x in Fives(s[..n]) || (five && x == |s| - 5) {
      if x + 5 < |s| {
        PrefixFive(s, x);
      }
    }
    assert Fives(s) == Fives(s[..n]) + if five then {|s| - 5} else {};
  }

  lemma FirstFivesStep(s: seq<bool>)
    requires |s| > 0
    ensures var n, five := |s| - 1, |s| >= 5 && Stretch(s, |s| - 5, |s|, s[|s| - 5]);
            |FirstFives(s)| == |FirstFives(s[..n])| + if five then 1 else 0
  {
    hide Stretch;
    var n, five := |s| - 1, |s| >= 5 && Stretch(s, |s| - 5, |s|, s[|s| - 5]);
    forall x: nat ensures x in FirstFives(s) <==> x in FirstFives(s[..n]) || (five && x == |s| - 5) {
      if x + 5 < |s| {
        PrefixFive(s, x);
      }
    }
    assert FirstFives(s) == FirstFives(s[..n]) + if five then {|s| - 5} else {};
  }

  /** The scores of the runs are one for every five modules of one color, and two more for every stretch of them. */
  lemma {:induction false} StretchScores(s: seq<bool>)
    ensures RunScores(RunsOf(s)) == |Fives(s)| + 2 * |FirstFives(s)|
  {
    hide RunsOf, RunScores, Fives, FirstFives, Stretch, Colored, Extend, Black;
    if s == [] {
      NoFives();
    } else {
      var n := |s| - 1;
      StretchScores(s[..n]);
      RunsStep(s[..n], s[n]);
      assert s[..n] + [s[n]] == s;
      ScoreStep(RunsOf(s[..n]), s[n]);
      FivesStep(s);
      FirstFivesStep(s);
      var r := RunsOf(s);
      Tail(s);
      LastIsPositive(s);
      LastFive(s, |s| - r[|r| - 1], Black(|r| - 1));
    }
  }

  lemma LastIsPositive(s: seq<bool>)
    requires |s| > 0
    ensures RunsOf(s)[|RunsOf(s)| - 1] > 0
  {}

  lemma NoFives()
    ensures RunScores(RunsOf([])) == 0 && Fives([]) == {} && FirstFives([]) == {}
  {
    assert RunScores([0]) == RunScores([0][..0]) + RunScore(0);
  }

  /** The line between two white borders of its own length. */
  function Bordered(s: seq<bool>): (t: seq<bool>)
    ensures |t| == 3 * |s| && forall k :: 0 <= k < |t| ==> t[k] == (|s| <= k < 2 * |s| && s[k - |s|])
  {
    Repeat(false, |s|) + s + Repeat(false, |s|)
  }

  /**
   The score of a line: one for every five modules of one color and two more for every stretch of them, and 40 for
   every pattern in the line between its borders and every side of it with four units of light.
   */
  lemma LineMeaning(s: seq<bool>)
    ensures LineScore(s) == |Fives(s)| + 2 * |FirstFives(s)| +
                            40 * (|Finders(Bordered(s), true)| + |Finders(Bordered(s), false)|)
  {
    hide RunsOf, Spell, FinderPatterns, RunScores, Finders, Fives, FirstFives;
    var t := Bordered(s);
    StretchScores(s);
    SpellRuns(t);
    WindowsCount(RunsOf(t));
  }
}
