/** Maximal runs of equal modules in a line, and the scores that depend on them. */
module Runs {

  /** Run `i` of a list of runs is black: the first one is white. */
  predicate Black(i: int) { i % 2 == 1 }

  /** The runs of a line after one more module. */
  function Extend(r: seq<nat>, b: bool): (q: seq<nat>)
    requires |r| > 0
  {
    var i := |r| - 1;
    if b == Black(i) then r[i := r[i] + 1] else r + [1]
  }

  /**
   The lengths of the maximal runs of a line, white and black in turn.  Only the first one may be empty, when the
   line does not start with white.
   */
  function RunsOf(s: seq<bool>): (r: seq<nat>)
    ensures |r| > 0 && forall i :: 0 < i < |r| ==> r[i] > 0
  {
    if s == [] then [0] else Extend(RunsOf(s[..|s| - 1]), s[|s| - 1])
  }

  lemma RunsStep(s: seq<bool>, b: bool)
    ensures RunsOf(s + [b]) == Extend(RunsOf(s), b)
  {
    assert (s + [b])[..|s|] == s;
  }

  function Repeat(b: bool, k: nat): (s: seq<bool>)
    ensures |s| == k
  {
    seq(k, _ => b)
  }

  /** The line that has the given runs. */
  function Spell(r: seq<nat>): seq<bool> {
    if r == [] then [] else Spell(r[..|r| - 1]) + Repeat(Black(|r| - 1), r[|r| - 1])
  }

  lemma SpellLonger(r: seq<nat>)
    requires |r| > 0
    ensures Spell(r[|r| - 1 := r[|r| - 1] + 1]) == Spell(r) + [Black(|r| - 1)]
  {
    var i := |r| - 1;
    assert r[i := r[i] + 1][..i] == r[..i];
    assert Repeat(Black(i), r[i] + 1) == Repeat(Black(i), r[i]) + [Black(i)];
  }

  lemma Alternate(i: int)
    ensures Black(i) == !Black(i - 1)
  {}

  lemma SpellExtend(r: seq<nat>, b: bool)
    requires |r| > 0
    ensures Spell(Extend(r, b)) == Spell(r) + [b]
  {
    hide Black, Spell;
    if b == Black(|r| - 1) {
      SpellLonger(r);
    } else {
      Alternate(|r|);
      SpellShortRun(r + [1]);
      assert (r + [1])[..|r|] == r;
    }
  }

  /** The runs make up the line. */
  lemma {:induction false} SpellRuns(s: seq<bool>)
    ensures Spell(RunsOf(s)) == s
  {
    hide Extend;
    if s == [] {
      assert Spell([0]) == Spell([0][..0]) + Repeat(Black(0), 0);
    } else {
      hide Spell;
      var n := |s| - 1;
      SpellRuns(s[..n]);
      SpellExtend(RunsOf(s[..n]), s[n]);
      assert s == s[..n] + [s[n]];
    }
  }

  /** No other alternating list of runs makes up the line. */
  lemma {:induction false} RunsUnique(r: seq<nat>)
    requires |r| > 0 && forall i :: 0 < i < |r| ==> r[i] > 0
    ensures RunsOf(Spell(r)) == r
    decreases |r|, r[|r| - 1]
  {
    hide Black, RunsOf, Spell;
    var i := |r| - 1;
    if i == 0 && r[0] == 0 {
      SpellNothing(r);
    } else if i > 0 && r[i] == 1 {
      RunsUnique(r[..i]);
      Alternate(i);
      SpellShortRun(r);
      RunsStep(Spell(r[..i]), Black(i));
    } else {
      var q := r[i := r[i] - 1];
      RunsUnique(q);
      SpellLonger(q);
      RunsStep(Spell(q), Black(i));
      assert q[i := q[i] + 1] == r;
    }
  }

  lemma SpellNothing(r: seq<nat>)
    requires r == [0]
    ensures RunsOf(Spell(r)) == r
  {
    assert Spell(r) == Spell(r[..0]) + Repeat(Black(0), 0) == [];
  }

  lemma SpellShortRun(r: seq<nat>)
    requires |r| > 0 && r[|r| - 1] == 1
    ensures Spell(r) == Spell(r[..|r| - 1]) + [Black(|r| - 1)] && r == r[..|r| - 1] + [1]
  {
    hide Spell, Repeat, Black;
    RepeatOnce(Black(|r| - 1));
    SpellLast(r);
  }

  lemma SpellLast(r: seq<nat>)
    requires |r| > 0
    ensures Spell(r) == Spell(r[..|r| - 1]) + Repeat(Black(|r| - 1), r[|r| - 1])
  {
    hide Repeat;
  }

  lemma RepeatOnce(b: bool)
    ensures Repeat(b, 1) == [b]
  {}

  // ----- Padding.

  /** The runs after `n` white modules have been put before the line. */
  function PadFront(r: seq<nat>, n: nat): (q: seq<nat>)
    requires |r| > 0
    ensures |q| == |r|
  {
    r[0 := r[0] + n]
  }

  /** The runs after `n` white modules have been put behind the line. */
  function PadBack(r: seq<nat>, n: nat): (q: seq<nat>)
    requires |r| > 0
  {
    var i := |r| - 1;
    if Black(i) then r + [n] else r[i := r[i] + n]
  }

  lemma PadFrontExtend(r: seq<nat>, n: nat, b: bool)
    requires |r| > 0
    ensures PadFront(Extend(r, b), n) == Extend(PadFront(r, n), b)
  {}

  lemma PadBackExtend(r: seq<nat>, n: nat)
    requires |r| > 0 && n > 0
    ensures Extend(PadBack(r, n), false) == PadBack(r, n + 1)
    ensures Extend(r, false) == PadBack(r, 1)
  {}

  lemma {:induction false} PadFrontRuns(s: seq<bool>, n: nat)
    ensures RunsOf(Repeat(false, n) + s) == PadFront(RunsOf(s), n)
  {
    if s == [] {
      assert Repeat(false, n) + s == Repeat(false, n);
      WhiteRun(n);
    } else {
      var k := |s| - 1;
      PadFrontRuns(s[..k], n);
      PadFrontExtend(RunsOf(s[..k]), n, s[k]);
      hide RunsOf, Extend, PadFront, Repeat;
      RunsStep(Repeat(false, n) + s[..k], s[k]);
      RunsStep(s[..k], s[k]);
      LastApart(Repeat(false, n), s);
    }
  }

  lemma LastApart(r: seq<bool>, s: seq<bool>)
    requires s != []
    ensures var k := |s| - 1; s[..k] + [s[k]] == s && r + s[..k] + [s[k]] == r + s
  {}

  lemma {:induction false} WhiteRun(n: nat)
    ensures RunsOf(Repeat(false, n)) == [n]
  {
    if n > 0 {
      WhiteRun(n - 1);
      assert Repeat(false, n)[..n - 1] == Repeat(false, n - 1);
    }
  }

  lemma {:induction false} PadBackRuns(s: seq<bool>, n: nat)
    requires n > 0
    ensures RunsOf(s + Repeat(false, n)) == PadBack(RunsOf(s), n)
  {
    hide RunsOf, Extend, PadBack;
    if n > 1 {
      PadBackRuns(s, n - 1);
      PadBackExtend(RunsOf(s), n - 1);
      RunsStep(s + Repeat(false, n - 1), false);
      assert s + Repeat(false, n - 1) + [false] == s + Repeat(false, n);
    } else {
      PadBackExtend(RunsOf(s), 1);
      RunsStep(s, false);
      assert s + [false] == s + Repeat(false, n);
    }
  }

  /** The runs of a line between two white borders. */
  lemma PaddedRuns(s: seq<bool>, n: nat)
    requires n > 0
    ensures RunsOf(Repeat(false, n) + s + Repeat(false, n)) == PadBack(PadFront(RunsOf(s), n), n)
  {
    PadFrontRuns(s, n);
    PadBackRuns(Repeat(false, n) + s, n);
  }

  // ----- Scores.

  const PENALTY_N1 := 3
  const PENALTY_N2 := 3
  const PENALTY_N3 := 40
  const PENALTY_N4 := 10

  /** The score of one run. */
  function RunScore(m: nat): nat {
    if m < 5 then 0 else PENALTY_N1 + (m - 5)
  }

  function RunScores(r: seq<nat>): nat {
    if r == [] then 0 else RunScores(r[..|r| - 1]) + RunScore(r[|r| - 1])
  }

  /** Seven runs that start and end white look like a finder pattern, with a light area on one side. */
  function FinderWindow(w: seq<nat>): nat
    requires |w| == 7
  {
    var m := w[1];
    var core := m > 0 && w[2] == m && w[3] == 3 * m && w[4] == m && w[5] == m;
    (if core && w[0] >= 4 * m && w[6] >= m then 1 else 0) + (if core && w[6] >= 4 * m && w[0] >= m then 1 else 0)
  }

  /** The number of finder-like patterns in a list of runs. */
  function FinderPatterns(r: seq<nat>): nat {
    if |r| < 7 then 0
    else FinderPatterns(r[..|r| - 1]) + if Black(|r| - 1) then 0 else FinderWindow(r[|r| - 7..])
  }

  /** The score of a line of modules between two white borders of one side length. */
  function LineScore(s: seq<bool>): nat {
    RunScores(RunsOf(s)) +
    FinderPatterns(RunsOf(Repeat(false, |s|) + s + Repeat(false, |s|))) * PENALTY_N3
  }
}
