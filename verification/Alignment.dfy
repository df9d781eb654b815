/** Where the alignment patterns of a version are. */
module Alignment {
  import opened Capacity

  /** The number of positions along one axis. */
  function AlignCount(version: int): nat
    requires IsVersion(version)
  {
    if version == 1 then 0 else version / 7 + 2
  }

  function AlignStep(version: int): nat
    requires 2 <= version <= 40
  {
    if version == 32 then 26 else (version * 4 + AlignCount(version) * 2 + 1) / (AlignCount(version) * 2 - 2) * 2
  }

  /** Position `i`, counted back from the last one. */
  function AlignPos(version: int, i: nat): int
    requires 2 <= version <= 40 && i < AlignCount(version)
    decreases AlignCount(version) - i
  {
    if i == 0 then 6
    else if i == AlignCount(version) - 1 then version * 4 + 10
    else AlignPos(version, i + 1) - AlignStep(version)
  }

  lemma StepBounds(version: int)
    requires 2 <= version <= 40
    ensures (AlignCount(version) - 2) * AlignStep(version) <= 4 * version - 8
    ensures AlignCount(version) > 2 ==> AlignStep(version) >= 16
  {
    var a := AlignCount(version);
    if a == 2 {
    } else if a == 3 {
    } else if a == 4 {
    } else if a == 5 {
    } else if a == 6 {
    } else {
      assert a == 7;
    }
  }

  lemma {:induction false} PosFormula(version: int, i: nat)
    requires 2 <= version <= 40 && 1 <= i < AlignCount(version)
    ensures AlignPos(version, i) == version * 4 + 10 - (AlignCount(version) - 1 - i) * AlignStep(version)
    decreases AlignCount(version) - i
  {
    hide AlignStep;
    if i < AlignCount(version) - 1 {
      PosFormula(version, i + 1);
    }
  }

  /**
   All gaps but the first are equal: 26 for version 32, otherwise the smallest even number of which as many as there
   are gaps would reach from the first position to the last.
   */
  lemma PosGaps(version: int, i: nat)
    requires 2 <= version <= 40 && i + 1 < version / 7 + 2
    ensures AlignCount(version) == version / 7 + 2
    ensures AlignPos(version, 0) == 6 && AlignPos(version, version / 7 + 1) == 4 * version + 10
    ensures var g, gaps := AlignPos(version, i + 1) - AlignPos(version, i), version / 7 + 1;
            i > 0 ==> g % 2 == 0 && if version == 32 then g == 26
                                    else gaps * g >= 4 * version + 4 > gaps * (g - 2)
  {
    var gaps := version / 7 + 1;
    StepIsSmallest(version);
    hide AlignStep;
    if i > 0 {
      assert AlignPos(version, i) == AlignPos(version, i + 1) - AlignStep(version);
    }
  }

  lemma StepIsSmallest(version: int)
    requires 2 <= version <= 40
    ensures var g, gaps := AlignStep(version), version / 7 + 1;
            g % 2 == 0 && if version == 32 then g == 26 else gaps * g >= 4 * version + 4 > gaps * (g - 2)
  {
    var gaps := version / 7 + 1;
    if version != 32 {
      RoundUp(2 * version + 2, gaps);
      assert version * 4 + AlignCount(version) * 2 + 1 == 2 * (2 * version + 2) + 2 * gaps - 1;
    }
  }

  /** Division by an even number, rounded up. */
  lemma RoundUp(a: nat, d: nat)
    requires 1 <= d
    ensures var q := (2 * a + 2 * d - 1) / (2 * d);
            d * (q * 2) >= 2 * a > d * (q * 2 - 2)
  {
    var m, e := 2 * a + 2 * d - 1, 2 * d;
    var q := m / e;
    assert m == q * e + m % e && 0 <= m % e < e;
    assert q * e == d * (q * 2);
    assert d * (q * 2 - 2) == d * (q * 2) - 2 * d;
  }

  /** The positions ascend, with room for patterns of width 5 between them and around them. */
  lemma PosSpacing(version: int, i: nat)
    requires 2 <= version <= 40 && i < AlignCount(version)
    ensures 6 <= AlignPos(version, i) <= version * 4 + 10
    ensures i + 1 < AlignCount(version) ==> AlignPos(version, i) + 12 <= AlignPos(version, i + 1)
  {
    hide AlignStep;
    var a, s := AlignCount(version), AlignStep(version);
    StepBounds(version);
    if i > 0 {
      PosFormula(version, i);
      assert 0 <= (a - 1 - i) * s <= (a - 2) * s;
    }
    if i == 0 && a > 1 {
      PosFormula(version, 1);
    }
  }

  /** Different positions are at least 12 apart. */
  lemma {:induction false} PosApart(version: int, i: nat, j: nat)
    requires 2 <= version <= 40 && i < j < AlignCount(version)
    ensures AlignPos(version, i) + 12 <= AlignPos(version, j)
    decreases j
  {
    hide AlignPos, AlignCount;
    PosSpacing(version, j - 1);
    if i < j - 1 {
      PosApart(version, i, j - 1);
    }
  }

  /** `getAlignmentPatternPositions`; version 1 has none. */
  method GetAlignmentPatternPositions(version: int, result: array<int>) returns (numAlign: nat)
    requires IsVersion(version) && result.Length == 7
    modifies result
    ensures numAlign == AlignCount(version) <= 7
    ensures forall i: nat :: i < numAlign ==> result[i] == AlignPos(version, i)
  {
    hide AlignStep;
    if version == 1 {
      return 0;
    }
    numAlign := version / 7 + 2;
    var step := AlignStep(version);
    var i, pos := numAlign - 1, version * 4 + 10;
    while i >= 1
      invariant 0 <= i < numAlign
      invariant i >= 1 ==> pos == AlignPos(version, i)
      invariant forall k: nat :: i < k < numAlign ==> result[k] == AlignPos(version, k)
    {
      result[i] := pos;
      i, pos := i - 1, pos - step;
    }
    result[0] := 6;
  }
}
