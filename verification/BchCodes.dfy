/**
 The error correcting codes of format and version information: a few data bits, followed by the remainder of a division
 of polynomials over the field of two elements (sections 7.9 and 7.10 of ISO/IEC 18004:2015).
 */
module BchCodes {
  import opened Bytes

  /** One round: the remainder is shifted, and the generator is subtracted if a bit falls off. */
  function Round(rem: seq<bool>, generator: seq<bool>): (next: seq<bool>)
    requires |rem| == |generator| > 0
    ensures |next| == |rem|
  {
    if rem[0] then XorBits(rem[1..] + [false], generator) else rem[1..] + [false]
  }

  /** The remainder after `k` rounds, most significant bit first. */
  function Rounds(start: seq<bool>, generator: seq<bool>, k: nat): (rem: seq<bool>)
    requires |start| == |generator| > 0
    ensures |rem| == |start|
  {
    if k == 0 then start else Round(Rounds(start, generator, k - 1), generator)
  }

  /** The loop that computes the remainder. */
  method Divide(start: seq<bool>, generator: seq<bool>, k: nat) returns (rem: seq<bool>)
    requires |start| == |generator| > 0
    ensures rem == Rounds(start, generator, k)
  {
    rem := start;
    var i := 0;
    while i < k
      invariant 0 <= i <= k && rem == Rounds(start, generator, i)
    {
      var carry := rem[0];
      rem := rem[1..] + [false];
      if carry {
        rem := XorBits(rem, generator);
      }
      i := i + 1;
    }
  }

  /** The generator of the format code: 0x537 without its leading bit. */
  function FormatGenerator(): (g: seq<bool>)
    ensures |g| == 10
  {
    [false, true, false, false, true, true, false, true, true, true]
  }

  /** The generator of the version code: 0x1F25 without its leading bit. */
  function VersionGenerator(): (g: seq<bool>)
    ensures |g| == 12
  {
    [true, true, true, true, false, false, true, false, false, true, false, true]
  }

  /** Five data bits and ten more. */
  function FormatCode(data: seq<bool>): (s: seq<bool>)
    requires |data| == 5
    ensures |s| == 15
  {
    data + Rounds(seq(5, _ => false) + data, FormatGenerator(), 10)
  }

  /** Six data bits and twelve more. */
  function VersionCode(data: seq<bool>): (s: seq<bool>)
    requires |data| == 6
    ensures |s| == 18
  {
    data + Rounds(seq(6, _ => false) + data, VersionGenerator(), 12)
  }

  /** A word written with zeros and ones. */
  predicate Reads(bits: seq<bool>, word: string) {
    |bits| == |word| && forall k :: 0 <= k < |bits| ==> bits[k] == (word[k] == '1')
  }

  // ----- Every bit of a code word is a parity of data bits.

  lemma RoundAt(rem: seq<bool>, generator: seq<bool>)
    requires |rem| == |generator| > 0
    ensures forall k :: 0 <= k < |rem| ==>
              Round(rem, generator)[k] == ((k + 1 < |rem| && rem[k + 1]) != (rem[0] && generator[k]))
  {
    XorAt(rem[1..] + [false], generator);
  }

  lemma NextRound(start: seq<bool>, generator: seq<bool>, k: nat)
    requires |start| == |generator| > 0
    ensures var rem, next := Rounds(start, generator, k), Rounds(start, generator, k + 1);
            forall i :: 0 <= i < |start| ==>
              next[i] == ((i + 1 < |start| && rem[i + 1]) != (rem[0] && generator[i]))
  {
    RoundAt(Rounds(start, generator, k), generator);
  }

  /** Leading zeros are only shifted out. */
  lemma {:induction false} OnlyShifted(start: seq<bool>, generator: seq<bool>, k: nat)
    requires |start| == |generator| > 0 && k <= |start| && forall i :: 0 <= i < k ==> !start[i]
    ensures forall i :: 0 <= i < |start| ==> Rounds(start, generator, k)[i] == (i + k < |start| && start[i + k])
  {
    if k > 0 {
      OnlyShifted(start, generator, k - 1);
      NextRound(start, generator, k - 1);
    }
  }

  lemma FormatGeneratorBits()
    ensures var g := FormatGenerator();
            !g[0] && g[1] && !g[2] && !g[3] && g[4] && g[5] && !g[6] && g[7] && g[8] && g[9]
  {}

  /** Bit `k` of the code word as a parity of the data bits. */
  predicate FormatParity(d: seq<bool>, k: nat)
    requires |d| == 5 && k < 15
  {
    if k < 5 then d[k]
    else if k == 5 then (d[0] != d[1]) != d[3]
    else if k == 6 then (d[1] != d[2]) != d[4]
    else if k == 7 then (d[0] != d[1]) != d[2]
    else if k == 8 then (d[1] != d[2]) != d[3]
    else if k == 9 then (d[2] != d[3]) != d[4]
    else if k == 10 then (d[0] != d[1]) != d[4]
    else if k == 11 then (d[0] != d[2]) != d[3]
    else if k == 12 then (d[1] != d[3]) != d[4]
    else if k == 13 then (((d[0] != d[1]) != d[2]) != d[3]) != d[4]
    else (d[0] != d[2]) != d[4]
  }

  lemma FormatRoundsTo(start: seq<bool>, d: seq<bool>)
    requires |start| == 10 && |d| == 5
    requires var r := Rounds(start, FormatGenerator(), 5);
             r[0] == (d[0]) && r[1] == (d[1]) &&
             r[2] == (d[2]) && r[3] == (d[3]) && r[4] == (d[4]) && r[5] == (false) && r[6] == (false) &&
             r[7] == (false) && r[8] == (false) && r[9] == (false)
    ensures var r := Rounds(start, FormatGenerator(), 8);
            r[0] == (d[1] != d[3]) &&
            r[1] == ((d[0] != d[2]) != d[4]) && r[2] == (d[0]) && r[3] == (d[0] != d[1]) &&
            r[4] == ((d[0] != d[1]) != d[2]) && r[5] == (d[2]) && r[6] == (d[0] != d[1]) && r[7] == (d[1] != d[2]) &&
            r[8] == ((d[0] != d[1]) != d[2]) && r[9] == (d[0] != d[2])
  {
    hide Rounds, FormatGenerator;
    FormatGeneratorBits();
    NextRound(start, FormatGenerator(), 5);
    var r6 := Rounds(start, FormatGenerator(), 6);
    assert r6[0] == (d[1]) && r6[1] == (d[0] != d[2]) && r6[2] == (d[3]) && r6[3] == (d[4]) && r6[4] == (d[0]) &&
        r6[5] == (d[0]) && r6[6] == (false) && r6[7] == (d[0]) && r6[8] == (d[0]) && r6[9] == (d[0]);
    NextRound(start, FormatGenerator(), 6);
    var r7 := Rounds(start, FormatGenerator(), 7);
    assert r7[0] == (d[0] != d[2]) && r7[1] == (d[1] != d[3]) && r7[2] == (d[4]) && r7[3] == (d[0]) &&
        r7[4] == (d[0] != d[1]) && r7[5] == (d[1]) && r7[6] == (d[0]) && r7[7] == (d[0] != d[1]) &&
        r7[8] == (d[0] != d[1]) && r7[9] == (d[1]);
    NextRound(start, FormatGenerator(), 7);
  }

  lemma FormatRoundsFrom(start: seq<bool>, d: seq<bool>)
    requires |start| == 10 && |d| == 5
    requires var r := Rounds(start, FormatGenerator(), 8);
             r[0] == (d[1] != d[3]) &&
             r[1] == ((d[0] != d[2]) != d[4]) && r[2] == (d[0]) && r[3] == (d[0] != d[1]) &&
             r[4] == ((d[0] != d[1]) != d[2]) && r[5] == (d[2]) && r[6] == (d[0] != d[1]) && r[7] == (d[1] != d[2]) &&
             r[8] == ((d[0] != d[1]) != d[2]) && r[9] == (d[0] != d[2])
    ensures var r := Rounds(start, FormatGenerator(), 10);
            r[0] == ((d[0] != d[1]) != d[3]) &&
            r[1] == ((d[1] != d[2]) != d[4]) && r[2] == ((d[0] != d[1]) != d[2]) && r[3] == ((d[1] != d[2]) != d[3]) &&
            r[4] == ((d[2] != d[3]) != d[4]) && r[5] == ((d[0] != d[1]) != d[4]) && r[6] == ((d[0] != d[2]) != d[3]) &&
            r[7] == ((d[1] != d[3]) != d[4]) && r[8] == ((((d[0] != d[1]) != d[2]) != d[3]) != d[4]) &&
            r[9] == ((d[0] != d[2]) != d[4])
  {
    hide Rounds, FormatGenerator;
    FormatGeneratorBits();
    NextRound(start, FormatGenerator(), 8);
    var r9 := Rounds(start, FormatGenerator(), 9);
    assert r9[0] == ((d[0] != d[2]) != d[4]) && r9[1] == ((d[0] != d[1]) != d[3]) && r9[2] == (d[0] != d[1]) &&
        r9[3] == ((d[0] != d[1]) != d[2]) && r9[4] == ((d[1] != d[2]) != d[3]) && r9[5] == (d[0] != d[3]) &&
        r9[6] == (d[1] != d[2]) && r9[7] == ((d[0] != d[2]) != d[3]) && r9[8] == (((d[0] != d[1]) != d[2]) != d[3]) &&
        r9[9] == (d[1] != d[3]);
    NextRound(start, FormatGenerator(), 9);
  }

  lemma FormatCodeIs(d: seq<bool>)
    requires |d| == 5
    ensures forall k :: 0 <= k < 15 ==> FormatCode(d)[k] == FormatParity(d, k)
  {
    hide Rounds, FormatGenerator;
    var start := seq(5, _ => false) + d;
    OnlyShifted(start, FormatGenerator(), 5);
    FormatRoundsTo(start, d);
    FormatRoundsFrom(start, d);
  }

  lemma VersionGeneratorBits()
    ensures var g := VersionGenerator();
            g[0] && g[1] && g[2] && g[3] && !g[4] && !g[5] && g[6] && !g[7] && !g[8] && g[9] && !g[10] && g[11]
  {}

  /** Bit `k` of the code word as a parity of the data bits. */
  predicate VersionParity(d: seq<bool>, k: nat)
    requires |d| == 6 && k < 18
  {
    if k < 6 then d[k]
    else if k == 6 then (d[0] != d[1]) != d[5]
    else if k == 7 then d[2] != d[5]
    else if k == 8 then (d[1] != d[3]) != d[5]
    else if k == 9 then (((d[0] != d[1]) != d[2]) != d[4]) != d[5]
    else if k == 10 then (d[0] != d[2]) != d[3]
    else if k == 11 then ((d[0] != d[1]) != d[3]) != d[4]
    else if k == 12 then ((d[1] != d[2]) != d[4]) != d[5]
    else if k == 13 then ((d[0] != d[1]) != d[2]) != d[3]
    else if k == 14 then ((d[1] != d[2]) != d[3]) != d[4]
    else if k == 15 then (((d[0] != d[2]) != d[3]) != d[4]) != d[5]
    else if k == 16 then d[3] != d[4]
    else (d[0] != d[4]) != d[5]
  }

  lemma VersionRoundsTo(start: seq<bool>, d: seq<bool>)
    requires |start| == 12 && |d| == 6
    requires var r := Rounds(start, VersionGenerator(), 6);
             r[0] == (d[0]) && r[1] == (d[1]) &&
             r[2] == (d[2]) && r[3] == (d[3]) && r[4] == (d[4]) && r[5] == (d[5]) && r[6] == (false) &&
             r[7] == (false) && r[8] == (false) && r[9] == (false) && r[10] == (false) && r[11] == (false)
    ensures var r := Rounds(start, VersionGenerator(), 9);
            r[0] == (d[2] != d[3]) &&
            r[1] == (d[2] != d[4]) && r[2] == ((d[0] != d[2]) != d[5]) && r[3] == (d[1] != d[2]) && r[4] == (d[0]) &&
            r[5] == (d[0] != d[1]) && r[6] == (d[1] != d[2]) && r[7] == (d[0]) && r[8] == (d[0] != d[1]) &&
            r[9] == ((d[0] != d[1]) != d[2]) && r[10] == (d[0] != d[1]) && r[11] == (d[1] != d[2])
  {
    hide Rounds, VersionGenerator;
    VersionGeneratorBits();
    NextRound(start, VersionGenerator(), 6);
    var r7 := Rounds(start, VersionGenerator(), 7);
    assert r7[0] == (d[0] != d[1]) && r7[1] == (d[0] != d[2]) && r7[2] == (d[0] != d[3]) && r7[3] == (d[0] != d[4]) &&
        r7[4] == (d[5]) && r7[5] == (false) && r7[6] == (d[0]) && r7[7] == (false) && r7[8] == (false) &&
        r7[9] == (d[0]) && r7[10] == (false) && r7[11] == (d[0]);
    NextRound(start, VersionGenerator(), 7);
    var r8 := Rounds(start, VersionGenerator(), 8);
    assert r8[0] == (d[1] != d[2]) && r8[1] == (d[1] != d[3]) && r8[2] == (d[1] != d[4]) &&
        r8[3] == ((d[0] != d[1]) != d[5]) && r8[4] == (false) && r8[5] == (d[0]) && r8[6] == (d[0] != d[1]) &&
        r8[7] == (false) && r8[8] == (d[0]) && r8[9] == (d[0] != d[1]) && r8[10] == (d[0]) && r8[11] == (d[0] != d[1]);
    NextRound(start, VersionGenerator(), 8);
  }

  lemma VersionRoundsFrom(start: seq<bool>, d: seq<bool>)
    requires |start| == 12 && |d| == 6
    requires var r := Rounds(start, VersionGenerator(), 9);
             r[0] == (d[2] != d[3]) &&
             r[1] == (d[2] != d[4]) && r[2] == ((d[0] != d[2]) != d[5]) && r[3] == (d[1] != d[2]) && r[4] == (d[0]) &&
             r[5] == (d[0] != d[1]) && r[6] == (d[1] != d[2]) && r[7] == (d[0]) && r[8] == (d[0] != d[1]) &&
             r[9] == ((d[0] != d[1]) != d[2]) && r[10] == (d[0] != d[1]) && r[11] == (d[1] != d[2])
    ensures var r := Rounds(start, VersionGenerator(), 12);
            r[0] == ((d[0] != d[1]) != d[5]) &&
            r[1] == (d[2] != d[5]) && r[2] == ((d[1] != d[3]) != d[5]) &&
            r[3] == ((((d[0] != d[1]) != d[2]) != d[4]) != d[5]) && r[4] == ((d[0] != d[2]) != d[3]) &&
            r[5] == (((d[0] != d[1]) != d[3]) != d[4]) && r[6] == (((d[1] != d[2]) != d[4]) != d[5]) &&
            r[7] == (((d[0] != d[1]) != d[2]) != d[3]) && r[8] == (((d[1] != d[2]) != d[3]) != d[4]) &&
            r[9] == ((((d[0] != d[2]) != d[3]) != d[4]) != d[5]) && r[10] == (d[3] != d[4]) &&
            r[11] == ((d[0] != d[4]) != d[5])
  {
    hide Rounds, VersionGenerator;
    VersionGeneratorBits();
    NextRound(start, VersionGenerator(), 9);
    var r10 := Rounds(start, VersionGenerator(), 10);
    assert r10[0] == (d[3] != d[4]) && r10[1] == ((d[0] != d[3]) != d[5]) && r10[2] == (d[1] != d[3]) &&
        r10[3] == ((d[0] != d[2]) != d[3]) && r10[4] == (d[0] != d[1]) && r10[5] == (d[1] != d[2]) &&
        r10[6] == ((d[0] != d[2]) != d[3]) && r10[7] == (d[0] != d[1]) && r10[8] == ((d[0] != d[1]) != d[2]) &&
        r10[9] == (((d[0] != d[1]) != d[2]) != d[3]) && r10[10] == (d[1] != d[2]) && r10[11] == (d[2] != d[3]);
    NextRound(start, VersionGenerator(), 10);
    var r11 := Rounds(start, VersionGenerator(), 11);
    assert r11[0] == ((d[0] != d[4]) != d[5]) && r11[1] == (d[1] != d[4]) && r11[2] == ((d[0] != d[2]) != d[4]) &&
        r11[3] == (((d[0] != d[1]) != d[3]) != d[4]) && r11[4] == (d[1] != d[2]) &&
        r11[5] == ((d[0] != d[2]) != d[3]) && r11[6] == (((d[0] != d[1]) != d[3]) != d[4]) &&
        r11[7] == ((d[0] != d[1]) != d[2]) && r11[8] == (((d[0] != d[1]) != d[2]) != d[3]) &&
        r11[9] == (((d[1] != d[2]) != d[3]) != d[4]) && r11[10] == (d[2] != d[3]) && r11[11] == (d[3] != d[4]);
    NextRound(start, VersionGenerator(), 11);
  }

  lemma VersionCodeIs(d: seq<bool>)
    requires |d| == 6
    ensures forall k :: 0 <= k < 18 ==> VersionCode(d)[k] == VersionParity(d, k)
  {
    hide Rounds, VersionGenerator;
    var start := seq(6, _ => false) + d;
    OnlyShifted(start, VersionGenerator(), 6);
    VersionRoundsTo(start, d);
    VersionRoundsFrom(start, d);
  }

  // ----- Distances.

  /** The number of places where two words differ. */
  function Distance(s: seq<bool>, t: seq<bool>): nat
    requires |s| == |t|
  {
    |set k | 0 <= k < |s| && s[k] != t[k]|
  }

  /** The number of ones among the first `k` bits. */
  function Ones(s: seq<bool>, k: nat): nat
    requires k <= |s|
  {
    if k == 0 then 0 else Ones(s, k - 1) + if s[k - 1] then 1 else 0
  }

  function PlacesBefore(s: seq<bool>, k: nat): set<int>
    requires k <= |s|
  {
    set i | 0 <= i < k && s[i]
  }

  lemma {:induction false} OnesSize(s: seq<bool>, k: nat)
    requires k <= |s|
    ensures Ones(s, k) == |PlacesBefore(s, k)|
  {
    if k == 0 {
      assert PlacesBefore(s, k) == {};
    } else {
      OnesSize(s, k - 1);
      assert PlacesBefore(s, k) == PlacesBefore(s, k - 1) + if s[k - 1] then {k - 1} else {};
    }
  }

  lemma DistanceOnes(s: seq<bool>, t: seq<bool>)
    requires |s| == |t|
    ensures Distance(s, t) == Ones(XorBits(s, t), |s|)
  {
    var u := XorBits(s, t);
    XorAt(s, t);
    OnesSize(u, |s|);
    hide XorBits;
    assert PlacesBefore(u, |s|) == set k | 0 <= k < |s| && s[k] != t[k];
  }

  lemma ThreeMore(s: seq<bool>, k: nat)
    requires k + 3 <= |s|
    ensures Ones(s, k + 3) == Ones(s, k) + (if s[k] then 1 else 0) + (if s[k + 1] then 1 else 0) +
                              if s[k + 2] then 1 else 0
  {
    assert Ones(s, k + 3) == Ones(s, k + 2) + if s[k + 2] then 1 else 0;
    assert Ones(s, k + 2) == Ones(s, k + 1) + if s[k + 1] then 1 else 0;
  }

  lemma NoOnes(s: seq<bool>)
    ensures Ones(s, 0) == 0
  {}

  /** The code is linear. */
  lemma FormatLinear(d: seq<bool>, e: seq<bool>, k: nat)
    requires |d| == |e| == 5 && k < 15
    ensures (FormatParity(d, k) != FormatParity(e, k)) == FormatParity(XorBits(d, e), k)
  {
    hide XorBits;
    XorAt(d, e);
  }

  /** Every code word but zero has at least 7 ones. */
  lemma FormatWeight(d: seq<bool>, u: seq<bool>)
    requires |d| == 5 && (d[0] || d[1] || d[2] || d[3] || d[4])
    requires |u| == 15 && forall k :: 0 <= k < 15 ==> u[k] == FormatParity(d, k)
    ensures Ones(u, 15) >= 7
  {
    hide Ones;
    NoOnes(u);
    ThreeMore(u, 0);
    ThreeMore(u, 3);
    ThreeMore(u, 6);
    ThreeMore(u, 9);
    ThreeMore(u, 12);
  }

  /** Different data have code words that differ in at least 7 places. */
  lemma FormatDistance(d: seq<bool>, e: seq<bool>)
    requires |d| == |e| == 5 && d != e
    ensures Distance(FormatCode(d), FormatCode(e)) >= 7
  {
    hide FormatCode, FormatParity, Ones, Distance, XorBits;
    var s, t, f := FormatCode(d), FormatCode(e), XorBits(d, e);
    FormatCodeIs(d);
    FormatCodeIs(e);
    XorAt(s, t);
    forall k | 0 <= k < 15 ensures XorBits(s, t)[k] == FormatParity(f, k) {
      FormatLinear(d, e, k);
    }
    XorAt(d, e);
    FormatWeight(f, XorBits(s, t));
    DistanceOnes(s, t);
  }

  /** The code is linear. */
  lemma VersionLinear(d: seq<bool>, e: seq<bool>, k: nat)
    requires |d| == |e| == 6 && k < 18
    ensures (VersionParity(d, k) != VersionParity(e, k)) == VersionParity(XorBits(d, e), k)
  {
    hide XorBits;
    XorAt(d, e);
  }

  /** Every code word but zero has at least 8 ones. */
  lemma VersionWeight(d: seq<bool>, u: seq<bool>)
    requires |d| == 6 && (d[0] || d[1] || d[2] || d[3] || d[4] || d[5])
    requires |u| == 18 && forall k :: 0 <= k < 18 ==> u[k] == VersionParity(d, k)
    ensures Ones(u, 18) >= 8
  {
    hide Ones;
    NoOnes(u);
    ThreeMore(u, 0);
    ThreeMore(u, 3);
    ThreeMore(u, 6);
    ThreeMore(u, 9);
    ThreeMore(u, 12);
    ThreeMore(u, 15);
  }

  /** Different data have code words that differ in at least 8 places. */
  lemma VersionDistance(d: seq<bool>, e: seq<bool>)
    requires |d| == |e| == 6 && d != e
    ensures Distance(VersionCode(d), VersionCode(e)) >= 8
  {
    hide VersionCode, VersionParity, Ones, Distance, XorBits;
    var s, t, f := VersionCode(d), VersionCode(e), XorBits(d, e);
    VersionCodeIs(d);
    VersionCodeIs(e);
    XorAt(s, t);
    forall k | 0 <= k < 18 ensures XorBits(s, t)[k] == VersionParity(f, k) {
      VersionLinear(d, e, k);
    }
    XorAt(d, e);
    VersionWeight(f, XorBits(s, t));
    DistanceOnes(s, t);
  }
}
