/** The last part of `qrcodegen_encodeSegmentsAdvanced`: the mask with the lowest penalty. */
module MaskChoice {
  import opened Bytes
  import opened Grids
  import opened Masks
  import opened Penalties

  /** The finished symbol for a mask: masked data and both copies of the format bits. */
  function Candidate(fn: seq<seq<bool>>, p: seq<seq<bool>>, ecl: nat, mask: nat, n: nat): (q: seq<seq<bool>>)
    requires n >= 21 && Square(fn, n) && Square(p, n) && ecl <= 3 && mask <= 7
    ensures Square(q, n)
  {
    WithFormat(Masked(fn, p, mask, n), FormatBits(ecl, mask), n)
  }

  /** The candidate of this mask has the lowest penalty of those below `count`, and the lowest index of these. */
  ghost predicate Best(fn: seq<seq<bool>>, p: seq<seq<bool>>, ecl: nat, mask: nat, n: Side, count: nat) {
    n >= 21 && Square(fn, n) && Square(p, n) && ecl <= 3 && mask < count <= 8 &&
    forall m: nat :: m < count ==>
      var best, other := Penalty(Candidate(fn, p, ecl, mask, n), n), Penalty(Candidate(fn, p, ecl, m, n), n);
      best <= other && (m < mask ==> best < other)
  }

  /** Trying a mask starts from the symbol as it was, apart from the format bits of the mask tried before. */
  lemma TryMask(fn: seq<seq<bool>>, p: seq<seq<bool>>, start: seq<seq<bool>>, ecl: nat, mask: nat, n: nat,
                before: seq<bool>)
    requires n >= 21 && Square(fn, n) && Square(p, n) && ecl <= 3 && mask <= 7 && |before| == 15 &&
             FormatReserved(fn, n)
    requires start == p || start == WithFormat(p, before, n)
    ensures WithFormat(Masked(fn, start, mask, n), FormatBits(ecl, mask), n) == Candidate(fn, p, ecl, mask, n)
    ensures Masked(fn, Candidate(fn, p, ecl, mask, n), mask, n) == WithFormat(p, FormatBits(ecl, mask), n)
  {
    hide Masked, WithFormat, FormatBits, FormatReserved;
    var bits := FormatBits(ecl, mask);
    if start != p {
      FormatCommutes(fn, p, before, mask, n);
      FormatOverwrites(Masked(fn, p, mask, n), bits, before, n);
    }
    FormatCommutes(fn, Masked(fn, p, mask, n), bits, mask, n);
    MaskInvolution(fn, p, mask, n);
  }

  /** Mask and format bits are drawn. */
  method DrawCandidate(functionModules: array<Byte>, qrcode: array<Byte>, ecl: nat, mask: nat, ghost n: Side)
    requires functionModules != qrcode && IsGrid(functionModules[..], n) && IsGrid(qrcode[..], n)
    requires n >= 21 && ecl <= 3 && mask <= 7
    modifies qrcode
    ensures IsGrid(qrcode[..], n)
    ensures Picture(qrcode[..], n) ==
            Candidate(Picture(functionModules[..], n), old(Picture(qrcode[..], n)), ecl, mask, n)
  {
    hide IsGrid, Picture, Masked, WithFormat, FormatBits;
    ApplyMask(functionModules, qrcode, mask, n);
    DrawFormatBits(ecl, mask, qrcode, n);
  }

  /** The loop over the masks. */
  method FindMask(functionModules: array<Byte>, qrcode: array<Byte>, ecl: nat, ghost n: Side)
      returns (mask: nat, ghost bits: seq<bool>)
    requires functionModules != qrcode && IsGrid(functionModules[..], n) && IsGrid(qrcode[..], n)
    requires 21 <= n <= 177 && ecl <= 3 && FormatReserved(Picture(functionModules[..], n), n)
    modifies qrcode
    ensures IsGrid(qrcode[..], n) && |bits| == 15
    ensures Picture(qrcode[..], n) == WithFormat(old(Picture(qrcode[..], n)), bits, n)
    ensures Best(Picture(functionModules[..], n), old(Picture(qrcode[..], n)), ecl, mask, n, 8)
  {
    hide IsGrid, Picture, Masked, WithFormat, FormatBits, FormatReserved, Penalty, Candidate, Best;
    ghost var fn, p := Picture(functionModules[..], n), Picture(qrcode[..], n);
    bits := FormatBits(0, 0);
    mask := 8;
    var minPenalty := LONG_MAX;
    var i := 0;
    while i < 8
      invariant 0 <= i <= 8 && IsGrid(qrcode[..], n) && |bits| == 15
      invariant Picture(qrcode[..], n) == if i == 0 then p else WithFormat(p, bits, n)
      invariant if i == 0 then mask == 8 && minPenalty == LONG_MAX
                else
                  Best(fn, p, ecl, mask, n, i) && mask < i && minPenalty == Penalty(Candidate(fn, p, ecl, mask, n), n)
    {
      TryMask(fn, p, Picture(qrcode[..], n), ecl, i, n, bits);
      CandidateIs(fn, Picture(qrcode[..], n), ecl, i, n);
      DrawCandidate(functionModules, qrcode, ecl, i, n);
      var penalty := GetPenaltyScore(qrcode, n);
      PenaltyBound(Picture(qrcode[..], n), n);
      BestStep(fn, p, ecl, mask, n, i, penalty < minPenalty);
      if penalty < minPenalty {
        mask := i;
        minPenalty := penalty;
      }
      ApplyMask(functionModules, qrcode, i, n);
      bits := FormatBits(ecl, i);
      i := i + 1;
    }
  }

  lemma BestStep(fn: seq<seq<bool>>, p: seq<seq<bool>>, ecl: nat, mask: nat, n: Side, i: nat, better: bool)
    requires n >= 21 && Square(fn, n) && Square(p, n) && ecl <= 3 && i < 8
    requires i == 0 ==> better
    requires i > 0 ==> Best(fn, p, ecl, mask, n, i) &&
                       better == (Penalty(Candidate(fn, p, ecl, i, n), n) < Penalty(Candidate(fn, p, ecl, mask, n), n))
    ensures Best(fn, p, ecl, if better then i else mask, n, i + 1)
  {
    hide Penalty, Candidate;
  }

  /**
   The symbol that is returned: with `mask` -1 the candidate of the lowest penalty, of which the one with the lowest
   index is taken; otherwise the candidate asked for.
   */
  method DrawMask(functionModules: array<Byte>, qrcode: array<Byte>, ecl: nat, mask: int, ghost n: Side)
      returns (chosen: nat)
    requires functionModules != qrcode && IsGrid(functionModules[..], n) && IsGrid(qrcode[..], n)
    requires 21 <= n <= 177 && ecl <= 3 && -1 <= mask <= 7 && FormatReserved(Picture(functionModules[..], n), n)
    modifies qrcode
    ensures IsGrid(qrcode[..], n) && chosen <= 7
    ensures Picture(qrcode[..], n) ==
            Candidate(Picture(functionModules[..], n), old(Picture(qrcode[..], n)), ecl, chosen, n)
    ensures if mask == -1 then Best(Picture(functionModules[..], n), old(Picture(qrcode[..], n)), ecl, chosen, n, 8)
            else chosen == mask
  {
    hide IsGrid, Picture, Masked, WithFormat, FormatBits, FormatReserved, Penalty, Candidate;
    ghost var fn, p := Picture(functionModules[..], n), Picture(qrcode[..], n);
    ghost var bits := FormatBits(0, 0);
    if mask == -1 {
      chosen, bits := FindMask(functionModules, qrcode, ecl, n);
    } else {
      chosen := mask;
    }
    TryMask(fn, p, Picture(qrcode[..], n), ecl, chosen, n, bits);
    ghost var before := Picture(qrcode[..], n);
    DrawCandidate(functionModules, qrcode, ecl, chosen, n);
    CandidateIs(fn, before, ecl, chosen, n);
  }

  lemma CandidateIs(fn: seq<seq<bool>>, p: seq<seq<bool>>, ecl: nat, mask: nat, n: nat)
    requires n >= 21 && Square(fn, n) && Square(p, n) && ecl <= 3 && mask <= 7
    ensures Candidate(fn, p, ecl, mask, n) == WithFormat(Masked(fn, p, mask, n), FormatBits(ecl, mask), n)
  {}
}
