/**
 `addEccAndInterleave`: the data codewords are split into blocks, each block gets its error correction codewords,
 and the bytes of the blocks are dealt out in turn (section 7.6 of ISO/IEC 18004:2015).
 */
module Interleaving {
  import opened Arithmetic
  import opened Bytes
  import opened Polynomials
  import opened ReedSolomon
  import opened Capacity

  /**
   The number of blocks and of those among them that are one byte shorter than the others, the number of data
   codewords of a short block, and the number of error correction codewords of every block.
   */
  datatype RawLayout = Layout(blocks: nat, shortBlocks: nat, shortLen: nat, eccLen: nat) {
    predicate Valid() {
      1 <= shortBlocks <= blocks && 1 <= eccLen <= DEGREE_MAX
    }

    function DataLen(): nat
      requires Valid()
    {
      shortLen * blocks + (blocks - shortBlocks)
    }

    function Raw(): nat
      requires Valid()
    {
      DataLen() + eccLen * blocks
    }

    function BlockLen(b: nat): nat {
      shortLen + if b < shortBlocks then 0 else 1
    }

    /** Where block `b` starts in the data. */
    function Offset(b: nat): nat
    {
      b * shortLen + if b < shortBlocks then 0 else b - shortBlocks
    }

    /** Where byte `p` of the codeword of block `b` goes. */
    function Place(b: nat, p: nat): nat
      requires Valid() && b < blocks
    {
      if p < shortLen then b + p * blocks
      else if p < BlockLen(b) then b + shortLen * blocks - shortBlocks
      else DataLen() + b + (p - BlockLen(b)) * blocks
    }

    /** The block and the position in its codeword that the byte at `k` comes from. */
    function Source(k: nat): (nat, nat)
      requires Valid() && k < Raw()
    {
      hide DataLen, Raw, BlockLen;
      if k < shortLen * blocks then (k % blocks, k / blocks)
      else if k < DataLen() then (k - shortLen * blocks + shortBlocks, shortLen)
      else EccSource(k - DataLen())
    }

    function EccSource(m: nat): (nat, nat)
      requires blocks > 0
    {
      (m % blocks, BlockLen(m % blocks) + m / blocks)
    }
  }

  type Layout = l: RawLayout | l.Valid() witness Layout(1, 1, 1, 1)

  lemma EccPlace(l: Layout, b: nat, q: nat)
    requires b < l.blocks && q < l.eccLen
    ensures l.Place(b, l.BlockLen(b) + q) == l.DataLen() + (b + q * l.blocks) < l.Raw()
  {
    hide RawLayout.DataLen, RawLayout.Source, RawLayout.EccSource;
    Below(b, q, l.blocks, l.eccLen);
  }

  lemma EccSourceAt(l: Layout, b: nat, q: nat)
    requires b < l.blocks && q < l.eccLen
    ensures b + q * l.blocks < l.eccLen * l.blocks
    ensures l.Source(l.DataLen() + (b + q * l.blocks)) == (b, l.BlockLen(b) + q)
  {
    hide RawLayout.Place, RawLayout.BlockLen;
    Below(b, q, l.blocks, l.eccLen);
    DivMod(b, q, l.blocks);
  }

  lemma DataPlace(l: Layout, b: nat, p: nat)
    requires b < l.blocks && p < l.shortLen
    ensures l.Place(b, p) == b + p * l.blocks < l.DataLen()
    ensures l.Source(b + p * l.blocks) == (b, p)
  {
    Below(b, p, l.blocks, l.shortLen);
    DivMod(b, p, l.blocks);
  }

  lemma OddPlace(l: Layout, b: nat)
    requires l.shortBlocks <= b < l.blocks
    ensures l.Place(b, l.shortLen) == b + l.shortLen * l.blocks - l.shortBlocks < l.Raw()
    ensures l.Source(b + l.shortLen * l.blocks - l.shortBlocks) == (b, l.shortLen)
  {
    LeftMonotone(1, l.blocks, l.eccLen);
    hide RawLayout.EccSource;
  }

  /** No two bytes go to the same place. */
  lemma SourceOfPlace(l: Layout, b: nat, p: nat)
    requires b < l.blocks && p < l.BlockLen(b) + l.eccLen
    ensures l.Place(b, p) < l.Raw() && l.Source(l.Place(b, p)) == (b, p)
  {
    hide RawLayout.Place, RawLayout.Source, RawLayout.EccSource, RawLayout.DataLen;
    if p < l.shortLen {
      DataPlace(l, b, p);
    } else if p >= l.BlockLen(b) {
      EccPlace(l, b, p - l.BlockLen(b));
      EccSourceAt(l, b, p - l.BlockLen(b));
    } else {
      OddPlace(l, b);
    }
  }

  lemma RowOrder(b: nat, p: nat, c: nat, q: nat, n: nat)
    requires b < n && c < n
    ensures b + p * n < c + q * n <==> p < q || (p == q && b < c)
  {
    if p < q {
      LeftMonotone(p + 1, q, n);
    } else if q < p {
      LeftMonotone(q + 1, p, n);
    }
  }

  /**
   The order in which the bytes are dealt out: all data before all error correction codewords; in both, the first bytes
   of all blocks, in the order of the blocks, before all second bytes, and so on.
   */
  lemma PlaceOrder(l: Layout, b: nat, p: nat, c: nat, q: nat)
    requires b < l.blocks && c < l.blocks && p < l.BlockLen(b) + l.eccLen && q < l.BlockLen(c) + l.eccLen
    ensures var m, n := l.shortLen + (if b < l.shortBlocks then 0 else 1), l.shortLen + if c < l.shortBlocks then
            0 else 1;
            l.Place(b, p) < l.Place(c, q) <==>
            if p < m then q >= n || p < q || (p == q && b < c)
            else q >= n && (p - m < q - n || (p - m == q - n && b < c))
  {
    hide RawLayout.Place, RawLayout.Source, RawLayout.EccSource, RawLayout.DataLen;
    if p < l.BlockLen(b) && q < l.BlockLen(c) {
      DataOrder(l, b, p, c, q);
    } else if p >= l.BlockLen(b) && q >= l.BlockLen(c) {
      EccOrder(l, b, p, c, q);
    } else if p < l.BlockLen(b) {
      DataFirst(l, b, p, c, q);
    } else {
      DataFirst(l, c, q, b, p);
    }
  }

  lemma DataOrder(l: Layout, b: nat, p: nat, c: nat, q: nat)
    requires b < l.blocks && c < l.blocks && p < l.BlockLen(b) && q < l.BlockLen(c)
    ensures l.Place(b, p) < l.Place(c, q) <==> p < q || (p == q && b < c)
  {
    hide RawLayout.Place, RawLayout.Source, RawLayout.EccSource, RawLayout.DataLen;
    PlaceKind(l, b, p);
    PlaceKind(l, c, q);
    if p < l.shortLen && q < l.shortLen {
      RowOrder(b, p, c, q, l.blocks);
    }
  }

  lemma EccOrder(l: Layout, b: nat, p: nat, c: nat, q: nat)
    requires b < l.blocks && c < l.blocks
    requires l.BlockLen(b) <= p < l.BlockLen(b) + l.eccLen && l.BlockLen(c) <= q < l.BlockLen(c) + l.eccLen
    ensures var u, v := p - l.BlockLen(b), q - l.BlockLen(c);
            l.Place(b, p) < l.Place(c, q) <==> u < v || (u == v && b < c)
  {
    hide RawLayout.Place, RawLayout.Source, RawLayout.EccSource, RawLayout.DataLen, RawLayout.BlockLen;
    EccPlace(l, b, p - l.BlockLen(b));
    EccPlace(l, c, q - l.BlockLen(c));
    RowOrder(b, p - l.BlockLen(b), c, q - l.BlockLen(c), l.blocks);
  }

  lemma DataFirst(l: Layout, b: nat, p: nat, c: nat, q: nat)
    requires b < l.blocks && c < l.blocks && p < l.BlockLen(b) && l.BlockLen(c) <= q < l.BlockLen(c) + l.eccLen
    ensures l.Place(b, p) < l.Place(c, q)
  {
    hide RawLayout.Place, RawLayout.Source, RawLayout.EccSource, RawLayout.DataLen;
    PlaceKind(l, b, p);
    EccBehind(l, c, q);
  }

  lemma EccBehind(l: Layout, c: nat, q: nat)
    requires c < l.blocks && l.BlockLen(c) <= q < l.BlockLen(c) + l.eccLen
    ensures l.Place(c, q) >= l.DataLen()
  {
    hide RawLayout.Place, RawLayout.Source, RawLayout.EccSource, RawLayout.DataLen, RawLayout.BlockLen;
    EccPlace(l, c, q - l.BlockLen(c));
    LeftMonotone(0, q - l.BlockLen(c), l.blocks);
  }

  lemma PlaceKind(l: Layout, b: nat, p: nat)
    requires b < l.blocks && p < l.BlockLen(b) + l.eccLen
    ensures if p < l.shortLen then l.Place(b, p) == b + p * l.blocks < l.shortLen * l.blocks <= l.DataLen()
            else if p < l.BlockLen(b) then
              l.Place(b, p) == b - l.shortBlocks + l.shortLen * l.blocks < l.DataLen() && b >= l.shortBlocks
            else l.Place(b, p) == l.DataLen() + (b + (p - l.BlockLen(b)) * l.blocks)
  {
    hide RawLayout.Source, RawLayout.EccSource;
    if p < l.shortLen {
      Below(b, p, l.blocks, l.shortLen);
    } else if p >= l.BlockLen(b) {
      EccPlace(l, b, p - l.BlockLen(b));
    }
  }

  lemma EccPlaceOf(l: Layout, m: nat)
    requires m < l.eccLen * l.blocks
    ensures var (b, p) := l.EccSource(m);
            b < l.blocks && p < l.BlockLen(b) + l.eccLen && l.Place(b, p) == l.DataLen() + m
  {
    hide RawLayout.DataLen;
    DivisionFits(m, l.blocks, l.eccLen);
  }

  lemma DataPlaceOf(l: Layout, k: nat)
    requires k < l.shortLen * l.blocks
    ensures k % l.blocks < l.blocks && k / l.blocks < l.shortLen && l.Place(k % l.blocks, k / l.blocks) == k
  {
    hide RawLayout.DataLen;
    DivisionFits(k, l.blocks, l.shortLen);
  }

  /** Every place is filled. */
  lemma PlaceOfSource(l: Layout, k: nat)
    requires k < l.Raw()
    ensures var (b, p) := l.Source(k); b < l.blocks && p < l.BlockLen(b) + l.eccLen && l.Place(b, p) == k
  {
    hide RawLayout.EccSource, RawLayout.Place;
    if k < l.shortLen * l.blocks {
      DataPlaceOf(l, k);
    } else if k >= l.DataLen() {
      EccPlaceOf(l, k - l.DataLen());
    } else {
      OddPlace(l, k - l.shortLen * l.blocks + l.shortBlocks);
    }
  }

  lemma ScratchFits(l: Layout)
    ensures l.DataLen() + l.eccLen <= l.Raw()
  {
    LeftMonotone(1, l.blocks, l.eccLen);
  }

  /** The blocks lie one after the other in the data. */
  lemma BlocksTile(l: Layout, b: nat)
    requires b < l.blocks
    ensures l.Offset(0) == 0 && l.Offset(l.blocks) == l.DataLen()
    ensures l.Offset(b) + l.BlockLen(b) == l.Offset(b + 1) <= l.DataLen()
  {
    assert (b + 1) * l.shortLen == b * l.shortLen + l.shortLen;
    assert (b + 1) * l.shortLen <= l.blocks * l.shortLen;
  }

  /** The data codewords of block `b`. */
  function Block(l: Layout, data: seq<Byte>, b: nat): (s: seq<Byte>)
    requires |data| == l.DataLen() && b < l.blocks
    ensures |s| == l.BlockLen(b)
  {
    BlocksTile(l, b);
    data[l.Offset(b)..l.Offset(b + 1)]
  }

  /** Byte `k` of the interleaved codewords. */
  function InterleavedAt(l: Layout, data: seq<Byte>, k: nat): Byte
    requires |data| == l.DataLen() && k < l.Raw()
  {
    PlaceOfSource(l, k);
    var (b, p) := l.Source(k);
    Codeword(Block(l, data, b), l.eccLen)[p]
  }

  /** What `addEccAndInterleave` produces. */
  function Interleaved(l: Layout, data: seq<Byte>): (s: seq<Byte>)
    requires |data| == l.DataLen()
    ensures |s| == l.Raw()
  {
    seq(l.Raw(), k requires 0 <= k < l.Raw() => InterleavedAt(l, data, k))
  }

  /** A decoder picks the codeword of block `b` out of the interleaved bytes. */
  function Deinterleaved(l: Layout, s: seq<Byte>, b: nat): seq<Byte>
    requires |s| == l.Raw() && b < l.blocks
  {
    seq(l.BlockLen(b) + l.eccLen, p requires 0 <= p < l.BlockLen(b) + l.eccLen =>
      SourceOfPlace(l, b, p); s[l.Place(b, p)])
  }

  /** Every block comes back with its error correction codewords. */
  lemma DeinterleaveRoundTrip(l: Layout, data: seq<Byte>, b: nat)
    requires |data| == l.DataLen() && b < l.blocks
    ensures Deinterleaved(l, Interleaved(l, data), b) == Codeword(Block(l, data, b), l.eccLen)
  {
    hide RawLayout.Place, RawLayout.Source, Codeword, Block;
    forall p | 0 <= p < l.BlockLen(b) + l.eccLen
      ensures Deinterleaved(l, Interleaved(l, data), b)[p] == Codeword(Block(l, data, b), l.eccLen)[p]
    {
      SourceOfPlace(l, b, p);
    }
  }

  /** The data, block after block, as a decoder puts it together from the first `n` blocks. */
  function Joined(l: Layout, s: seq<Byte>, n: nat): seq<Byte>
    requires |s| == l.Raw() && n <= l.blocks
  {
    if n == 0 then [] else Joined(l, s, n - 1) + Deinterleaved(l, s, n - 1)[..l.BlockLen(n - 1)]
  }

  /** The data itself comes back. */
  lemma {:induction false} JoinRoundTrip(l: Layout, data: seq<Byte>, n: nat)
    requires |data| == l.DataLen() && n <= l.blocks
    ensures l.Offset(n) <= |data| && Joined(l, Interleaved(l, data), n) == data[..l.Offset(n)]
  {
    hide RawLayout.DataLen;
    hide RawLayout.Place, RawLayout.Source, RawLayout.Offset, RawLayout.BlockLen;
    hide Interleaved, Deinterleaved, ReedSolomon.Generator, Remainder;
    if n == 0 {
      BlocksTile(l, 0);
    } else {
      BlocksTile(l, n - 1);
      JoinRoundTrip(l, data, n - 1);
      DeinterleaveRoundTrip(l, data, n - 1);
      assert Codeword(Block(l, data, n - 1), l.eccLen)[..l.BlockLen(n - 1)] == Block(l, data, n - 1);
    }
  }

  // ----- The loops.

  /** Bytes lo..hi of the codeword `w` of block `b` have been dealt out, and nothing else has changed. */
  ghost predicate Dealt(l: Layout, b: nat, lo: nat, hi: nat, w: seq<Byte>, before: seq<Byte>, after: seq<Byte>) {
    |before| == |after| >= l.Raw() && hi <= |w| && forall k: nat :: k < |after| ==>
        after[k] == DealtAt(l, b, lo, hi, w, before, k)
  }

  ghost function DealtAt(l: Layout, b: nat, lo: nat, hi: nat, w: seq<Byte>, before: seq<Byte>, k: nat): Byte
    requires k < |before| && hi <= |w|
  {
    if k < l.Raw() && l.Source(k).0 == b && lo <= l.Source(k).1 < hi then w[l.Source(k).1] else before[k]
  }

  lemma DealOne(l: Layout, b: nat, lo: nat, hi: nat, w: seq<Byte>, before: seq<Byte>, after: seq<Byte>)
    requires b < l.blocks && lo <= hi < l.BlockLen(b) + l.eccLen && hi < |w|
    requires Dealt(l, b, lo, hi, w, before, after)
    ensures l.Place(b, hi) < l.Raw()
    ensures Dealt(l, b, lo, hi + 1, w, before, after[l.Place(b, hi) := w[hi]])
  {
    hide RawLayout.Place, RawLayout.Source, RawLayout.Raw, RawLayout.BlockLen;
    SourceOfPlace(l, b, hi);
    var u := after[l.Place(b, hi) := w[hi]];
    forall k: nat | k < |after| ensures u[k] == DealtAt(l, b, lo, hi + 1, w, before, k) {
      assert after[k] == DealtAt(l, b, lo, hi, w, before, k);
      if k < l.Raw() && k != l.Place(b, hi) {
        PlaceOfSource(l, k);
      }
    }
  }

  lemma DealtNothing(l: Layout, b: nat, n: nat, w: seq<Byte>, s: seq<Byte>)
    requires n <= |w| && l.Raw() <= |s|
    ensures Dealt(l, b, n, n, w, s, s)
  {}

  /** The loop that copies the data of block `b`. */
  method CopyData(l: Layout, b: nat, data: array<Byte>, from: nat, result: array<Byte>, ghost w: seq<Byte>)
    requires b < l.blocks && data != result && from + l.BlockLen(b) <= data.Length && l.Raw() <= result.Length
    requires l.BlockLen(b) <= |w| && w[..l.BlockLen(b)] == data[from..from + l.BlockLen(b)]
    modifies result
    ensures Dealt(l, b, 0, l.BlockLen(b), w, old(result[..]), result[..])
  {
    hide RawLayout.Source, RawLayout.Raw, Dealt;
    DealtNothing(l, b, 0, w, result[..]);
    var datLen := l.shortLen + if b < l.shortBlocks then 0 else 1;
    var j, k := 0, b;
    while j < datLen
      invariant 0 <= j <= datLen
      invariant j <= l.shortLen ==> k == b + j * l.blocks
      invariant Dealt(l, b, 0, j, w, old(result[..]), result[..])
    {
      if j == l.shortLen {
        k := k - l.shortBlocks;
      }
      DealOne(l, b, 0, j, w, old(result[..]), result[..]);
      assert k == l.Place(b, j);
      assert w[j] == w[..l.BlockLen(b)][j] == data[from + j];
      result[k] := data[from + j];
      j, k := j + 1, k + l.blocks;
    }
  }

  /** Where the error correction codeword `j` of block `b` goes. */
  function EccIndex(l: Layout, b: nat, j: nat): nat {
    l.DataLen() + (b + j * l.blocks)
  }

  lemma EccIndexStart(l: Layout, b: nat)
    ensures EccIndex(l, b, 0) == l.DataLen() + b
  {
    hide RawLayout.DataLen;
  }

  lemma EccIndexStep(l: Layout, b: nat, j: nat)
    requires b < l.blocks && j < l.eccLen
    ensures l.Place(b, l.BlockLen(b) + j) == EccIndex(l, b, j) < l.Raw()
    ensures EccIndex(l, b, j + 1) == EccIndex(l, b, j) + l.blocks
  {
    hide RawLayout.DataLen, RawLayout.Place, RawLayout.BlockLen, RawLayout.Raw;
    EccPlace(l, b, j);
    assert (j + 1) * l.blocks == j * l.blocks + l.blocks;
  }

  lemma TailEntry(w: seq<Byte>, n: nat, d: seq<Byte>, from: nat, len: nat, j: nat)
    requires n + len == |w| && from + len <= |d| && w[n..] == d[from..from + len] && j < len
    ensures w[n + j] == d[from + j]
  {
    assert w[n..][j] == d[from..from + len][j];
  }

  /** The loop that copies the error correction codewords of block `b`. */
  method CopyEcc(l: Layout, b: nat, data: array<Byte>, result: array<Byte>, ghost w: seq<Byte>)
    requires b < l.blocks && data != result && l.DataLen() + l.eccLen <= data.Length && l.Raw() <= result.Length
    requires |w| == l.BlockLen(b) + l.eccLen && w[l.BlockLen(b)..] == data[l.DataLen()..l.DataLen() + l.eccLen]
    modifies result
    ensures Dealt(l, b, l.BlockLen(b), l.BlockLen(b) + l.eccLen, w, old(result[..]), result[..])
  {
    hide RawLayout.Source, RawLayout.Raw, RawLayout.Place, RawLayout.BlockLen, RawLayout.DataLen, Dealt, EccIndex;
    ghost var n := l.BlockLen(b);
    DealtNothing(l, b, n, w, result[..]);
    EccIndexStart(l, b);
    var j, k := 0, l.DataLen() + b;
    while j < l.eccLen
      invariant 0 <= j <= l.eccLen
      invariant k == EccIndex(l, b, j)
      invariant Dealt(l, b, n, n + j, w, old(result[..]), result[..])
    {
      DealOne(l, b, n, n + j, w, old(result[..]), result[..]);
      EccIndexStep(l, b, j);
      TailEntry(w, n, data[..], l.DataLen(), l.eccLen, j);
      result[k] := data[l.DataLen() + j];
      j, k := j + 1, k + l.blocks;
    }
  }

  /** The bytes of the first `n` blocks are in place. */
  ghost predicate BlocksDealt(l: Layout, data: seq<Byte>, n: nat, before: seq<Byte>, after: seq<Byte>)
    requires |data| == l.DataLen()
  {
    |before| == |after| >= l.Raw() &&
    (forall k: nat :: k < l.Raw() && l.Source(k).0 < n ==> after[k] == InterleavedAt(l, data, k)) &&
    forall k: nat :: l.Raw() <= k < |after| ==> after[k] == before[k]
  }

  lemma NextBlockDealt(l: Layout, data: seq<Byte>, b: nat, before: seq<Byte>, s: seq<Byte>, t: seq<Byte>, u: seq<Byte>)
    requires |data| == l.DataLen() && b < l.blocks && BlocksDealt(l, data, b, before, s)
    requires Dealt(l, b, 0, l.BlockLen(b), Codeword(Block(l, data, b), l.eccLen), s, t)
    requires Dealt(l, b, l.BlockLen(b), l.BlockLen(b) + l.eccLen, Codeword(Block(l, data, b), l.eccLen), t, u)
    ensures BlocksDealt(l, data, b + 1, before, u)
  {
    hide RawLayout.Source, RawLayout.Raw, RawLayout.Place, RawLayout.BlockLen, RawLayout.DataLen, Codeword, Block;
    var w := Codeword(Block(l, data, b), l.eccLen);
    forall k: nat | k < |u| ensures u[k] == DealtAt(l, b, 0, l.BlockLen(b) + l.eccLen, w, s, k) {
      assert t[k] == DealtAt(l, b, 0, l.BlockLen(b), w, s, k);
    }
    forall k: nat | k < l.Raw() && l.Source(k).0 < b + 1 ensures u[k] == InterleavedAt(l, data, k) {
      PlaceOfSource(l, k);
      assert u[k] == DealtAt(l, b, 0, l.BlockLen(b) + l.eccLen, w, s, k);
    }
  }

  /** The data of block `b` in the array. */
  lemma BlockInPlace(l: Layout, b: nat, s: seq<Byte>)
    requires b < l.blocks && l.DataLen() <= |s|
    ensures l.Offset(b) + l.BlockLen(b) <= l.DataLen()
    ensures s[l.Offset(b)..l.Offset(b) + l.BlockLen(b)] == Block(l, s[..l.DataLen()], b)
  {
    hide RawLayout.DataLen, RawLayout.Offset, RawLayout.BlockLen;
    BlocksTile(l, b);
  }

  /** The loop body: error correction codewords for block `b`, and the bytes of the block go to their places. */
  method InterleaveBlock(l: Layout, b: nat, dat: nat, rsdiv: array<Byte>, data: array<Byte>, result: array<Byte>,
                         ghost input: seq<Byte>, ghost before: seq<Byte>)
    requires data != result && data != rsdiv && result != rsdiv && l.Raw() <= data.Length && l.Raw() <= result.Length
    requires b < l.blocks && dat == l.Offset(b) && l.DataLen() + l.eccLen <= data.Length
    requires l.eccLen <= rsdiv.Length && rsdiv[..l.eccLen] == Generator(l.eccLen)
    requires data[..l.DataLen()] == input && BlocksDealt(l, input, b, before, result[..])
    modifies data, result
    ensures data[..l.DataLen()] == input && BlocksDealt(l, input, b + 1, before, result[..])
  {
    hide RawLayout.Source, RawLayout.Place, RawLayout.BlockLen, RawLayout.DataLen, RawLayout.Offset;
    hide RawLayout.Raw, ReedSolomon.Generator, Remainder, Interleaved, Dealt, BlocksDealt, Block;
    BlockInPlace(l, b, data[..]);
    assert data[..][..l.DataLen()] == input;
    var datLen := l.BlockLen(b);
    assert data[dat..dat + datLen] == data[..][dat..dat + datLen];
    ReedSolomon.ComputeRemainder(data, dat, datLen, rsdiv, l.eccLen, data, l.DataLen());
    assert data[..][..l.DataLen()] == input;
    BlockInPlace(l, b, data[..]);
    assert data[dat..dat + datLen] == data[..][dat..dat + datLen];
    ghost var w := Codeword(Block(l, input, b), l.eccLen);
    ghost var s := result[..];
    CopyData(l, b, data, dat, result, w);
    ghost var t := result[..];
    CopyEcc(l, b, data, result, w);
    NextBlockDealt(l, input, b, before, s, t, result[..]);
  }

  /**
   The loop over the blocks.  The error correction codewords are computed in `data`, behind the data codewords,
   which stay as they are.
   */
  method InterleaveBlocks(l: Layout, data: array<Byte>, result: array<Byte>)
    requires data != result && l.Raw() <= data.Length && l.Raw() <= result.Length
    modifies data, result
    ensures data[..l.DataLen()] == old(data[..l.DataLen()])
    ensures result[..l.Raw()] == Interleaved(l, old(data[..l.DataLen()]))
    ensures result[l.Raw()..] == old(result[l.Raw()..])
  {
    hide RawLayout.Source, RawLayout.Place, RawLayout.BlockLen, RawLayout.DataLen, RawLayout.Offset;
    hide RawLayout.Raw, ReedSolomon.Generator, Remainder, Interleaved, Dealt, BlocksDealt;
    ScratchFits(l);
    ghost var input := data[..l.DataLen()];
    ghost var before := result[..];
    var rsdiv := new Byte[DEGREE_MAX];
    ReedSolomon.ComputeDivisor(l.eccLen, rsdiv);
    var i, dat := 0, 0;
    NoBlocks(l, input, before);
    while i < l.blocks
      invariant 0 <= i <= l.blocks && dat == l.Offset(i)
      invariant data[..l.DataLen()] == input && rsdiv[..l.eccLen] == Generator(l.eccLen)
      invariant BlocksDealt(l, input, i, before, result[..])
    {
      InterleaveBlock(l, i, dat, rsdiv, data, result, input, before);
      BlocksTile(l, i);
      dat := dat + l.BlockLen(i);
      i := i + 1;
    }
    AllBlocks(l, input, before, result[..]);
  }

  lemma NoBlocks(l: Layout, data: seq<Byte>, s: seq<Byte>)
    requires |data| == l.DataLen() && l.Raw() <= |s|
    ensures l.Offset(0) == 0 && BlocksDealt(l, data, 0, s, s)
  {}

  lemma AllBlocks(l: Layout, data: seq<Byte>, before: seq<Byte>, after: seq<Byte>)
    requires |data| == l.DataLen() && BlocksDealt(l, data, l.blocks, before, after)
    ensures after[..l.Raw()] == Interleaved(l, data) && after[l.Raw()..] == before[l.Raw()..]
  {
    hide RawLayout.Source, RawLayout.Raw, RawLayout.Place;
    forall k: nat | k < l.Raw() ensures after[k] == InterleavedAt(l, data, k) {
      PlaceOfSource(l, k);
    }
  }

  /** The layout of `raw` codewords in `numBlocks` blocks, as the source derives it. */
  function LayoutOf(numBlocks: nat, eccLen: nat, raw: nat): RawLayout
    requires 1 <= numBlocks && eccLen <= raw / numBlocks
  {
    Layout(numBlocks, numBlocks - raw % numBlocks, raw / numBlocks - eccLen, eccLen)
  }

  /** The blocks and their error correction codewords make up exactly the raw codewords. */
  lemma LayoutSizes(numBlocks: nat, eccLen: nat, raw: nat)
    requires 1 <= numBlocks && 1 <= eccLen <= DEGREE_MAX && eccLen <= raw / numBlocks
    ensures LayoutOf(numBlocks, eccLen, raw).Valid()
    ensures LayoutOf(numBlocks, eccLen, raw).Raw() == raw
    ensures LayoutOf(numBlocks, eccLen, raw).DataLen() == raw - eccLen * numBlocks
  {
    assert raw == raw / numBlocks * numBlocks + raw % numBlocks;
    assert (raw / numBlocks - eccLen) * numBlocks == raw / numBlocks * numBlocks - eccLen * numBlocks;
  }

  /** The blocks of a version and level. */
  function BlocksOf(version: int, ecl: int): Layout
    requires IsVersion(version) && IsLevel(ecl)
  {
    RoomForBlocks(version, ecl);
    LayoutSizes(NumBlocks(version, ecl), BlockEccLen(version, ecl), NumRawDataModules(version) / 8);
    LayoutOf(NumBlocks(version, ecl), BlockEccLen(version, ecl), NumRawDataModules(version) / 8)
  }

  lemma RoomForBlocks(version: int, ecl: int)
    requires IsVersion(version) && IsLevel(ecl)
    ensures NumRawDataModules(version) >= 0
    ensures BlockEccLen(version, ecl) <= NumRawDataModules(version) / 8 / NumBlocks(version, ecl)
  {
    hide BlockEccLen, NumBlocks, NumRawDataModules;
    RoomForData(version, ecl);
    QuotientFits(BlockEccLen(version, ecl), NumBlocks(version, ecl), NumRawDataModules(version) / 8);
  }

  /** The buffer starts with all codewords that belong to the data codewords at the start of `data`. */
  ghost predicate HoldsInterleaved(buf: seq<Byte>, data: seq<Byte>, version: int, ecl: int)
    requires IsVersion(version) && IsLevel(ecl)
  {
    hide BlocksOf, Interleaved;
    var l := BlocksOf(version, ecl);
    l.DataLen() <= |data| && l.Raw() <= |buf| && buf[..l.Raw()] == Interleaved(l, data[..l.DataLen()])
  }

  lemma BlocksSizes(version: int, ecl: int)
    requires IsVersion(version) && IsLevel(ecl)
    ensures BlocksOf(version, ecl).Raw() == NumRawDataModules(version) / 8
    ensures BlocksOf(version, ecl).DataLen() == NumDataCodewords(version, ecl)
  {
    hide BlockEccLen, NumBlocks, NumRawDataModules;
    RoomForBlocks(version, ecl);
    LayoutSizes(NumBlocks(version, ecl), BlockEccLen(version, ecl), NumRawDataModules(version) / 8);
  }

  /** `addEccAndInterleave` */
  method AddEccAndInterleave(data: array<Byte>, version: int, ecl: int, result: array<Byte>)
    requires IsVersion(version) && IsLevel(ecl) && data != result
    requires NumRawDataModules(version) / 8 <= data.Length && NumRawDataModules(version) / 8 <= result.Length
    modifies data, result
    ensures HoldsInterleaved(result[..], old(data[..]), version, ecl)
    ensures HoldsInterleaved(result[..], data[..], version, ecl)
    ensures forall k :: NumRawDataModules(version) / 8 <= k < result.Length ==> result[k] == old(result[k])
  {
    hide BlocksOf, Interleaved, RawLayout.DataLen, RawLayout.Raw, NumRawDataModules;
    var l := BlocksOf(version, ecl);
    BlocksSizes(version, ecl);
    ScratchFits(l);
    InterleaveBlocks(l, data, result);
    assert forall k :: l.Raw() <= k < result.Length ==> result[k] == result[l.Raw()..][k - l.Raw()];
  }
}
