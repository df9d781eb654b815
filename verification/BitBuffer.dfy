/** Bits packed into a buffer of bytes, most significant bit of each byte first. */
module BitBuffer {
  import opened Bytes
  import opened BitStrings

  /** Bit `k` of the buffer. */
  predicate BitAt(buf: seq<Byte>, k: nat)
    requires k < 8 * |buf|
  {
    buf[k / 8][7 - k % 8]
  }

  /** All bits of the buffer, in order. */
  function AllBits(buf: seq<Byte>): (s: seq<bool>)
    ensures |s| == 8 * |buf|
    ensures forall k :: 0 <= k < |s| ==> s[k] == BitAt(buf, k)
  {
    seq(8 * |buf|, k requires 0 <= k < 8 * |buf| => BitAt(buf, k))
  }

  /** The bits of a byte are those of its number, most significant first. */
  lemma BitsOfByte(buf: seq<Byte>, i: nat, v: nat)
    requires i < |buf| && forall k: nat :: k < 8 ==> buf[i][k] == (v / Pow2(k) % 2 == 1)
    ensures AllBits(buf)[8 * i..8 * i + 8] == BitsOf(v, 8)
  {
    hide BitsOf, Pow2;
    var s := AllBits(buf)[8 * i..8 * i + 8];
    forall k | 0 <= k < 8 ensures s[k] == BitsOf(v, 8)[k] {
      assert (8 * i + k) / 8 == i && (8 * i + k) % 8 == k;
      BitsOfAt(v, 8, 7 - k);
    }
  }

  /** The first `n` bytes of the buffer start with the given bits and are clear after them. */
  ghost predicate Holds(buf: seq<Byte>, n: nat, bits: seq<bool>) {
    n <= |buf| && |bits| <= 8 * n && forall k :: 0 <= k < 8 * n ==> BitAt(buf, k) == (k < |bits| && bits[k])
  }

  /** `appendBitsToBuffer`, which only ever sets bits. */
  method AppendBits(val: nat, numBits: nat, buffer: array<Byte>, bitLen: nat) returns (next: nat)
    requires numBits <= 16 && val < Pow2(numBits) && bitLen + numBits <= 8 * buffer.Length
    modifies buffer
    ensures next == bitLen + numBits
    ensures forall k :: 0 <= k < 8 * buffer.Length ==>
              BitAt(buffer[..], k) ==
                  (old(BitAt(buffer[..], k)) || (bitLen <= k < next && BitsOf(val, numBits)[k - bitLen]))
  {
    hide BitsOf;
    next := bitLen;
    var i: int := numBits - 1;
    while i >= 0
      invariant -1 <= i < numBits && next == bitLen + numBits - 1 - i
      invariant forall k :: 0 <= k < 8 * buffer.Length ==>
                  BitAt(buffer[..], k) ==
                      (old(BitAt(buffer[..], k)) || (bitLen <= k < next && BitsOf(val, numBits)[k - bitLen]))
    {
      ghost var before := buffer[..];
      var bit := val / Pow2(i) % 2 == 1;
      BitsOfAt(val, numBits, i);
      var at := next / 8;
      buffer[at] := buffer[at][7 - next % 8 := buffer[at][7 - next % 8] || bit];
      forall k | 0 <= k < 8 * buffer.Length
        ensures BitAt(buffer[..], k) == (BitAt(before, k) || (k == next && bit))
      {
        SamePlace(k, next);
      }
      next := next + 1;
      i := i - 1;
    }
  }

  lemma SamePlace(j: nat, k: nat)
    ensures j / 8 == k / 8 && j % 8 == k % 8 <==> j == k
  {}

  /** Appending to a buffer that is clear after its bits. */
  lemma AppendedBits(before: seq<Byte>, after: seq<Byte>, n: nat, bits: seq<bool>, more: seq<bool>)
    requires Holds(before, n, bits) && |before| == |after| && |bits| + |more| <= 8 * n
    requires forall k :: 0 <= k < 8 * |after| ==>
               BitAt(after, k) == (BitAt(before, k) || (|bits| <= k < |bits| + |more| && more[k - |bits|]))
    ensures Holds(after, n, bits + more)
  {}

  /** `appendBitsToBuffer` on a buffer whose first `n` bytes are clear after the bits written so far. */
  method AppendToClean(val: nat, numBits: nat, buffer: array<Byte>, bitLen: nat, ghost n: nat, ghost bits: seq<bool>)
      returns (next: nat)
    requires numBits <= 16 && val < Pow2(numBits)
    requires Holds(buffer[..], n, bits) && bitLen == |bits| && bitLen + numBits <= 8 * n
    modifies buffer
    ensures next == bitLen + numBits
    ensures Holds(buffer[..], n, bits + BitsOf(val, numBits))
  {
    hide BitsOf;
    ghost var before := buffer[..];
    next := AppendBits(val, numBits, buffer, bitLen);
    AppendedBits(before, buffer[..], n, bits, BitsOf(val, numBits));
  }

  /** The loop of a `memset`. */
  method Clear(buf: array<Byte>, n: nat)
    requires n <= buf.Length
    modifies buf
    ensures Holds(buf[..], n, [])
    ensures buf[n..] == old(buf[n..])
  {
    forall k | 0 <= k < n {
      buf[k] := ZERO;
    }
  }
}
