/**
 Unsigned 8-bit values of the QR Code encoder.  A byte is the sequence of its eight bits, index i
 being the bit that the source reads as `(x >> i) & 1`; so `x |= 1 << i` and `x &= ~(1 << i)` are
 updates of the sequence at i, and nothing can carry out of eight bits.
 */
module Bytes {

  type Byte = b: seq<bool> | |b| == 8 witness [false, false, false, false, false, false, false, false]

  const ZERO: Byte := [false, false, false, false, false, false, false, false]
  const ONE: Byte := [true, false, false, false, false, false, false, false]

  lemma ByteEquality(a: Byte, b: Byte)
    requires a[0] == b[0] && a[1] == b[1] && a[2] == b[2] && a[3] == b[3]
    requires a[4] == b[4] && a[5] == b[5] && a[6] == b[6] && a[7] == b[7]
    ensures a == b
  {}

  /** The bit-wise exclusive or. */
  function Xor(a: Byte, b: Byte): Byte {
    XorBits(a, b)
  }

  function XorBits(a: seq<bool>, b: seq<bool>): (c: seq<bool>)
    requires |a| == |b|
    ensures |c| == |a|
  {
    if a == [] then [] else XorBits(a[..|a| - 1], b[..|b| - 1]) + [a[|a| - 1] != b[|b| - 1]]
  }

  lemma {:induction false} XorAt(a: seq<bool>, b: seq<bool>)
    requires |a| == |b|
    ensures forall i :: 0 <= i < |a| ==> XorBits(a, b)[i] == (a[i] != b[i])
  {
    if a != [] {
      XorAt(a[..|a| - 1], b[..|b| - 1]);
    }
  }

  lemma XorCommutative(a: Byte, b: Byte)
    ensures Xor(a, b) == Xor(b, a)
  {
    XorAt(a, b);
    XorAt(b, a);
  }

  lemma XorAssociative(a: Byte, b: Byte, c: Byte)
    ensures Xor(Xor(a, b), c) == Xor(a, Xor(b, c))
  {
    XorAt(a, b);
    XorAt(Xor(a, b), c);
    XorAt(b, c);
    XorAt(a, Xor(b, c));
  }

  lemma XorIdentity(a: Byte)
    ensures Xor(a, ZERO) == a
    ensures Xor(a, a) == ZERO
  {
    XorAt(a, ZERO);
    XorAt(a, a);
  }
}
