/**
 `esp_pbkdf2_hmac_sha256`: the key derivation of section 5.2 of RFC 8018, for any function in the place of the keyed
 hash.
 */
module Pbkdf2 {
  import opened BitStrings
  import opened Arithmetic

  type Octet = x: int | 0 <= x < 256

  const MD_SIZE := 32

  type Digest = d: seq<Octet> | |d| == MD_SIZE witness seq(MD_SIZE, _ => 0)

  /** The keyed hash with the key of the device. */
  type Hmac = seq<Octet> -> Digest

  // ----- The definition.

  /** The exclusive or of the `n` low-order bits of two numbers. */
  function XorBits(a: nat, b: nat, n: nat): nat {
    if n == 0 then 0 else 2 * XorBits(a / 2, b / 2, n - 1) + if a % 2 == b % 2 then 0 else 1
  }

  lemma {:induction false} XorBound(a: nat, b: nat, n: nat, p: nat)
    requires p == Pow2(n)
    ensures XorBits(a, b, n) < p
  {
    if n > 0 {
      XorBound(a / 2, b / 2, n - 1, Pow2(n - 1));
    }
  }

  function XorOctet(a: Octet, b: Octet): Octet {
    XorBound(a, b, 8, 256);
    XorBits(a, b, 8)
  }

  function Xor(s: Digest, t: Digest): Digest {
    seq(MD_SIZE, k requires 0 <= k < MD_SIZE => XorOctet(s[k], t[k]))
  }

  /** A block index as four octets, most significant first. */
  function Index(i: nat): (s: seq<Octet>)
    ensures |s| == 4
  {
    [i / 0x1_000000 % 256, i / 0x1_0000 % 256, i / 0x100 % 256, i % 256]
  }

  /** U_j of block `i`. */
  function U(h: Hmac, salt: seq<Octet>, i: nat, j: nat): Digest
    requires j >= 1
  {
    if j == 1 then h(salt + Index(i)) else h(U(h, salt, i, j - 1))
  }

  /** U_1 xor ... xor U_c of block `i`. */
  function T(h: Hmac, salt: seq<Octet>, i: nat, c: nat): Digest
    requires c >= 1
  {
    if c == 1 then U(h, salt, i, 1) else Xor(T(h, salt, i, c - 1), U(h, salt, i, c))
  }

  /** T_1 || ... || T_n */
  function Blocks(h: Hmac, salt: seq<Octet>, c: nat, n: nat): (s: seq<Octet>)
    requires c >= 1
    ensures |s| == MD_SIZE * n
  {
    if n == 0 then [] else Blocks(h, salt, c, n - 1) + T(h, salt, n, c)
  }

  /** The number of blocks for a key. */
  function BlockCount(len: nat): (n: nat)
    ensures MD_SIZE * n >= len && MD_SIZE * n < len + MD_SIZE
  {
    (len + MD_SIZE - 1) / MD_SIZE
  }

  /** The derived key. */
  function Derived(h: Hmac, salt: seq<Octet>, c: nat, len: nat): (s: seq<Octet>)
    requires c >= 1
    ensures |s| == len
  {
    Blocks(h, salt, c, BlockCount(len))[..len]
  }

  /** No iteration counts as one. */
  function Rounds(iterationCount: nat): (c: nat)
    ensures c >= 1
  {
    if iterationCount == 0 then 1 else iterationCount
  }

  // ----- What the octets of the key are.

  /** Bit `i` of a number. */
  predicate Bit(x: nat, i: nat) { x / Pow2(i) % 2 == 1 }

  /** Four octets, most significant first, are the number `i`. */
  predicate StandsFor(a: int, b: int, c: int, d: int, i: int) {
    i == 0x1_000000 * a + 0x1_0000 * b + 0x100 * c + d
  }

  /** `c` digests, the first one of the salt and four octets that stand for `i`, each other one of the one before. */
  ghost predicate Chain(h: Hmac, salt: seq<Octet>, i: nat, c: nat, u: seq<Digest>) {
    && |u| == c > 0
    && (exists s: seq<Octet> :: |s| == 4 && StandsFor(s[0], s[1], s[2], s[3], i) && u[0] == h(salt + s))
    && (forall j :: 0 <= j < c - 1 ==> u[j + 1] == h(u[j]))
  }

  /** The digests that have bit `i` set in octet `k`. */
  function SetIn(u: seq<Digest>, k: nat, i: nat): set<nat>
    requires k < MD_SIZE
  {
    set j: nat | j < |u| && Bit(u[j][k], i)
  }

  /** A bit of block `b` is set exactly if it is set in an odd number of the digests. */
  ghost predicate IsParity(key: seq<Octet>, b: nat, u: seq<Digest>) {
    forall k: nat, i: nat :: k < MD_SIZE && MD_SIZE * b + k < |key| && i < 8 ==>
      (Bit(key[MD_SIZE * b + k], i) <==> |SetIn(u, k, i)| % 2 == 1)
  }

  lemma HalfBit(x: nat, i: nat)
    requires i > 0
    ensures Bit(x, i) == Bit(x / 2, i - 1)
  {
    DivDiv(x, Pow2(i - 1));
  }

  lemma {:induction false} XorBit(a: nat, b: nat, n: nat, i: nat)
    requires i < n
    ensures Bit(XorBits(a, b, n), i) == (Bit(a, i) != Bit(b, i))
  {
    if i > 0 {
      XorBit(a / 2, b / 2, n - 1, i - 1);
      HalfBit(a, i);
      HalfBit(b, i);
      HalfBit(XorBits(a, b, n), i);
      hide Bit;
      assert XorBits(a, b, n) / 2 == XorBits(a / 2, b / 2, n - 1);
    }
  }

  lemma SetInStep(u: seq<Digest>, d: Digest, k: nat, i: nat)
    requires k < MD_SIZE
    ensures SetIn(u + [d], k, i) == SetIn(u, k, i) + if Bit(d[k], i) then {|u|} else {}
    ensures |SetIn(u + [d], k, i)| == |SetIn(u, k, i)| + if Bit(d[k], i) then 1 else 0
  {
    hide Bit;
    assert SetIn(u + [d], k, i) == SetIn(u, k, i) + if Bit(d[k], i) then {|u|} else {};
  }

  /** U_1 to U_c of block `i`. */
  function Iterates(h: Hmac, salt: seq<Octet>, i: nat, c: nat): (u: seq<Digest>)
    ensures |u| == c
  {
    seq(c, j requires 0 <= j => U(h, salt, i, j + 1))
  }

  lemma IteratesStep(h: Hmac, salt: seq<Octet>, i: nat, c: nat)
    ensures Iterates(h, salt, i, c + 1) == Iterates(h, salt, i, c) + [U(h, salt, i, c + 1)]
  {
    hide U;
  }

  lemma IteratesChain(h: Hmac, salt: seq<Octet>, i: nat, c: nat)
    requires c > 0 && i < 0x1_0000_0000
    ensures Chain(h, salt, i, c, Iterates(h, salt, i, c))
  {
    IndexValue(i);
  }

  lemma {:induction false} BlockBit(h: Hmac, salt: seq<Octet>, n: nat, c: nat, k: nat, i: nat)
    requires c > 0 && k < MD_SIZE && i < 8
    ensures Bit(T(h, salt, n, c)[k], i) == (|SetIn(Iterates(h, salt, n, c), k, i)| % 2 == 1)
  {
    hide U, Iterates, Bit, XorBits, SetIn;
    IteratesStep(h, salt, n, c - 1);
    SetInStep(Iterates(h, salt, n, c - 1), U(h, salt, n, c), k, i);
    if c == 1 {
      SetInNothing(k, i);
    } else {
      BlockBit(h, salt, n, c - 1, k, i);
      XorBit(T(h, salt, n, c - 1)[k], U(h, salt, n, c)[k], 8, i);
    }
  }

  lemma SetInNothing(k: nat, i: nat)
    requires k < MD_SIZE
    ensures |SetIn([], k, i)| == 0
  {
    assert SetIn([], k, i) == {};
  }

  lemma {:induction false} BlocksAt(h: Hmac, salt: seq<Octet>, c: nat, n: nat, b: nat, k: nat)
    requires c > 0 && b < n && k < MD_SIZE
    ensures MD_SIZE * b + k < |Blocks(h, salt, c, n)| &&
            Blocks(h, salt, c, n)[MD_SIZE * b + k] == T(h, salt, b + 1, c)[k]
  {
    hide T;
    if b < n - 1 {
      BlocksAt(h, salt, c, n - 1, b, k);
    }
  }

  lemma DerivedAt(h: Hmac, salt: seq<Octet>, c: nat, len: nat, b: nat, k: nat)
    requires c > 0 && k < MD_SIZE && MD_SIZE * b + k < len
    ensures Derived(h, salt, c, len)[MD_SIZE * b + k] == T(h, salt, b + 1, c)[k]
  {
    hide T, Blocks;
    BlocksAt(h, salt, c, BlockCount(len), b, k);
  }

  /** Block `b` of the key is the exclusive or of a chain of as many digests as there are iterations. */
  lemma KeyBits(h: Hmac, salt: seq<Octet>, iterationCount: nat, len: nat, b: nat)
    requires len < 0x1_0000_0000 && MD_SIZE * b < len
    ensures var c := if iterationCount == 0 then 1 else iterationCount;
            exists u :: Chain(h, salt, b + 1, c, u) && IsParity(Derived(h, salt, Rounds(iterationCount), len), b, u)
  {
    hide T, U, Bit, SetIn, Iterates, Chain, Derived;
    var c := Rounds(iterationCount);
    var u := Iterates(h, salt, b + 1, c);
    IteratesChain(h, salt, b + 1, c);
    forall k: nat, i: nat | k < MD_SIZE && MD_SIZE * b + k < len && i < 8
      ensures Bit(Derived(h, salt, c, len)[MD_SIZE * b + k], i) <==> |SetIn(u, k, i)| % 2 == 1
    {
      DerivedAt(h, salt, c, len, b, k);
      BlockBit(h, salt, b + 1, c, k, i);
    }
    assert IsParity(Derived(h, salt, c, len), b, u);
    assert Chain(h, salt, b + 1, c, u);
  }

  // ----- The code.

  /** `esp_hmac_calculate`, the call of this number; it may fail. */
  method Calculate(h: Hmac, fails: nat -> bool, call: nat, input: seq<Octet>, result: array<Octet>) returns (ok: bool)
    requires result.Length == MD_SIZE
    modifies result
    ensures ok == !fails(call)
    ensures ok ==> result[..] == h(input)
  {
    ok := !fails(call);
    if ok {
      var digest := h(input);
      forall k | 0 <= k < MD_SIZE {
        result[k] := digest[k];
      }
      assert result[..] == digest;
    }
  }

  /** The loop that adds U_j to the block. */
  method XorInto(work: array<Octet>, md1: array<Octet>)
    requires work != md1 && work.Length == md1.Length == MD_SIZE
    modifies work
    ensures work[..] == Xor(old(work[..]), md1[..])
  {
    hide XorOctet;
    var j := 0;
    while j < MD_SIZE
      invariant 0 <= j <= MD_SIZE
      invariant forall k :: 0 <= k < j ==> work[k] == XorOctet(old(work[k]), md1[k])
      invariant forall k :: j <= k < MD_SIZE ==> work[k] == old(work[k])
    {
      work[j] := XorOctet(work[j], md1[j]);
      j := j + 1;
    }
    assert work[..] == Xor(old(work[..]), md1[..]);
  }

  /** The block index is incremented from its last octet on. */
  method Increment(counter: array<Octet>, ghost i: nat)
    requires counter.Length == 4 && counter[..] == Index(i) && i + 1 < 0x1_0000_0000
    modifies counter
    ensures counter[..] == Index(i + 1)
  {
    hide Index;
    IndexValue(i);
    ghost var v := counter[..];
    var k := 4;
    while k > 0
      invariant 0 <= k <= 4
      invariant forall m :: 0 <= m < k ==> counter[m] == v[m]
      invariant forall m :: k <= m < 4 ==> v[m] == 255 && counter[m] == 0
    {
      counter[k - 1] := if counter[k - 1] == 255 then 0 else counter[k - 1] + 1;
      if counter[k - 1] != 0 {
        break;
      }
      k := k - 1;
    }
    assert counter[..] == [counter[0], counter[1], counter[2], counter[3]];
    IndexUnique(i + 1, counter[..]);
  }

  /** The number that four octets stand for. */
  function Number(a: int, b: int, c: int, d: int): int {
    ((a * 256 + b) * 256 + c) * 256 + d
  }

  lemma IndexValue(i: nat)
    requires i < 0x1_0000_0000
    ensures var s := Index(i); i == Number(s[0], s[1], s[2], s[3])
  {
    assert i / 0x1_0000 == i / 0x100 / 256 && i / 0x1_000000 == i / 0x1_0000 / 256;
  }

  lemma IndexUnique(i: nat, s: seq<Octet>)
    requires |s| == 4 && i == Number(s[0], s[1], s[2], s[3])
    ensures s == Index(i)
  {
    var a: int, b: int, c: int, d: int := s[0], s[1], s[2], s[3];
    Digits(a, b, c, d);
    assert s == [a, b, c, d];
  }

  lemma Digits(a: int, b: int, c: int, d: int)
    requires 0 <= a < 256 && 0 <= b < 256 && 0 <= c < 256 && 0 <= d < 256
    ensures var i := Number(a, b, c, d);
            i / 0x1_000000 % 256 == a && i / 0x1_0000 % 256 == b && i / 0x100 % 256 == c && i % 256 == d
  {
    var x, y := a * 256 + b, (a * 256 + b) * 256 + c;
    DivMod(d, y, 0x100);
    DivMod(c * 256 + d, x, 0x1_0000);
    DivMod((b * 256 + c) * 256 + d, a, 0x1_000000);
    DivMod(c, x, 0x100);
    DivMod(b, a, 0x100);
  }

  /** One block: U_1 ends up in `work`, and the others are added to it. */
  method DeriveBlock(h: Hmac, fails: nat -> bool, call: nat, salt: seq<Octet>, counter: array<Octet>,
                     iterationCount: nat, work: array<Octet>, md1: array<Octet>, ghost n: nat)
      returns (ok: bool, next: nat)
    requires counter.Length == 4 && counter[..] == Index(n) && work != md1 && counter != work && counter != md1
    requires work.Length == md1.Length == MD_SIZE
    modifies work, md1
    ensures ok ==> next == call + Rounds(iterationCount) && work[..] == T(h, salt, n, Rounds(iterationCount))
    ensures ok ==> forall k :: call <= k < next ==> !fails(k)
    ensures !ok ==> call <= next < call + Rounds(iterationCount) && fails(next)
  {
    hide Index, Xor;
    next := call;
    var hmacInput := salt + counter[..];
    ok := Calculate(h, fails, next, hmacInput, work);
    if !ok {
      return;
    }
    next := next + 1;
    forall k | 0 <= k < MD_SIZE {
      md1[k] := work[k];
    }
    assert md1[..] == work[..];
    var i := 1;
    while i < iterationCount
      invariant 1 <= i <= Rounds(iterationCount) && next == call + i
      invariant md1[..] == U(h, salt, n, i) && work[..] == T(h, salt, n, i)
      invariant forall k :: call <= k < next ==> !fails(k)
    {
      ok := Calculate(h, fails, next, md1[..], md1);
      if !ok {
        return;
      }
      next := next + 1;
      XorInto(work, md1);
      i := i + 1;
    }
  }

  lemma BlocksStep(h: Hmac, salt: seq<Octet>, c: nat, n: nat)
    requires c >= 1
    ensures Blocks(h, salt, c, n + 1) == Blocks(h, salt, c, n) + T(h, salt, n + 1, c)
  {}

  /**
   `esp_pbkdf2_hmac_sha256` where memory suffices.  It succeeds exactly if none of the calls of the keyed hash that it
   needs fails, and then the output is the derived key.
   */
  method DeriveKey(h: Hmac, fails: nat -> bool, salt: seq<Octet>, iterationCount: nat, keyLength: nat,
                   output: array<Octet>)
      returns (ret: int)
    requires keyLength <= output.Length && keyLength < 0x1_0000_0000
    modifies output
    ensures ret == 0 || ret == -1
    ensures ret == 0 ==> output[..keyLength] == Derived(h, salt, Rounds(iterationCount), keyLength)
    ensures ret == 0 <==> forall k :: 0 <= k < BlockCount(keyLength) * Rounds(iterationCount) ==> !fails(k)
    ensures forall k :: keyLength <= k < output.Length ==> output[k] == old(output[k])
  {
    hide T, U, Index, Blocks, BlockCount, Rounds;
    ghost var c := Rounds(iterationCount);
    var md1 := new Octet[MD_SIZE](_ => 0);
    var work := new Octet[MD_SIZE](_ => 0);
    var counter := new Octet[4](_ => 0);
    counter[3] := 1;
    FirstIndex(counter[..]);
    BlocksNothing(h, salt, c);
    var left, done, call := keyLength, 0, 0;
    ghost var n := 0;
    while left > 0
      invariant left + done == keyLength && done == (if left > 0 then MD_SIZE * n else keyLength) &&
                n <= BlockCount(keyLength)
      invariant left == 0 ==> n == BlockCount(keyLength)
      invariant counter[..] == Index(n + 1) && fresh(counter) && fresh(work) && fresh(md1) &&
                work.Length == md1.Length == MD_SIZE
      invariant counter.Length == 4 && work != md1 && counter != work && counter != md1
      invariant done <= MD_SIZE * n && output[..done] == Blocks(h, salt, c, n)[..done]
      invariant call == n * c && forall k :: 0 <= k < call ==> !fails(k)
      invariant forall k :: keyLength <= k < output.Length ==> output[k] == old(output[k])
    {
      var ok, next := DeriveBlock(h, fails, call, salt, counter, iterationCount, work, md1, n + 1);
      CallsFit(n, BlockCount(keyLength), c);
      if !ok {
        return -1;
      }
      call := next;
      var useLen := if left < MD_SIZE then left else MD_SIZE;
      CopyOut(work, useLen, output, done);
      BlocksStep(h, salt, c, n);
      PrefixStep(Blocks(h, salt, c, n), T(h, salt, n + 1, c), useLen);
      left, done := left - useLen, done + useLen;
      n := n + 1;
      Increment(counter, n);
    }
    return 0;
  }

  /** `memcpy` to the output */
  method CopyOut(work: array<Octet>, useLen: nat, output: array<Octet>, done: nat)
    requires work != output && useLen <= work.Length && done + useLen <= output.Length
    modifies output
    ensures output[..done + useLen] == old(output[..done]) + work[..][..useLen]
    ensures forall k :: done + useLen <= k < output.Length ==> output[k] == old(output[k])
  {
    forall k | 0 <= k < useLen {
      output[done + k] := work[k];
    }
  }

  lemma FirstIndex(s: seq<Octet>)
    requires s == [0, 0, 0, 1]
    ensures s == Index(1)
  {}

  lemma BlocksNothing(h: Hmac, salt: seq<Octet>, c: nat)
    requires c >= 1
    ensures Blocks(h, salt, c, 0) == []
  {}

  lemma PrefixStep(s: seq<Octet>, t: seq<Octet>, k: nat)
    requires k <= |t|
    ensures s[..|s|] + t[..k] == (s + t)[..|s| + k]
  {}

  lemma CallsFit(n: nat, count: nat, c: nat)
    requires n < count
    ensures n * c + c == (n + 1) * c <= count * c
  {}
}
