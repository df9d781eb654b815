/**
 Masks, format bits and the automatic choice of a mask (sections 7.8 and 7.9.1 of ISO/IEC 18004:2015).
 */
module Masks {
  import opened BchCodes
  import opened BitStrings
  import opened Bytes
  import opened Grids

  // ----- Masks.

  /** The mask inverts the module at column `x` and row `y`. */
  predicate Inverts(mask: nat, x: nat, y: nat)
    requires mask <= 7
  {
    match mask
    case 0 => (x + y) % 2 == 0
    case 1 => y % 2 == 0
    case 2 => x % 3 == 0
    case 3 => (x + y) % 3 == 0
    case 4 => (x / 3 + y / 2) % 2 == 0
    case 5 => x * y % 2 + x * y % 3 == 0
    case 6 => (x * y % 2 + x * y % 3) % 2 == 0
    case _ => ((x + y) % 2 + x * y % 3) % 2 == 0
  }

  /** Masks 0 and 4 are chessboards, the latter with fields three modules wide and two high. */
  lemma Chessboards(x: nat, y: nat)
    ensures Inverts(0, 0, 0) && Inverts(0, x + 1, y) == Inverts(0, x, y + 1) == !Inverts(0, x, y)
    ensures x < 3 && y < 2 ==> Inverts(4, x, y)
    ensures Inverts(4, x + 3, y) == Inverts(4, x, y + 2) == !Inverts(4, x, y)
  {
    NextParity(x + y);
    Blocks(x, y);
  }

  lemma Blocks(x: nat, y: nat)
    ensures x < 3 && y < 2 ==> Inverts(4, x, y)
    ensures Inverts(4, x + 3, y) == Inverts(4, x, y + 2) == !Inverts(4, x, y)
  {
    NextField(x, 3);
    NextField(y, 2);
    NextParity(x / 3 + y / 2);
  }

  lemma NextField(x: nat, n: nat)
    requires n == 2 || n == 3
    ensures (x + n) / n == x / n + 1 && (x < n ==> x / n == 0)
  {}

  lemma NextParity(k: nat)
    ensures (k + 1) % 2 == 1 - k % 2
  {}

  /** Mask 1 inverts every second row, mask 2 every third column, and mask 3 every third diagonal. */
  lemma Stripes(x: nat, y: nat)
    ensures Inverts(1, x, 0) && Inverts(1, x, y + 1) == !Inverts(1, x, y)
    ensures Inverts(2, 0, y) && !Inverts(2, 1, y) && !Inverts(2, 2, y) && Inverts(2, x + 3, y) == Inverts(2, x, y)
    ensures Inverts(3, x, 0) == Inverts(2, x, 0) && Inverts(3, x + 1, y) == Inverts(3, x, y + 1)
  {
    NextParity(y);
    assert (x + 3) % 3 == x % 3;
  }

  /** Masks 5 to 7 depend on the product of column and row. */
  lemma ProductMasks(x: nat, y: nat)
    ensures Inverts(5, x, y) <==> x * y % 6 == 0
    ensures Inverts(6, x, y) <==> x * y % 6 < 3
    ensures Inverts(7, x, y) <==> (x % 2 == y % 2) != (x * y % 3 == 1)
  {
    var p := x * y;
    ProductMasksAt(x, y, p);
    hide Inverts;
    SixParts(p);
    SixCases(p % 6);
    SumParity(x, y);
    Odd(p % 3, (x + y) % 2);
  }

  lemma ProductMasksAt(x: nat, y: nat, p: nat)
    requires p == x * y
    ensures Inverts(5, x, y) <==> p % 2 + p % 3 == 0
    ensures Inverts(6, x, y) <==> (p % 2 + p % 3) % 2 == 0
    ensures Inverts(7, x, y) <==> ((x + y) % 2 + p % 3) % 2 == 0
  {}

  lemma SixParts(p: nat)
    ensures p % 2 == p % 6 % 2 && p % 3 == p % 6 % 3
  {}

  lemma SixCases(r: nat)
    requires r < 6
    ensures r % 2 + r % 3 == 0 <==> r == 0
    ensures (r % 2 + r % 3) % 2 == 0 <==> r < 3
  {}

  lemma Odd(r: nat, s: nat)
    requires r < 3 && s < 2
    ensures (s + r) % 2 == 0 <==> (s == 0) != (r == 1)
  {}

  lemma SumParity(x: nat, y: nat)
    ensures (x + y) % 2 == 0 <==> x % 2 == y % 2
  {}

  predicate MaskedAt(fn: seq<seq<bool>>, p: seq<seq<bool>>, mask: nat, n: nat, x: nat, y: nat)
    requires mask <= 7 && Square(fn, n) && Square(p, n) && x < n && y < n
  {
    p[y][x] != (!fn[y][x] && Inverts(mask, x, y))
  }

  /** The picture with all modules that are not function modules masked. */
  function Masked(fn: seq<seq<bool>>, p: seq<seq<bool>>, mask: nat, n: nat): (q: seq<seq<bool>>)
    requires mask <= 7 && Square(fn, n) && Square(p, n)
    ensures Square(q, n)
  {
    seq(n, y requires 0 <= y < n => seq(n, x requires 0 <= x < n => MaskedAt(fn, p, mask, n, x, y)))
  }

  /** Masking twice undoes the mask. */
  lemma MaskInvolution(fn: seq<seq<bool>>, p: seq<seq<bool>>, mask: nat, n: nat)
    requires mask <= 7 && Square(fn, n) && Square(p, n)
    ensures Masked(fn, Masked(fn, p, mask, n), mask, n) == p
  {
    hide Inverts;
    SamePicture(Masked(fn, Masked(fn, p, mask, n), mask, n), p, n);
  }

  /** The rows above `y`, and the modules of row `y` left of `x`, are masked. */
  ghost predicate MaskedUpTo(fn: seq<seq<bool>>, p: seq<seq<bool>>, mask: nat, n: nat, x: nat, y: nat,
                             now: seq<seq<bool>>) {
    mask <= 7 && Square(fn, n) && Square(p, n) && Square(now, n) &&
    forall u: nat, v: nat :: u < n && v < n ==>
      now[v][u] == if v < y || (v == y && u < x) then MaskedAt(fn, p, mask, n, u, v) else p[v][u]
  }

  lemma MaskStep(fn: seq<seq<bool>>, p: seq<seq<bool>>, mask: nat, n: nat, x: nat, y: nat, now: seq<seq<bool>>,
                 next: seq<seq<bool>>)
    requires MaskedUpTo(fn, p, mask, n, x, y, now) && Square(next, n) && x < n && y < n
    requires forall u: nat, v: nat :: u < n && v < n ==>
               next[v][u] == if u == x && v == y then MaskedAt(fn, now, mask, n, x, y) else now[v][u]
    ensures MaskedUpTo(fn, p, mask, n, x + 1, y, next)
  {
    hide Inverts;
  }

  /** The `switch` over the mask patterns. */
  method IsInverted(mask: nat, x: nat, y: nat) returns (invert: bool)
    requires mask <= 7
    ensures invert == Inverts(mask, x, y)
  {
    match mask {
      case 0 => invert := (x + y) % 2 == 0;
      case 1 => invert := y % 2 == 0;
      case 2 => invert := x % 3 == 0;
      case 3 => invert := (x + y) % 3 == 0;
      case 4 => invert := (x / 3 + y / 2) % 2 == 0;
      case 5 => invert := x * y % 2 + x * y % 3 == 0;
      case 6 => invert := (x * y % 2 + x * y % 3) % 2 == 0;
      case _ => invert := ((x + y) % 2 + x * y % 3) % 2 == 0;
    }
  }

  /** The body of the loops of `applyMask`. */
  method MaskModule(functionModules: array<Byte>, qrcode: array<Byte>, mask: nat, x: nat, y: nat, ghost n: Side,
                    ghost p: seq<seq<bool>>)
    requires mask <= 7 && functionModules != qrcode && IsGrid(functionModules[..], n) && IsGrid(qrcode[..], n)
    requires x < n && y < n
    requires MaskedUpTo(Picture(functionModules[..], n), p, mask, n, x, y, Picture(qrcode[..], n))
    modifies qrcode
    ensures IsGrid(qrcode[..], n)
    ensures MaskedUpTo(Picture(functionModules[..], n), p, mask, n, x + 1, y, Picture(qrcode[..], n))
  {
    hide Module, IsGrid, Put, MaskedUpTo;
    ghost var before := qrcode[..];
    ghost var fn, now := Picture(functionModules[..], n), Picture(qrcode[..], n);
    var isFunction := GetModule(functionModules, x, y, n);
    if isFunction {
      MaskStep(fn, p, mask, n, x, y, now, now);
      return;
    }
    var invert := IsInverted(mask, x, y);
    hide Inverts;
    var val := GetModule(qrcode, x, y, n);
    SetModule(qrcode, x, y, val != invert, n);
    forall u: nat, v: nat | u < n && v < n
      ensures Picture(qrcode[..], n)[v][u] == if u == x && v == y then MaskedAt(fn, now, mask, n, x, y) else now[v][u]
    {
      PutModule(before, n, x, y, val != invert, u, v);
    }
    MaskStep(fn, p, mask, n, x, y, now, Picture(qrcode[..], n));
  }

  /** `applyMask` */
  method ApplyMask(functionModules: array<Byte>, qrcode: array<Byte>, mask: nat, ghost n: Side)
    requires mask <= 7 && functionModules != qrcode && IsGrid(functionModules[..], n) && IsGrid(qrcode[..], n)
    modifies qrcode
    ensures IsGrid(qrcode[..], n)
    ensures Picture(qrcode[..], n) == Masked(Picture(functionModules[..], n), old(Picture(qrcode[..], n)), mask, n)
  {
    hide Module, IsGrid, Inverts;
    ghost var fn, p := Picture(functionModules[..], n), Picture(qrcode[..], n);
    var qrsize := GetSize(qrcode, n);
    var y := 0;
    while y < qrsize
      invariant 0 <= y <= qrsize && IsGrid(qrcode[..], n)
      invariant MaskedUpTo(fn, p, mask, n, 0, y, Picture(qrcode[..], n))
    {
      var x := 0;
      while x < qrsize
        invariant 0 <= x <= qrsize && IsGrid(qrcode[..], n)
        invariant MaskedUpTo(fn, p, mask, n, x, y, Picture(qrcode[..], n))
      {
        MaskModule(functionModules, qrcode, mask, x, y, n, p);
        x := x + 1;
      }
      y := y + 1;
    }
    SamePicture(Picture(qrcode[..], n), Masked(fn, p, mask, n), n);
  }

  // ----- Format bits.

  /** The number of a level in the format bits. */
  function LevelCode(ecl: nat): nat
    requires ecl <= 3
  {
    if ecl == 0 then 1 else if ecl == 1 then 0 else if ecl == 2 then 3 else 2
  }

  function LevelAndMask(ecl: nat, mask: nat): (data: seq<bool>)
    requires ecl <= 3 && mask <= 7
    ensures |data| == 5
  {
    BitsOf(LevelCode(ecl), 2) + BitsOf(mask, 3)
  }

  /** 0x5412, which is added to the format bits. */
  function FormatMask(): (bits: seq<bool>)
    ensures |bits| == 15
  {
    [true, false, true, false, true, false, false, false, false, false, true, false, false, true, false]
  }

  /** The 15 format bits of a level and a mask, most significant bit first. */
  function FormatBits(ecl: nat, mask: nat): (bits: seq<bool>)
    requires ecl <= 3 && mask <= 7
    ensures |bits| == 15
  {
    XorBits(FormatCode(LevelAndMask(ecl, mask)), FormatMask())
  }

  /** The computation at the start of `drawFormatBits`. */
  method ComputeFormat(ecl: nat, mask: nat) returns (bits: seq<bool>)
    requires ecl <= 3 && mask <= 7
    ensures bits == FormatBits(ecl, mask)
  {
    hide XorBits, LevelAndMask, FormatMask, FormatGenerator;
    var data := LevelAndMask(ecl, mask);
    var rem := Divide(seq(5, _ => false) + data, FormatGenerator(), 10);
    bits := XorBits(data + rem, FormatMask());
  }

  lemma DataInjective(ecl: nat, mask: nat, ecl': nat, mask': nat)
    requires ecl <= 3 && mask <= 7 && ecl' <= 3 && mask' <= 7 && (ecl != ecl' || mask != mask')
    ensures LevelAndMask(ecl, mask) != LevelAndMask(ecl', mask')
  {
    hide BitsOf, NumberOf, Pow2;
    SmallPowers();
    NumberOfBits(LevelCode(ecl), 2);
    NumberOfBits(LevelCode(ecl'), 2);
    NumberOfBits(mask, 3);
    NumberOfBits(mask', 3);
    var d, e := LevelAndMask(ecl, mask), LevelAndMask(ecl', mask');
    assert d[..2] == BitsOf(LevelCode(ecl), 2) && d[2..] == BitsOf(mask, 3);
    assert e[..2] == BitsOf(LevelCode(ecl'), 2) && e[2..] == BitsOf(mask', 3);
  }

  /** The format bits of different levels or masks differ in at least 7 places, so that 3 errors can be corrected. */
  lemma FormatsApart(ecl: nat, mask: nat, ecl': nat, mask': nat)
    requires ecl <= 3 && mask <= 7 && ecl' <= 3 && mask' <= 7 && (ecl != ecl' || mask != mask')
    ensures Distance(FormatBits(ecl, mask), FormatBits(ecl', mask')) >= 7
  {
    hide XorBits, LevelAndMask, FormatMask, FormatCode;
    DataInjective(ecl, mask, ecl', mask');
    var d, e := LevelAndMask(ecl, mask), LevelAndMask(ecl', mask');
    FormatDistance(d, e);
    XorAt(FormatCode(d), FormatMask());
    XorAt(FormatCode(e), FormatMask());
    var s, t := FormatBits(ecl, mask), FormatBits(ecl', mask');
    assert (set k | 0 <= k < |s| && s[k] != t[k]) ==
        set k | 0 <= k < |FormatCode(d)| && FormatCode(d)[k] != FormatCode(e)[k];
  }

  /** The format bits of the four levels with mask 0 (annex C of ISO/IEC 18004:2015). */
  lemma FormatWords()
    ensures Reads(FormatBits(0, 0), "111011111000100") && Reads(FormatBits(1, 0), "101010000010010")
    ensures Reads(FormatBits(2, 0), "011010101011111") && Reads(FormatBits(3, 0), "001011010001001")
  {
    LevelBits();
    FormatWord(0, false, true);
    FormatWord(1, false, false);
    FormatWord(2, true, true);
    FormatWord(3, true, false);
  }

  lemma LevelBits()
    ensures BitsOf(0, 2) == [false, false] && BitsOf(1, 2) == [false, true]
    ensures BitsOf(2, 2) == [true, false] && BitsOf(3, 2) == [true, true] && BitsOf(0, 3) == [false, false, false]
  {
    assert BitsOf(0, 1) == [false] && BitsOf(1, 1) == [true] by {
      assert BitsOf(0, 0) == [];
    }
    assert BitsOf(0, 2) == [false, false];
  }

  lemma FormatWord(ecl: nat, hi: bool, lo: bool)
    requires ecl <= 3 && LevelAndMask(ecl, 0) == [hi, lo, false, false, false]
    ensures var word := if hi then (if lo then "011010101011111" else "001011010001001")
                        else if lo then "111011111000100" else "101010000010010";
            Reads(FormatBits(ecl, 0), word)
  {
    hide FormatCode, XorBits, LevelAndMask;
    FormatCodeIs([hi, lo, false, false, false]);
    XorAt(FormatCode(LevelAndMask(ecl, 0)), FormatMask());
  }

  /** The bit of the first copy that is drawn at a module, or -1. */
  function FirstCopy(x: nat, y: nat): int {
    if x == 8 && y <= 5 then y
    else if x == 8 && y == 7 then 6
    else if x == 8 && y == 8 then 7
    else if x == 7 && y == 8 then 8
    else if x <= 5 && y == 8 then 14 - x
    else -1
  }

  /** The bit of the second copy that is drawn at a module, 15 for the module that is always black, or -1. */
  function SecondCopy(n: nat, x: nat, y: nat): int
    requires n >= 21
  {
    if y == 8 && x >= n - 8 then n - 1 - x
    else if x == 8 && y >= n - 7 then y - (n - 15)
    else if x == 8 && y == n - 8 then 15
    else -1
  }

  /** A module, with the first `a` bits of the first copy and the first `b` bits of the second drawn. */
  predicate FormatAt(p: seq<seq<bool>>, bits: seq<bool>, n: nat, a: nat, b: nat, x: nat, y: nat)
    requires n >= 21 && Square(p, n) && |bits| == 15 && x < n && y < n
  {
    if 0 <= FirstCopy(x, y) < a then bits[14 - FirstCopy(x, y)]
    else if 0 <= SecondCopy(n, x, y) < b then SecondCopy(n, x, y) == 15 || bits[14 - SecondCopy(n, x, y)]
    else p[y][x]
  }

  /** The picture with both copies of the format bits drawn. */
  function WithFormat(p: seq<seq<bool>>, bits: seq<bool>, n: nat): (q: seq<seq<bool>>)
    requires n >= 21 && Square(p, n) && |bits| == 15
    ensures Square(q, n)
  {
    seq(n, y requires 0 <= y < n => seq(n, x requires 0 <= x < n => FormatAt(p, bits, n, 15, 16, x, y)))
  }

  /** All modules that the format bits are drawn at are function modules. */
  ghost predicate FormatReserved(fn: seq<seq<bool>>, n: nat)
    requires n >= 21 && Square(fn, n)
  {
    forall x: nat, y: nat :: x < n && y < n && (FirstCopy(x, y) >= 0 || SecondCopy(n, x, y) >= 0) ==> fn[y][x]
  }

  /** Format bits overwrite each other fully. */
  lemma FormatOverwrites(p: seq<seq<bool>>, bits: seq<bool>, other: seq<bool>, n: nat)
    requires n >= 21 && Square(p, n) && |bits| == |other| == 15
    ensures WithFormat(WithFormat(p, other, n), bits, n) == WithFormat(p, bits, n)
  {
    SamePicture(WithFormat(WithFormat(p, other, n), bits, n), WithFormat(p, bits, n), n);
  }

  /** Format bits and masks do not touch the same modules. */
  lemma FormatCommutes(fn: seq<seq<bool>>, p: seq<seq<bool>>, bits: seq<bool>, mask: nat, n: nat)
    requires n >= 21 && mask <= 7 && Square(fn, n) && Square(p, n) && |bits| == 15 && FormatReserved(fn, n)
    ensures Masked(fn, WithFormat(p, bits, n), mask, n) == WithFormat(Masked(fn, p, mask, n), bits, n)
  {
    hide Inverts, FirstCopy, SecondCopy;
    SamePicture(Masked(fn, WithFormat(p, bits, n), mask, n), WithFormat(Masked(fn, p, mask, n), bits, n), n);
  }

  /** Where bit `i` of the format is drawn: twice, around the finder patterns, and a black module. */
  lemma FormatPlaces(p: seq<seq<bool>>, bits: seq<bool>, n: nat, i: nat)
    requires n >= 21 && Square(p, n) && |bits| == 15 && i < 15
    ensures var q, bit := WithFormat(p, bits, n), bits[14 - i];
            && bit == (if i <= 5 then q[i][8] else if i == 6 then q[7][8] else if i == 7 then q[8][8]
                       else if i == 8 then q[8][7] else q[8][14 - i])
            && bit == (if i <= 7 then q[8][n - 1 - i] else q[n - 15 + i][8])
            && q[n - 8][8]
  {}

  ghost predicate Formatted(p: seq<seq<bool>>, bits: seq<bool>, n: nat, a: nat, b: nat, now: seq<seq<bool>>) {
    n >= 21 && Square(p, n) && |bits| == 15 && Square(now, n) && a <= 15 && b <= 16 &&
    forall x: nat, y: nat :: x < n && y < n ==> now[y][x] == FormatAt(p, bits, n, a, b, x, y)
  }

  /** `setModule` for the next bit of one of the copies. */
  method DrawFormatBit(qrcode: array<Byte>, x: nat, y: nat, black: bool,
                       ghost n: Side, ghost p: seq<seq<bool>>, ghost bits: seq<bool>, ghost a: nat, ghost b: nat,
                       ghost first: bool)
    requires IsGrid(qrcode[..], n) && Formatted(p, bits, n, a, b, Picture(qrcode[..], n)) && x < n && y < n
    requires first ==> FirstCopy(x, y) == a <= 14 && black == bits[14 - a]
    requires !first ==> SecondCopy(n, x, y) == b <= 15 && black == (b == 15 || bits[14 - b])
    modifies qrcode
    ensures IsGrid(qrcode[..], n)
    ensures Formatted(p, bits, n, if first then a + 1 else a, if first then b else b + 1, Picture(qrcode[..], n))
  {
    hide Module, IsGrid, Put, Formatted;
    ghost var before := qrcode[..];
    SetModule(qrcode, x, y, black, n);
    forall u: nat, v: nat | u < n && v < n
      ensures Picture(qrcode[..], n)[v][u] == if u == x && v == y then black else Picture(before, n)[v][u]
    {
      PutModule(before, n, x, y, black, u, v);
    }
    FormatStep(p, bits, n, a, b, first, x, y, Picture(before, n), Picture(qrcode[..], n));
  }

  lemma FormatStep(p: seq<seq<bool>>, bits: seq<bool>, n: nat, a: nat, b: nat, first: bool, x: nat, y: nat,
                   now: seq<seq<bool>>, next: seq<seq<bool>>)
    requires Formatted(p, bits, n, a, b, now) && Square(next, n) && x < n && y < n
    requires first ==> FirstCopy(x, y) == a <= 14 && next[y][x] == bits[14 - a]
    requires !first ==> SecondCopy(n, x, y) == b <= 15 && next[y][x] == (b == 15 || bits[14 - b])
    requires forall u: nat, v: nat :: u < n && v < n && (u != x || v != y) ==> next[v][u] == now[v][u]
    ensures Formatted(p, bits, n, if first then a + 1 else a, if first then b else b + 1, next)
  {
    hide FirstCopy, SecondCopy;
    forall u: nat, v: nat | u < n && v < n
      ensures next[v][u] == FormatAt(p, bits, n, if first then a + 1 else a, if first then b else b + 1, u, v)
    {
      CopiesInjective(n, x, y, u, v);
    }
  }

  lemma CopiesInjective(n: nat, x: nat, y: nat, u: nat, v: nat)
    requires n >= 21 && x < n && y < n && u < n && v < n
    ensures FirstCopy(x, y) < 0 || SecondCopy(n, x, y) < 0
    ensures FirstCopy(x, y) >= 0 && FirstCopy(x, y) == FirstCopy(u, v) ==> x == u && y == v
    ensures SecondCopy(n, x, y) >= 0 && SecondCopy(n, x, y) == SecondCopy(n, u, v) ==> x == u && y == v
  {}

  /** The first copy, drawn by `drawFormatBits`. */
  method DrawFirstCopy(qrcode: array<Byte>, bits: seq<bool>, ghost n: Side)
    requires IsGrid(qrcode[..], n) && n >= 21 && |bits| == 15
    modifies qrcode
    ensures IsGrid(qrcode[..], n) && Formatted(old(Picture(qrcode[..], n)), bits, n, 15, 0, Picture(qrcode[..], n))
  {
    hide Module, IsGrid, Formatted;
    ghost var p := Picture(qrcode[..], n);
    NothingFormatted(p, bits, n);
    var i := 0;
    while i <= 5
      invariant 0 <= i <= 6 && IsGrid(qrcode[..], n) && Formatted(p, bits, n, i, 0, Picture(qrcode[..], n))
    {
      DrawFormatBit(qrcode, 8, i, bits[14 - i], n, p, bits, i, 0, true);
      i := i + 1;
    }
    DrawFormatBit(qrcode, 8, 7, bits[14 - 6], n, p, bits, 6, 0, true);
    DrawFormatBit(qrcode, 8, 8, bits[14 - 7], n, p, bits, 7, 0, true);
    DrawFormatBit(qrcode, 7, 8, bits[14 - 8], n, p, bits, 8, 0, true);
    i := 9;
    while i < 15
      invariant 9 <= i <= 15 && IsGrid(qrcode[..], n) && Formatted(p, bits, n, i, 0, Picture(qrcode[..], n))
    {
      DrawFormatBit(qrcode, 14 - i, 8, bits[14 - i], n, p, bits, i, 0, true);
      i := i + 1;
    }
  }

  lemma NothingFormatted(p: seq<seq<bool>>, bits: seq<bool>, n: nat)
    requires n >= 21 && Square(p, n) && |bits| == 15
    ensures Formatted(p, bits, n, 0, 0, p)
  {}

  lemma AllFormatted(p: seq<seq<bool>>, bits: seq<bool>, n: nat, now: seq<seq<bool>>)
    requires Formatted(p, bits, n, 15, 16, now)
    ensures now == WithFormat(p, bits, n)
  {
    hide FormatAt;
    SamePicture(now, WithFormat(p, bits, n), n);
  }

  /** `drawFormatBits` */
  method DrawFormatBits(ecl: nat, mask: nat, qrcode: array<Byte>, ghost n: Side)
    requires ecl <= 3 && mask <= 7 && IsGrid(qrcode[..], n) && n >= 21
    modifies qrcode
    ensures IsGrid(qrcode[..], n)
    ensures Picture(qrcode[..], n) == WithFormat(old(Picture(qrcode[..], n)), FormatBits(ecl, mask), n)
  {
    hide Module, IsGrid, Formatted, FormatBits;
    var bits := ComputeFormat(ecl, mask);
    ghost var p := Picture(qrcode[..], n);
    DrawFirstCopy(qrcode, bits, n);
    var qrsize := GetSize(qrcode, n);
    var i := 0;
    while i < 8
      invariant 0 <= i <= 8 && IsGrid(qrcode[..], n) && Formatted(p, bits, n, 15, i, Picture(qrcode[..], n))
    {
      DrawFormatBit(qrcode, qrsize - 1 - i, 8, bits[14 - i], n, p, bits, 15, i, false);
      i := i + 1;
    }
    while i < 15
      invariant 8 <= i <= 15 && IsGrid(qrcode[..], n) && Formatted(p, bits, n, 15, i, Picture(qrcode[..], n))
    {
      DrawFormatBit(qrcode, 8, qrsize - 15 + i, bits[14 - i], n, p, bits, 15, i, false);
      i := i + 1;
    }
    DrawFormatBit(qrcode, 8, qrsize - 8, true, n, p, bits, 15, 15, false);
    AllFormatted(p, bits, n, Picture(qrcode[..], n));
  }

  // ----- Reading the format bits back.

  /** The module of bit `i` in the first copy. */
  function FirstCopyCell(i: nat): (cell: (nat, nat))
    requires i <= 14
    ensures cell.0 <= 8 && cell.1 <= 8 && FirstCopy(cell.0, cell.1) == i
  {
    if i <= 5 then (8, i) else if i == 6 then (8, 7) else if i == 7 then (8, 8)
    else if i == 8 then (7, 8) else (14 - i, 8)
  }

  /** Bit `k` of the format bits of a symbol, most significant bit first. */
  predicate ReadFormatAt(p: seq<seq<bool>>, n: nat, k: nat)
    requires n >= 21 && Square(p, n) && k < 15
  {
    p[FirstCopyCell(14 - k).1][FirstCopyCell(14 - k).0]
  }

  /** The format bits of a symbol. */
  function ReadFormat(p: seq<seq<bool>>, n: nat): (bits: seq<bool>)
    requires n >= 21 && Square(p, n)
    ensures |bits| == 15
  {
    seq(15, k requires 0 <= k < 15 => ReadFormatAt(p, n, k))
  }

  lemma FormatBitAt(p: seq<seq<bool>>, bits: seq<bool>, n: nat, k: nat)
    requires n >= 21 && Square(p, n) && |bits| == 15 && k < 15
    ensures ReadFormatAt(WithFormat(p, bits, n), n, k) == bits[k]
  {
    hide FirstCopy, SecondCopy, FirstCopyCell;
    var cell := FirstCopyCell(14 - k);
    assert FormatAt(p, bits, n, 15, 16, cell.0, cell.1) == bits[k];
  }

  /** The format bits can be read from the symbol. */
  lemma FormatReadBack(p: seq<seq<bool>>, bits: seq<bool>, n: nat)
    requires n >= 21 && Square(p, n) && |bits| == 15
    ensures ReadFormat(WithFormat(p, bits, n), n) == bits
  {
    hide ReadFormatAt, WithFormat;
    forall k | 0 <= k < 15 ensures ReadFormat(WithFormat(p, bits, n), n)[k] == bits[k] {
      FormatBitAt(p, bits, n, k);
    }
  }

  /** The five data bits in the format bits. */
  function FormatData(bits: seq<bool>): (data: seq<bool>)
    requires |bits| == 15
    ensures |data| == 5
  {
    XorBits(bits[..5], FormatMask()[..5])
  }

  /** The level that the format bits stand for. */
  function LevelOf(bits: seq<bool>): nat
    requires |bits| == 15
  {
    var code := NumberOf(FormatData(bits)[..2]);
    if code == 1 then 0 else if code == 0 then 1 else if code == 3 then 2 else 3
  }

  function MaskOf(bits: seq<bool>): nat
    requires |bits| == 15
  {
    NumberOf(FormatData(bits)[2..])
  }

  lemma XorTwice(a: seq<bool>, b: seq<bool>, n: nat)
    requires |a| == |b| && n <= |a|
    ensures XorBits(XorBits(a, b)[..n], b[..n]) == a[..n]
  {
    XorAt(a, b);
    XorAt(XorBits(a, b)[..n], b[..n]);
  }

  /** The format bits say which level and which mask they were made for. */
  lemma FormatMeaning(ecl: nat, mask: nat)
    requires ecl <= 3 && mask <= 7
    ensures LevelOf(FormatBits(ecl, mask)) == ecl && MaskOf(FormatBits(ecl, mask)) == mask
  {
    hide BitsOf, NumberOf, XorBits, FormatMask, Rounds;
    var code, data := LevelCode(ecl), LevelAndMask(ecl, mask);
    XorTwice(FormatCode(data), FormatMask(), 5);
    assert FormatCode(data)[..5] == data;
    assert data[..2] == BitsOf(code, 2) && data[2..] == BitsOf(mask, 3);
    SmallPowers();
    NumberOfBits(code, 2);
    NumberOfBits(mask, 3);
  }
}
