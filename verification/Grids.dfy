/**
 The grid of modules of a symbol, kept in a byte buffer: byte 0 is the side length, and the modules follow row by
 row, least significant bit first.
 */
module Grids {
  import opened Arithmetic
  import opened BitStrings
  import opened Bytes

  /** The unsigned number that a byte stands for. */
  function Value(b: Byte): nat {
    NumberOf([b[7], b[6], b[5], b[4], b[3], b[2], b[1], b[0]])
  }

  /** A side length. */
  type Side = n: nat | 9 <= n && n % 2 == 1 witness 9

  /** The buffer holds a grid of side length `n`. */
  predicate IsGrid(buf: seq<Byte>, n: Side) {
    |buf| >= (n * n + 7) / 8 + 1 && Value(buf[0]) == n
  }

  function Index(n: nat, x: nat, y: nat): nat {
    x + y * n
  }

  lemma IndexFits(n: nat, x: nat, y: nat)
    requires x < n && y < n
    ensures Index(n, x, y) < n * n && Index(n, x, y) / 8 + 1 < (n * n + 7) / 8 + 1
  {
    Below(x, y, n, n);
  }

  lemma SameIndex(n: nat, x: nat, y: nat, u: nat, v: nat)
    requires x < n && y < n && u < n && v < n
    ensures Index(n, x, y) / 8 == Index(n, u, v) / 8 && Index(n, x, y) % 8 == Index(n, u, v) % 8 <==> x == u && y == v
  {
    if Index(n, x, y) == Index(n, u, v) {
      Unique(y, x, v, u, n);
    }
  }

  /** The module at column `x` and row `y`; true is black. */
  predicate Module(buf: seq<Byte>, n: Side, x: nat, y: nat)
    requires IsGrid(buf, n) && x < n && y < n
  {
    IndexFits(n, x, y);
    buf[Index(n, x, y) / 8 + 1][Index(n, x, y) % 8]
  }

  /** The buffer with one module changed. */
  function Put(buf: seq<Byte>, n: Side, x: nat, y: nat, black: bool): (r: seq<Byte>)
    requires IsGrid(buf, n) && x < n && y < n
    ensures IsGrid(r, n) && |r| == |buf|
  {
    IndexFits(n, x, y);
    var k := Index(n, x, y) / 8 + 1;
    buf[k := buf[k][Index(n, x, y) % 8 := black]]
  }

  lemma PutModule(buf: seq<Byte>, n: Side, x: nat, y: nat, black: bool, u: nat, v: nat)
    requires IsGrid(buf, n) && x < n && y < n && u < n && v < n
    ensures Module(Put(buf, n, x, y, black), n, u, v) == if u == x && v == y then black else Module(buf, n, u, v)
  {
    hide Index, Value;
    IndexFits(n, x, y);
    IndexFits(n, u, v);
    SameIndex(n, x, y, u, v);
  }

  /** `qrcodegen_getSize` */
  method GetSize(qrcode: array<Byte>, ghost n: Side) returns (size: nat)
    requires IsGrid(qrcode[..], n)
    ensures size == n
  {
    size := Value(qrcode[0]);
  }

  /** `getModule` */
  method GetModule(qrcode: array<Byte>, x: nat, y: nat, ghost n: Side) returns (black: bool)
    requires IsGrid(qrcode[..], n) && x < n && y < n
    ensures black == Module(qrcode[..], n, x, y)
  {
    hide NumberOf;
    var qrsize := Value(qrcode[0]);
    IndexFits(n, x, y);
    var index := y * qrsize + x;
    black := qrcode[index / 8 + 1][index % 8];
  }

  /** `setModule` */
  method SetModule(qrcode: array<Byte>, x: nat, y: nat, isBlack: bool, ghost n: Side)
    requires IsGrid(qrcode[..], n) && x < n && y < n
    modifies qrcode
    ensures qrcode[..] == Put(old(qrcode[..]), n, x, y, isBlack)
  {
    hide NumberOf;
    var qrsize := Value(qrcode[0]);
    IndexFits(n, x, y);
    var index := y * qrsize + x;
    qrcode[index / 8 + 1] := qrcode[index / 8 + 1][index % 8 := isBlack];
  }

  // ----- The grid without its representation.

  /** `n` rows of `n` modules. */
  predicate Square(p: seq<seq<bool>>, n: nat) {
    |p| == n && forall y :: 0 <= y < n ==> |p[y]| == n
  }

  /** The modules of a grid, row by row. */
  function Picture(buf: seq<Byte>, n: Side): (p: seq<seq<bool>>)
    requires IsGrid(buf, n)
    ensures Square(p, n)
    ensures forall x: nat, y: nat :: x < n && y < n ==> p[y][x] == Module(buf, n, x, y)
  {
    seq(n, y requires 0 <= y < n => seq(n, x requires 0 <= x < n => Module(buf, n, x, y)))
  }

  lemma SamePicture(p: seq<seq<bool>>, q: seq<seq<bool>>, n: nat)
    requires Square(p, n) && Square(q, n) && forall x, y :: 0 <= x < n && 0 <= y < n ==> p[y][x] == q[y][x]
    ensures p == q
  {
    forall y | 0 <= y < n ensures p[y] == q[y] {}
  }
}
