/** Numeric and alphanumeric segments: how text is packed into bits, and that it can be unpacked again. */
module TextSegments {
  import opened Bytes
  import opened BitStrings
  import opened BitBuffer
  import opened Segments

  // ----- Numeric mode: three digits to ten bits.

  predicate IsNumeric(text: string) {
    forall i :: 0 <= i < |text| ==> '0' <= text[i] <= '9'
  }

  function DigitValue(c: char): nat
    requires '0' <= c <= '9'
  {
    c as int - '0' as int
  }

  function DigitChar(d: nat): char
    requires d < 10
  {
    (d + '0' as int) as char
  }

  function Number(digits: string): nat
    requires IsNumeric(digits)
  {
    if digits == "" then 0 else 10 * Number(digits[..|digits| - 1]) + DigitValue(digits[|digits| - 1])
  }

  /** The bits of up to three digits. */
  function GroupBits(digits: string): (s: seq<bool>)
    requires IsNumeric(digits) && |digits| <= 3
    ensures |s| == if digits == "" then 0 else 3 * |digits| + 1
  {
    if digits == "" then [] else BitsOf(Number(digits), 3 * |digits| + 1)
  }

  function NumericBits(text: string): (s: seq<bool>)
    requires IsNumeric(text)
    ensures |s| == (10 * |text| + 2) / 3
  {
    if |text| <= 3 then GroupBits(text) else GroupBits(text[..3]) + NumericBits(text[3..])
  }

  /** Digits read back from a number of `n` digits. */
  function Digits(v: nat, n: nat): (text: string)
    ensures |text| == n && IsNumeric(text)
  {
    if n == 0 then "" else Digits(v / 10, n - 1) + [DigitChar(v % 10)]
  }

  /** The decoder for `n` digits. */
  function NumericText(bits: seq<bool>, n: nat): (text: string)
    requires |bits| == (10 * n + 2) / 3
    ensures |text| == n
  {
    if n <= 3 then Digits(NumberOf(bits), n)
    else Digits(NumberOf(bits[..10]), 3) + NumericText(bits[10..], n - 3)
  }

  lemma {:induction false} DigitsOfNumber(text: string)
    requires IsNumeric(text)
    ensures Digits(Number(text), |text|) == text
  {
    if text == "" {
    } else {
      var init := text[..|text| - 1];
      DigitsOfNumber(init);
      assert text == init + [text[|text| - 1]];
      assert Number(text) / 10 == Number(init) && Number(text) % 10 == DigitValue(text[|text| - 1]);
    }
  }

  lemma GroupNumber(text: string)
    requires IsNumeric(text) && |text| <= 3
    ensures Number(text) < Pow2(if text == "" then 0 else 3 * |text| + 1)
    ensures NumberOf(GroupBits(text)) == Number(text)
  {
    hide NumberOf, BitsOf;
    SmallPowers();
    if text == "" {
      EmptyNumber();
    } else {
      var n := |text|;
      assert Number(text) <= if n == 1 then 9 else if n == 2 then 99 else 999 by {
        if n >= 2 { assert text[..n - 1][..n - 2] == text[..n - 2]; }
        if n == 3 { assert text[..1][..0] == ""; }
      }
      NumberOfBits(Number(text), 3 * n + 1);
    }
  }

  lemma EmptyNumber()
    ensures NumberOf([]) == 0
  {}

  /** Decoding undoes numeric encoding. */
  lemma {:induction false} NumericRoundTrip(text: string)
    requires IsNumeric(text)
    ensures NumericText(NumericBits(text), |text|) == text
  {
    hide NumberOf, GroupBits, Digits, Number, NumericBits, NumericText;
    if |text| <= 3 {
      GroupRoundTrip(text);
      OneGroup(text);
      ShortText(GroupBits(text), |text|);
    } else {
      NumericRoundTrip(text[3..]);
      GroupRoundTrip(text[..3]);
      NumericHead(text);
      NumericTextHead(GroupBits(text[..3]), NumericBits(text[3..]), |text|);
      assert text == text[..3] + text[3..];
    }
  }

  lemma GroupRoundTrip(text: string)
    requires IsNumeric(text) && |text| <= 3
    ensures Digits(NumberOf(GroupBits(text)), |text|) == text
  {
    hide NumberOf, GroupBits, Digits, Number;
    GroupNumber(text);
    DigitsOfNumber(text);
  }

  lemma ShortText(bits: seq<bool>, n: nat)
    requires n <= 3 && |bits| == (10 * n + 2) / 3
    ensures NumericText(bits, n) == Digits(NumberOf(bits), n)
  {
    hide NumberOf, Digits;
  }

  lemma NumericTextHead(first: seq<bool>, rest: seq<bool>, n: nat)
    requires |first| == 10 && n > 3 && |rest| == (10 * (n - 3) + 2) / 3
    ensures NumericText(first + rest, n) == Digits(NumberOf(first), 3) + NumericText(rest, n - 3)
  {
    hide NumberOf, Digits;
    assert (first + rest)[..10] == first && (first + rest)[10..] == rest;
  }

  /** Three digits take 10 bits, two that remain take 7, one takes 4: the most significant digit comes first. */
  lemma DigitsPacked(x: char, y: char, z: char, rest: string)
    requires IsNumeric([x, y, z] + rest)
    ensures '0' <= x <= '9' && '0' <= y <= '9' && '0' <= z <= '9'
    ensures IsNumeric(rest) && IsNumeric([x, y]) && IsNumeric([x])
    ensures var a, b, c := x as int - 48, y as int - 48, z as int - 48;
            && NumericBits([x, y, z] + rest) == BitsOf(100 * a + 10 * b + c, 10) + NumericBits(rest)
            && NumericBits([x, y]) == BitsOf(10 * a + b, 7)
            && NumericBits([x]) == BitsOf(a, 4)
            && NumericBits("") == []
  {
    hide BitsOf, NumericBits, Number;
    var text := [x, y, z] + rest;
    assert text[0] == x && text[1] == y && text[2] == z && forall k :: 0 <= k < |rest| ==> rest[k] == text[k + 3];
    NumericHead(text);
    assert text[..3] == [x, y, z] && text[3..] == rest;
    NumberOfDigits(x, y, z);
    OneGroup([x, y]);
    OneGroup([x]);
    NothingNumeric();
  }

  lemma NumberOfDigits(x: char, y: char, z: char)
    requires '0' <= x <= '9' && '0' <= y <= '9' && '0' <= z <= '9'
    ensures Number([x]) == DigitValue(x) && Number([x, y]) == 10 * DigitValue(x) + DigitValue(y)
    ensures Number([x, y, z]) == 100 * DigitValue(x) + 10 * DigitValue(y) + DigitValue(z)
  {
    assert [x][..0] == "" && [x, y][..1] == [x] && [x, y, z][..2] == [x, y];
  }

  /** Whole groups can be split off at the end, too. */
  lemma {:induction false} NumericAppend(text: string, more: string)
    requires IsNumeric(text) && IsNumeric(more) && |text| % 3 == 0
    ensures IsNumeric(text + more) && NumericBits(text + more) == NumericBits(text) + NumericBits(more)
  {
    hide GroupBits, NumericBits;
    if text == "" {
      NothingNumeric();
      assert text + more == more && [] + NumericBits(more) == NumericBits(more);
    } else {
      NumericAppend(text[3..], more);
      NumericHead(text);
      NumericHead(text + more);
      assert (text + more)[..3] == text[..3] && (text + more)[3..] == text[3..] + more;
      JoinBits(GroupBits(text[..3]), NumericBits(text[3..]), NumericBits(more));
    }
  }

  lemma NothingNumeric()
    ensures NumericBits("") == []
  {}

  lemma NumericHead(text: string)
    requires IsNumeric(text) && |text| >= 3
    ensures NumericBits(text) == GroupBits(text[..3]) + NumericBits(text[3..])
  {
    hide GroupBits;
    if |text| == 3 {
      NothingNumeric();
      assert text[..3] == text && text[3..] == "";
    }
  }

  /** The bits of the first digits. */
  function BitsBefore(digits: string, i: nat): seq<bool>
    requires IsNumeric(digits) && i <= |digits|
  {
    NumericBits(digits[..i])
  }

  function NumberBetween(digits: string, start: nat, i: nat): nat
    requires IsNumeric(digits) && start <= i <= |digits|
  {
    Number(digits[start..i])
  }

  /** Write out the digits from `start` to `i`, whose number has been accumulated. */
  method FlushDigits(digits: string, start: nat, i: nat, accumData: nat, buf: array<Byte>, bitLength: nat, ghost n: nat)
      returns (next: nat)
    requires IsNumeric(digits) && start < i <= |digits| && start % 3 == 0 && i - start <= 3
    requires accumData == NumberBetween(digits, start, i)
    requires |NumericBits(digits)| <= 8 * n
    requires Holds(buf[..], n, BitsBefore(digits, start)) && bitLength == |BitsBefore(digits, start)|
    modifies buf
    ensures Holds(buf[..], n, BitsBefore(digits, i)) && next == |BitsBefore(digits, i)|
  {
    hide NumericBits, BitsOf, NumberBetween, BitsBefore, GroupBits, Holds, Pow2, IsNumeric;
    GroupFlushed(digits, start, i);
    next := AppendToClean(accumData, (i - start) * 3 + 1, buf, bitLength, n, BitsBefore(digits, start));
  }

  /** The loop over the digits, and the write after it. */
  method PackDigits(digits: string, buf: array<Byte>, ghost n: nat) returns (bitLength: nat)
    requires IsNumeric(digits) && Holds(buf[..], n, []) && |NumericBits(digits)| <= 8 * n
    modifies buf
    ensures Holds(buf[..], n, NumericBits(digits)) && bitLength == |NumericBits(digits)|
  {
    hide NumericBits, BitsOf, NumberBetween, BitsBefore, GroupBits, Holds, Pow2, IsNumeric;
    var accumData, accumCount := 0, 0;
    bitLength := 0;
    ghost var start := 0;
    NoDigits(digits, 0);
    AllDigits(digits);
    var i := 0;
    while i < |digits|
      invariant 0 <= start <= i <= |digits| && accumCount == i - start < 3 && start % 3 == 0
      invariant accumData == NumberBetween(digits, start, i)
      invariant Holds(buf[..], n, BitsBefore(digits, start)) && bitLength == |BitsBefore(digits, start)|
    {
      NextDigit(digits, start, i);
      accumData := accumData * 10 + DigitValue(digits[i]);
      accumCount := accumCount + 1;
      i := i + 1;
      if accumCount == 3 {
        bitLength := FlushDigits(digits, i - 3, i, accumData, buf, bitLength, n);
        accumData, accumCount, start := 0, 0, i;
        NoDigits(digits, i);
      }
    }
    if accumCount > 0 {
      bitLength := FlushDigits(digits, i - accumCount, i, accumData, buf, bitLength, n);
    }
  }

  /** `qrcodegen_makeNumeric` */
  method MakeNumeric(digits: string, buf: array<Byte>) returns (seg: RawSegment)
    requires IsNumeric(digits)
    requires var bitLen := SegmentBitLength(NUMERIC, |digits|); bitLen.Some? && (bitLen.value + 7) / 8 <= buf.Length
    modifies buf
    ensures seg.Valid() && seg.mode == NUMERIC && seg.numChars == |digits| && seg.data == buf[..]
    ensures WellFormed(seg) && seg.Payload() == NumericBits(digits)
  {
    hide NumericBits, BitsOf, Number, GroupBits, Holds, Pow2, RawSegment.Payload;
    var bitLen := SegmentBitLength(NUMERIC, |digits|).value;
    var n := (bitLen + 7) / 8;
    Clear(buf, n);
    var bitLength := PackDigits(digits, buf, n);
    seg := RawSegment.Segment(NUMERIC, |digits|, buf[..], bitLength);
    HeldPayload(seg, n, NumericBits(digits));
  }

  lemma NoDigits(digits: string, i: nat)
    requires IsNumeric(digits) && i <= |digits|
    ensures NumberBetween(digits, i, i) == 0 && BitsBefore(digits, 0) == []
  {}

  lemma AllDigits(digits: string)
    requires IsNumeric(digits)
    ensures BitsBefore(digits, |digits|) == NumericBits(digits)
  {
    assert digits[..|digits|] == digits;
  }

  lemma NextDigit(digits: string, start: nat, i: nat)
    requires IsNumeric(digits) && start <= i < |digits|
    ensures '0' <= digits[i] <= '9'
    ensures NumberBetween(digits, start, i + 1) == 10 * NumberBetween(digits, start, i) + DigitValue(digits[i])
  {
    assert digits[start..i + 1][..i - start] == digits[start..i];
  }

  /** What the bits of a finished group add. */
  lemma GroupFlushed(digits: string, start: nat, i: nat)
    requires IsNumeric(digits) && start < i <= |digits| && start % 3 == 0 && i - start <= 3
    ensures var w := 3 * (i - start) + 1;
            NumberBetween(digits, start, i) < Pow2(w)
            && BitsBefore(digits, i) == BitsBefore(digits, start) + BitsOf(NumberBetween(digits, start, i), w)
    ensures |BitsBefore(digits, i)| <= |NumericBits(digits)|
  {
    hide BitsOf, Number, Pow2, NumberOf, NumericBits;
    GroupNumber(digits[start..i]);
    NumericAppend(digits[..start], digits[start..i]);
    OneGroup(digits[start..i]);
    assert digits[..i] == digits[..start] + digits[start..i];
  }

  lemma OneGroup(digits: string)
    requires IsNumeric(digits) && |digits| <= 3
    ensures NumericBits(digits) == GroupBits(digits)
  {}

  // ----- Alphanumeric mode: two characters to eleven bits.

  const CHARSET := "0123456789ABCDEFGHIJKLMNOPQRSTUVWXYZ $%*+-./:"

  /** Where the character first stands in the rest of the set, or the set's length: `strchr` as an offset. */
  function IndexOf(c: char, set_: string, from: nat): (i: nat)
    requires from <= |set_|
    ensures from <= i <= |set_| && (i < |set_| ==> set_[i] == c)
    decreases |set_| - from
  {
    if from == |set_| || set_[from] == c then from else IndexOf(c, set_, from + 1)
  }

  function CharValue(c: char): (v: nat)
    ensures v <= |CHARSET| && (v < |CHARSET| ==> CHARSET[v] == c)
  {
    IndexOf(c, CHARSET, 0)
  }

  predicate IsAlphanumeric(text: string) {
    forall i :: 0 <= i < |text| ==> CharValue(text[i]) < |CHARSET|
  }

  lemma CharsetSize()
    ensures |CHARSET| == 45
  {}

  /** The bits of one or two characters. */
  function PairBits(text: string): (s: seq<bool>)
    requires IsAlphanumeric(text) && 1 <= |text| <= 2
    ensures |s| == if |text| == 1 then 6 else 11
  {
    if |text| == 1 then BitsOf(CharValue(text[0]), 6)
    else BitsOf(CharValue(text[0]) * 45 + CharValue(text[1]), 11)
  }

  function AlphanumericBits(text: string): (s: seq<bool>)
    requires IsAlphanumeric(text)
    ensures |s| == (11 * |text| + 1) / 2
  {
    if text == "" then [] else if |text| <= 2 then PairBits(text) else PairBits(text[..2]) + AlphanumericBits(text[2..])
  }

  /** The character with a given value; the decoder meets no larger one. */
  function CharOf(v: nat): char {
    if v < |CHARSET| then CHARSET[v] else ' '
  }

  /** The decoder for `n` characters. */
  function AlphanumericText(bits: seq<bool>, n: nat): (text: string)
    requires |bits| == (11 * n + 1) / 2
  {
    if n == 0 then ""
    else if n == 1 then [CharOf(NumberOf(bits))]
    else
      var v := NumberOf(bits[..11]);
      [CharOf(v / 45), CharOf(v % 45)] + AlphanumericText(bits[11..], n - 2)
  }

  lemma PairNumber(text: string)
    requires IsAlphanumeric(text) && 1 <= |text| <= 2
    ensures var v := if |text| == 1 then CharValue(text[0]) else CharValue(text[0]) * 45 + CharValue(text[1]);
            && v < Pow2(if |text| == 1 then 6 else 11) && NumberOf(PairBits(text)) == v
            && (|text| == 2 ==> v / 45 == CharValue(text[0]) && v % 45 == CharValue(text[1]))
  {
    hide NumberOf, BitsOf, CharValue, Pow2;
    SmallPowers();
    CharsetSize();
    if |text| == 1 {
      NumberOfBits(CharValue(text[0]), 6);
    } else {
      NumberOfBits(CharValue(text[0]) * 45 + CharValue(text[1]), 11);
    }
  }

  /** Decoding undoes alphanumeric encoding. */
  lemma {:induction false} AlphanumericRoundTrip(text: string)
    requires IsAlphanumeric(text)
    ensures AlphanumericText(AlphanumericBits(text), |text|) == text
  {
    hide NumberOf, PairBits, CharValue, AlphanumericBits, AlphanumericText;
    if |text| <= 1 {
      ShortAlphanumeric(text);
    } else {
      var pair, rest := text[..2], text[2..];
      AlphanumericRoundTrip(rest);
      AlphanumericHead(text);
      PairRoundTrip(pair, AlphanumericBits(rest), |rest|);
      assert text == pair + rest;
    }
  }

  lemma ShortAlphanumeric(text: string)
    requires IsAlphanumeric(text) && |text| <= 1
    ensures AlphanumericText(AlphanumericBits(text), |text|) == text
  {
    hide NumberOf, PairBits, CharValue;
    if text != "" {
      PairNumber(text);
    }
  }

  lemma PairRoundTrip(pair: string, rest: seq<bool>, n: nat)
    requires IsAlphanumeric(pair) && |pair| == 2 && |rest| == (11 * n + 1) / 2
    ensures AlphanumericText(PairBits(pair) + rest, n + 2) == pair + AlphanumericText(rest, n)
  {
    hide NumberOf, PairBits, CharValue;
    PairNumber(pair);
    assert (PairBits(pair) + rest)[..11] == PairBits(pair) && (PairBits(pair) + rest)[11..] == rest;
    assert pair == [pair[0], pair[1]];
  }

  lemma {:induction false} AlphanumericAppend(text: string, more: string)
    requires IsAlphanumeric(text) && IsAlphanumeric(more) && |text| % 2 == 0 && 1 <= |more| <= 2
    ensures IsAlphanumeric(text + more) && AlphanumericBits(text + more) == AlphanumericBits(text) + PairBits(more)
  {
    hide PairBits, CharValue, AlphanumericBits;
    if text == "" {
      OnePair(more);
      assert text + more == more && [] + PairBits(more) == PairBits(more);
    } else {
      AlphanumericAppend(text[2..], more);
      AlphanumericHead(text);
      AlphanumericHead(text + more);
      assert (text + more)[..2] == text[..2] && (text + more)[2..] == text[2..] + more;
      JoinBits(PairBits(text[..2]), AlphanumericBits(text[2..]), PairBits(more));
    }
  }

  lemma OnePair(text: string)
    requires IsAlphanumeric(text) && 1 <= |text| <= 2
    ensures AlphanumericBits(text) == PairBits(text) && AlphanumericBits("") == []
  {}

  lemma AlphanumericHead(text: string)
    requires IsAlphanumeric(text) && |text| >= 2
    ensures AlphanumericBits(text) == PairBits(text[..2]) + AlphanumericBits(text[2..])
  {
    if |text| == 2 {
      hide PairBits, CharValue, AlphanumericBits;
      assert text[..2] == text && text[2..] == "";
      OnePair(text);
      assert PairBits(text) + [] == PairBits(text);
    } else {
      hide PairBits, CharValue;
    }
  }

  /** Two characters take 11 bits, one that remains takes 6: the first one counts 45 times its place in the set. */
  lemma CharactersPacked(x: char, y: char, rest: string) returns (i: nat, j: nat)
    requires IsAlphanumeric([x, y] + rest)
    ensures i < 45 && j < 45 && "0123456789ABCDEFGHIJKLMNOPQRSTUVWXYZ $%*+-./:"[i] == x &&
            "0123456789ABCDEFGHIJKLMNOPQRSTUVWXYZ $%*+-./:"[j] == y
    ensures IsAlphanumeric([x]) && IsAlphanumeric(rest)
    ensures AlphanumericBits([x, y] + rest) == BitsOf(45 * i + j, 11) + AlphanumericBits(rest)
    ensures AlphanumericBits([x]) == BitsOf(i, 6) && AlphanumericBits("") == []
  {
    hide BitsOf, AlphanumericBits, CharValue;
    var text := [x, y] + rest;
    assert text[0] == x && text[1] == y;
    i, j := CharValue(x), CharValue(y);
    CharsetSize();
    assert forall k :: 0 <= k < |rest| ==> rest[k] == text[k + 2];
    AlphanumericHead(text);
    assert text[..2] == [x, y] && text[2..] == rest;
    OnePair([x]);
  }

  /** The bits of the first characters. */
  function PairsBefore(text: string, i: nat): seq<bool>
    requires IsAlphanumeric(text) && i <= |text|
  {
    AlphanumericBits(text[..i])
  }

  lemma PairAt(text: string, start: nat, i: nat)
    requires IsAlphanumeric(text) && start < i <= |text| && i - start <= 2
    ensures var len := if i - start == 1 then 6 else 11;
            var v := if i - start == 1 then CharValue(text[start])
                     else CharValue(text[start]) * 45 + CharValue(text[start + 1]);
            PairBits(text[start..i]) == BitsOf(v, len) && v < Pow2(len)
  {
    hide BitsOf, CharValue, Pow2;
    PairNumber(text[start..i]);
  }

  /** What the bits of a finished pair add. */
  lemma PairFlushed(text: string, start: nat, i: nat)
    requires IsAlphanumeric(text) && start < i <= |text| && start % 2 == 0 && i - start <= 2
    ensures var len := if i - start == 1 then 6 else 11;
            var v := if i - start == 1 then CharValue(text[start])
                     else CharValue(text[start]) * 45 + CharValue(text[start + 1]);
            PairsBefore(text, i) == PairsBefore(text, start) + BitsOf(v, len) && v < Pow2(len)
    ensures |PairsBefore(text, i)| <= |AlphanumericBits(text)|
  {
    hide PairsBefore, PairBits, CharValue, AlphanumericBits, BitsOf, Pow2;
    PairJoined(text, start, i);
    PairAt(text, start, i);
  }

  lemma PairJoined(text: string, start: nat, i: nat)
    requires IsAlphanumeric(text) && start < i <= |text| && start % 2 == 0 && i - start <= 2
    ensures PairsBefore(text, i) == PairsBefore(text, start) + PairBits(text[start..i])
    ensures |PairsBefore(text, i)| <= |AlphanumericBits(text)|
  {
    hide PairBits, CharValue, AlphanumericBits;
    AlphanumericAppend(text[..start], text[start..i]);
    assert text[..i] == text[..start] + text[start..i];
  }

  /** Write out the characters from `start` to `i`, whose number has been accumulated. */
  method FlushPair(text: string, start: nat, i: nat, accumData: nat, buf: array<Byte>, bitLength: nat, ghost n: nat)
      returns (next: nat)
    requires IsAlphanumeric(text) && start < i <= |text| && start % 2 == 0 && i - start <= 2
    requires accumData == if i - start == 1 then CharValue(text[start])
                          else CharValue(text[start]) * 45 + CharValue(text[start + 1])
    requires |AlphanumericBits(text)| <= 8 * n
    requires Holds(buf[..], n, PairsBefore(text, start)) && bitLength == |PairsBefore(text, start)|
    modifies buf
    ensures Holds(buf[..], n, PairsBefore(text, i)) && next == |PairsBefore(text, i)|
  {
    hide AlphanumericBits, PairsBefore, BitsOf, CharValue, Holds, Pow2, IsAlphanumeric;
    PairFlushed(text, start, i);
    next := AppendToClean(accumData, if i - start == 1 then 6 else 11, buf, bitLength, n, PairsBefore(text, start));
  }

  /** The loop over the characters, and the write after it. */
  method PackCharacters(text: string, buf: array<Byte>, ghost n: nat) returns (bitLength: nat)
    requires IsAlphanumeric(text) && Holds(buf[..], n, []) && |AlphanumericBits(text)| <= 8 * n
    modifies buf
    ensures Holds(buf[..], n, AlphanumericBits(text)) && bitLength == |AlphanumericBits(text)|
  {
    hide AlphanumericBits, PairsBefore, BitsOf, CharValue, Holds, Pow2, IsAlphanumeric;
    var accumData, accumCount := 0, 0;
    bitLength := 0;
    NoCharacters(text);
    var i := 0;
    while i < |text|
      invariant 0 <= accumCount <= i <= |text| && accumCount < 2 && (i - accumCount) % 2 == 0
      invariant accumData == if accumCount == 0 then 0 else CharValue(text[i - 1])
      invariant Holds(buf[..], n, PairsBefore(text, i - accumCount)) && bitLength == |PairsBefore(text, i - accumCount)|
    {
      accumData := accumData * 45 + CharValue(text[i]);
      accumCount := accumCount + 1;
      i := i + 1;
      if accumCount == 2 {
        bitLength := FlushPair(text, i - 2, i, accumData, buf, bitLength, n);
        accumData, accumCount := 0, 0;
      }
    }
    if accumCount > 0 {
      bitLength := FlushPair(text, i - 1, i, accumData, buf, bitLength, n);
    }
  }

  /** `qrcodegen_makeAlphanumeric` */
  method MakeAlphanumeric(text: string, buf: array<Byte>) returns (seg: RawSegment)
    requires IsAlphanumeric(text)
    requires var bitLen := SegmentBitLength(ALPHANUMERIC, |text|); bitLen.Some? && (bitLen.value + 7) / 8 <= buf.Length
    modifies buf
    ensures seg.Valid() && seg.mode == ALPHANUMERIC && seg.numChars == |text| && seg.data == buf[..]
    ensures WellFormed(seg) && seg.Payload() == AlphanumericBits(text)
  {
    hide AlphanumericBits, BitsOf, CharValue, Holds, Pow2, RawSegment.Payload;
    var bitLen := SegmentBitLength(ALPHANUMERIC, |text|).value;
    var n := (bitLen + 7) / 8;
    Clear(buf, n);
    var bitLength := PackCharacters(text, buf, n);
    seg := RawSegment.Segment(ALPHANUMERIC, |text|, buf[..], bitLength);
    HeldPayload(seg, n, AlphanumericBits(text));
  }

  lemma NoCharacters(text: string)
    requires IsAlphanumeric(text)
    ensures PairsBefore(text, 0) == [] && PairsBefore(text, |text|) == AlphanumericBits(text)
  {
    hide CharValue;
    assert text[..|text|] == text;
  }
}
