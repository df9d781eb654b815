/**
 TXT records: the entries as they are written, the parser that reads them, and the comparison of two hosts' data when
 both claim a name (section 6 of RFC 6763, section 8.2 of RFC 6762).
 */
module TxtRecords {
  import opened Options
  import opened DnsName

  const EQUALS: Octet := 61

  /** A TXT item; the value may be missing. */
  datatype TxtItem = TxtItem(key: Text, value: Option<Text>)

  // ----- Writing.

  /** The bytes of an entry after its length byte. */
  function Body(item: TxtItem): Text {
    item.key + if item.value.Some? then [EQUALS] + item.value.value else []
  }

  /** An entry; the length byte holds the length modulo 256. */
  function Entry(item: TxtItem): (s: Text)
    ensures |s| == 1 + |Body(item)|
  {
    [|Body(item)| % 256] + Body(item)
  }

  function Encode(items: seq<TxtItem>): Text {
    if items == [] then [] else Entry(items[0]) + Encode(items[1..])
  }

  /** `mdns_priv_append_one_txt_record_entry`; the array ends behind the entry at the earliest. */
  method AppendEntry(packet: array<Octet>, index: nat, txt: TxtItem) returns (next: nat, written: nat)
    requires index + |Entry(txt)| < MAX_PACKET_SIZE ==> index + |Entry(txt)| <= packet.Length
    modifies packet
    ensures if index + |Entry(txt)| >= MAX_PACKET_SIZE then
              packet[..] == old(packet[..]) && next == index && written == 0
            else next == index + |Entry(txt)| && written == |Entry(txt)| && packet[index..next] == Entry(txt) &&
                 forall k :: 0 <= k < index || next <= k < packet.Length ==> packet[k] == old(packet[k])
  {
    hide Entry;
    var keyLen := |txt.key|;
    var len := keyLen + (if txt.value.Some? then |txt.value.value| + 1 else 0);
    if index + len + 1 >= MAX_PACKET_SIZE {
      return index, 0;
    }
    packet[index] := len % 256;
    forall i | 0 <= i < keyLen {
      packet[index + 1 + i] := txt.key[i];
    }
    if txt.value.Some? {
      packet[index + 1 + keyLen] := EQUALS;
      forall i | 0 <= i < |txt.value.value| {
        packet[index + 1 + keyLen + 1 + i] := txt.value.value[i];
      }
    }
    forall k | 0 <= k <= len ensures packet[index + k] == Entry(txt)[k] {
      EntryAt(txt, k);
    }
    assert packet[index..index + len + 1] == Entry(txt);
    return index + len + 1, len + 1;
  }

  lemma EntryAt(item: TxtItem, k: nat)
    requires k < |Entry(item)|
    ensures var n := |item.key|;
            Entry(item)[k] == if k == 0 then |Body(item)| % 256 else if k <= n then item.key[k - 1]
                              else if k == n + 1 then EQUALS else item.value.value[k - n - 2]
  {}

  lemma EncodeFirst(items: seq<TxtItem>)
    requires items != []
    ensures Encode(items) == Entry(items[0]) + Encode(items[1..])
  {}

  lemma Associative(a: Text, b: Text, c: Text)
    ensures a + b + c == a + (b + c)
  {}

  lemma {:induction false} EncodeAppend(a: seq<TxtItem>, b: seq<TxtItem>)
    ensures Encode(a + b) == Encode(a) + Encode(b)
  {
    hide Entry, Encode;
    if a == [] {
      EncodeNothing();
      assert a + b == b;
    } else {
      EncodeAppend(a[1..], b);
      EncodeFirst(a);
      EncodeFirst(a + b);
      assert (a + b)[1..] == a[1..] + b;
      Associative(Entry(a[0]), Encode(a[1..]), Encode(b));
    }
  }

  lemma EncodeStep(items: seq<TxtItem>, k: nat)
    requires k < |items|
    ensures Encode(items[..k + 1]) == Encode(items[..k]) + Entry(items[k])
    ensures |Encode(items[..k + 1])| <= |Encode(items)|
  {
    hide Entry, Encode;
    EncodeAppend(items[..k], [items[k]]);
    assert items[..k] + [items[k]] == items[..k + 1];
    EncodeOne(items[k]);
    EncodeAppend(items[..k + 1], items[k + 1..]);
    assert items[..k + 1] + items[k + 1..] == items;
  }

  lemma EncodeOne(item: TxtItem)
    ensures Encode([item]) == Entry(item)
  {
    hide Entry;
    assert [item][1..] == [] && Entry(item) + [] == Entry(item);
  }

  /** The loop over the items: all of them are written if they fit the packet. */
  method AppendEntries(packet: array<Octet>, index: nat, items: seq<TxtItem>) returns (next: nat, fits: bool)
    requires index + |Encode(items)| <= packet.Length
    modifies packet
    ensures fits ==> next == index + |Encode(items)| && packet[index..next] == Encode(items)
    ensures !fits ==> index + |Encode(items)| >= MAX_PACKET_SIZE
    ensures packet[..index] == old(packet[..index])
  {
    hide Encode, Entry;
    next := index;
    var k := 0;
    EncodeNothing();
    while k < |items|
      invariant 0 <= k <= |items| && next == index + |Encode(items[..k])| <= packet.Length
      invariant packet[index..next] == Encode(items[..k]) && packet[..index] == old(packet[..index])
    {
      EncodeStep(items, k);
      var start, written := next, 0;
      next, written := AppendEntry(packet, next, items[k]);
      if written == 0 {
        EntryLen(items[k]);
        return next, false;
      }
      SplitAt(packet[..], index, start, next);
      k := k + 1;
    }
    assert items[..k] == items;
    return next, true;
  }

  lemma SplitAt(s: seq<Octet>, i: nat, j: nat, k: nat)
    requires i <= j <= k <= |s|
    ensures s[i..k] == s[i..j] + s[j..k]
  {}

  lemma EntryLen(item: TxtItem)
    ensures |Entry(item)| > 0
  {}

  lemma EncodeNothing()
    ensures Encode([]) == []
  {}

  // ----- Reading.

  /** `get_txt_items_count` on the rest of the data: -1 stands for an error. */
  function CountItems(s: Text): (n: int)
    ensures -1 <= n <= |s|
  {
    if s == [] || s[0] == 0 then 0
    else if 1 + s[0] > |s| then -1
    else
      var n := CountItems(s[1 + s[0]..]);
      if n < 0 then -1 else n + 1
  }

  /** The number of items in the data of a record. */
  function ItemCount(data: Text): int {
    if |data| == 1 then 0 else CountItems(data)
  }

  /** `get_txt_item_len`: the length of the key, or -1 if there is none. */
  function KeyLen(s: Text): (n: int)
    requires s != []
    ensures -1 <= n <= |s| && n != 0
    ensures n >= 0 ==> EQUALS !in s[..n] && (n < |s| ==> s[n] == EQUALS)
  {
    if s[0] == EQUALS then -1 else FindEquals(s)
  }

  function FindEquals(s: Text): (n: nat)
    ensures n <= |s| && EQUALS !in s[..n] && (n < |s| ==> s[n] == EQUALS)
    ensures s != [] && s[0] != EQUALS ==> n > 0
  {
    if s == [] || s[0] == EQUALS then 0
    else
      var n := FindEquals(s[1..]);
      assert s[..1 + n] == [s[0]] + s[1..][..n];
      1 + n
  }

  /** The item in an entry whose body is `s`, with key length `n`. */
  function ItemOf(s: Text, n: nat): TxtItem
    requires n <= |s|
  {
    TxtItem(s[..n], if |s| - n - 1 > 0 then Some(s[n + 1..]) else None)
  }

  function Drop(s: Text, n: nat): (t: Text)
    ensures |t| == if n <= |s| then |s| - n else 0
  {
    if n <= |s| then s[n..] else []
  }

  /** The number of bytes that are passed for an item: one too many if there is no '='. */
  function Passed(part: nat, n: nat): nat {
    if part - n - 1 > 0 then 1 + part else 1 + n + 1
  }

  /** The parser loop on the rest of the data, with room for so many items; none if the data is malformed. */
  function Parse(s: Text, room: nat): (r: Option<seq<TxtItem>>)
    ensures r.Some? ==> |r.value| <= room
    decreases |s|
  {
    if s == [] || room == 0 || s[0] == 0 then Some([])
    else if 1 + s[0] > |s| then None
    else
      var body := s[1..1 + s[0]];
      var n := KeyLen(body);
      if n < 0 then Parse(s[1 + s[0]..], room)
      else
        var rest := Parse(Drop(s, Passed(s[0], n)), room - 1);
        if rest.None? then None else Some([ItemOf(body, n)] + rest.value)
  }

  /** What `result_txt_create` makes of the data of a record. */
  function Result(data: Text): seq<TxtItem> {
    var n := ItemCount(data);
    if n <= 0 then []
    else
      var r := Parse(data, n);
      if r.None? then [] else r.value
  }

  /** `get_txt_items_count` */
  method GetItemsCount(data: array<Octet>, from: nat, len: nat) returns (numItems: int)
    requires from + len <= data.Length && len < 0x1_0000
    ensures numItems == ItemCount(data[from..from + len])
  {
    hide CountItems;
    if len == 1 {
      return 0;
    }
    numItems := 0;
    var i := 0;
    while i < len
      invariant 0 <= i <= len && numItems >= 0
      invariant CountItems(data[from..from + len]) ==
                var n := CountItems(data[from + i..from + len]); if n < 0 then -1 else numItems + n
    {
      CountStep(data[from + i..from + len]);
      var partLen: nat := data[from + i];
      i := i + 1;
      if partLen == 0 {
        return;
      }
      if i + partLen > len {
        return -1;
      }
      assert data[from + i - 1..from + len][1 + partLen..] == data[from + i + partLen..from + len];
      i := i + partLen;
      numItems := numItems + 1;
    }
    CountNothing();
    assert data[from + i..from + len] == [];
  }

  lemma CountStep(s: Text)
    requires s != []
    ensures CountItems(s) == if s[0] == 0 then 0 else if 1 + s[0] > |s| then -1
                             else var n := CountItems(s[1 + s[0]..]); if n < 0 then -1 else n + 1
  {}

  lemma CountNothing()
    ensures CountItems([]) == 0
  {}

  /** `get_txt_item_len` */
  method GetItemLen(data: array<Octet>, from: nat, len: nat) returns (n: int)
    requires from + len <= data.Length && len > 0
    ensures n == KeyLen(data[from..from + len])
  {
    ghost var s := data[from..from + len];
    if data[from] == EQUALS {
      return -1;
    }
    var i := 0;
    assert s[0..] == s;
    while i < len
      invariant 0 <= i <= len && FindEquals(s) == i + FindEquals(s[i..])
    {
      if data[from + i] == EQUALS {
        return i;
      }
      assert s[i..][1..] == s[i + 1..];
      i := i + 1;
    }
    return len;
  }

  /** The result of the parser when some items have been read and `s` is the rest. */
  function Continued(done: seq<TxtItem>, s: Text, room: nat): Option<seq<TxtItem>> {
    var r := Parse(s, room);
    if r.None? then None else Some(done + r.value)
  }

  lemma ContinuedStart(s: Text, room: nat)
    ensures Continued([], s, room) == Parse(s, room)
  {
    var r := Parse(s, room);
    assert r.Some? ==> [] + r.value == r.value;
  }

  lemma ContinuedEnd(done: seq<TxtItem>, s: Text, room: nat)
    requires s == [] || room == 0 || s[0] == 0
    ensures Continued(done, s, room) == Some(done)
  {
    assert done + [] == done;
  }

  lemma ContinuedError(done: seq<TxtItem>, s: Text, room: nat)
    requires s != [] && room > 0 && s[0] != 0 && 1 + s[0] > |s|
    ensures Continued(done, s, room) == None
  {}

  lemma ContinuedSkip(done: seq<TxtItem>, s: Text, room: nat)
    requires s != [] && room > 0 && s[0] != 0 && 1 + s[0] <= |s| && KeyLen(s[1..1 + s[0]]) < 0
    ensures var part: nat := s[0]; Continued(done, s, room) == Continued(done, Drop(s, 1 + part), room)
  {}

  lemma ContinuedItem(done: seq<TxtItem>, s: Text, room: nat, n: nat)
    requires s != [] && room > 0 && s[0] != 0 && 1 + s[0] <= |s| && KeyLen(s[1..1 + s[0]]) == n
    ensures Continued(done, s, room) ==
            Continued(done + [ItemOf(s[1..1 + s[0]], n)], Drop(s, Passed(s[0], n)), room - 1)
  {
    hide KeyLen, ItemOf, Passed;
    var item, r := ItemOf(s[1..1 + s[0]], n), Parse(Drop(s, Passed(s[0], n)), room - 1);
    if r.Some? {
      assert done + ([item] + r.value) == done + [item] + r.value;
    }
  }

  lemma DropDrop(s: Text, i: nat, n: nat)
    requires i <= |s|
    ensures Drop(Drop(s, i), n) == Drop(s, i + n)
  {}

  lemma SliceOfSlice(s: Text, from: nat, to: nat, i: nat, j: nat)
    requires from <= to <= |s| && i <= j <= to - from
    ensures s[from..to][i..j] == s[from + i..from + j]
  {
    var a, b := s[from..to][i..j], s[from + i..from + j];
    forall k | 0 <= k < j - i ensures a[k] == b[k] {
      assert a[k] == s[from..to][i + k] == s[from + (i + k)];
    }
    assert a == b;
  }

  /** What stands at the position that the parser has come to. */
  lemma PartAt(d: Text, from: nat, len: nat, i: nat)
    requires from + len <= |d| && i < len
    ensures var rest, part: nat := Drop(d[from..from + len], i), d[from + i];
            && rest != [] && rest[0] == part
            && (i + 1 + part <= len ==> rest[1..1 + part] == d[from + i + 1..from + i + 1 + part])
  {
    var s := d[from..from + len];
    assert Drop(s, i)[0] == s[i] == d[from + i];
    var part: nat := d[from + i];
    if i + 1 + part <= len {
      SliceOfSlice(d, from, from + len, i + 1, i + 1 + part);
      SliceOfSlice(s, i, len, 1, 1 + part);
      assert Drop(s, i) == s[i..len];
    }
  }

  /** One item is read, its key and its value copied. */
  method ReadItem(data: array<Octet>, from: nat, part: nat, n: nat) returns (item: TxtItem, i: nat)
    requires from + part <= data.Length && 0 < n <= part
    ensures item == ItemOf(data[from..from + part], n) && i == Passed(part, n) - 1
  {
    var key := data[from..from + n];
    i := n + 1;
    var newValueLen: int := part - n - 1;
    var value: Option<Text> := None;
    if newValueLen > 0 {
      value := Some(data[from + i..from + i + newValueLen]);
      i := i + newValueLen;
    }
    item := TxtItem(key, value);
    assert data[from..from + part][..n] == key;
    assert newValueLen > 0 ==> data[from..from + part][n + 1..] == data[from + n + 1..from + n + 1 + newValueLen];
  }

  lemma ResultIs(s: Text)
    ensures var n := ItemCount(s);
            if n <= 0 || Parse(s, n).None? then Result(s) == [] else Result(s) == Parse(s, n).value
  {
    hide ItemCount, Parse;
  }

  /** The branch for a part that has a key. */
  method StoreItem(data: array<Octet>, from: nat, i: nat, partLen: nat, nameLen: nat, txt: array<TxtItem>, count: nat,
                   ghost s: Text, ghost room: nat)
      returns (next: nat)
    requires from + i + partLen <= data.Length && 0 < nameLen <= partLen && count < txt.Length && 0 < i <= |s| &&
             room > 0
    requires var rest := Drop(s, i - 1);
             && rest != [] && rest[0] == partLen && 1 + partLen <= |rest|
             && rest[1..1 + partLen] == data[from + i..from + i + partLen] && KeyLen(rest[1..1 + partLen]) == nameLen
    modifies txt
    ensures i <= next <= i + partLen + 1
    ensures Continued(txt[..count + 1], Drop(s, next), room - 1) == Continued(old(txt[..count]), Drop(s, i - 1), room)
  {
    hide CountItems, Parse, KeyLen, ItemOf, Passed, Continued, Drop;
    ghost var done := txt[..count];
    ContinuedItem(done, Drop(s, i - 1), room, nameLen);
    PassedBound(partLen, nameLen);
    DropDrop(s, i - 1, Passed(partLen, nameLen));
    var item, passed := ReadItem(data, from + i, partLen, nameLen);
    txt[count] := item;
    assert txt[..count + 1] == done + [item];
    return i + passed;
  }

  /** The loop over the data, which stops when there is no room for another item. */
  method FillItems(data: array<Octet>, from: nat, len: nat, txt: array<TxtItem>) returns (ok: bool, count: nat)
    requires from + len <= data.Length
    modifies txt
    ensures count <= txt.Length
    ensures Parse(data[from..from + len], txt.Length) == if ok then Some(txt[..count]) else None
  {
    hide Parse, KeyLen, ItemOf, Passed, Continued, Drop;
    ghost var s := data[from..from + len];
    count := 0;
    var i := 0;
    DropNothing(s);
    ContinuedStart(s, txt.Length);
    assert txt[..0] == [];
    while i < len && count < txt.Length
      invariant 0 <= i <= len + 1 && 0 <= count <= txt.Length
      invariant data[from..from + len] == s
      invariant Continued(txt[..count], Drop(s, i), txt.Length - count) == Parse(s, txt.Length)
      decreases len + 1 - i
    {
      ghost var rest, done, room := Drop(s, i), txt[..count], txt.Length - count;
      PartAt(data[..], from, len, i);
      var partLen: nat := data[from + i];
      i := i + 1;
      if partLen == 0 {
        ContinuedEnd(done, rest, room);
        return true, count;
      }
      if i + partLen > len {
        ContinuedError(done, rest, room);
        return false, 0;
      }
      var nameLen := GetItemLen(data, from + i, partLen);
      KeyLenPositive(data[from + i..from + i + partLen]);
      if nameLen < 0 {
        ContinuedSkip(done, rest, room);
        DropDrop(s, i - 1, 1 + partLen);
        i := i + partLen;
      } else {
        i := StoreItem(data, from, i, partLen, nameLen, txt, count, s, room);
        count := count + 1;
      }
    }
    if i >= len {
      DropAll(s, i);
    }
    ContinuedEnd(txt[..count], Drop(s, i), txt.Length - count);
    return true, count;
  }

  /**
   `result_txt_create` where memory suffices.  Whatever the data, only bytes of the data are read and at most as many
   items are stored as have been counted.
   */
  method ResultTxtCreate(data: array<Octet>, from: nat, len: nat) returns (txt: array?<TxtItem>, count: nat)
    requires from + len <= data.Length && len < 0xFFFF
    ensures txt == null ==> count == 0 && Result(data[from..from + len]) == []
    ensures txt != null ==> fresh(txt) && count <= txt.Length == ItemCount(data[from..from + len]) &&
                            txt[..count] == Result(data[from..from + len])
  {
    hide CountItems, Parse, Result, ItemCount;
    ghost var s := data[from..from + len];
    ResultIs(s);
    var numItems := GetItemsCount(data, from, len);
    if numItems <= 0 {
      return null, 0;
    }
    txt := new TxtItem[numItems](_ => TxtItem([], None));
    var ok;
    ok, count := FillItems(data, from, len, txt);
    assert data[from..from + len] == s;
    if !ok {
      return null, 0;
    }
  }

  lemma DropNothing(s: Text)
    ensures Drop(s, 0) == s
  {}

  lemma DropAll(s: Text, i: nat)
    requires i >= |s|
    ensures Drop(s, i) == []
  {}

  lemma KeyLenPositive(s: Text)
    requires s != []
    ensures KeyLen(s) != 0 && KeyLen(s) <= |s|
  {}

  lemma PassedBound(part: nat, n: nat)
    requires 0 < n <= part
    ensures 1 <= Passed(part, n) <= part + 2
  {}

  // ----- What comes back.

  /** An item that can be told apart from its neighbours: a key without '=', and an entry of at most 255 bytes. */
  predicate Plain(item: TxtItem) {
    item.key != [] && EQUALS !in item.key && |Body(item)| <= 255
  }

  /** The key of a plain item is found again. */
  lemma {:induction false} KeyFound(key: Text, rest: Text)
    requires EQUALS !in key && (rest != [] ==> rest[0] == EQUALS)
    ensures FindEquals(key + rest) == |key|
  {
    if key == [] {
      assert key + rest == rest;
    } else {
      KeyFound(key[1..], rest);
      assert (key + rest)[1..] == key[1..] + rest && (key + rest)[0] == key[0];
    }
  }

  /** What the parser makes of the body of a plain item: an empty value is lost. */
  lemma BodyParsed(item: TxtItem)
    requires Plain(item)
    ensures KeyLen(Body(item)) == |item.key|
    ensures ItemOf(Body(item), |item.key|) == if item.value == Some([]) then TxtItem(item.key, None) else item
  {
    var rest := if item.value.Some? then [EQUALS] + item.value.value else [];
    KeyFound(item.key, rest);
    assert Body(item)[0] == item.key[0];
    assert Body(item)[..|item.key|] == item.key;
    if item.value.Some? {
      assert Body(item)[|item.key| + 1..] == item.value.value;
    }
  }

  /** One plain entry is parsed; behind an item without a value, one byte too many is skipped. */
  lemma ParseEntry(item: TxtItem, rest: Text, room: nat)
    requires Plain(item) && room > 0
    ensures var r := Parse(if item.value.Some? then rest else Drop(rest, 1), room - 1);
            Parse(Entry(item) + rest, room) ==
              if r.None? then None
              else Some([if item.value == Some([]) then TxtItem(item.key, None) else item] + r.value)
  {
    hide KeyLen, ItemOf;
    BodyParsed(item);
    var s := Entry(item) + rest;
    assert s[1..1 + s[0]] == Body(item);
    hide Body;
    assert s[1 + s[0]..] == rest;
    BodyLen(item);
    EntryPassed(item, s, rest);
  }

  lemma BodyLen(item: TxtItem)
    ensures |Body(item)| == |item.key| + if item.value.Some? then 1 + |item.value.value| else 0
  {}

  lemma DropBehind(e: Text, rest: Text)
    ensures Drop(e + rest, |e|) == rest && Drop(e + rest, |e| + 1) == Drop(rest, 1)
  {}

  lemma EntryPassed(item: TxtItem, s: Text, rest: Text)
    requires Plain(item) && s == Entry(item) + rest
    ensures Drop(s, Passed(s[0], |item.key|)) == if item.value.Some? then rest else Drop(rest, 1)
  {
    BodyLen(item);
    var part := |Body(item)|;
    assert s[0] == part;
    hide Drop, Entry, Body;
    DropBehind(Entry(item), rest);
    assert Passed(part, |item.key|) == if item.value.Some? then 1 + part else 2 + part;
  }

  /** One round of the parser loop. */
  lemma ParseRound(s: Text, room: nat)
    requires s != [] && room > 0 && s[0] != 0 && 1 + s[0] <= |s|
    ensures var body := s[1..1 + s[0]];
            var n := KeyLen(body);
            if n < 0 then Parse(s, room) == Parse(s[1 + s[0]..], room)
            else
              n > 0 && var rest := Parse(Drop(s, Passed(s[0], n)), room - 1);
              Parse(s, room) == if rest.None? then None else Some([ItemOf(body, n)] + rest.value)
  {
    hide KeyLen, ItemOf, Passed, Drop;
    KeyLenPositive(s[1..1 + s[0]]);
  }

  lemma ParseEnds(s: Text, room: nat)
    requires Parse(s, room).Some?
    ensures s == [] || room == 0 || s[0] == 0 ==> Parse(s, room) == Some([])
    ensures s != [] && room > 0 && s[0] != 0 ==> 1 + s[0] <= |s|
  {
    hide KeyLen, ItemOf, Passed, Drop;
  }

  /** The parser never makes up bytes: written again, the items are no longer than the data they come from. */
  lemma {:induction false} ParsedSize(s: Text, room: nat)
    requires Parse(s, room).Some?
    ensures |Encode(Parse(s, room).value)| <= |s|
    decreases |s|
  {
    hide Parse, KeyLen, ItemOf, Passed, Drop, Encode;
    ParseEnds(s, room);
    if s == [] || room == 0 || s[0] == 0 {
      EncodeNothing();
    } else {
      ParseRound(s, room);
      var part: nat := s[0];
      var body := s[1..1 + part];
      var n := KeyLen(body);
      if n < 0 {
        ParsedSize(s[1 + part..], room);
      } else {
        ItemSize(body, n);
        PassedBound(part, n);
        var t := Drop(s, Passed(part, n));
        ParsedSize(t, room - 1);
        EncodeHead(ItemOf(body, n), Parse(t, room - 1).value);
      }
    }
  }

  lemma EncodeHead(item: TxtItem, r: seq<TxtItem>)
    ensures Encode([item] + r) == Entry(item) + Encode(r)
  {
    assert ([item] + r)[1..] == r;
  }

  /** The size of an item that is read. */
  lemma ItemSize(body: Text, n: nat)
    requires 0 < n <= |body|
    ensures |Entry(ItemOf(body, n))| <= Passed(|body|, n)
    ensures |Entry(ItemOf(body, n))| <= 1 + |body|
  {}

  lemma {:induction false} CountEncoded(items: seq<TxtItem>)
    requires forall i :: 0 <= i < |items| ==> Plain(items[i])
    ensures CountItems(Encode(items)) == |items|
  {
    if items != [] {
      var s := Encode(items);
      var part: nat := s[0];
      assert part == |Body(items[0])| && s[1 + part..] == Encode(items[1..]);
      hide Encode, Body;
      CountEncoded(items[1..]);
      CountStep(s);
    }
  }

  /** Every item but the last has a value, and no value is empty. */
  ghost predicate Valued(items: seq<TxtItem>) {
    forall i :: 0 <= i < |items| ==> items[i].value != Some([]) && (i < |items| - 1 ==> items[i].value.Some?)
  }

  lemma SameTail<T>(x: T, s: seq<T>, y: T, t: seq<T>)
    ensures [x] + s == [y] + t <==> x == y && s == t
  {
    if [x] + s == [y] + t {
      assert ([x] + s)[0] == ([y] + t)[0] && ([x] + s)[1..] == ([y] + t)[1..];
      assert ([x] + s)[1..] == s && ([y] + t)[1..] == t;
    }
  }

  /** Behind an item without a value, the rest cannot come back: a byte of it is missing. */
  lemma MissingByte(t: seq<TxtItem>)
    requires t != []
    ensures Parse(Drop(Encode(t), 1), |t|) != Some(t)
  {
    EncodeFirst(t);
    EntryLen(t[0]);
    if Parse(Drop(Encode(t), 1), |t|) == Some(t) {
      ParsedSize(Drop(Encode(t), 1), |t|);
    }
  }

  lemma {:induction false} ParseEncoded(items: seq<TxtItem>)
    requires forall i :: 0 <= i < |items| ==> Plain(items[i])
    ensures Parse(Encode(items), |items|) == Some(items) <==> Valued(items)
  {
    hide Encode, Entry, Plain;
    if items == [] {
      EncodeNothing();
    } else {
      hide Parse, Valued;
      var t, item := items[1..], items[0];
      ParseEntry(item, Encode(t), |items|);
      EncodeFirst(items);
      ParseEncoded(t);
      ValuedHead(items);
      assert items == [item] + t;
      var r := Parse(if item.value.Some? then Encode(t) else Drop(Encode(t), 1), |t|);
      if r.Some? {
        SameTail(if item.value == Some([]) then TxtItem(item.key, None) else item, r.value, item, t);
      }
      if t == [] {
        EncodeNothing();
        ContinuedStart([], 0);
        ContinuedEnd([], [], 0);
      } else {
        MissingByte(t);
      }
    }
  }

  lemma ValuedHead(items: seq<TxtItem>)
    requires items != []
    ensures Valued(items) <==>
              Valued(items[1..]) && items[0].value != Some([]) && (|items| > 1 ==> items[0].value.Some?)
  {
    var t := items[1..];
    assert forall i :: 0 <= i < |t| ==> t[i] == items[i + 1];
    if Valued(t) && items[0].value != Some([]) && (|items| > 1 ==> items[0].value.Some?) {
      forall i | 0 <= i < |items| ensures items[i].value != Some([]) && (i < |items| - 1 ==> items[i].value.Some?) {
        assert i > 0 ==> items[i] == t[i - 1];
      }
    }
  }

  /**
   Lists of plain items come back from their data exactly when every item but the last has a value and none is
   empty.
   */
  lemma TxtRoundTrip(items: seq<TxtItem>)
    requires forall i :: 0 <= i < |items| ==> Plain(items[i])
    ensures Result(Encode(items)) == items <==> Valued(items)
  {
    CountEncoded(items);
    ParseEncoded(items);
    if items != [] {
      assert |Body(items[0])| >= 1 && |Encode(items)| >= 2;
    }
  }

  /** An item without a value: the length byte of the next one is taken for the byte after its '='. */
  lemma ValueLost()
    ensures var items := [TxtItem([97], None), TxtItem([98], Some([99]))];
            Plain(items[0]) && Plain(items[1]) && Result(Encode(items)) != items
  {
    var items := [TxtItem([97], None), TxtItem([98], Some([99]))];
    assert Body(items[0]) == [97] && Body(items[1]) == [98, 61, 99];
    TxtRoundTrip(items);
  }
}
