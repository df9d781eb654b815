/**
 Domain names in mDNS packets: the reader `mdns_utils_read_fqdn`, the compressing writer `append_fqdn`, and what
 the one makes of the output of the other (sections 3.1 and 4.1.4 of RFC 1035).
 */
module DnsName {
  import opened Options

  type Octet = x: int | 0 <= x < 256

  /** A C string: its bytes, without the final NUL. */
  type Text = seq<Octet>

  const MAX_PACKET_SIZE := 1460
  const LOCAL: Text := [108, 111, 99, 97, 108]
  const ARPA: Text := [97, 114, 112, 97]
  const IP6: Text := [105, 112, 54]
  const IN_ADDR: Text := [105, 110, 45, 97, 100, 100, 114]
  const SUB: Text := [95, 115, 117, 98]
  const UNDERSCORE: Octet := 95

  /** What stands before the first NUL. */
  function CString(s: seq<Octet>): (c: Text)
    ensures |c| <= |s|
    ensures 0 !in s ==> c == s
  {
    if s == [] || s[0] == 0 then [] else [s[0]] + CString(s[1..])
  }

  function ToLower(b: Octet): Octet { if 65 <= b <= 90 then b + 32 else b }

  function Lower(s: Text): (t: Text)
    ensures |t| == |s|
  {
    seq(|s|, i requires 0 <= i < |s| => ToLower(s[i]))
  }

  /** `strcasecmp(s, t) == 0` */
  predicate SameText(s: Text, t: Text) { Lower(s) == Lower(t) }

  /** Two texts are the same if they differ at most in the case of letters. */
  lemma SameLetters(s: Text, t: Text)
    ensures SameText(s, t) <==>
            |s| == |t| &&
            forall i :: 0 <= i < |s| ==>
              s[i] == t[i] || (65 <= s[i] <= 90 && t[i] == s[i] + 32) || (65 <= t[i] <= 90 && s[i] == t[i] + 32)
  {
    if SameText(s, t) {
      forall i | 0 <= i < |s| ensures ToLower(s[i]) == ToLower(t[i]) {
        assert Lower(s)[i] == Lower(t)[i];
      }
    }
  }

  /** The names that the reader knows. */
  lemma KnownNames()
    ensures Spells(LOCAL, "local") && Spells(ARPA, "arpa") && Spells(IP6, "ip6") && Spells(IN_ADDR, "in-addr")
    ensures Spells(SUB, "_sub") && Spells([UNDERSCORE], "_")
  {}

  predicate Spells(t: Text, s: string) {
    |t| == |s| && forall i :: 0 <= i < |s| ==> t[i] == s[i] as int
  }

  /** `mdns_name_t`.  The buffers hold C strings. */
  datatype Name = Name(host: Text, service: Text, proto: Text, domain: Text, parts: nat, sub: nat, invalid: bool) {
    function Slot(i: nat): Text
      requires i < 4
    {
      if i == 0 then host else if i == 1 then service else if i == 2 then proto else domain
    }

    function WithSlot(i: nat, t: Text): Name
      requires i < 4
    {
      if i == 0 then this.(host := t) else if i == 1 then this.(service := t)
      else if i == 2 then this.(proto := t) else this.(domain := t)
    }
  }

  const EMPTY := Name([], [], [], [], 0, 0, false)

  /** `MDNS_NAME_BUF_LEN`, which depends on whether reverse queries are answered. */
  function BufLen(reverse: bool): nat { if reverse then 69 else 65 }

  /** `strlcat` into a buffer of `size` bytes. */
  function Strlcat(d: Text, s: Text, size: nat): Text
    requires size > 0
  {
    var all := d + s;
    if |d| >= size then d else if |all| < size then all else all[..size - 1]
  }

  /** A second label that is not one of these is taken for more of the host name. */
  predicate StartsService(reverse: bool, c: Text) {
    || (c != [] && c[0] == UNDERSCORE) || SameText(c, LOCAL) || SameText(c, ARPA)
    || (!reverse && (SameText(c, IP6) || SameText(c, IN_ADDR)))
  }

  /** At the first byte of a label or of a pointer. */
  function Enter(name: Name): (r: Name)
    ensures r.parts == name.parts
    ensures r.parts == 4 ==> r.invalid
  {
    if name.parts == 4 then name.(invalid := true) else name
  }

  /** Once a label has been copied to `buf`. */
  function Accept(reverse: bool, name: Name, bytes: seq<Octet>): (r: Name)
    requires name.parts <= 4 && (name.parts == 4 ==> name.invalid)
    ensures name.parts <= r.parts <= 4
  {
    var c := CString(bytes);
    if name.parts == 1 && !StartsService(reverse, c) then
      var dotted := Strlcat(name.host, [46], BufLen(reverse));
      name.(host := Strlcat(dotted, c, BufLen(reverse)))
    else if SameText(c, SUB) then name.(sub := 1)
    else if !name.invalid then name.WithSlot(name.parts, c).(parts := name.parts + 1)
    else name
  }

  /** The offset in a pointer whose two bytes are `high`, marked by its two top bits, and `low`. */
  function Address(high: Octet, low: Octet): nat
    requires high >= 0xC0
  {
    (high - 0xC0) * 256 + low
  }

  /**
   The reader, from position `pos` of the name that starts at `start`: the position after the name, or None,
   and the name as it is left.  A pointer's second byte may lie one past the end of the packet.
   */
  function Read(reverse: bool, p: seq<Octet>, start: nat, pos: nat, end: nat, name: Name): (r: (Option<nat>, Name))
    requires end < |p| && name.parts <= 4
    ensures r.1.parts <= 4
    decreases start, end - pos
  {
    if pos >= end || p[pos] == 0 then (Some(pos + 1), name)
    else
      var len, entered := p[pos], Enter(name);
      if len < 0xC0 then
        if len > 63 || pos + 1 + len > end then (None, entered)
        else Read(reverse, p, start, pos + 1 + len, end, Accept(reverse, entered, p[pos + 1..pos + 1 + len]))
      else
        var address := Address(len, p[pos + 1]);
        if address >= start then (None, entered)
        else
          var target := Read(reverse, p, address, address, end, entered);
          (if target.0.Some? then Some(pos + 2) else None, target.1)
  }

  /** All strings are shorter than the buffers that they are in. */
  predicate Fits(reverse: bool, n: Name) {
    |n.host| < BufLen(reverse) && |n.service| <= 63 && |n.proto| <= 63 && |n.domain| <= 63
  }

  lemma AcceptFits(reverse: bool, name: Name, bytes: seq<Octet>)
    requires name.parts <= 4 && (name.parts == 4 ==> name.invalid) && Fits(reverse, name) && |bytes| <= 63
    ensures Fits(reverse, Accept(reverse, name, bytes))
  {
    hide SameText, CString, StartsService;
  }

  /**
   Whatever the bytes, pointer loops included: the reader ends, no string outgrows its buffer, and a position that
   it returns lies behind the start of the name and at most one past the end of the packet.
   */
  lemma {:induction false} ReadSafety(reverse: bool, p: seq<Octet>, start: nat, pos: nat, end: nat, name: Name)
    requires end < |p| && name.parts <= 4 && start <= pos && Fits(reverse, name)
    ensures var (r, n) := Read(reverse, p, start, pos, end, name);
            Fits(reverse, n) && (r.Some? ==> start < r.value && (pos <= end ==> r.value <= end + 1))
    decreases start, end - pos
  {
    hide Accept;
    if pos < end && p[pos] != 0 {
      var len, entered := p[pos], Enter(name);
      if len < 0xC0 {
        if len <= 63 && pos + 1 + len <= end {
          var bytes := p[pos + 1..pos + 1 + len];
          AcceptFits(reverse, entered, bytes);
          ReadSafety(reverse, p, start, pos + 1 + len, end, Accept(reverse, entered, bytes));
        }
      } else {
        var address := Address(len, p[pos + 1]);
        if address < start {
          ReadSafety(reverse, p, address, address, end, entered);
        }
      }
    }
  }

  // ----- Reading is scanning the packet for labels and then taking them in one by one.

  /** What the reader comes across, besides the end of the name. */
  datatype Item = Word(bytes: seq<Octet>) | Jump

  datatype Scan = Unreadable | Scanned(end: nat, items: seq<Item>)

  /** The items of a name, wherever its pointers lead, and the position after it. */
  function ScanName(p: seq<Octet>, start: nat, pos: nat, end: nat): (r: Scan)
    requires end < |p|
    ensures r.Scanned? ==> pos < r.end
    ensures r.Scanned? ==> if pos <= end then r.end <= end + 1 else r.end == pos + 1
    decreases start, end - pos
  {
    if pos >= end || p[pos] == 0 then Scanned(pos + 1, [])
    else
      var len := p[pos];
      if len < 0xC0 then
        if len > 63 || pos + 1 + len > end then Unreadable
        else
          match ScanName(p, start, pos + 1 + len, end)
          case Unreadable => Unreadable
          case Scanned(e, items) => Scanned(e, [Word(p[pos + 1..pos + 1 + len])] + items)
      else
        var address := Address(len, p[pos + 1]);
        if address >= start then Unreadable
        else
          match ScanName(p, address, address, end)
          case Unreadable => Unreadable
          case Scanned(_, items) => Scanned(pos + 2, [Jump] + items)
  }

  function Take(reverse: bool, name: Name, item: Item): (r: Name)
    requires name.parts <= 4
    ensures name.parts <= r.parts <= 4
  {
    match item
    case Word(bytes) => Accept(reverse, Enter(name), bytes)
    case Jump => Enter(name)
  }

  function TakeAll(reverse: bool, name: Name, items: seq<Item>): (r: Name)
    requires name.parts <= 4
    ensures r.parts <= 4
    decreases |items|
  {
    if items == [] then name else TakeAll(reverse, Take(reverse, name, items[0]), items[1..])
  }

  /** Whether and where the name ends does not depend on what has been read, and the name is that of the items. */
  lemma {:induction false} ReadIsScan(reverse: bool, p: seq<Octet>, start: nat, pos: nat, end: nat, name: Name)
    requires end < |p| && name.parts <= 4
    ensures var (r, n) := Read(reverse, p, start, pos, end, name);
            match ScanName(p, start, pos, end)
            case Unreadable => r == None
            case Scanned(e, items) => r == Some(e) && n == TakeAll(reverse, name, items)
    decreases start, end - pos
  {
    hide Accept, Enter;
    if pos < end && p[pos] != 0 {
      var len, entered := p[pos], Enter(name);
      if len < 0xC0 {
        if len <= 63 && pos + 1 + len <= end {
          var bytes := p[pos + 1..pos + 1 + len];
          ReadIsScan(reverse, p, start, pos + 1 + len, end, Accept(reverse, entered, bytes));
          TakeFirst(reverse, name, Word(bytes), p, start, pos + 1 + len, end);
        }
      } else {
        var address := Address(len, p[pos + 1]);
        if address < start {
          ReadIsScan(reverse, p, address, address, end, entered);
          TakeFirst(reverse, name, Jump, p, address, address, end);
        }
      }
    }
  }

  lemma TakeFirst(reverse: bool, name: Name, item: Item, p: seq<Octet>, start: nat, pos: nat, end: nat)
    requires end < |p| && name.parts <= 4
    ensures var rest := ScanName(p, start, pos, end);
            rest.Scanned? ==>
              TakeAll(reverse, name, [item] + rest.items) == TakeAll(reverse, Take(reverse, name, item), rest.items)
  {
    hide Accept, Enter, ScanName;
    var rest := ScanName(p, start, pos, end);
    if rest.Scanned? {
      assert ([item] + rest.items)[1..] == rest.items;
    }
  }

  // ----- The reader as the source runs it.

  class MdnsName {
    var host: Text
    var service: Text
    var proto: Text
    var domain: Text
    var parts: nat
    var sub: nat
    var invalid: bool

    function Value(): Name
      reads this
    {
      Name(host, service, proto, domain, parts, sub, invalid)
    }

    /** The branches of the reader once a whole label is in the buffer. */
    method AcceptLabel(reverse: bool, buf: array<Octet>, len: nat)
      requires len <= buf.Length
      requires parts <= 4 && (parts == 4 ==> invalid)
      modifies this
      ensures Value() == Accept(reverse, old(Value()), buf[..len])
    {
      var c := CString(buf[..len]);
      if parts == 1 && !(c != [] && c[0] == UNDERSCORE) && !SameText(c, LOCAL) && !SameText(c, ARPA)
         && (reverse || (!SameText(c, IP6) && !SameText(c, IN_ADDR))) {
        host := Strlcat(host, [46], BufLen(reverse));
        host := Strlcat(host, c, BufLen(reverse));
      } else if SameText(c, SUB) {
        sub := 1;
      } else if !invalid {
        match parts {
          case 0 => host := c;
          case 1 => service := c;
          case 2 => proto := c;
          case _ => domain := c;
        }
        parts := parts + 1;
      }
    }
  }

  /** The loop that copies a label, unless the packet ends before. */
  method CopyLabel(packet: array<Octet>, from: nat, len: nat, buf: array<Octet>, end: nat) returns (ok: bool)
    requires end < packet.Length && from <= end && len <= buf.Length && buf != packet
    modifies buf
    ensures ok == (from + len <= end)
    ensures ok ==> buf[..len] == packet[from..from + len]
  {
    var i := 0;
    while i < len
      invariant 0 <= i <= len && from + i <= end
      invariant forall k :: 0 <= k < i ==> buf[k] == packet[from + k]
    {
      if from + i >= end {
        return false;
      }
      buf[i] := packet[from + i];
      i := i + 1;
    }
    return true;
  }

  /** The four things that can happen at a position of a name. */
  lemma ReadCases(reverse: bool, p: seq<Octet>, start: nat, pos: nat, end: nat, name: Name)
    requires end < |p| && name.parts <= 4
    ensures var r := Read(reverse, p, start, pos, end, name);
            if pos >= end || p[pos] == 0 then r == (Some(pos + 1), name)
            else if p[pos] >= 0xC0 then
              var address := Address(p[pos], p[pos + 1]);
              if address >= start then r == (None, Enter(name))
              else
                var (target, n) := Read(reverse, p, address, address, end, Enter(name));
                r == (if target.Some? then Some(pos + 2) else None, n)
            else if p[pos] > 63 || pos + 1 + p[pos] > end then r == (None, Enter(name))
            else r == Read(reverse, p, start, pos + 1 + p[pos], end,
                           Accept(reverse, Enter(name), p[pos + 1..pos + 1 + p[pos]]))
  {
    hide Accept, Enter;
  }

  /** `mdns_utils_read_fqdn`, with offsets for pointers into the packet. */
  method ReadFqdn(reverse: bool, packet: array<Octet>, start: nat, name: MdnsName, buf: array<Octet>, end: nat)
      returns (r: Option<nat>)
    requires end < packet.Length && buf.Length >= BufLen(reverse) && buf != packet && name.parts <= 4
    modifies name, buf
    ensures (r, name.Value()) == Read(reverse, packet[..], start, start, end, old(name.Value()))
    ensures name.parts <= 4
    decreases start
  {
    hide Accept, Strlcat, SameText, CString, Read;
    ghost var p := packet[..];
    var pos := start;
    while pos < end && packet[pos] != 0
      invariant start <= pos
      invariant name.parts <= 4 && packet[..] == p
      invariant Read(reverse, p, start, pos, end, name.Value()) ==
                Read(reverse, p, start, start, end, old(name.Value()))
      decreases end - pos
    {
      ReadCases(reverse, p, start, pos, end, name.Value());
      if name.parts == 4 {
        name.invalid := true;
      }
      ghost var entered := name.Value();
      var len := packet[pos];
      pos := pos + 1;
      if len < 0xC0 {
        if len > 63 {
          return None;
        }
        var copied := CopyLabel(packet, pos, len, buf, end);
        if !copied {
          return None;
        }
        pos := pos + len;
        buf[len] := 0;
        name.AcceptLabel(reverse, buf, len);
      } else {
        var address := Address(len, packet[pos]);
        pos := pos + 1;
        if address >= start {
          return None;
        }
        var target := ReadFqdn(reverse, packet, address, name, buf, end);
        if target.Some? {
          return Some(pos);
        }
        return None;
      }
    }
    ReadCases(reverse, p, start, pos, end, name.Value());
    return Some(pos + 1);
  }

  // ----- The writer.

  /** `p` with `bytes` written at position `at`. */
  function Put(p: seq<Octet>, at: nat, bytes: seq<Octet>): (q: seq<Octet>)
    requires at + |bytes| <= |p|
    ensures |q| == |p| && q[..at] == p[..at] && q[at..at + |bytes|] == bytes
  {
    p[..at] + bytes + p[at + |bytes|..]
  }

  /** The length byte of a string. */
  function LengthByte(s: Text): Octet { |s| % 256 }

  /** A label as it is written. */
  function Encoded(s: Text): (e: seq<Octet>)
    ensures |s| <= 63 ==> |e| == |s| + 1 && e[0] == |s| && e[1..] == s
  {
    [LengthByte(s)] + s[..LengthByte(s)]
  }

  /** How far past the end of the packet the writer's comparison of strings may look. */
  const SLACK := 256

  ghost predicate Roomy(p: seq<Octet>, index: nat, end: nat) {
    index <= MAX_PACKET_SIZE && end <= MAX_PACKET_SIZE && MAX_PACKET_SIZE + SLACK <= |p|
  }

  /** Whether the bytes at `at` are taken for an occurrence of the name. */
  predicate Matches(reverse: bool, p: seq<Octet>, at: nat, strings: seq<Text>, end: nat)
    requires strings != [] && Roomy(p, at, end)
  {
    var len := LengthByte(strings[0]);
    && p[at] == len
    && p[at + 1..at + 1 + len] == strings[0][..len]
    && var (r, n) := Read(reverse, p, at, at, end, EMPTY);
       && r.Some?
       && n.parts == |strings|
       && forall i :: 0 <= i < |strings| ==> SameText(strings[i], n.Slot(i))
  }

  /** The first occurrence of the name that starts between `from` and `index`. */
  function Search(reverse: bool, p: seq<Octet>, from: nat, index: nat, strings: seq<Text>, end: nat): (r: Option<nat>)
    requires strings != [] && Roomy(p, index, end)
    ensures r.Some? ==> from <= r.value < index && Matches(reverse, p, r.value, strings, end)
    decreases index - from
  {
    if from >= index then None
    else if Matches(reverse, p, from, strings, end) then Some(from)
    else Search(reverse, p, from + 1, index, strings, end)
  }

  /** Every earlier position has been tried. */
  lemma {:induction false} SearchFirst(reverse: bool, p: seq<Octet>, from: nat, index: nat, strings: seq<Text>,
                                       end: nat)
    requires strings != [] && Roomy(p, index, end)
    ensures var r := Search(reverse, p, from, index, strings, end);
            forall at: nat :: from <= at < (if r.Some? then r.value else index) ==>
              !Matches(reverse, p, at, strings, end)
    decreases index - from
  {
    hide Matches;
    if from < index && !Matches(reverse, p, from, strings, end) {
      SearchFirst(reverse, p, from + 1, index, strings, end);
    }
  }

  datatype Appended = Appended(packet: seq<Octet>, index: nat, written: nat)

  /** `append_fqdn`: the packet, the index after the name and the number of bytes reported, 0 for an error. */
  function Append(reverse: bool, p: seq<Octet>, index: nat, strings: seq<Text>, end: nat): (r: Appended)
    requires Roomy(p, index, end)
    ensures |r.packet| == |p| && index <= r.index <= MAX_PACKET_SIZE
    decreases |strings|
  {
    if strings == [] then
      if index >= MAX_PACKET_SIZE then Appended(p, index, 0)
      else Appended(Put(p, index, [0]), index + 1, 1)
    else
      match Search(reverse, p, 0, index, strings, end)
      case None =>
        var len := LengthByte(strings[0]);
        if index + len + 1 >= MAX_PACKET_SIZE then Appended(p, index, 0)
        else
          var q, next := Put(p, index, Encoded(strings[0])), index + len + 1;
          if (len + 1) % 256 == 0 then Appended(q, next, 0)
          else
            var rest := Append(reverse, q, next, strings[1..], end);
            Appended(rest.packet, rest.index, len + 1 + rest.written)
      case Some(at) =>
        if index + 1 >= MAX_PACKET_SIZE then Appended(p, index, 0)
        else Appended(Put(p, index, [0xC0 + at / 256, at % 256]), index + 2, 2)
  }

  /** The search loop, over `memchr` and `memcmp`. */
  method FindName(reverse: bool, packet: array<Octet>, index: nat, strings: seq<Text>, end: nat)
      returns (r: Option<nat>)
    requires strings != [] && Roomy(packet[..], index, end)
    ensures r == Search(reverse, packet[..], 0, index, strings, end)
  {
    hide Matches;
    var at := 0;
    while at < index
      invariant 0 <= at <= index
      invariant Search(reverse, packet[..], at, index, strings, end) ==
                Search(reverse, packet[..], 0, index, strings, end)
    {
      if Matches(reverse, packet[..], at, strings, end) {
        return Some(at);
      }
      at := at + 1;
    }
    return None;
  }

  /** `mdns_utils_append_u8` */
  method AppendU8(packet: array<Octet>, index: nat, value: Octet) returns (next: nat, written: nat)
    requires MAX_PACKET_SIZE <= packet.Length
    modifies packet
    ensures if index >= MAX_PACKET_SIZE then packet[..] == old(packet[..]) && next == index && written == 0
            else packet[..] == Put(old(packet[..]), index, [value]) && next == index + 1 && written == 1
  {
    if index >= MAX_PACKET_SIZE {
      return index, 0;
    }
    packet[index] := value;
    return index + 1, 1;
  }

  /** `mdns_utils_append_u16` */
  method AppendU16(packet: array<Octet>, index: nat, value: nat) returns (next: nat, written: nat)
    requires MAX_PACKET_SIZE <= packet.Length && value < 0x1_0000
    modifies packet
    ensures if index + 1 >= MAX_PACKET_SIZE then packet[..] == old(packet[..]) && next == index && written == 0
            else
              packet[..] == Put(old(packet[..]), index, [value / 256, value % 256]) &&
              next == index + 2 && written == 2
  {
    if index + 1 >= MAX_PACKET_SIZE {
      return index, 0;
    }
    packet[index], packet[index + 1] := value / 256, value % 256;
    return index + 2, 2;
  }

  /** `append_string`, whose result is the number of bytes written modulo 256. */
  method AppendString(packet: array<Octet>, index: nat, text: Text) returns (next: nat, written: nat)
    requires MAX_PACKET_SIZE <= packet.Length
    modifies packet
    ensures var len := LengthByte(text);
            if index + len + 1 >= MAX_PACKET_SIZE then packet[..] == old(packet[..]) && next == index && written == 0
            else packet[..] == Put(old(packet[..]), index, Encoded(text)) && next == index + len + 1
                 && written == (len + 1) % 256
  {
    var len: nat := LengthByte(text);
    if index + len + 1 >= MAX_PACKET_SIZE {
      return index, 0;
    }
    packet[index] := len;
    forall i | 0 <= i < len {
      packet[index + 1 + i] := text[i];
    }
    assert packet[..] == Put(old(packet[..]), index, Encoded(text));
    return index + len + 1, (len + 1) % 256;
  }

  /** The three things that can happen when a name is appended. */
  lemma AppendCases(reverse: bool, p: seq<Octet>, index: nat, strings: seq<Text>, end: nat)
    requires Roomy(p, index, end)
    ensures var r := Append(reverse, p, index, strings, end);
            if strings == [] then
              r == if index >= MAX_PACKET_SIZE then Appended(p, index, 0)
                   else Appended(Put(p, index, [0]), index + 1, 1)
            else
              var found := Search(reverse, p, 0, index, strings, end);
              var len: nat := LengthByte(strings[0]);
              if found.Some? then
                r == if index + 1 >= MAX_PACKET_SIZE then Appended(p, index, 0)
                     else Appended(Put(p, index, [0xC0 + found.value / 256, found.value % 256]), index + 2, 2)
              else if index + len + 1 >= MAX_PACKET_SIZE then r == Appended(p, index, 0)
              else
                var q := Put(p, index, Encoded(strings[0]));
                if len == 255 then r == Appended(q, index + len + 1, 0)
                else
                  var rest := Append(reverse, q, index + len + 1, strings[1..], end);
                  r == Appended(rest.packet, rest.index, len + 1 + rest.written)
  {
    hide Matches, Search, Put, Encoded;
  }

  /** `append_fqdn` */
  method AppendFqdn(reverse: bool, packet: array<Octet>, index: nat, strings: seq<Text>, end: nat)
      returns (next: nat, written: nat)
    requires Roomy(packet[..], index, end)
    modifies packet
    ensures Appended(packet[..], next, written) == Append(reverse, old(packet[..]), index, strings, end)
    decreases |strings|
  {
    hide Matches, Search, Put, Append;
    AppendCases(reverse, packet[..], index, strings, end);
    if strings == [] {
      next, written := AppendU8(packet, index, 0);
      return;
    }
    var found := FindName(reverse, packet, index, strings, end);
    if found.None? {
      var first;
      next, first := AppendString(packet, index, strings[0]);
      if first == 0 {
        return next, 0;
      }
      next, written := AppendFqdn(reverse, packet, next, strings[1..], end);
      written := first + written;
    } else {
      next, written := AppendU16(packet, index, 0xC000 + found.value);
    }
  }
}
