/** `mdns_utils_parse_fqdn`: the parts of a name that has been read go to their places. */
module DnsParse {
  import opened Options
  import opened DnsName
  import opened DnsRoundTrip

  /** The parts of a shorter name move up: the domain is always the last one. */
  function Placed(n: Name): Name {
    if n.parts == 3 then n.(host := [], service := n.host, proto := n.service, domain := n.proto)
    else if n.parts == 2 then n.(service := [], proto := [], domain := n.service)
    else n
  }

  predicate InDomain(n: Name) {
    SameText(n.domain, LOCAL) || SameText(n.domain, ARPA)
  }

  /** The name that the parser makes of what has been read. */
  function Parsed(n: Name): Name {
    if n.parts == 0 || n.invalid then n
    else
      var m := Placed(n);
      if InDomain(m) then m else m.(invalid := true)
  }

  /** `mdns_utils_parse_fqdn` */
  method ParseFqdn(reverse: bool, packet: array<Octet>, start: nat, name: MdnsName, buf: array<Octet>, end: nat)
      returns (r: Option<nat>)
    requires end < packet.Length && buf.Length >= BufLen(reverse) && buf != packet
    modifies name, buf
    ensures r == Read(reverse, packet[..], start, start, end, EMPTY).0
    ensures r.Some? ==> name.Value() == Parsed(Read(reverse, packet[..], start, start, end, EMPTY).1)
  {
    hide Read, SameText;
    name.host, name.service, name.proto, name.domain, name.parts, name.sub, name.invalid := [], [], [], [], 0, 0, false;
    r := ReadFqdn(reverse, packet, start, name, buf, end);
    if r.None? || name.parts == 0 || name.invalid {
      return;
    }
    if name.parts == 3 {
      name.host, name.service, name.proto, name.domain := [], name.host, name.service, name.proto;
    } else if name.parts == 2 {
      name.domain, name.service, name.proto := name.service, [], [];
    }
    if SameText(name.domain, LOCAL) || SameText(name.domain, ARPA) {
      return;
    }
    name.invalid := true;
  }

  // ----- Names with other labels than those that are written.

  lemma TakeRest(reverse: bool, name: Name, a: Item, rest: seq<Item>)
    requires name.parts <= 4
    ensures TakeAll(reverse, name, [a] + rest) == TakeAll(reverse, Take(reverse, name, a), rest)
  {
    hide Take;
    assert ([a] + rest)[1..] == rest;
  }

  lemma TakeTwo(reverse: bool, name: Name, a: Item, b: Item)
    requires name.parts <= 4
    ensures TakeAll(reverse, name, [a, b]) == Take(reverse, Take(reverse, name, a), b)
  {
    hide Take;
    TakeRest(reverse, name, a, [b]);
    TakeRest(reverse, Take(reverse, name, a), b, []);
    assert [a] + [b] == [a, b] && [b] + [] == [b];
  }

  /** A second label that starts no service and is no domain belongs to the host name, behind a dot. */
  lemma DottedHost(reverse: bool, a: Text, b: Text)
    requires IsLabel(a) && IsLabel(b) && !StartsService(reverse, b) && |a| + 1 + |b| < BufLen(reverse)
    ensures TakeAll(reverse, EMPTY, [Word(a), Word(b), Word(LOCAL)]) ==
            Name(a + [46] + b, LOCAL, [], [], 2, 0, false)
  {
    hide TakeAll, CString, StartsService, SameText;
    DomainStarts(reverse);
    TakeRest(reverse, EMPTY, Word(a), [Word(b), Word(LOCAL)]);
    assert [Word(a)] + [Word(b), Word(LOCAL)] == [Word(a), Word(b), Word(LOCAL)];
    TakeTwo(reverse, EMPTY.(host := a, parts := 1), Word(b), Word(LOCAL));
  }

  lemma DomainStarts(reverse: bool)
    ensures StartsService(reverse, LOCAL) && !SameText(LOCAL, SUB) && 0 !in LOCAL
  {
    assert |Lower(LOCAL)| == 5 && |Lower(SUB)| == 4;
  }

  /** Besides service types and domains, the labels of reverse queries are kept apart where these are not answered. */
  lemma SecondLabels(reverse: bool, c: Text)
    ensures c != [] && c[0] == UNDERSCORE ==> StartsService(reverse, c)
    ensures StartsService(reverse, ARPA)
    ensures StartsService(reverse, IP6) == StartsService(reverse, IN_ADDR) == !reverse
  {
    assert Lower(IP6)[0] == 105 && Lower(IN_ADDR)[0] == 105 && Lower(LOCAL)[0] == 108 && Lower(ARPA)[0] == 97;
  }

  /** The label `_sub` is only remembered. */
  lemma SubtypeName(reverse: bool, name: Name, c: Text)
    requires name.parts < 4 && SameText(c, SUB) && |c| == 4 && 0 !in c && c[0] == UNDERSCORE
    ensures Take(reverse, name, Word(c)) == name.(sub := 1)
  {
    hide SameText;
  }

  /** A fifth label, whatever it is, makes the name invalid. */
  lemma FifthLabel(reverse: bool, name: Name, c: Text)
    requires name.parts == 4
    ensures Take(reverse, name, Word(c)).invalid
  {
    hide SameText;
  }

  // ----- Which names are marked invalid.

  /** The places of strings that have not been read are empty. */
  predicate RestEmpty(n: Name) {
    forall i :: n.parts <= i < 4 ==> n.Slot(i) == []
  }

  lemma AcceptRest(reverse: bool, name: Name, bytes: seq<Octet>)
    requires name.parts <= 4 && (name.parts == 4 ==> name.invalid) && RestEmpty(name)
    ensures RestEmpty(Accept(reverse, name, bytes))
  {
    hide SameText, CString, StartsService, Strlcat;
    var r := Accept(reverse, name, bytes);
    assert forall i :: r.parts <= i < 4 ==> r.Slot(i) == name.Slot(i);
  }

  lemma {:induction false} ReadRest(reverse: bool, p: seq<Octet>, start: nat, pos: nat, end: nat, name: Name)
    requires end < |p| && name.parts <= 4 && RestEmpty(name)
    ensures RestEmpty(Read(reverse, p, start, pos, end, name).1)
    decreases start, end - pos
  {
    hide Accept;
    if pos < end && p[pos] != 0 {
      var len, entered := p[pos], Enter(name);
      assert forall i :: 0 <= i < 4 ==> entered.Slot(i) == name.Slot(i);
      if len < 0xC0 {
        if len <= 63 && pos + 1 + len <= end {
          var bytes := p[pos + 1..pos + 1 + len];
          AcceptRest(reverse, entered, bytes);
          ReadRest(reverse, p, start, pos + 1 + len, end, Accept(reverse, entered, bytes));
        }
      } else {
        var address := Address(len, p[pos + 1]);
        if address < start {
          ReadRest(reverse, p, address, address, end, entered);
        }
      }
    }
  }

  /**
   Whatever the packet: a name that has been read and parsed is marked invalid exactly if the reader marked it, or it
   has a single string, or its last string is neither `local` nor `arpa`.
   */
  lemma InvalidNames(reverse: bool, p: seq<Octet>, start: nat, end: nat)
    requires end < |p|
    ensures var n := Read(reverse, p, start, start, end, EMPTY).1;
            n.parts > 0 ==>
              (Parsed(n).invalid <==>
               n.invalid || n.parts == 1 ||
               !(SameText(n.Slot(n.parts - 1), LOCAL) || SameText(n.Slot(n.parts - 1), ARPA)))
  {
    hide Read, SameText;
    ReadRest(reverse, p, start, start, end, EMPTY);
    EmptyIsForeign();
    var n := Read(reverse, p, start, start, end, EMPTY).1;
    if n.parts == 1 {
      assert n.Slot(3) == [];
    }
  }

  lemma EmptyIsForeign()
    ensures !SameText([], LOCAL) && !SameText([], ARPA)
  {
    assert |Lower([])| == 0 && |Lower(LOCAL)| == 5 && |Lower(ARPA)| == 4;
  }

  // ----- Names that have been written.

  /** The strings of a name by place; the ones that are missing are empty. */
  function InPlace(strings: seq<Text>): (r: seq<Text>)
    requires 2 <= |strings| <= 4
    ensures |r| == 4
  {
    if |strings| == 2 then [strings[0], [], [], strings[1]]
    else if |strings| == 3 then [[], strings[0], strings[1], strings[2]]
    else strings
  }

  /** The parser ends where the writer did, and has every string in its place and nothing else. */
  ghost predicate ParsesBack(reverse: bool, a: Appended, index: nat, strings: seq<Text>, end: nat)
    requires end < |a.packet| && 2 <= |strings| <= 4
  {
    var (r, n) := Read(reverse, a.packet, index, index, end, EMPTY);
    r == Some(a.index) && AllPlaced(Parsed(n), strings)
  }

  ghost predicate AllPlaced(m: Name, strings: seq<Text>)
    requires 2 <= |strings| <= 4
  {
    m.parts == |strings| && m.sub == 0 && !m.invalid && forall i :: 0 <= i < 4 ==>
        SameText(InPlace(strings)[i], m.Slot(i))
  }

  /**
   A host name, a service type and a service instance in the domain `local` or `arpa` are written, read back and
   parsed into the places of host, service, protocol and domain, if and only if the search finds nothing or a name that
   is sound once the pointer is in place.
   */
  lemma ParseRoundTrip(reverse: bool, p: seq<Octet>, index: nat, strings: seq<Text>, end: nat, end': nat)
    requires HasRoom(p, index, strings, end) && WellFormed(reverse, strings) && 2 <= |strings|
    requires SameText(strings[|strings| - 1], LOCAL) || SameText(strings[|strings| - 1], ARPA)
    requires Append(reverse, p, index, strings, end).index <= end' < |p|
    ensures var a := Append(reverse, p, index, strings, end);
            ParsesBack(reverse, a, index, strings, end') <==>
            SoundTarget(reverse, StopOf(reverse, p, index, strings, end), a.packet, index, |strings|, end')
  {
    RoundTrip(reverse, p, index, strings, end, end');
    hide Append, Read, SoundTarget, StopOf, SameText, HasRoom, WellFormed, Parsed, Filled, AllPlaced;
    PlacedBack(Read(reverse, Append(reverse, p, index, strings, end).packet, index, index, end', EMPTY).1, strings);
  }

  /** The places hold the strings exactly if the slots of the reader did. */
  lemma PlacedBack(n: Name, strings: seq<Text>)
    requires 2 <= |strings| <= 4
    requires SameText(strings[|strings| - 1], LOCAL) || SameText(strings[|strings| - 1], ARPA)
    ensures n.parts == |strings| && n.sub == 0 && !n.invalid && Filled(n, 0, strings) <==> AllPlaced(Parsed(n), strings)
  {
    hide SameText;
    if n.parts == |strings| && !n.invalid {
      if Filled(n, 0, strings) {
        assert forall i :: 0 <= i < |strings| ==> SameText(strings[i], n.Slot(0 + i));
        PlacedStrings(n, strings);
      } else if AllPlaced(Parsed(n), strings) {
        PlacedSlots(n, strings);
      }
    }
  }

  /** In any other domain the strings go to the same places, but the name is marked invalid. */
  lemma ParseForeign(reverse: bool, p: seq<Octet>, index: nat, strings: seq<Text>, end: nat, end': nat)
    requires HasRoom(p, index, strings, end) && WellFormed(reverse, strings) && 2 <= |strings|
    requires !SameText(strings[|strings| - 1], LOCAL) && !SameText(strings[|strings| - 1], ARPA)
    requires Append(reverse, p, index, strings, end).index <= end' < |p|
    requires var packet := Append(reverse, p, index, strings, end).packet;
             SoundTarget(reverse, StopOf(reverse, p, index, strings, end), packet, index, |strings|, end')
    ensures var a := Append(reverse, p, index, strings, end);
            var (r, n) := Read(reverse, a.packet, index, index, end', EMPTY);
            r == Some(a.index) && Parsed(n).invalid &&
            forall i :: 0 <= i < 4 ==> SameText(InPlace(strings)[i], Parsed(n).Slot(i))
  {
    RoundTrip(reverse, p, index, strings, end, end');
    hide Append, Read, SoundTarget, StopOf, SameText, HasRoom, WellFormed, Parsed, Filled;
    PlacedForeign(Read(reverse, Append(reverse, p, index, strings, end).packet, index, index, end', EMPTY).1, strings);
  }

  lemma PlacedForeign(n: Name, strings: seq<Text>)
    requires 2 <= |strings| <= 4 && n.parts == |strings| && !n.invalid && Filled(n, 0, strings)
    requires !SameText(strings[|strings| - 1], LOCAL) && !SameText(strings[|strings| - 1], ARPA)
    ensures Parsed(n).invalid && forall i :: 0 <= i < 4 ==> SameText(InPlace(strings)[i], Parsed(n).Slot(i))
  {
    hide SameText;
    var k := |strings| - 1;
    SameReflexive([]);
    assert forall i :: 0 <= i < |strings| ==> SameText(strings[i], n.Slot(0 + i));
    assert SameText(strings[0], n.host) && SameText(strings[1], n.service);
    assert |strings| > 2 ==> SameText(strings[2], n.proto);
    assert |strings| > 3 ==> SameText(strings[3], n.domain);
    if SameText(n.Slot(k), LOCAL) {
      SameTextTransitive(strings[k], n.Slot(k), LOCAL);
    } else if SameText(n.Slot(k), ARPA) {
      SameTextTransitive(strings[k], n.Slot(k), ARPA);
    }
  }

  lemma PlacedSlots(n: Name, strings: seq<Text>)
    requires 2 <= |strings| <= 4 && n.parts == |strings| && !n.invalid && !Parsed(n).invalid
    requires forall i :: 0 <= i < 4 ==> SameText(InPlace(strings)[i], Parsed(n).Slot(i))
    ensures Filled(n, 0, strings)
  {
    hide SameText;
    var m := Parsed(n);
    assert SameText(InPlace(strings)[0], m.Slot(0)) && SameText(InPlace(strings)[1], m.Slot(1));
    assert SameText(InPlace(strings)[2], m.Slot(2)) && SameText(InPlace(strings)[3], m.Slot(3));
  }

  lemma PlacedStrings(n: Name, strings: seq<Text>)
    requires 2 <= |strings| <= 4 && n.parts == |strings| && !n.invalid
    requires SameText(strings[|strings| - 1], LOCAL) || SameText(strings[|strings| - 1], ARPA)
    requires forall i :: 0 <= i < |strings| ==> SameText(strings[i], n.Slot(i))
    ensures !Parsed(n).invalid && forall i :: 0 <= i < 4 ==> SameText(InPlace(strings)[i], Parsed(n).Slot(i))
  {
    hide SameText;
    var k := |strings| - 1;
    SameReflexive([]);
    SameTextSymmetric(strings[k], n.Slot(k));
    if SameText(strings[k], LOCAL) {
      SameTextTransitive(n.Slot(k), strings[k], LOCAL);
    } else {
      SameTextTransitive(n.Slot(k), strings[k], ARPA);
    }
    assert SameText(strings[0], n.host) && SameText(strings[1], n.service);
    assert |strings| > 2 ==> SameText(strings[2], n.proto);
    assert |strings| > 3 ==> SameText(strings[3], n.domain);
  }
}
