/**
 Simultaneous probe tie-breaking (section 8.2 of RFC 6762): two hosts that claim a name compare their data, and must
 reach opposite verdicts.
 */
module Collisions {
  import opened Options
  import opened DnsName
  import opened TxtRecords

  /** The verdict of a host: -1 if it wins, 1 if the other one does, 0 if the data are the same. */
  const WE_WIN := -1
  const THEY_WIN := 1
  const SAME := 0

  /** The sign of `memcmp` on strings of one length. */
  function Compare(s: Text, t: Text): (r: int)
    requires |s| == |t|
    ensures -1 <= r <= 1
  {
    if s == [] then 0 else if s[0] < t[0] then -1 else if s[0] > t[0] then 1 else Compare(s[1..], t[1..])
  }

  lemma {:induction false} CompareOpposite(s: Text, t: Text)
    requires |s| == |t|
    ensures Compare(s, t) == -Compare(t, s)
    ensures Compare(s, t) == 0 <==> s == t
  {
    if s != [] && s[0] == t[0] {
      CompareOpposite(s[1..], t[1..]);
      assert s == [s[0]] + s[1..] && t == [t[0]] + t[1..];
    }
  }

  /** `memcmp` */
  method MemCmp(ours: array<Octet>, theirs: array<Octet>, from: nat, len: nat) returns (r: int)
    requires len <= ours.Length && from + len <= theirs.Length
    ensures r == Compare(ours[..len], theirs[from..from + len])
  {
    hide Compare;
    var i := 0;
    while i < len
      invariant 0 <= i <= len
      invariant Compare(ours[i..len], theirs[from + i..from + len]) == Compare(ours[..len], theirs[from..from + len])
    {
      CompareStep(ours[i..len], theirs[from + i..from + len]);
      if ours[i] != theirs[from + i] {
        return if ours[i] < theirs[from + i] then -1 else 1;
      }
      assert ours[i..len][1..] == ours[i + 1..len] &&
          theirs[from + i..from + len][1..] == theirs[from + i + 1..from + len];
      i := i + 1;
    }
    CompareNothing();
    assert ours[i..len] == [] && theirs[from + i..from + len] == [];
    return 0;
  }

  lemma CompareStep(s: Text, t: Text)
    requires |s| == |t| > 0
    ensures Compare(s, t) == if s[0] < t[0] then -1 else if s[0] > t[0] then 1 else Compare(s[1..], t[1..])
  {}

  lemma CompareNothing()
    ensures Compare([], []) == 0
  {}

  /** Longer data win; data of one length are compared byte by byte. */
  function Verdict(ours: Text, theirs: Text): int {
    if |theirs| > |ours| then THEY_WIN
    else if |theirs| < |ours| then WE_WIN
    else -Compare(ours, theirs)
  }

  lemma VerdictOpposite(a: Text, b: Text)
    ensures Verdict(a, b) == -Verdict(b, a)
    ensures Verdict(a, b) == SAME <==> a == b
  {
    if |a| == |b| {
      CompareOpposite(a, b);
    }
  }

  // ----- Who wins.

  /** `s` is shorter, or as long and smaller at the first place where the two differ. */
  ghost predicate Beaten(s: Text, t: Text) {
    |s| < |t| || (|s| == |t| && exists k :: 0 <= k < |s| && s[..k] == t[..k] && s[k] < t[k])
  }

  /** The sign is that of the first difference. */
  lemma {:induction false} CompareSign(s: Text, t: Text)
    requires |s| == |t|
    ensures Compare(s, t) == -1 <==> Beaten(s, t)
  {
    if s != [] {
      if s[0] == t[0] {
        CompareSign(s[1..], t[1..]);
        BeatenLater(s, t);
      } else if s[0] < t[0] {
        assert s[..0] == t[..0];
      } else {
        assert forall k :: 0 < k < |s| ==> s[..k][0] == s[0] && t[..k][0] == t[0];
      }
    }
  }

  lemma BeatenLater(s: Text, t: Text)
    requires |s| == |t| > 0 && s[0] == t[0]
    ensures Beaten(s, t) <==> Beaten(s[1..], t[1..])
  {
    if Beaten(s, t) {
      var k :| 0 <= k < |s| && s[..k] == t[..k] && s[k] < t[k];
      BeatenAt(s[1..], t[1..], s[..k][1..], k - 1);
    }
    if Beaten(s[1..], t[1..]) {
      var k :| 0 <= k < |s[1..]| && s[1..][..k] == t[1..][..k] && s[1..][k] < t[1..][k];
      BeatenAt(s, t, [s[0]] + s[1..][..k], k + 1);
    }
  }

  /** The first difference is behind the common beginning `c`. */
  lemma BeatenAt(s: Text, t: Text, c: Text, k: nat)
    requires |s| == |t| && k < |s| && s[k] < t[k] && |c| == k
    requires forall i :: 0 <= i < k ==> s[i] == c[i] == t[i]
    ensures Beaten(s, t)
  {
    assert s[..k] == t[..k];
  }

  /** A host loses, with verdict 1, exactly if its data are beaten, and wins, with -1, exactly if they beat the rest. */
  lemma Winner(ours: Text, theirs: Text)
    ensures Verdict(ours, theirs) == 1 <==> Beaten(ours, theirs)
    ensures Verdict(ours, theirs) == -1 <==> Beaten(theirs, ours)
  {
    if |ours| == |theirs| {
      CompareSign(ours, theirs);
      CompareSign(theirs, ours);
      CompareOpposite(ours, theirs);
    }
  }

  /** Equal beginnings do not matter, different ones decide. */
  lemma {:induction false} CompareParts(a: Text, b: Text, s: Text, t: Text)
    requires |a| == |b| && |s| == |t|
    ensures Compare(a + s, b + t) == if a == b then Compare(s, t) else Compare(a, b)
  {
    if a == [] {
      assert a + s == s && b + t == t;
    } else {
      assert (a + s)[1..] == a[1..] + s && (b + t)[1..] == b[1..] + t;
      assert a == b <==> a[0] == b[0] && a[1..] == b[1..] by {
        assert a == [a[0]] + a[1..] && b == [b[0]] + b[1..];
      }
      CompareParts(a[1..], b[1..], s, t);
    }
  }

  // ----- TXT data.

  /** The data of the TXT record of a service: a zero byte stands for no items. */
  function TxtData(items: seq<TxtItem>): Text {
    if Encode(items) == [] then [0] else Encode(items)
  }

  /** The data of the record, as `append_txt_record` writes them. */
  method AppendTxtData(packet: array<Octet>, index: nat, items: seq<TxtItem>) returns (next: nat, fits: bool)
    requires index + |TxtData(items)| <= packet.Length
    modifies packet
    ensures fits ==> next == index + |TxtData(items)| && packet[index..next] == TxtData(items)
    ensures !fits ==> index + |TxtData(items)| >= MAX_PACKET_SIZE
    ensures packet[..index] == old(packet[..index])
  {
    hide Encode;
    next, fits := AppendEntries(packet, index, items);
    if fits && next == index {
      packet[next] := 0;
      next := next + 1;
    }
  }

  function TxtVerdict(items: seq<TxtItem>, theirs: Text): int {
    if |theirs| <= 1 then (if items != [] then WE_WIN else SAME)
    else if items == [] then THEY_WIN
    else Verdict(Encode(items), theirs)
  }

  /** The lengths of the entries, added up as `check_txt_collision` does. */
  method DataLen(items: seq<TxtItem>) returns (n: nat)
    ensures n == |Encode(items)|
  {
    hide Encode, Entry;
    EncodeNothing();
    n := 0;
    var k := 0;
    while k < |items|
      invariant 0 <= k <= |items| && n == |Encode(items[..k])|
    {
      EncodeStep(items, k);
      EntrySize(items[k]);
      n := n + 1 + |items[k].key| + (if items[k].value.Some? then |items[k].value.value| + 1 else 0);
      k := k + 1;
    }
    assert items[..k] == items;
  }

  lemma EntrySize(item: TxtItem)
    ensures |Entry(item)| == 1 + |item.key| + if item.value.Some? then 1 + |item.value.value| else 0
  {}

  /**
   `check_txt_collision`.  Only for equally long data that do not fit a packet, which no packet can bring, the verdict
   is open: then the comparison is with bytes that have not been written.
   */
  method CheckTxtCollision(items: seq<TxtItem>, data: array<Octet>, from: nat, len: nat) returns (verdict: int)
    requires from + len <= data.Length
    ensures len < MAX_PACKET_SIZE || |Encode(items)| != len ==> verdict == TxtVerdict(items, data[from..from + len])
  {
    hide Encode, Entry, Compare;
    if len <= 1 && items != [] {
      return WE_WIN;
    } else if len > 1 && items == [] {
      return THEY_WIN;
    } else if len <= 1 && items == [] {
      return SAME;
    }
    var dataLen := DataLen(items);
    if len > dataLen {
      return THEY_WIN;
    } else if len < dataLen {
      return WE_WIN;
    }
    var ours := new Octet[len];
    var next, fits := AppendEntries(ours, 0, items);
    assert fits ==> ours[..len] == Encode(items);
    var ret := MemCmp(ours, data, from, len);
    if ret > 0 {
      return WE_WIN;
    } else if ret < 0 {
      return THEY_WIN;
    }
    return SAME;
  }

  /** Who wins with TXT data. */
  lemma TxtWinner(items: seq<TxtItem>, theirs: Text)
    ensures TxtVerdict(items, theirs) == 1 <==> |theirs| > 1 && Beaten(Encode(items), theirs)
    ensures TxtVerdict(items, theirs) == -1 <==> if |theirs| > 1 then Beaten(theirs, Encode(items)) else items != []
  {
    EncodedSize(items);
    hide Encode;
    Winner(Encode(items), theirs);
    hide Compare;
  }

  /** With one item each, under the same key, the larger one of two equally long values wins. */
  lemma LargerValueWins(key: Text, v: Text, w: Text)
    requires |v| == |w|
    ensures var a, b := [TxtItem(key, Some(v))], [TxtItem(key, Some(w))];
            (TxtVerdict(a, TxtData(b)) == 1 <==> Beaten(v, w)) && (TxtVerdict(a, TxtData(b)) == -1 <==> Beaten(w, v))
  {
    var a, b := [TxtItem(key, Some(v))], [TxtItem(key, Some(w))];
    EncodeOne(a[0]);
    EncodeOne(b[0]);
    CompareValues(key, v, w);
    hide Encode, Entry, Compare, Beaten;
    TxtWinner(a, TxtData(b));
    Winner(Encode(a), Encode(b));
    CompareSign(v, w);
    CompareSign(w, v);
    CompareOpposite(v, w);
  }

  lemma CompareValues(key: Text, v: Text, w: Text)
    requires |v| == |w|
    ensures var s, t := Entry(TxtItem(key, Some(v))), Entry(TxtItem(key, Some(w)));
            |s| == |t| > 1 && Compare(s, t) == Compare(v, w)
  {
    EntryOfValue(key, v);
    EntryOfValue(key, w);
    hide Entry, Compare;
    var front := [(|key| + 1 + |v|) % 256] + key + [EQUALS];
    CompareParts(front, front, v, w);
  }

  lemma EntryOfValue(key: Text, v: Text)
    ensures Entry(TxtItem(key, Some(v))) == [(|key| + 1 + |v|) % 256] + key + [EQUALS] + v
  {}

  /** Items that are written as a single zero byte, like none at all: one item with an empty key and no value. */
  predicate LooksEmpty(items: seq<TxtItem>) {
    items != [] && |Encode(items)| == 1
  }

  /** Every item is written as at least one byte. */
  lemma EncodedSize(items: seq<TxtItem>)
    ensures items == [] <==> Encode(items) == []
    ensures LooksEmpty(items) ==> Encode(items) == [0]
  {
    if items != [] {
      EntrySize(items[0]);
      if LooksEmpty(items) {
        assert Encode(items) == Entry(items[0]) && Body(items[0]) == [];
      }
    }
  }

  /**
   Two hosts judge each other's TXT data: the verdicts are opposite, and 0 exactly for the same data, unless the one
   has items that look like none and the other has none or the like.
   */
  lemma TxtVerdictsOpposite(a: seq<TxtItem>, b: seq<TxtItem>)
    ensures (TxtVerdict(a, TxtData(b)) == -TxtVerdict(b, TxtData(a)) &&
             (TxtVerdict(a, TxtData(b)) == SAME <==> TxtData(a) == TxtData(b)))
            <==> !((LooksEmpty(a) || LooksEmpty(b)) && |TxtData(a)| == |TxtData(b)| == 1)
  {
    EncodedSize(a);
    EncodedSize(b);
    hide Encode;
    VerdictOpposite(Encode(a), Encode(b));
    hide Compare;
  }

  /**
   The exception at work: a host whose only item has an empty key and no value claims to win against one without items,
   which sees no conflict, and two such hosts both claim to win.
   */
  lemma EmptyKeyAlone()
    ensures var a, b := [TxtItem([], None)], [];
            && TxtData(a) == TxtData(b)
            && TxtVerdict(a, TxtData(b)) == WE_WIN && TxtVerdict(b, TxtData(a)) == SAME
            && TxtVerdict(a, TxtData(a)) == WE_WIN
  {
    var a := [TxtItem([], None)];
    EncodedSize(a);
    EntrySize(a[0]);
    assert Encode(a) == Entry(a[0]) + Encode(a[1..]) && a[1..] == [];
  }

  // ----- SRV data.

  datatype Srv = Srv(priority: nat, weight: nat, port: nat, host: Text) {
    predicate Valid() {
      priority < 0x1_0000 && weight < 0x1_0000 && port < 0x1_0000 && |host| <= 255
    }
  }

  function U16(v: nat): (s: Text)
    requires v < 0x1_0000
    ensures |s| == 2
  {
    [v / 256, v % 256]
  }

  /** The data of an SRV record, as `check_srv_collision` lays them out. */
  function SrvData(s: Srv, domain: Text): (d: Text)
    requires s.Valid() && |domain| <= 63
    ensures |d| == 9 + |s.host| + |domain|
  {
    U16(s.priority) + U16(s.weight) + U16(s.port) + [|s.host|] + s.host + [|domain|] + domain + [0]
  }

  /** The bytes of an SRV record written one after the other. */
  method LayOut(s: Srv, domain: Text, len: nat) returns (data: array<Octet>)
    requires s.Valid() && |domain| <= 63 && len == 9 + |s.host| + |domain|
    ensures fresh(data) && data[..] == SrvData(s, domain)
  {
    hide SrvData;
    data := new Octet[len];
    data[0], data[1] := s.priority / 256, s.priority % 256;
    data[2], data[3] := s.weight / 256, s.weight % 256;
    data[4], data[5] := s.port / 256, s.port % 256;
    data[6] := |s.host|;
    forall i | 0 <= i < |s.host| {
      data[7 + i] := s.host[i];
    }
    data[7 + |s.host|] := |domain|;
    forall i | 0 <= i < |domain| {
      data[8 + |s.host| + i] := domain[i];
    }
    data[8 + |s.host| + |domain|] := 0;
    forall k | 0 <= k < len ensures data[k] == SrvData(s, domain)[k] {
      SrvDataAt(s, domain, k);
    }
  }

  function U16At(v: nat, k: nat): Octet
    requires v < 0x1_0000
  {
    if k == 0 then v / 256 else v % 256
  }

  lemma SrvDataAt(s: Srv, domain: Text, k: nat)
    requires s.Valid() && |domain| <= 63 && k < 9 + |s.host| + |domain|
    ensures var n := |s.host|;
            SrvData(s, domain)[k] ==
              if k < 2 then U16At(s.priority, k) else if k < 4 then U16At(s.weight, k - 2)
              else if k < 6 then U16At(s.port, k - 4)
              else if k == 6 then n else if k < 7 + n then s.host[k - 7] else if k == 7 + n then |domain|
              else if k < 8 + n + |domain| then domain[k - 8 - n] else 0
  {
    hide U16At;
    U16Parts(s.priority);
    U16Parts(s.weight);
    U16Parts(s.port);
  }

  lemma U16Parts(v: nat)
    requires v < 0x1_0000
    ensures U16(v)[0] == U16At(v, 0) && U16(v)[1] == U16At(v, 1)
  {}

  /** The verdict of a host, whose name may be missing. */
  function SrvVerdict(ours: Srv, theirs: Srv, domain: Text): int
    requires ours.Valid() && theirs.Valid() && |domain| <= 63
  {
    if ours.host == [] then SAME else Verdict(SrvData(ours, LOCAL), SrvData(theirs, domain))
  }

  /** `check_srv_collision` */
  method CheckSrvCollision(ours: Srv, theirs: Srv, domain: Text) returns (verdict: int)
    requires ours.Valid() && theirs.Valid() && |domain| <= 63
    ensures verdict == SrvVerdict(ours, theirs, domain)
  {
    hide SrvData, Compare;
    if ours.host == [] {
      return SAME;
    }
    var ourLen := 14 + |ours.host|;
    var theirLen := 9 + |theirs.host| + |domain|;
    if theirLen > ourLen {
      return THEY_WIN;
    } else if theirLen < ourLen {
      return WE_WIN;
    }
    var ourData := LayOut(ours, LOCAL, ourLen);
    var theirData := LayOut(theirs, domain, theirLen);
    assert ourData[..ourLen] == ourData[..] && theirData[0..0 + ourLen] == theirData[..];
    var ret := MemCmp(ourData, theirData, 0, ourLen);
    if ret > 0 {
      return WE_WIN;
    } else if ret < 0 {
      return THEY_WIN;
    }
    return SAME;
  }

  /** Who wins with SRV data. */
  lemma SrvWinner(ours: Srv, theirs: Srv, domain: Text)
    requires ours.Valid() && theirs.Valid() && |domain| <= 63
    ensures SrvVerdict(ours, theirs, domain) == 1 <==>
            ours.host != [] && Beaten(SrvData(ours, LOCAL), SrvData(theirs, domain))
    ensures SrvVerdict(ours, theirs, domain) == -1 <==>
            ours.host != [] && Beaten(SrvData(theirs, domain), SrvData(ours, LOCAL))
  {
    hide SrvData, Compare, Verdict;
    Winner(SrvData(ours, LOCAL), SrvData(theirs, domain));
  }

  /** The order of records: length of the host name, priority, weight, port, host name. */
  ghost predicate Lower(a: Srv, b: Srv) {
    if |a.host| != |b.host| then |a.host| < |b.host|
    else if a.priority != b.priority then a.priority < b.priority
    else if a.weight != b.weight then a.weight < b.weight
    else if a.port != b.port then a.port < b.port
    else Beaten(a.host, b.host)
  }

  function Sign(v: nat, w: nat): int { if v < w then -1 else if v > w then 1 else 0 }

  lemma CompareU16(v: nat, w: nat, s: Text, t: Text)
    requires v < 0x1_0000 && w < 0x1_0000 && |s| == |t|
    ensures Compare(U16(v) + s, U16(w) + t) == if v == w then Compare(s, t) else Sign(v, w)
  {
    CompareOctets(v / 256, v % 256, w / 256, w % 256);
    CompareParts(U16(v), U16(w), s, t);
  }

  lemma CompareOctets(a: Octet, b: Octet, c: Octet, d: Octet)
    ensures Compare([a, b], [c, d]) == if a == c then Sign(b, d) else Sign(a, c)
  {
    CompareOctet(a, c);
    CompareOctet(b, d);
    CompareParts([a], [c], [b], [d]);
    assert [a] + [b] == [a, b] && [c] + [d] == [c, d];
  }

  lemma CompareOctet(a: Octet, b: Octet)
    ensures Compare([a], [b]) == Sign(a, b)
  {
    assert [a][1..] == [] && [b][1..] == [];
  }

  lemma SrvDataParts(s: Srv, domain: Text)
    requires s.Valid() && |domain| <= 63
    ensures SrvData(s, domain) ==
            U16(s.priority) + (U16(s.weight) + (U16(s.port) + ([|s.host|] + (s.host + ([|domain|] + domain + [0])))))
  {
    hide U16;
  }

  lemma CompareSrv(a: Srv, b: Srv)
    requires a.Valid() && b.Valid() && |a.host| == |b.host|
    ensures Compare(SrvData(a, LOCAL), SrvData(b, LOCAL)) == -1 <==> Lower(a, b)
  {
    hide SrvData, Compare, U16, Beaten;
    var end := [|LOCAL|] + LOCAL + [0];
    SrvDataParts(a, LOCAL);
    SrvDataParts(b, LOCAL);
    var s, t := [|a.host|] + (a.host + end), [|b.host|] + (b.host + end);
    CompareU16(a.priority, b.priority, U16(a.weight) + (U16(a.port) + s), U16(b.weight) + (U16(b.port) + t));
    CompareU16(a.weight, b.weight, U16(a.port) + s, U16(b.port) + t);
    CompareU16(a.port, b.port, s, t);
    CompareParts([|a.host|], [|b.host|], a.host + end, b.host + end);
    CompareParts(a.host, b.host, end, end);
    CompareOpposite(end, end);
    CompareSign(a.host, b.host);
    CompareOpposite(a.host, b.host);
  }

  /**
   Between hosts in the domain `local`, the lower record loses: of records that agree in priority, weight and host, the
   one with the larger port wins.
   */
  lemma SrvOrder(a: Srv, b: Srv)
    requires a.Valid() && b.Valid()
    ensures SrvVerdict(a, b, LOCAL) == 1 <==> a.host != [] && Lower(a, b)
    ensures SrvVerdict(a, b, LOCAL) == -1 <==> a.host != [] && Lower(b, a)
  {
    hide SrvData, Compare, Lower;
    if |a.host| == |b.host| {
      CompareSrv(a, b);
      CompareSrv(b, a);
      CompareOpposite(SrvData(a, LOCAL), SrvData(b, LOCAL));
    } else {
      LowerByLength(a, b);
    }
  }

  lemma LowerByLength(a: Srv, b: Srv)
    requires |a.host| != |b.host|
    ensures Lower(a, b) <==> |a.host| < |b.host|
    ensures Lower(b, a) <==> |b.host| < |a.host|
  {}

  /** Equal data mean equal records. */
  lemma SrvDataInjective(a: Srv, b: Srv)
    requires a.Valid() && b.Valid() && SrvData(a, LOCAL) == SrvData(b, LOCAL)
    ensures a == b
  {
    var d, e := SrvData(a, LOCAL), SrvData(b, LOCAL);
    assert forall i :: 0 <= i < |d| ==> d[i] == e[i];
    assert d[0] == a.priority / 256 && d[1] == a.priority % 256 && e[0] == b.priority / 256 && e[1] == b.priority % 256;
    assert d[2] == a.weight / 256 && d[3] == a.weight % 256 && e[2] == b.weight / 256 && e[3] == b.weight % 256;
    assert d[4] == a.port / 256 && d[5] == a.port % 256 && e[4] == b.port / 256 && e[5] == b.port % 256;
    assert d[7..7 + |a.host|] == a.host && e[7..7 + |b.host|] == b.host;
  }

  /**
   Two hosts in the domain `local` reach opposite verdicts, and 0 exactly if their records are the same, if and only if
   both have names or the records are the same.
   */
  lemma SrvVerdictsOpposite(a: Srv, b: Srv)
    requires a.Valid() && b.Valid()
    ensures var v, w := SrvVerdict(a, b, LOCAL), SrvVerdict(b, a, LOCAL);
            v == -w && (v == SAME <==> a == b) <==> (a.host != [] && b.host != []) || a == b
  {
    hide SrvData, Compare;
    VerdictOpposite(SrvData(a, LOCAL), SrvData(b, LOCAL));
    if SrvData(a, LOCAL) == SrvData(b, LOCAL) {
      SrvDataInjective(a, b);
    }
  }
}
