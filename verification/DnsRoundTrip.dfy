/** What the reader makes of a name that the writer has compressed. */
module DnsRoundTrip {
  import opened Options
  import opened DnsName

  /** The texts of the labels among the items. */
  function Texts(items: seq<Item>): (t: seq<Text>) {
    if items == [] then []
    else (if items[0].Word? then [CString(items[0].bytes)] else []) + Texts(items[1..])
  }

  /**
   The strings that the responder gives to the writer: at most four labels, none of them "_sub", the second one a
   service type or a domain.
   */
  ghost predicate WellFormed(reverse: bool, strings: seq<Text>) {
    && |strings| <= 4
    && (forall i :: 0 <= i < |strings| ==> IsLabel(strings[i]))
    && (|strings| >= 2 ==> StartsService(reverse, strings[1]))
  }

  ghost predicate IsLabel(s: Text) {
    1 <= |s| <= 63 && 0 !in s && !SameText(s, SUB)
  }

  /** The last thing on the way through a name is a pointer, which therefore leads to an empty name. */
  predicate EndsInJump(items: seq<Item>) {
    items != [] && items[|items| - 1].Jump?
  }

  ghost predicate SameTexts(a: seq<Text>, b: seq<Text>) {
    |a| == |b| && forall i :: 0 <= i < |a| ==> SameText(a[i], b[i])
  }

  /** The reader has taken in the strings from the k-th slot on. */
  ghost predicate Filled(n: Name, k: nat, strings: seq<Text>) {
    k + |strings| <= 4 && forall i :: 0 <= i < |strings| ==> SameText(strings[i], n.Slot(k + i))
  }

  // ----- Comparison of texts.

  lemma SameTextSymmetric(s: Text, t: Text)
    ensures SameText(s, t) == SameText(t, s)
  {}

  lemma SameTextTransitive(s: Text, t: Text, u: Text)
    requires SameText(s, t) && SameText(t, u)
    ensures SameText(s, u)
  {}

  lemma SameService(reverse: bool, s: Text, t: Text)
    requires SameText(s, t)
    ensures StartsService(reverse, s) ==> StartsService(reverse, t)
  {
    if s != [] && s[0] == UNDERSCORE {
      assert Lower(s)[0] == Lower(t)[0] == ToLower(s[0]);
    }
  }

  // ----- Taking in labels that agree with well-formed strings fills the slots.

  lemma TakeWord(reverse: bool, name: Name, bytes: seq<Octet>, s: Text)
    requires name.parts < 4 && !name.invalid
    requires SameText(s, CString(bytes)) && !SameText(s, SUB)
    requires name.parts == 1 ==> StartsService(reverse, s)
    ensures Take(reverse, name, Word(bytes)) == name.WithSlot(name.parts, CString(bytes)).(parts := name.parts + 1)
  {
    hide SameText, CString, StartsService;
    var c := CString(bytes);
    if SameText(c, SUB) { SameTextTransitive(s, c, SUB); }
    SameService(reverse, s, c);
  }

  lemma FilledFrom(n: Name, k: nat, strings: seq<Text>)
    requires strings != [] && Filled(n, k + 1, strings[1..]) && SameText(strings[0], n.Slot(k))
    ensures Filled(n, k, strings)
  {
    hide SameText;
    forall i | 0 <= i < |strings| ensures SameText(strings[i], n.Slot(k + i)) {
      if i > 0 {
        assert strings[i] == strings[1..][i - 1];
      }
    }
  }

  lemma TakeHead(reverse: bool, name: Name, items: seq<Item>)
    requires name.parts <= 4 && items != []
    ensures TakeAll(reverse, name, items) == TakeAll(reverse, Take(reverse, name, items[0]), items[1..])
  {
    hide Take;
  }

  lemma TextsTail(items: seq<Item>)
    requires items != []
    ensures Texts(items) == (if items[0].Word? then [CString(items[0].bytes)] else []) + Texts(items[1..])
  {}

  lemma EndsTail(items: seq<Item>)
    requires items != []
    ensures EndsInJump(items) <==> if |items| == 1 then items[0].Jump? else EndsInJump(items[1..])
  {}

  lemma SameTail(strings: seq<Text>, t: Text, rest: seq<Text>)
    requires SameTexts(strings, [t] + rest)
    ensures strings != [] && SameText(strings[0], t) && SameTexts(strings[1..], rest)
  {
    hide SameText;
    assert SameText(strings[0], ([t] + rest)[0]);
    forall i | 0 <= i < |strings| - 1 ensures SameText(strings[1..][i], rest[i]) {
      assert SameText(strings[i + 1], ([t] + rest)[i + 1]);
    }
  }

  /** The state before the strings are taken in. */
  ghost predicate Fillable(reverse: bool, name: Name, strings: seq<Text>) {
    && name.parts + |strings| <= 4 && !name.invalid
    && (forall i :: 0 <= i < |strings| ==> !SameText(strings[i], SUB))
    && (name.parts <= 1 && 1 - name.parts < |strings| ==> StartsService(reverse, strings[1 - name.parts]))
  }

  /** The state after. */
  ghost predicate FilledBy(name: Name, strings: seq<Text>, n: Name) {
    && n.parts == name.parts + |strings| && n.sub == name.sub && Filled(n, name.parts, strings)
    && forall i :: 0 <= i < name.parts ==> n.Slot(i) == name.Slot(i)
  }

  lemma FillWord(reverse: bool, name: Name, bytes: seq<Octet>, strings: seq<Text>)
    requires Fillable(reverse, name, strings) && strings != [] && SameText(strings[0], CString(bytes))
    ensures var c := CString(bytes);
            var next := name.WithSlot(name.parts, c).(parts := name.parts + 1);
            Take(reverse, name, Word(bytes)) == next && Fillable(reverse, next, strings[1..])
    ensures var next := Take(reverse, name, Word(bytes));
            forall n: Name :: FilledBy(next, strings[1..], n) ==> FilledBy(name, strings, n)
  {
    hide SameText, CString, StartsService, Take, Filled;
    TakeWord(reverse, name, bytes, strings[0]);
    var next := Take(reverse, name, Word(bytes));
    forall i | 0 <= i < |strings| - 1 ensures !SameText(strings[1..][i], SUB) {
      assert strings[1..][i] == strings[i + 1];
    }
    forall n: Name | FilledBy(next, strings[1..], n) ensures FilledBy(name, strings, n) {
      assert n.Slot(name.parts) == next.Slot(name.parts) == CString(bytes);
      FilledFrom(n, name.parts, strings);
    }
  }

  lemma {:induction false} FillSlots(reverse: bool, name: Name, items: seq<Item>, strings: seq<Text>)
    requires name.parts <= 4 && Fillable(reverse, name, strings) && SameTexts(strings, Texts(items))
    ensures var n := TakeAll(reverse, name, items);
            FilledBy(name, strings, n) && (n.invalid <==> n.parts == 4 && EndsInJump(items))
    decreases |items|
  {
    hide Fillable, FilledBy, TakeAll, Texts, EndsInJump, SameTexts, Take;
    if items == [] {
      FillNothing(reverse, name, strings);
    } else {
      TakeHead(reverse, name, items);
      TextsTail(items);
      EndsTail(items);
      if items[0].Word? {
        SameTail(strings, CString(items[0].bytes), Texts(items[1..]));
        FillWord(reverse, name, items[0].bytes, strings);
        FillSlots(reverse, Take(reverse, name, items[0]), items[1..], strings[1..]);
        OneLeft(reverse, Take(reverse, name, items[0]), items);
      } else {
        assert [] + Texts(items[1..]) == Texts(items[1..]);
        FillJump(reverse, name, items, strings);
        if name.parts < 4 {
          FillSlots(reverse, name, items[1..], strings);
          OneLeft(reverse, name, items);
        }
      }
    }
  }

  lemma FillNothing(reverse: bool, name: Name, strings: seq<Text>)
    requires Fillable(reverse, name, strings) && SameTexts(strings, Texts([]))
    ensures FilledBy(name, strings, TakeAll(reverse, name, [])) && !TakeAll(reverse, name, []).invalid &&
            !EndsInJump([])
  {}

  lemma OneLeft(reverse: bool, next: Name, items: seq<Item>)
    requires items != [] && next.parts <= 4
    ensures |items| == 1 ==> items[1..] == [] && !EndsInJump(items[1..]) && TakeAll(reverse, next, items[1..]) == next
    ensures items[0].Jump? && |items| == 1 && next.parts < 4 ==> TakeAll(reverse, next, items[1..]).parts < 4
  {}

  lemma FillJump(reverse: bool, name: Name, items: seq<Item>, strings: seq<Text>)
    requires items != [] && Fillable(reverse, name, strings) && SameTexts(strings, Texts(items[1..]))
    requires items[0].Jump? && EndsInJump(items) == (|items| == 1 || EndsInJump(items[1..]))
    ensures name.parts < 4 ==> Take(reverse, name, items[0]) == name
    ensures name.parts == 4 ==>
              var n := TakeAll(reverse, Take(reverse, name, items[0]), items[1..]);
              FilledBy(name, strings, n) && n.invalid && n.parts == 4 && EndsInJump(items)
  {
    hide TakeAll, SameText, Texts;
    if name.parts == 4 {
      FullName(reverse, Enter(name), items[1..]);
    }
  }

  /** Pointers alone do not change the slots. */
  lemma {:induction false} FullName(reverse: bool, name: Name, items: seq<Item>)
    requires name.parts <= 4 && Texts(items) == []
    ensures var n := TakeAll(reverse, name, items);
            n.parts == name.parts && n.sub == name.sub && (forall i :: 0 <= i < 4 ==> n.Slot(i) == name.Slot(i)) &&
            (name.parts == 4 ==> n.invalid == (name.invalid || items != [])) && (items != [] ==> EndsInJump(items))
    decreases |items|
  {
    if items != [] {
      FullName(reverse, Take(reverse, name, items[0]), items[1..]);
    }
  }

  // ----- Conversely, a name that comes out clean was made of exactly the labels in its slots.

  /** Errors and overlong hosts do not go away again. */
  lemma {:induction false} Monotone(reverse: bool, name: Name, items: seq<Item>)
    requires 1 <= name.parts <= 4
    ensures var n := TakeAll(reverse, name, items);
            (name.invalid ==> n.invalid) && (name.sub != 0 ==> n.sub != 0) && |n.host| >= |name.host|
    decreases |items|
  {
    hide SameText, CString, StartsService;
    if items != [] {
      Monotone(reverse, Take(reverse, name, items[0]), items[1..]);
    }
  }

  /** A label that leaves no trace of an error has gone to the next slot. */
  lemma CleanWord(reverse: bool, name: Name, bytes: seq<Octet>)
    requires 1 <= name.parts <= 4 && |name.host| <= 63
    ensures var next := Take(reverse, name, Word(bytes));
            || next.invalid || next.sub != 0 || |next.host| > |name.host|
            || (name.parts < 4 && next == name.WithSlot(name.parts, CString(bytes)).(parts := name.parts + 1))
  {
    hide SameText, CString, StartsService;
  }

  /** The texts have gone to the next slots, and the slots before are as they were. */
  ghost predicate CleanlyTaken(name: Name, n: Name, texts: seq<Text>) {
    && name.parts + |texts| <= 4 && n.parts == name.parts + |texts|
    && (forall i :: 0 <= i < |texts| ==> texts[i] == n.Slot(name.parts + i))
    && (forall i :: 0 <= i < name.parts ==> n.Slot(i) == name.Slot(i))
  }

  lemma CleanStep(name: Name, next: Name, n: Name, c: Text, rest: seq<Text>)
    requires name.parts < 4 && next == name.WithSlot(name.parts, c).(parts := name.parts + 1) &&
             CleanlyTaken(next, n, rest)
    ensures CleanlyTaken(name, n, [c] + rest)
  {
    assert n.Slot(name.parts) == next.Slot(name.parts) == c;
    forall i | 0 < i < |[c] + rest| ensures ([c] + rest)[i] == n.Slot(name.parts + i) {
      assert ([c] + rest)[i] == rest[i - 1] == n.Slot(next.parts + (i - 1));
    }
    forall i | 0 <= i < name.parts ensures n.Slot(i) == name.Slot(i) {
      assert n.Slot(i) == next.Slot(i);
    }
  }

  lemma {:induction false} CleanTexts(reverse: bool, name: Name, items: seq<Item>)
    requires 1 <= name.parts <= 4 && |name.host| <= 63
    requires var n := TakeAll(reverse, name, items); n.sub == 0 && !n.invalid && |n.host| == |name.host|
    ensures CleanlyTaken(name, TakeAll(reverse, name, items), Texts(items))
    decreases |items|
  {
    hide SameText, CString, StartsService, Accept, TakeAll, Texts, CleanlyTaken;
    if items == [] {
      CleanNothing(reverse, name);
    } else {
      TakeHead(reverse, name, items);
      TextsTail(items);
      var next, n := Take(reverse, name, items[0]), TakeAll(reverse, name, items);
      Monotone(reverse, next, items[1..]);
      if items[0].Word? {
        CleanWord(reverse, name, items[0].bytes);
        CleanTexts(reverse, next, items[1..]);
        CleanStep(name, next, n, CString(items[0].bytes), Texts(items[1..]));
      } else {
        assert [] + Texts(items[1..]) == Texts(items[1..]);
        CleanTexts(reverse, next, items[1..]);
      }
    }
  }

  lemma CleanNothing(reverse: bool, name: Name)
    requires name.parts <= 4
    ensures CleanlyTaken(name, TakeAll(reverse, name, []), Texts([]))
  {}

  /** What a match of the writer's search is made of. */
  lemma TargetTexts(reverse: bool, p: seq<Octet>, at: nat, strings: seq<Text>, end: nat)
    requires strings != [] && Roomy(p, at, end) && IsLabel(strings[0]) && |strings| <= 4
    requires Matches(reverse, p, at, strings, end)
    requires var n := Read(reverse, p, at, at, end, EMPTY).1; n.sub == 0 && !n.invalid
    ensures var scan := ScanName(p, at, at, end); scan.Scanned? && SameTexts(strings, Texts(scan.items))
  {
    hide SameText, CString, StartsService, Read, ScanName, TakeAll, Texts, Matches, IsLabel;
    var s, n := strings[0], Read(reverse, p, at, at, end, EMPTY).1;
    MatchedScan(reverse, p, at, strings, end);
    var items := ScanName(p, at, at, end).items;
    var next := EMPTY.(host := s, parts := 1);
    LabelLength(s);
    CleanTexts(reverse, next, items[1..]);
    assert items == [Word(s)] + items[1..];
    TextsHead(s, items[1..]);
    TargetSame(n, strings, Texts(items[1..]));
  }

  /** A match begins with the first string, which goes to the first slot. */
  lemma MatchedScan(reverse: bool, p: seq<Octet>, at: nat, strings: seq<Text>, end: nat)
    requires strings != [] && Roomy(p, at, end) && IsLabel(strings[0]) && |strings| <= 4
    requires Matches(reverse, p, at, strings, end)
    ensures var scan, n, s := ScanName(p, at, at, end), Read(reverse, p, at, at, end, EMPTY).1, strings[0];
            && scan.Scanned? && scan.items != [] && scan.items[0] == Word(s) && CString(s) == s
            && n == TakeAll(reverse, EMPTY.(host := s, parts := 1), scan.items[1..])
            && n.parts == |strings| && |n.host| == |s| && forall i :: 0 <= i < |strings| ==>
                SameText(strings[i], n.Slot(i))
  {
    hide SameText, StartsService, Read, TakeAll;
    var s, n := strings[0], Read(reverse, p, at, at, end, EMPTY).1;
    ReadIsScan(reverse, p, at, at, end, EMPTY);
    var items := ScanName(p, at, at, end).items;
    MatchInside(reverse, p, at, strings, end);
    FirstWord(p, at, s, end);
    FirstTaken(reverse, s);
    TakeHead(reverse, EMPTY, items);
    assert SameText(s, n.Slot(0));
    SameLength(s, n.Slot(0));
  }

  lemma MatchInside(reverse: bool, p: seq<Octet>, at: nat, strings: seq<Text>, end: nat)
    requires strings != [] && Roomy(p, at, end) && Matches(reverse, p, at, strings, end)
    ensures at < end
  {
    hide Read, SameText;
    ReadCases(reverse, p, at, at, end, EMPTY);
  }

  lemma FirstWord(p: seq<Octet>, at: nat, s: Text, end: nat)
    requires at < end < |p| && 1 <= |s| <= 63 && at + 1 + |s| <= |p| && p[at] == |s| && p[at + 1..at + 1 + |s|] == s
    ensures var scan := ScanName(p, at, at, end); scan.Scanned? ==> scan.items != [] && scan.items[0] == Word(s)
  {
    hide ScanName;
    ScanCases(p, at, at, end);
  }

  lemma TargetSame(n: Name, strings: seq<Text>, rest: seq<Text>)
    requires |strings| == 1 + |rest| <= 4
    requires forall i :: 0 <= i < |strings| ==> SameText(strings[i], n.Slot(i))
    requires forall i :: 0 <= i < |rest| ==> rest[i] == n.Slot(1 + i)
    ensures SameTexts(strings, [strings[0]] + rest)
  {
    hide SameText;
    var t := [strings[0]] + rest;
    forall i | 0 <= i < |strings| ensures SameText(strings[i], t[i]) {
      if i == 0 { SameReflexive(strings[0]); } else { assert t[i] == rest[i - 1] == n.Slot(i); }
    }
  }

  lemma SameLength(s: Text, t: Text)
    requires SameText(s, t)
    ensures |s| == |t|
  {
    assert |Lower(s)| == |Lower(t)|;
  }

  lemma SameReflexive(s: Text)
    ensures SameText(s, s)
  {}

  // ----- Names that end before a limit.

  /** The name at `pos` is read from the first `limit` bytes only, and ends with a zero byte there. */
  predicate Settled(p: seq<Octet>, start: nat, pos: nat, limit: nat)
    requires limit <= |p|
    decreases start, limit - pos
  {
    && pos < limit
    && var len := p[pos];
       || len == 0
       || (len <= 63 && Settled(p, start, pos + 1 + len, limit))
       || (len >= 0xC0 && pos + 1 < limit
           && var address := Address(len, p[pos + 1]); address < start && Settled(p, address, address, limit))
  }

  /** Such a name reads the same in every packet that begins with those bytes. */
  lemma {:induction false} SettledScan(p: seq<Octet>, q: seq<Octet>, start: nat, pos: nat, limit: nat, end: nat,
                                       end': nat)
    requires limit <= end < |p| && limit <= end' < |q| && p[..limit] == q[..limit]
    requires Settled(p, start, pos, limit)
    ensures ScanName(p, start, pos, end) == ScanName(q, start, pos, end')
    ensures ScanName(p, start, pos, end).Scanned?
    decreases start, limit - pos
  {
    hide ScanName;
    var len := p[pos];
    SameByte(p, q, limit, pos);
    ScanCases(p, start, pos, end);
    ScanCases(q, start, pos, end');
    if len == 0 {
    } else if len <= 63 {
      SettledScan(p, q, start, pos + 1 + len, limit, end, end');
      SettledEnd(p, start, pos + 1 + len, limit);
      SameBytes(p, q, limit, pos + 1, pos + 1 + len);
    } else {
      SameByte(p, q, limit, pos + 1);
      var address := Address(len, p[pos + 1]);
      SettledScan(p, q, address, address, limit, end, end');
    }
  }

  lemma SettledEnd(p: seq<Octet>, start: nat, pos: nat, limit: nat)
    requires limit <= |p| && Settled(p, start, pos, limit)
    ensures pos < limit
  {}

  lemma SameByte(p: seq<Octet>, q: seq<Octet>, limit: nat, i: nat)
    requires i < limit <= |p| && limit <= |q| && p[..limit] == q[..limit]
    ensures p[i] == q[i]
  {
    assert p[..limit][i] == q[..limit][i];
  }

  lemma SameBytes(p: seq<Octet>, q: seq<Octet>, limit: nat, i: nat, j: nat)
    requires i <= j <= limit <= |p| && limit <= |q| && p[..limit] == q[..limit]
    ensures p[i..j] == q[i..j]
  {
    assert p[i..j] == p[..limit][i..j] == q[..limit][i..j] == q[i..j];
  }

  /** What happens at a position of a name. */
  lemma ScanCases(p: seq<Octet>, start: nat, pos: nat, end: nat)
    requires pos < end < |p|
    ensures var scan := ScanName(p, start, pos, end);
            if p[pos] == 0 then scan == Scanned(pos + 1, [])
            else if p[pos] <= 63 && pos + 1 + p[pos] <= end then
              scan == match ScanName(p, start, pos + 1 + p[pos], end)
                      case Unreadable => Unreadable
                      case Scanned(e, items) => Scanned(e, [Word(p[pos + 1..pos + 1 + p[pos]])] + items)
            else if p[pos] >= 0xC0 && Address(p[pos], p[pos + 1]) < start then
              var address := Address(p[pos], p[pos + 1]);
              scan == match ScanName(p, address, address, end)
                      case Unreadable => Unreadable
                      case Scanned(_, items) => Scanned(pos + 2, [Jump] + items)
            else scan == Unreadable
  {}

  // ----- Writing and reading back.

  /** The bytes that the name takes without compression, except for its end. */
  function Size(strings: seq<Text>): nat {
    if strings == [] then 0 else |strings[0]| + 1 + Size(strings[1..])
  }

  /** What is left when the writer stops writing labels: nothing, or strings that it has found at `at`. */
  datatype Stop = Stop(packet: seq<Octet>, index: nat, strings: seq<Text>, at: Option<nat>)

  /** The name and its labels are inside the packet, even without compression. */
  ghost predicate HasRoom(p: seq<Octet>, index: nat, strings: seq<Text>, end: nat) {
    Roomy(p, index, end) && index + Size(strings) < MAX_PACKET_SIZE && index + Size(strings) <= end
  }

  ghost predicate AreLabels(strings: seq<Text>) {
    forall i :: 0 <= i < |strings| ==> IsLabel(strings[i])
  }

  /** Where the writer stops writing labels. */
  function StopOf(reverse: bool, p: seq<Octet>, index: nat, strings: seq<Text>, end: nat): (t: Stop)
    requires HasRoom(p, index, strings, end) && AreLabels(strings)
    ensures |t.packet| == |p| && index <= t.index <= index + Size(strings) && |t.strings| <= |strings|
    ensures t.at.Some? ==> t.at.value < t.index
    decreases |strings|
  {
    hide Matches, Search, IsLabel, AreLabels, HasRoom, Put, Encoded, Size;
    if strings == [] then
      RoomNow(p, index, strings, end);
      Stop(p, index, strings, None)
    else
      RoomNow(p, index, strings, end);
      match Search(reverse, p, 0, index, strings, end)
      case Some(at) => Stop(p, index, strings, Some(at))
      case None =>
        RoomLeft(p, index, strings, end);
        StopOf(reverse, Put(p, index, Encoded(strings[0])), index + |strings[0]| + 1, strings[1..], end)
  }

  lemma RoomNow(p: seq<Octet>, index: nat, strings: seq<Text>, end: nat)
    requires HasRoom(p, index, strings, end)
    ensures Roomy(p, index, end)
  {}

  lemma RoomLeft(p: seq<Octet>, index: nat, strings: seq<Text>, end: nat)
    requires HasRoom(p, index, strings, end) && AreLabels(strings) && strings != []
    ensures 1 <= |strings[0]| <= 63 && LengthByte(strings[0]) == |strings[0]| &&
            |Encoded(strings[0])| == |strings[0]| + 1
    ensures Size(strings) == |strings[0]| + 1 + Size(strings[1..])
    ensures index + |strings[0]| + 1 < MAX_PACKET_SIZE < |p| && AreLabels(strings[1..])
    ensures HasRoom(Put(p, index, Encoded(strings[0])), index + |strings[0]| + 1, strings[1..], end)
  {
    hide Put;
    assert IsLabel(strings[0]);
    forall i | 0 <= i < |strings| - 1 ensures IsLabel(strings[1..][i]) {
      assert strings[1..][i] == strings[i + 1];
    }
  }

  lemma StopCases(reverse: bool, p: seq<Octet>, index: nat, strings: seq<Text>, end: nat)
    requires HasRoom(p, index, strings, end) && AreLabels(strings)
    ensures var t := StopOf(reverse, p, index, strings, end);
            if strings == [] then t == Stop(p, index, [], None)
            else
              Roomy(p, index, end) &&
              match Search(reverse, p, 0, index, strings, end)
              case Some(at) => t == Stop(p, index, strings, Some(at))
              case None =>
                && index + |strings[0]| + 1 < MAX_PACKET_SIZE < |p| && |Encoded(strings[0])| == |strings[0]| + 1
                && HasRoom(Put(p, index, Encoded(strings[0])), index + |strings[0]| + 1, strings[1..], end)
                && AreLabels(strings[1..])
                && t == StopOf(reverse, Put(p, index, Encoded(strings[0])), index + |strings[0]| + 1, strings[1..], end)
  {
    hide Matches, Search, Put, Encoded, IsLabel, HasRoom, AreLabels;
    RoomNow(p, index, strings, end);
    if strings != [] {
      RoomLeft(p, index, strings, end);
    }
  }

  /** What is left is a tail of the strings, and was matched unless nothing is left. */
  lemma {:induction false} StopStrings(reverse: bool, p: seq<Octet>, index: nat, strings: seq<Text>, end: nat)
    requires HasRoom(p, index, strings, end) && AreLabels(strings)
    ensures var t := StopOf(reverse, p, index, strings, end);
            && |t.strings| <= |strings| && t.strings == strings[|strings| - |t.strings|..]
            && t.index + Size(t.strings) == index + Size(strings)
            && (t.at.None? <==> t.strings == []) && Roomy(t.packet, t.index, end)
            && (t.at.Some? ==> Matches(reverse, t.packet, t.at.value, t.strings, end))
    decreases |strings|
  {
    hide Matches, Search, Put, Encoded, IsLabel, HasRoom, AreLabels, StopOf, Roomy, Size;
    StopCases(reverse, p, index, strings, end);
    RoomNow(p, index, strings, end);
    if strings != [] && Search(reverse, p, 0, index, strings, end).None? {
      RoomLeft(p, index, strings, end);
      StopStrings(reverse, Put(p, index, Encoded(strings[0])), index + |strings[0]| + 1, strings[1..], end);
      TailOfTail(strings, |StopOf(reverse, p, index, strings, end).strings|);
    }
  }

  lemma TailOfTail(strings: seq<Text>, k: nat)
    requires k < |strings|
    ensures strings[1..][|strings| - 1 - k..] == strings[|strings| - k..]
  {}

  /** What stands before is not changed. */
  lemma {:induction false} StopKeeps(reverse: bool, p: seq<Octet>, index: nat, strings: seq<Text>, end: nat)
    requires HasRoom(p, index, strings, end) && AreLabels(strings)
    ensures StopOf(reverse, p, index, strings, end).packet[..index] == p[..index]
    decreases |strings|
  {
    hide Matches, Search, Encoded, IsLabel, HasRoom, AreLabels, StopOf;
    StopCases(reverse, p, index, strings, end);
    if strings != [] && Search(reverse, p, 0, index, strings, end).None? {
      var q, next := Put(p, index, Encoded(strings[0])), index + |strings[0]| + 1;
      hide Put;
      StopKeeps(reverse, q, next, strings[1..], end);
      ShorterPrefix(StopOf(reverse, p, index, strings, end).packet, q, index, next);
    }
  }

  lemma ShorterPrefix(p: seq<Octet>, q: seq<Octet>, n: nat, m: nat)
    requires n <= m <= |p| && m <= |q| && p[..m] == q[..m]
    ensures p[..n] == q[..n]
  {
    assert p[..n] == p[..m][..n] == q[..m][..n] == q[..n];
  }

  /** What the writer then writes: the end of the name, or the pointer. */
  function Ending(t: Stop): (e: seq<Octet>)
    requires t.at.Some? ==> t.at.value < 0x4000
    ensures |e| == if t.at.None? then 1 else 2
  {
    match t.at
    case None => [0]
    case Some(at) => [0xC0 + at / 256, at % 256]
  }

  lemma {:induction false} AppendStop(reverse: bool, p: seq<Octet>, index: nat, strings: seq<Text>, end: nat)
    requires HasRoom(p, index, strings, end) && AreLabels(strings)
    ensures var t := StopOf(reverse, p, index, strings, end);
            var next := t.index + |Ending(t)|;
            next <= MAX_PACKET_SIZE < |p| &&
            Append(reverse, p, index, strings, end) == Appended(Put(t.packet, t.index, Ending(t)), next, next - index)
    decreases |strings|
  {
    hide Matches, Search, Append, Put, StopOf, Encoded, IsLabel, HasRoom, AreLabels, Size;
    StopCases(reverse, p, index, strings, end);
    RoomNow(p, index, strings, end);
    AppendCases(reverse, p, index, strings, end);
    if strings == [] {
      RoomAtEnd(p, index, end);
    } else {
      RoomLeft(p, index, strings, end);
      if Search(reverse, p, 0, index, strings, end).None? {
        AppendStop(reverse, Put(p, index, Encoded(strings[0])), index + |strings[0]| + 1, strings[1..], end);
      }
    }
  }

  lemma RoomAtEnd(p: seq<Octet>, index: nat, end: nat)
    requires HasRoom(p, index, [], end)
    ensures index < MAX_PACKET_SIZE < |p|
  {}

  lemma LabelLength(s: Text)
    requires IsLabel(s)
    ensures 1 <= |s| <= 63 && LengthByte(s) == |s|
  {}

  // ----- What is written scans to the labels and then to what comes behind them.

  function Words(strings: seq<Text>): (w: seq<Item>)
    ensures |w| == |strings|
  {
    if strings == [] then [] else [Word(strings[0])] + Words(strings[1..])
  }

  /** The items of `rest` with the labels in front; what cannot be read stays so. */
  ghost predicate Prefixed(whole: Scan, labels: seq<Text>, rest: Scan) {
    match rest
    case Unreadable => whole == Unreadable
    case Scanned(e, items) => whole == Scanned(e, Words(labels) + items)
  }

  lemma EncodedAt(p: seq<Octet>, at: nat, s: Text)
    requires |s| <= 63 && at + 1 + |s| <= |p| && p[at..at + 1 + |s|] == Encoded(s)
    ensures p[at] == |s| && p[at + 1..at + 1 + |s|] == s
  {
    assert p[at] == p[at..at + 1 + |s|][0] && p[at + 1..at + 1 + |s|] == p[at..at + 1 + |s|][1..];
  }

  lemma ScanLabel(q: seq<Octet>, start: nat, pos: nat, s: Text, end: nat)
    requires IsLabel(s) && pos + 1 + |s| <= end < |q|
    requires q[pos..pos + 1 + |s|] == Encoded(s)
    ensures Prefixed(ScanName(q, start, pos, end), [s], ScanName(q, start, pos + 1 + |s|, end))
  {
    hide ScanName, SameText, Encoded, IsLabel, Prefixed;
    LabelLength(s);
    EncodedAt(q, pos, s);
    ScanCases(q, start, pos, end);
    OneWord(ScanName(q, start, pos, end), s, ScanName(q, start, pos + 1 + |s|, end));
  }

  lemma OneWord(whole: Scan, s: Text, rest: Scan)
    requires match rest
             case Unreadable => whole == Unreadable
             case Scanned(e, items) => whole == Scanned(e, [Word(s)] + items)
    ensures Prefixed(whole, [s], rest)
  {
    assert [s][1..] == [];
  }

  lemma PrefixedTwice(whole: Scan, s: Text, middle: Scan, labels: seq<Text>, rest: Scan)
    requires Prefixed(whole, [s], middle) && Prefixed(middle, labels, rest)
    ensures Prefixed(whole, [s] + labels, rest)
  {
    assert [s][1..] == [] && ([s] + labels)[1..] == labels;
    if rest.Scanned? {
      assert [Word(s)] + (Words(labels) + rest.items) == ([Word(s)] + Words(labels)) + rest.items;
    }
  }

  lemma {:induction false} LabelsScan(reverse: bool, p: seq<Octet>, start: nat, index: nat, strings: seq<Text>,
                                      end: nat, q: seq<Octet>, end': nat)
    requires HasRoom(p, index, strings, end) && AreLabels(strings)
    requires var t := StopOf(reverse, p, index, strings, end);
             t.index <= end' < |q| && |q| == |p| && q[..t.index] == t.packet[..t.index]
    ensures var t := StopOf(reverse, p, index, strings, end);
            Prefixed(ScanName(q, start, index, end'), strings[..|strings| - |t.strings|],
                     ScanName(q, start, t.index, end'))
    decreases |strings|
  {
    hide Matches, Search, Put, StopOf, Encoded, IsLabel, ScanName, HasRoom, AreLabels, Prefixed;
    StopCases(reverse, p, index, strings, end);
    var t := StopOf(reverse, p, index, strings, end);
    if strings == [] || Search(reverse, p, 0, index, strings, end).Some? {
      NothingPrefixed(ScanName(q, start, index, end'));
      assert strings[..0] == [];
    } else {
      LabelsScanStep(reverse, p, start, index, strings, end, q, end');
      var next := index + |strings[0]| + 1;
      LabelsScan(reverse, Put(p, index, Encoded(strings[0])), start, next, strings[1..], end, q, end');
      var labels := strings[1..][..|strings| - 1 - |t.strings|];
      assert strings[..|strings| - |t.strings|] == [strings[0]] + labels;
      PrefixedTwice(ScanName(q, start, index, end'), strings[0], ScanName(q, start, next, end'), labels,
                    ScanName(q, start, t.index, end'));
    }
  }

  lemma LabelsScanStep(reverse: bool, p: seq<Octet>, start: nat, index: nat, strings: seq<Text>, end: nat,
                       q: seq<Octet>, end': nat)
    requires HasRoom(p, index, strings, end) && AreLabels(strings) && Roomy(p, index, end)
    requires strings != [] && Search(reverse, p, 0, index, strings, end).None?
    requires var t := StopOf(reverse, p, index, strings, end);
             t.index <= end' < |q| && |q| == |p| && q[..t.index] == t.packet[..t.index]
    ensures var next := index + |strings[0]| + 1;
            next <= end' && Prefixed(ScanName(q, start, index, end'), [strings[0]], ScanName(q, start, next, end'))
  {
    hide Matches, Search, StopOf, Encoded, IsLabel, ScanName, HasRoom, Prefixed;
    StopCases(reverse, p, index, strings, end);
    var t := StopOf(reverse, p, index, strings, end);
    var r, next := Put(p, index, Encoded(strings[0])), index + |strings[0]| + 1;
    hide Put, AreLabels;
    StopKeeps(reverse, r, next, strings[1..], end);
    SliceOf(q, t.packet, r, t.index, index, next);
    FirstLabel(strings);
    ScanLabel(q, start, index, strings[0], end');
  }

  lemma FirstLabel(strings: seq<Text>)
    requires AreLabels(strings) && strings != []
    ensures IsLabel(strings[0])
  {}

  lemma NothingPrefixed(scan: Scan)
    ensures Prefixed(scan, [], scan)
  {
    if scan.Scanned? {
      assert [] + scan.items == scan.items;
    }
  }

  lemma SliceOf(q: seq<Octet>, p: seq<Octet>, r: seq<Octet>, limit: nat, from: nat, to: nat)
    requires from <= to <= limit && limit <= |q| && limit <= |p| && to <= |r|
    requires q[..limit] == p[..limit] && p[..to] == r[..to]
    ensures q[from..to] == r[from..to]
  {
    assert q[from..to] == q[..limit][..to][from..] == p[..limit][..to][from..] == p[..to][from..] == r[..to][from..];
  }

  /** What a pointer scans to. */
  lemma PointerScan(q: seq<Octet>, start: nat, pos: nat, at: nat, end: nat)
    requires pos + 2 <= end < |q| && at < 0x4000
    requires q[pos..pos + 2] == [0xC0 + at / 256, at % 256]
    ensures ScanName(q, start, pos, end) ==
            if at >= start then Unreadable
            else
              match ScanName(q, at, at, end)
              case Unreadable => Unreadable
              case Scanned(_, items) => Scanned(pos + 2, [Jump] + items)
  {
    hide ScanName;
    assert q[pos] == q[pos..pos + 2][0] && q[pos + 1] == q[pos..pos + 2][1];
    assert Address(q[pos], q[pos + 1]) == at;
    ScanCases(q, start, pos, end);
  }

  // ----- Names that run into a limit.

  /** The name at `pos` is read from the first `limit` bytes until its next label or pointer would start at `limit`. */
  predicate Arrives(p: seq<Octet>, start: nat, pos: nat, limit: nat)
    requires limit <= |p|
    decreases start, limit - pos
  {
    || pos == limit
    || (pos < limit
        && var len := p[pos];
           || (0 < len <= 63 && Arrives(p, start, pos + 1 + len, limit))
           || (len >= 0xC0 && pos + 1 < limit
               && var address := Address(len, p[pos + 1]); address < start && Arrives(p, address, address, limit)))
  }

  /** If a pointer back to the name or to something behind its start is put there, the name cannot be read. */
  lemma {:induction false} ArrivesScan(p: seq<Octet>, q: seq<Octet>, start: nat, pos: nat, limit: nat, at: nat,
                                       end: nat)
    requires limit <= |p| && limit + 2 <= end < |q| && p[..limit] == q[..limit]
    requires Arrives(p, start, pos, limit) && start <= at < 0x4000
    requires q[limit..limit + 2] == [0xC0 + at / 256, at % 256]
    ensures ScanName(q, start, pos, end) == Unreadable
    decreases start, limit - pos
  {
    hide ScanName;
    if pos == limit {
      PointerScan(q, start, pos, at, end);
    } else {
      var len := p[pos];
      SameByte(p, q, limit, pos);
      ScanCases(q, start, pos, end);
      if 0 < len <= 63 {
        ArrivesScan(p, q, start, pos + 1 + len, limit, at, end);
      } else {
        SameByte(p, q, limit, pos + 1);
        var address := Address(len, p[pos + 1]);
        ArrivesScan(p, q, address, address, limit, at, end);
      }
    }
  }

  // ----- Which traces the labels of a name leave.

  ghost predicate HasSub(items: seq<Item>) {
    exists i :: 0 <= i < |items| && items[i].Word? && SameText(CString(items[i].bytes), SUB)
  }

  lemma TakeSub(reverse: bool, name: Name, item: Item)
    requires name.parts <= 4
    ensures Take(reverse, name, item).sub == 0 <==>
              name.sub == 0 && !(item.Word? && SameText(CString(item.bytes), SUB))
  {
    hide CString, Strlcat;
    if item.Word? && SameText(CString(item.bytes), SUB) {
      assert Lower(CString(item.bytes))[0] == Lower(SUB)[0] == UNDERSCORE;
    }
  }

  /** "_sub" is noticed wherever it stands. */
  lemma {:induction false} SubNoticed(reverse: bool, name: Name, items: seq<Item>)
    requires name.parts <= 4
    ensures TakeAll(reverse, name, items).sub == 0 <==> name.sub == 0 && !HasSub(items)
    decreases |items|
  {
    hide Take, SameText, CString;
    if items != [] {
      TakeSub(reverse, name, items[0]);
      SubNoticed(reverse, Take(reverse, name, items[0]), items[1..]);
      assert forall i :: 0 < i < |items| ==> items[1..][i - 1] == items[i];
    }
  }

  /** A name is only marked invalid when it has all its parts. */
  lemma {:induction false} InvalidFull(reverse: bool, name: Name, items: seq<Item>)
    requires name.parts <= 4 && (name.invalid ==> name.parts == 4)
    ensures var n := TakeAll(reverse, name, items); n.invalid ==> n.parts == 4
    decreases |items|
  {
    hide SameText, CString, StartsService;
    if items != [] {
      InvalidFull(reverse, Take(reverse, name, items[0]), items[1..]);
    }
  }

  /** A full name is marked invalid by a pointer at its end. */
  lemma {:induction false} JumpAtEnd(reverse: bool, name: Name, items: seq<Item>)
    requires name.parts <= 4 && EndsInJump(items) && TakeAll(reverse, name, items).parts == 4
    ensures TakeAll(reverse, name, items).invalid
    decreases |items|
  {
    hide Accept;
    if |items| > 1 {
      JumpAtEnd(reverse, Take(reverse, name, items[0]), items[1..]);
    } else {
      assert items[1..] == [];
    }
  }

  lemma {:induction false} WordTexts(strings: seq<Text>, items: seq<Item>)
    requires AreLabels(strings)
    ensures Texts(Words(strings) + items) == strings + Texts(items)
    decreases |strings|
  {
    hide CString, AreLabels, IsLabel, Texts, Words;
    if strings == [] {
      NoWords();
      assert [] + items == items && strings + Texts(items) == Texts(items);
    } else {
      LabelText(strings);
      WordTexts(strings[1..], items);
      WordsHead(strings, items);
      TextsHead(strings[0], Words(strings[1..]) + items);
      HeadTail(strings, Texts(items));
    }
  }

  lemma NoWords()
    ensures Words([]) == []
  {}

  lemma HeadTail(strings: seq<Text>, rest: seq<Text>)
    requires strings != []
    ensures [strings[0]] + (strings[1..] + rest) == strings + rest
  {}

  lemma WordsHead(strings: seq<Text>, items: seq<Item>)
    requires strings != []
    ensures Words(strings) + items == [Word(strings[0])] + (Words(strings[1..]) + items)
  {
    assert ([Word(strings[0])] + Words(strings[1..])) + items == [Word(strings[0])] + (Words(strings[1..]) + items);
  }

  lemma TextsHead(bytes: seq<Octet>, items: seq<Item>)
    ensures Texts([Word(bytes)] + items) == [CString(bytes)] + Texts(items)
  {
    hide CString;
    assert ([Word(bytes)] + items)[1..] == items;
  }

  lemma LabelText(strings: seq<Text>)
    requires AreLabels(strings) && strings != []
    ensures CString(strings[0]) == strings[0] && AreLabels(strings[1..])
  {
    hide SameText, CString;
    assert IsLabel(strings[0]);
  }

  lemma {:induction false} WordsAt(strings: seq<Text>, i: nat)
    requires i < |strings|
    ensures Words(strings)[i] == Word(strings[i])
    decreases |strings|
  {
    if i > 0 {
      WordsAt(strings[1..], i - 1);
    }
  }

  lemma WordEnd(strings: seq<Text>)
    ensures !EndsInJump(Words(strings))
  {
    if strings != [] {
      WordsAt(strings, |strings| - 1);
    }
  }

  // ----- Writing and reading back.

  /** The reader ends where the writer did, and has the strings and nothing else. */
  ghost predicate ComesBack(reverse: bool, a: Appended, index: nat, strings: seq<Text>, end: nat)
    requires end < |a.packet|
  {
    var (r, n) := Read(reverse, a.packet, index, index, end, EMPTY);
    r == Some(a.index) && n.parts == |strings| && n.sub == 0 && !n.invalid && Filled(n, 0, strings)
  }

  function ItemsAt(p: seq<Octet>, at: nat, end: nat): seq<Item>
    requires end < |p|
  {
    match ScanName(p, at, at, end)
    case Unreadable => []
    case Scanned(_, items) => items
  }

  /**
   Nothing is found; or the name that is found starts before the new one, ends before the pointer and is clean: the
   reader sees no "_sub" in it and does not mark it invalid, and, when the new name has four labels, it does not end
   in a pointer to an empty name.  The search tests none of this.
   */
  ghost predicate CleanTarget(reverse: bool, t: Stop, start: nat, parts: nat, end: nat)
    requires t.index <= |t.packet| && end < |t.packet|
  {
    match t.at
    case None => true
    case Some(at) =>
      && at < start && Settled(t.packet, at, at, t.index)
      && var n := Read(reverse, t.packet, at, at, end, EMPTY).1;
         n.sub == 0 && !n.invalid && (parts == 4 ==> !EndsInJump(ItemsAt(t.packet, at, end)))
  }

  /** The name that is found does not depend on bytes that the pointer and what follows it are going to replace. */
  ghost predicate NotStale(t: Stop, start: nat)
    requires t.index <= |t.packet|
  {
    t.at.Some? && t.at.value < start ==>
      Settled(t.packet, t.at.value, t.at.value, t.index) || Arrives(t.packet, t.at.value, t.at.value, t.index)
  }

  /** The bytes of the new name. */
  lemma Written(reverse: bool, p: seq<Octet>, index: nat, strings: seq<Text>, end: nat, end': nat)
    requires HasRoom(p, index, strings, end) && AreLabels(strings)
    requires Append(reverse, p, index, strings, end).index <= end' < |p|
    ensures var t, q := StopOf(reverse, p, index, strings, end), Append(reverse, p, index, strings, end).packet;
            && t.index + |Ending(t)| <= end' < |q| == |t.packet|
            && q[..t.index] == t.packet[..t.index] && q[t.index..t.index + |Ending(t)|] == Ending(t)
            && Prefixed(ScanName(q, index, index, end'), strings[..|strings| - |t.strings|],
                        ScanName(q, index, t.index, end'))
  {
    hide StopOf, Append, ScanName, IsLabel, Prefixed, HasRoom, AreLabels;
    AppendStop(reverse, p, index, strings, end);
    StopStrings(reverse, p, index, strings, end);
    hide Matches;
    var t, a := StopOf(reverse, p, index, strings, end), Append(reverse, p, index, strings, end);
    LabelsScan(reverse, p, index, index, strings, end, a.packet, end');
  }

  /** A name that contains a pointer to itself, directly or by way of an older name, cannot be read. */
  lemma CircularName(reverse: bool, p: seq<Octet>, index: nat, strings: seq<Text>, end: nat, end': nat)
    requires HasRoom(p, index, strings, end) && AreLabels(strings)
    requires Append(reverse, p, index, strings, end).index <= end' < |p|
    requires var t := StopOf(reverse, p, index, strings, end);
             t.at.Some? && (t.at.value >= index || Arrives(t.packet, t.at.value, t.at.value, t.index))
    ensures Read(reverse, Append(reverse, p, index, strings, end).packet, index, index, end', EMPTY).0 == None
  {
    hide StopOf, Append, ScanName, Matches, Read, IsLabel, Arrives;
    Written(reverse, p, index, strings, end, end');
    var t, q := StopOf(reverse, p, index, strings, end), Append(reverse, p, index, strings, end).packet;
    var at := t.at.value;
    PointerScan(q, index, t.index, at, end');
    if at < index {
      ArrivesScan(t.packet, q, at, at, t.index, at, end');
    }
    ReadIsScan(reverse, q, index, index, end', EMPTY);
  }

  /** Without a pointer, the name comes back. */
  lemma Uncompressed(reverse: bool, p: seq<Octet>, index: nat, strings: seq<Text>, end: nat, end': nat)
    requires HasRoom(p, index, strings, end) && WellFormed(reverse, strings)
    requires Append(reverse, p, index, strings, end).index <= end' < |p|
    requires StopOf(reverse, p, index, strings, end).at.None?
    ensures ComesBack(reverse, Append(reverse, p, index, strings, end), index, strings, end')
  {
    FormFacts(reverse, strings);
    hide StopOf, Append, ScanName, Matches, Read, StartsService, SameText, CString, TakeAll, Fillable, EndsInJump,
         WellFormed, HasRoom, AreLabels, ComesBack;
    Written(reverse, p, index, strings, end, end');
    AppendStop(reverse, p, index, strings, end);
    StopStrings(reverse, p, index, strings, end);
    var t, q := StopOf(reverse, p, index, strings, end), Append(reverse, p, index, strings, end).packet;
    ScanEnd(q, index, t.index, end');
    assert strings[..|strings|] == strings;
    assert Words(strings) + [] == Words(strings);
    WordTexts(strings, []);
    WordEnd(strings);
    AllSame(strings);
    ReadIsScan(reverse, q, index, index, end', EMPTY);
    TakenBack(reverse, Append(reverse, p, index, strings, end), index, strings, end', Words(strings));
  }

  lemma ScanEnd(p: seq<Octet>, start: nat, pos: nat, end: nat)
    requires pos < end < |p| && p[pos..pos + 1] == [0]
    ensures ScanName(p, start, pos, end) == Scanned(pos + 1, [])
  {
    assert p[pos] == p[pos..pos + 1][0];
  }

  lemma AllSame(strings: seq<Text>)
    ensures SameTexts(strings, strings + Texts([]))
  {
    forall i | 0 <= i < |strings| ensures SameText(strings[i], strings[i]) {
      SameReflexive(strings[i]);
    }
    hide SameText;
    assert strings + Texts([]) == strings;
  }

  /** The items of a name that ends in a pointer to a name which ends before the pointer. */
  lemma PointerItems(reverse: bool, p: seq<Octet>, index: nat, strings: seq<Text>, end: nat, end': nat)
    requires HasRoom(p, index, strings, end) && AreLabels(strings)
    requires Append(reverse, p, index, strings, end).index <= end' < |p|
    requires var t := StopOf(reverse, p, index, strings, end);
             t.at.Some? && t.at.value < index && Settled(t.packet, t.at.value, t.at.value, t.index)
    ensures var t, a := StopOf(reverse, p, index, strings, end), Append(reverse, p, index, strings, end);
            var items := Words(strings[..|strings| - |t.strings|]) + ([Jump] + ItemsAt(t.packet, t.at.value, end));
            && ScanName(a.packet, index, index, end') == Scanned(a.index, items)
            && Read(reverse, a.packet, index, index, end', EMPTY) == (Some(a.index), TakeAll(reverse, EMPTY, items))
            && Read(reverse, t.packet, t.at.value, t.at.value, end, EMPTY).1 ==
                 TakeAll(reverse, EMPTY, ItemsAt(t.packet, t.at.value, end))
  {
    hide StopOf, Append, ScanName, Matches, Read, IsLabel, Settled, TakeAll;
    Written(reverse, p, index, strings, end, end');
    var t, a := StopOf(reverse, p, index, strings, end), Append(reverse, p, index, strings, end);
    var at := t.at.value;
    SettledScan(t.packet, a.packet, at, at, t.index, end, end');
    PlacedItems(reverse, p, index, strings, end, end');
    ReadIsScan(reverse, t.packet, at, at, end, EMPTY);
  }

  /** The items of a name that ends in a pointer, in terms of the target as it reads once the pointer is in place. */
  lemma PlacedItems(reverse: bool, p: seq<Octet>, index: nat, strings: seq<Text>, end: nat, end': nat)
    requires HasRoom(p, index, strings, end) && AreLabels(strings)
    requires Append(reverse, p, index, strings, end).index <= end' < |p|
    requires var t, a := StopOf(reverse, p, index, strings, end), Append(reverse, p, index, strings, end);
             t.at.Some? && t.at.value < index
    ensures var t, a := StopOf(reverse, p, index, strings, end), Append(reverse, p, index, strings, end);
            var scan := ScanName(a.packet, t.at.value, t.at.value, end');
            if scan.Unreadable? then Read(reverse, a.packet, index, index, end', EMPTY).0 == None
            else
              var items := Words(strings[..|strings| - |t.strings|]) + ([Jump] + scan.items);
              && ScanName(a.packet, index, index, end') == Scanned(a.index, items)
              && Read(reverse, a.packet, index, index, end', EMPTY) == (Some(a.index), TakeAll(reverse, EMPTY, items))
  {
    hide StopOf, Append, ScanName, Matches, Read, IsLabel, TakeAll;
    Written(reverse, p, index, strings, end, end');
    AppendStop(reverse, p, index, strings, end);
    var t, a := StopOf(reverse, p, index, strings, end), Append(reverse, p, index, strings, end);
    PointerScan(a.packet, index, t.index, t.at.value, end');
    ReadIsScan(reverse, a.packet, index, index, end', EMPTY);
  }

  lemma JoinedTexts(strings: seq<Text>, k: nat, items: seq<Item>)
    requires k <= |strings| && AreLabels(strings) && SameTexts(strings[k..], Texts(items))
    ensures SameTexts(strings, Texts(Words(strings[..k]) + ([Jump] + items)))
  {
    WordTexts(strings[..k], [Jump] + items);
    assert ([Jump] + items)[1..] == items;
    JoinedSame(strings, k, Texts(items));
  }

  lemma JoinedSame(strings: seq<Text>, k: nat, rest: seq<Text>)
    requires k <= |strings| && SameTexts(strings[k..], rest)
    ensures SameTexts(strings, strings[..k] + rest)
  {
    hide SameText;
    var t := strings[..k] + rest;
    forall i | 0 <= i < |strings| ensures SameText(strings[i], t[i]) {
      if i < k { SameReflexive(strings[i]); } else { assert strings[i] == strings[k..][i - k]; }
    }
  }

  lemma JoinedEnd(labels: seq<Text>, items: seq<Item>)
    requires items != []
    ensures EndsInJump(Words(labels) + ([Jump] + items)) == EndsInJump(items)
  {}

  lemma FormFacts(reverse: bool, strings: seq<Text>)
    requires WellFormed(reverse, strings)
    ensures |strings| <= 4 && AreLabels(strings) && Fillable(reverse, EMPTY, strings)
  {
    hide SameText, StartsService;
    forall i | 0 <= i < |strings| ensures !SameText(strings[i], SUB) {
      assert IsLabel(strings[i]);
    }
  }

  /** The items that a name with a clean target is read from. */
  lemma CleanItems(reverse: bool, t: Stop, start: nat, strings: seq<Text>, end: nat)
    requires t.index <= |t.packet| && t.index <= end < |t.packet| && AreLabels(strings) && |strings| <= 4
    requires t.at.Some? && CleanTarget(reverse, t, start, |strings|, end) && Roomy(t.packet, t.at.value, end)
    requires t.strings != [] && |t.strings| <= |strings| && t.strings == strings[|strings| - |t.strings|..]
    requires Matches(reverse, t.packet, t.at.value, t.strings, end)
    ensures var items, k := ItemsAt(t.packet, t.at.value, end), |strings| - |t.strings|;
            var all := Words(strings[..k]) + ([Jump] + items);
            SameTexts(strings, Texts(all)) && (|strings| == 4 ==> !EndsInJump(all)) &&
            t.at.value < start && Settled(t.packet, t.at.value, t.at.value, t.index)
  {
    hide ScanName, Matches, Read, SameText, CString, Settled, EndsInJump, AreLabels, Words, Texts, SameTexts;
    var at, k := t.at.value, |strings| - |t.strings|;
    FirstLeft(strings, k);
    TargetTexts(reverse, t.packet, at, t.strings, end);
    TargetItems(reverse, t.packet, at, t.strings, end);
    JoinedTexts(strings, k, ItemsAt(t.packet, at, end));
    JoinedEnd(strings[..k], ItemsAt(t.packet, at, end));
  }

  lemma CleanComesBack(reverse: bool, p: seq<Octet>, index: nat, strings: seq<Text>, end: nat, end': nat)
    requires HasRoom(p, index, strings, end) && WellFormed(reverse, strings) && AreLabels(strings)
    requires Append(reverse, p, index, strings, end).index <= end' < |p|
    requires var t := StopOf(reverse, p, index, strings, end);
             t.at.Some? && CleanTarget(reverse, t, index, |strings|, end)
    ensures ComesBack(reverse, Append(reverse, p, index, strings, end), index, strings, end')
  {
    FormFacts(reverse, strings);
    hide StopOf, Append, ScanName, Matches, Read, StartsService, SameText, CString, TakeAll, Settled, EndsInJump,
         HasRoom, AreLabels, Words, Texts, SameTexts, Size, Filled, WellFormed, Fillable, CleanTarget, ComesBack;
    StopStrings(reverse, p, index, strings, end);
    var t := StopOf(reverse, p, index, strings, end);
    LeftInside(p, index, strings, end, t);
    CleanItems(reverse, t, index, strings, end);
    PointerItems(reverse, p, index, strings, end, end');
    TakenBack(reverse, Append(reverse, p, index, strings, end), index, strings, end',
              Words(strings[..|strings| - |t.strings|]) + ([Jump] + ItemsAt(t.packet, t.at.value, end)));
  }

  /** The name comes back if it has the texts of the strings. */
  lemma TakenBack(reverse: bool, a: Appended, index: nat, strings: seq<Text>, end: nat, items: seq<Item>)
    requires end < |a.packet| && Fillable(reverse, EMPTY, strings) && SameTexts(strings, Texts(items))
    requires Read(reverse, a.packet, index, index, end, EMPTY) == (Some(a.index), TakeAll(reverse, EMPTY, items))
    requires |strings| == 4 ==> !EndsInJump(items)
    ensures ComesBack(reverse, a, index, strings, end)
  {
    hide Read, TakeAll, SameTexts, Texts, EndsInJump, SameText, StartsService;
    FillSlots(reverse, EMPTY, items, strings);
  }

  lemma LeftInside(p: seq<Octet>, index: nat, strings: seq<Text>, end: nat, t: Stop)
    requires HasRoom(p, index, strings, end) && t.index <= index + Size(strings)
    ensures t.index <= end
  {}

  lemma FirstLeft(strings: seq<Text>, k: nat)
    requires AreLabels(strings) && k < |strings|
    ensures IsLabel(strings[k..][0])
  {
    assert strings[k..][0] == strings[k];
  }

  lemma TargetItems(reverse: bool, p: seq<Octet>, at: nat, strings: seq<Text>, end: nat)
    requires strings != [] && Roomy(p, at, end)
    requires var scan := ScanName(p, at, at, end); scan.Scanned? && SameTexts(strings, Texts(scan.items))
    ensures ItemsAt(p, at, end) == ScanName(p, at, at, end).items != []
  {
    hide ScanName, SameText;
  }

  lemma ComesBackClean(reverse: bool, p: seq<Octet>, index: nat, strings: seq<Text>, end: nat, end': nat)
    requires HasRoom(p, index, strings, end) && WellFormed(reverse, strings)
    requires Append(reverse, p, index, strings, end).index <= end' < |p|
    requires var t := StopOf(reverse, p, index, strings, end);
             t.at.Some? && t.at.value < index && Settled(t.packet, t.at.value, t.at.value, t.index)
    requires ComesBack(reverse, Append(reverse, p, index, strings, end), index, strings, end')
    ensures CleanTarget(reverse, StopOf(reverse, p, index, strings, end), index, |strings|, end)
  {
    hide StopOf, Append, ScanName, Matches, Read, StartsService, SameText, CString, TakeAll, Settled, IsLabel;
    StopStrings(reverse, p, index, strings, end);
    PointerItems(reverse, p, index, strings, end, end');
    var t := StopOf(reverse, p, index, strings, end);
    var at, k := t.at.value, |strings| - |t.strings|;
    var items := ItemsAt(t.packet, at, end);
    var all := Words(strings[..k]) + ([Jump] + items);
    SubOfAll(reverse, Words(strings[..k]), items);
    MatchParts(reverse, t.packet, at, t.strings, end);
    InvalidFull(reverse, EMPTY, items);
    if k == 0 {
      JumpFirst(reverse, items);
    }
    if EndsInJump(items) && |strings| == 4 {
      JoinedEnd(strings[..k], items);
      JumpAtEnd(reverse, EMPTY, all);
    }
  }

  lemma SubOfAll(reverse: bool, words: seq<Item>, items: seq<Item>)
    requires TakeAll(reverse, EMPTY, words + ([Jump] + items)).sub == 0
    ensures TakeAll(reverse, EMPTY, items).sub == 0
  {
    hide TakeAll, SameText, CString;
    var all := words + ([Jump] + items);
    SubNoticed(reverse, EMPTY, all);
    SubNoticed(reverse, EMPTY, items);
    forall i | 0 <= i < |items| ensures items[i] == all[|words| + 1 + i] {}
  }

  lemma MatchParts(reverse: bool, p: seq<Octet>, at: nat, strings: seq<Text>, end: nat)
    requires strings != [] && Roomy(p, at, end) && Matches(reverse, p, at, strings, end)
    ensures Read(reverse, p, at, at, end, EMPTY).1.parts == |strings|
  {}

  lemma JumpFirst(reverse: bool, items: seq<Item>)
    ensures TakeAll(reverse, EMPTY, Words([]) + ([Jump] + items)) == TakeAll(reverse, EMPTY, items)
  {
    assert Words([]) + ([Jump] + items) == [Jump] + items && ([Jump] + items)[1..] == items;
  }

  /** Read on their own, the items give exactly the strings. */
  ghost predicate GiveStrings(reverse: bool, items: seq<Item>, strings: seq<Text>) {
    var n := TakeAll(reverse, EMPTY, items);
    n.parts == |strings| && n.sub == 0 && !n.invalid && Filled(n, 0, strings)
  }

  /**
   Nothing is found; or the name that is found starts before the new one and, as it reads in `q`, is sound.  If the new
   name is but a pointer, the older one has to read as exactly its strings.  If labels stand in front, the older one has
   to consist of labels that agree with the rest of the strings, and must not end in a pointer to an empty name when
   there are four in all.
   */
  ghost predicate SoundTarget(reverse: bool, t: Stop, q: seq<Octet>, start: nat, parts: nat, end: nat)
    requires end < |q|
  {
    match t.at
    case None => true
    case Some(at) =>
      && at < start && ScanName(q, at, at, end).Scanned?
      && var items := ItemsAt(q, at, end);
         if |t.strings| == parts then GiveStrings(reverse, items, t.strings)
         else SameTexts(t.strings, Texts(items)) && (parts == 4 ==> !EndsInJump(items))
  }

  /** Behind labels: the items of the whole name agree with the strings if those of the target do with the rest. */
  lemma BehindLabels(reverse: bool, strings: seq<Text>, k: nat, items: seq<Item>)
    requires Fillable(reverse, EMPTY, strings) && AreLabels(strings) && 0 < k < |strings|
    ensures GiveStrings(reverse, Words(strings[..k]) + ([Jump] + items), strings) <==>
            SameTexts(strings[k..], Texts(items)) && (|strings| == 4 ==> !EndsInJump(items))
  {
    hide TakeAll, SameTexts, Texts, Fillable, AreLabels, EndsInJump, Words, Filled;
    var all := Words(strings[..k]) + ([Jump] + items);
    if SameTexts(strings[k..], Texts(items)) {
      JoinedTexts(strings, k, items);
      SomeItems(strings[k..], items);
      JoinedEnd(strings[..k], items);
      GiveIfSame(reverse, all, strings);
    }
    if GiveStrings(reverse, all, strings) {
      SameIfGive(reverse, all, strings, k, items);
    }
  }

  lemma SomeItems(strings: seq<Text>, items: seq<Item>)
    requires strings != [] && SameTexts(strings, Texts(items))
    ensures items != []
  {}

  lemma GiveIfSame(reverse: bool, items: seq<Item>, strings: seq<Text>)
    requires Fillable(reverse, EMPTY, strings) && SameTexts(strings, Texts(items))
    ensures GiveStrings(reverse, items, strings) <==> (|strings| == 4 ==> !EndsInJump(items))
  {
    hide TakeAll, SameTexts, Texts, EndsInJump, SameText, StartsService;
    FillSlots(reverse, EMPTY, items, strings);
  }

  lemma SameIfGive(reverse: bool, all: seq<Item>, strings: seq<Text>, k: nat, items: seq<Item>)
    requires AreLabels(strings) && 0 < k < |strings| <= 4 && all == Words(strings[..k]) + ([Jump] + items)
    requires GiveStrings(reverse, all, strings)
    ensures SameTexts(strings[k..], Texts(items)) && (|strings| == 4 ==> !EndsInJump(items))
  {
    hide TakeAll, SameTexts, Texts, AreLabels, EndsInJump, SameText, CString;
    var n := TakeAll(reverse, EMPTY, all);
    FirstWordTaken(reverse, strings, k, items);
    FirstSlot(n, strings);
    var next := EMPTY.(host := strings[0], parts := 1);
    CleanTexts(reverse, next, all[1..]);
    CleanSame(next, n, strings, Texts(all[1..]));
    TextsHead(strings[0], all[1..]);
    LabelText(strings);
    assert all == [Word(strings[0])] + all[1..];
    WholeTexts(strings, k, items);
    RestSame(strings, k, Texts(items));
    if EndsInJump(items) && |strings| == 4 {
      JumpLast(strings[..k], items);
      JumpAtEnd(reverse, EMPTY, all);
    }
  }

  /** The first label goes to the first slot. */
  lemma FirstWordTaken(reverse: bool, strings: seq<Text>, k: nat, items: seq<Item>)
    requires AreLabels(strings) && 0 < k < |strings|
    ensures var all := Words(strings[..k]) + ([Jump] + items);
            && all != [] && all[0] == Word(strings[0]) && 1 <= |strings[0]| <= 63
            && TakeAll(reverse, EMPTY, all) == TakeAll(reverse, EMPTY.(host := strings[0], parts := 1), all[1..])
  {
    hide TakeAll, Accept;
    var all := Words(strings[..k]) + ([Jump] + items);
    assert IsLabel(strings[0]);
    WordsAt(strings[..k], 0);
    FirstTaken(reverse, strings[0]);
    TakeHead(reverse, EMPTY, all);
  }

  lemma FirstSlot(n: Name, strings: seq<Text>)
    requires strings != [] && Filled(n, 0, strings)
    ensures |n.host| == |strings[0]|
  {
    assert SameText(strings[0], n.Slot(0 + 0));
    SameLength(strings[0], n.host);
  }

  lemma CleanSame(next: Name, n: Name, strings: seq<Text>, rest: seq<Text>)
    requires CleanlyTaken(next, n, rest) && next.parts == 1 && n.parts == |strings| && Filled(n, 0, strings)
    ensures strings != [] && SameTexts(strings, [strings[0]] + rest)
  {
    hide SameText;
    assert forall i :: 0 <= i < |strings| ==> SameText(strings[i], n.Slot(0 + i));
    TargetSame(n, strings, rest);
  }

  lemma WholeTexts(strings: seq<Text>, k: nat, items: seq<Item>)
    requires AreLabels(strings) && k <= |strings|
    ensures Texts(Words(strings[..k]) + ([Jump] + items)) == strings[..k] + Texts(items)
  {
    hide CString, IsLabel;
    WordTexts(strings[..k], [Jump] + items);
    assert ([Jump] + items)[1..] == items;
  }

  lemma RestSame(strings: seq<Text>, k: nat, rest: seq<Text>)
    requires k <= |strings| && SameTexts(strings, strings[..k] + rest)
    ensures SameTexts(strings[k..], rest)
  {
    hide SameText;
    forall i | 0 <= i < |rest| ensures SameText(strings[k..][i], rest[i]) {
      assert SameText(strings[k + i], (strings[..k] + rest)[k + i]);
    }
  }

  lemma JumpLast(labels: seq<Text>, items: seq<Item>)
    requires EndsInJump(items)
    ensures EndsInJump(Words(labels) + ([Jump] + items))
  {}

  /**
   Writing a name and reading it back.  When there is room and the strings have the form that the responder gives
   them, the name comes back if and only if the search finds nothing or a name that is sound once the pointer is in
   place.  Everything before the name is as it was, and the length reported is the length written.
   */
  lemma RoundTrip(reverse: bool, p: seq<Octet>, index: nat, strings: seq<Text>, end: nat, end': nat)
    requires HasRoom(p, index, strings, end) && WellFormed(reverse, strings)
    requires Append(reverse, p, index, strings, end).index <= end' < |p|
    ensures var a := Append(reverse, p, index, strings, end);
            && (ComesBack(reverse, a, index, strings, end') <==>
                SoundTarget(reverse, StopOf(reverse, p, index, strings, end), a.packet, index, |strings|, end'))
            && a.written == a.index - index
            && a.packet[..index] == p[..index]
  {
    FormFacts(reverse, strings);
    hide StopOf, Append, Matches, Read, StartsService, Put, EndsInJump, Filled, Size, WellFormed, HasRoom, AreLabels,
         SameText, SameTexts, Texts, Words, Fillable, GiveStrings, ScanName, ComesBack, Arrives;
    WrittenBehind(reverse, p, index, strings, end);
    var t := StopOf(reverse, p, index, strings, end);
    if t.at.None? {
      Uncompressed(reverse, p, index, strings, end, end');
    } else if t.at.value >= index {
      CircularName(reverse, p, index, strings, end, end');
      NoneComesBack(reverse, Append(reverse, p, index, strings, end), index, strings, end');
    } else {
      TargetInPlace(reverse, p, index, strings, end, end');
    }
  }

  lemma NoneComesBack(reverse: bool, a: Appended, index: nat, strings: seq<Text>, end: nat)
    requires end < |a.packet| && Read(reverse, a.packet, index, index, end, EMPTY).0 == None
    ensures !ComesBack(reverse, a, index, strings, end)
  {}

  lemma WrittenBehind(reverse: bool, p: seq<Octet>, index: nat, strings: seq<Text>, end: nat)
    requires HasRoom(p, index, strings, end) && AreLabels(strings)
    ensures var a := Append(reverse, p, index, strings, end);
            a.written == a.index - index && a.packet[..index] == p[..index]
  {
    hide StopOf, Append, Matches, Put, HasRoom, AreLabels;
    RoomNow(p, index, strings, end);
    AppendStop(reverse, p, index, strings, end);
    StopKeeps(reverse, p, index, strings, end);
    var t, a := StopOf(reverse, p, index, strings, end), Append(reverse, p, index, strings, end);
    ShorterPrefix(a.packet, t.packet, index, t.index);
  }

  lemma TargetInPlace(reverse: bool, p: seq<Octet>, index: nat, strings: seq<Text>, end: nat, end': nat)
    requires HasRoom(p, index, strings, end) && AreLabels(strings) && Fillable(reverse, EMPTY, strings)
    requires Append(reverse, p, index, strings, end).index <= end' < |p|
    requires var t := StopOf(reverse, p, index, strings, end); t.at.Some? && t.at.value < index
    ensures var a := Append(reverse, p, index, strings, end);
            ComesBack(reverse, a, index, strings, end') <==>
            SoundTarget(reverse, StopOf(reverse, p, index, strings, end), a.packet, index, |strings|, end')
  {
    hide StopOf, Append, Matches, Read, EndsInJump, Filled, HasRoom, AreLabels, SameTexts, Texts, Words, Fillable,
         ScanName, TakeAll;
    PlacedItems(reverse, p, index, strings, end, end');
    StopStrings(reverse, p, index, strings, end);
    var t, a := StopOf(reverse, p, index, strings, end), Append(reverse, p, index, strings, end);
    var k, scan := |strings| - |t.strings|, ScanName(a.packet, t.at.value, t.at.value, end');
    if scan.Scanned? {
      if k == 0 {
        assert strings[..0] == [] && strings[0..] == strings;
        JumpFirst(reverse, scan.items);
      } else {
        BehindLabels(reverse, strings, k, scan.items);
      }
    }
  }

  /**
   If the name that is found does not depend on bytes that the pointer and what follows it replace, the outcome is
   known before the pointer is written: the name comes back if and only if the target is clean.
   */
  lemma KnownBefore(reverse: bool, p: seq<Octet>, index: nat, strings: seq<Text>, end: nat, end': nat)
    requires HasRoom(p, index, strings, end) && WellFormed(reverse, strings)
    requires NotStale(StopOf(reverse, p, index, strings, end), index)
    requires Append(reverse, p, index, strings, end).index <= end' < |p|
    ensures ComesBack(reverse, Append(reverse, p, index, strings, end), index, strings, end') <==>
            CleanTarget(reverse, StopOf(reverse, p, index, strings, end), index, |strings|, end)
  {
    FormFacts(reverse, strings);
    hide StopOf, Append, Matches, Read, StartsService, Settled, Arrives, Put, EndsInJump, Filled, Size, WellFormed,
         HasRoom, AreLabels, SameText;
    var t, a := StopOf(reverse, p, index, strings, end), Append(reverse, p, index, strings, end);
    AppendStop(reverse, p, index, strings, end);
    if t.at.None? {
      Uncompressed(reverse, p, index, strings, end, end');
    } else if t.at.value < index && Settled(t.packet, t.at.value, t.at.value, t.index) {
      if CleanTarget(reverse, t, index, |strings|, end) {
        CleanComesBack(reverse, p, index, strings, end, end');
      }
      if ComesBack(reverse, a, index, strings, end') {
        ComesBackClean(reverse, p, index, strings, end, end');
      }
    } else {
      CircularName(reverse, p, index, strings, end, end');
    }
  }

  // ----- Labels that are too long.

  /** Whatever the room, what stands before the name is not changed. */
  lemma {:induction false} AppendKeeps(reverse: bool, p: seq<Octet>, index: nat, strings: seq<Text>, end: nat)
    requires Roomy(p, index, end)
    ensures Append(reverse, p, index, strings, end).packet[..index] == p[..index]
    decreases |strings|
  {
    hide Matches, Search, Append, Encoded;
    AppendCases(reverse, p, index, strings, end);
    if strings != [] && Search(reverse, p, 0, index, strings, end).None? {
      var len: nat := LengthByte(strings[0]);
      if index + len + 1 < MAX_PACKET_SIZE && len != 255 {
        var q := Put(p, index, Encoded(strings[0]));
        AppendKeeps(reverse, q, index + len + 1, strings[1..], end);
        ShorterPrefix(Append(reverse, p, index, strings, end).packet, q, index, index + len + 1);
      }
    }
  }

  /** The length octet of the string is neither that of a label nor the first octet of a pointer. */
  predicate Overlong(s: Text) {
    64 <= |s| < 0xC0
  }

  /** The writer comes to an overlong string before it finds the rest of the name, and there is room for it. */
  ghost predicate WritesOverlong(reverse: bool, p: seq<Octet>, index: nat, strings: seq<Text>, end: nat)
    requires Roomy(p, index, end)
    decreases |strings|
  {
    && strings != [] && index + |strings[0]| + 1 < MAX_PACKET_SIZE
    && (Overlong(strings[0]) ||
        (IsLabel(strings[0]) && Search(reverse, p, 0, index, strings, end).None? &&
         WritesOverlong(reverse, Put(p, index, Encoded(strings[0])), index + |strings[0]| + 1, strings[1..], end)))
  }

  /** No older name is taken for one that begins with an overlong string. */
  lemma {:induction false} OverlongNotFound(reverse: bool, p: seq<Octet>, from: nat, index: nat, strings: seq<Text>,
                                            end: nat)
    requires Roomy(p, index, end) && strings != [] && Overlong(strings[0])
    ensures Search(reverse, p, from, index, strings, end) == None
    decreases index - from
  {
    hide Matches;
    if from < index {
      OverlongNoMatch(reverse, p, from, strings, end);
      OverlongNotFound(reverse, p, from + 1, index, strings, end);
    }
  }

  lemma OverlongNoMatch(reverse: bool, p: seq<Octet>, at: nat, strings: seq<Text>, end: nat)
    requires Roomy(p, at, end) && strings != [] && Overlong(strings[0])
    ensures !Matches(reverse, p, at, strings, end)
  {
    hide Read, SameText;
    ReadCases(reverse, p, at, at, end, EMPTY);
  }

  /** The bytes of the first string are written and stay. */
  lemma FirstWritten(reverse: bool, p: seq<Octet>, index: nat, strings: seq<Text>, end: nat)
    requires Roomy(p, index, end) && strings != [] && |strings[0]| < 0xC0 && index + |strings[0]| + 1 < MAX_PACKET_SIZE
    requires Search(reverse, p, 0, index, strings, end).None?
    ensures var next, q := index + |strings[0]| + 1, Put(p, index, Encoded(strings[0]));
            && |Encoded(strings[0])| == |strings[0]| + 1 && Encoded(strings[0])[0] == |strings[0]|
            && next <= Append(reverse, p, index, strings, end).index ==
                Append(reverse, q, next, strings[1..], end).index
            && Append(reverse, p, index, strings, end).packet == Append(reverse, q, next, strings[1..], end).packet
            && Append(reverse, p, index, strings, end).packet[index..next] == Encoded(strings[0])
  {
    hide Matches, Search, Append;
    AppendCases(reverse, p, index, strings, end);
    var next, q := index + |strings[0]| + 1, Put(p, index, Encoded(strings[0]));
    hide Put, Encoded;
    AppendKeeps(reverse, q, next, strings[1..], end);
    SameBytes(Append(reverse, p, index, strings, end).packet, q, next, index, next);
  }

  lemma {:induction false} OverlongScan(reverse: bool, p: seq<Octet>, start: nat, index: nat, strings: seq<Text>,
                                        end: nat,
                                        end': nat)
    requires Roomy(p, index, end) && WritesOverlong(reverse, p, index, strings, end)
    requires Append(reverse, p, index, strings, end).index <= end' < |p|
    ensures ScanName(Append(reverse, p, index, strings, end).packet, start, index, end') == Unreadable
    decreases |strings|
  {
    hide Matches, Search, Append, ScanName, Read, IsLabel, Put, Encoded;
    var a := Append(reverse, p, index, strings, end);
    if Overlong(strings[0]) {
      OverlongNotFound(reverse, p, 0, index, strings, end);
      FirstWritten(reverse, p, index, strings, end);
      assert a.packet[index] == a.packet[index..index + |strings[0]| + 1][0];
      ScanCases(a.packet, start, index, end');
    } else {
      LabelLength(strings[0]);
      FirstWritten(reverse, p, index, strings, end);
      var next, q := index + |strings[0]| + 1, Put(p, index, Encoded(strings[0]));
      OverlongScan(reverse, q, start, next, strings[1..], end, end');
      ScanLabel(a.packet, start, index, strings[0], end');
    }
  }

  /**
   A name with a string of 64 to 191 octets, which a host name of 64 is, cannot be read in any packet, unless the search
   finds a place for the rest of the name before the writer comes to that string.
   */
  lemma OverlongName(reverse: bool, p: seq<Octet>, index: nat, strings: seq<Text>, end: nat, end': nat)
    requires Roomy(p, index, end) && WritesOverlong(reverse, p, index, strings, end)
    requires Append(reverse, p, index, strings, end).index <= end' < |p|
    ensures Read(reverse, Append(reverse, p, index, strings, end).packet, index, index, end', EMPTY).0 == None
  {
    hide Append, ScanName, Read, WritesOverlong;
    OverlongScan(reverse, p, index, index, strings, end, end');
    ReadIsScan(reverse, Append(reverse, p, index, strings, end).packet, index, index, end', EMPTY);
  }

  /** A pointer to a place at or behind the start of the name is refused, whatever has been read before. */
  lemma SelfReference(reverse: bool, p: seq<Octet>, start: nat, pos: nat, at: nat, end: nat, name: Name)
    requires pos + 1 < end < |p| && name.parts <= 4 && at < 0x4000
    requires p[pos..pos + 2] == [0xC0 + at / 256, at % 256]
    requires start <= at
    ensures Read(reverse, p, start, pos, end, name).0 == None
  {
    assert p[pos] == p[pos..pos + 2][0] && p[pos + 1] == p[pos..pos + 2][1];
    assert Address(p[pos], p[pos + 1]) == at;
  }

  // ----- A case in which the search finds the unfinished name itself.

  lemma ZeroByte(reverse: bool, p: seq<Octet>, at: nat, strings: seq<Text>, end: nat)
    requires strings != [] && IsLabel(strings[0]) && Roomy(p, at, end) && p[at] == 0
    ensures !Matches(reverse, p, at, strings, end)
  {
    hide Read, SameText;
  }

  /** No match before the length byte of the label appears. */
  lemma {:induction false} SearchFrom(reverse: bool, p: seq<Octet>, from: nat, at: nat, index: nat, strings: seq<Text>,
                                      end: nat)
    requires strings != [] && IsLabel(strings[0]) && Roomy(p, index, end) && from <= at <= index
    requires forall i :: from <= i < at ==> p[i] == 0
    ensures Search(reverse, p, from, index, strings, end) == Search(reverse, p, at, index, strings, end)
    decreases at - from
  {
    hide Matches, IsLabel;
    if from < at {
      ZeroByte(reverse, p, from, strings, end);
      SearchFrom(reverse, p, from + 1, at, index, strings, end);
    }
  }

  /** A single label followed by a zero byte is read as a name of one part. */
  lemma SingleRead(reverse: bool, p: seq<Octet>, at: nat, s: Text, end: nat)
    requires IsLabel(s) && at + 1 + |s| < end < |p|
    requires p[at] == |s| && p[at + 1..at + 1 + |s|] == s && p[at + 1 + |s|] == 0
    ensures Read(reverse, p, at, at, end, EMPTY) == (Some(at + 2 + |s|), EMPTY.(host := s, parts := 1))
  {
    FirstTaken(reverse, s);
    hide Accept, Enter, Read, SameText;
    ReadCases(reverse, p, at, at, end, EMPTY);
    ReadCases(reverse, p, at, at + 1 + |s|, end, EMPTY.(host := s, parts := 1));
  }

  lemma SingleLabel(reverse: bool, p: seq<Octet>, at: nat, s: Text, end: nat)
    requires IsLabel(s) && at + 1 + |s| < end && Roomy(p, at, end)
    requires p[at..at + 1 + |s|] == Encoded(s) && p[at + 1 + |s|] == 0
    ensures Matches(reverse, p, at, [s], end)
  {
    EncodedAt(p, at, s);
    SingleRead(reverse, p, at, s, end);
    LabelLength(s);
    SameReflexive(s);
    hide SameText, Read, Encoded, LengthByte, IsLabel, Roomy;
    assert s[..|s|] == s;
  }

  lemma FirstTaken(reverse: bool, s: Text)
    requires IsLabel(s)
    ensures Accept(reverse, Enter(EMPTY), s) == EMPTY.(host := s, parts := 1)
  {
    hide SameText, StartsService;
    assert CString(s) == s;
  }

  /**
   In an empty packet, a name that repeats its first label (say, for a host called "local") cannot be read back:
   the zero byte after the first label lets the search take that label for the rest of the name.
   */
  lemma RepeatedLabel(reverse: bool, p: seq<Octet>, index: nat, s: Text, end: nat, end': nat)
    requires IsLabel(s) && index + Size([s, s]) < end && Roomy(p, index, end)
    requires forall i :: 0 <= i < |p| ==> p[i] == 0
    requires Append(reverse, p, index, [s, s], end).index <= end' < |p|
    ensures Read(reverse, Append(reverse, p, index, [s, s], end).packet, index, index, end', EMPTY).0 == None
  {
    RepeatedStop(reverse, p, index, s, end);
    hide StopOf, Append, Read, Matches, IsLabel, Size;
    CircularName(reverse, p, index, [s, s], end, end');
  }

  lemma RepeatedRoom(p: seq<Octet>, index: nat, s: Text, end: nat)
    requires IsLabel(s) && index + Size([s, s]) < end && Roomy(p, index, end)
    ensures Size([s]) == |s| + 1 && Size([s, s]) == 2 * |s| + 2
    ensures HasRoom(p, index, [s, s], end) && AreLabels([s, s])
  {
    assert [s][1..] == [] && [s, s][1..] == [s];
  }

  lemma RepeatedStop(reverse: bool, p: seq<Octet>, index: nat, s: Text, end: nat)
    requires IsLabel(s) && index + Size([s, s]) < end && Roomy(p, index, end)
    requires forall i :: 0 <= i < |p| ==> p[i] == 0
    ensures HasRoom(p, index, [s, s], end) && AreLabels([s, s])
    ensures StopOf(reverse, p, index, [s, s], end).at == Some(index)
  {
    hide Matches, Search, SameText, Read, CString, Put, StartsService, StopOf, Encoded;
    RepeatedRoom(p, index, s, end);
    var strings, next, q := [s, s], index + 1 + |s|, Put(p, index, Encoded(s));
    StopCases(reverse, p, index, strings, end);
    SearchFrom(reverse, p, 0, index, index, strings, end);
    SearchEnds(reverse, p, index, strings, end);
    assert strings[1..] == [s];
    StopCases(reverse, q, next, [s], end);
    PutRest(p, index, Encoded(s));
    forall i | 0 <= i < index ensures q[i] == 0 {
      assert q[..index][i] == p[..index][i];
    }
    SearchFrom(reverse, q, 0, index, next, [s], end);
    SingleLabel(reverse, q, index, s, end);
    SearchHere(reverse, q, index, next, [s], end);
  }

  lemma PutRest(p: seq<Octet>, at: nat, bytes: seq<Octet>)
    requires at + |bytes| < |p|
    ensures Put(p, at, bytes)[at + |bytes|] == p[at + |bytes|]
  {}

  lemma SearchEnds(reverse: bool, p: seq<Octet>, index: nat, strings: seq<Text>, end: nat)
    requires strings != [] && Roomy(p, index, end)
    ensures Search(reverse, p, index, index, strings, end) == None
  {}

  lemma SearchHere(reverse: bool, p: seq<Octet>, at: nat, index: nat, strings: seq<Text>, end: nat)
    requires strings != [] && Roomy(p, index, end) && at < index && Matches(reverse, p, at, strings, end)
    ensures Search(reverse, p, at, index, strings, end) == Some(at)
  {}
}
