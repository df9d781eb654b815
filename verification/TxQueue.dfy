/**
 The time-ordered transmit queue of the mDNS service, which a timer and the service task share through a first-in
 first-out queue of actions.  Every step runs under the service lock.
 */
module TxQueue {
  import opened Options

  /**
   A scheduled packet.  `id` stands for its address, `stamp` counts the calls that have scheduled a packet: it is
   kept only to tell which of two packets was scheduled first.
   */
  datatype Packet = Packet(id: nat, itf: nat, proto: nat, sendAt: int, queued: bool, stamp: nat)

  datatype Action = TxHandle(id: nat) | Other

  /** What happens to the action that the timer posts for a packet. */
  datatype Outcome = Posted | QueueFull | NoMemory

  /** One round of the timer loop: the time read, and the outcome. */
  datatype Reading = Reading(now: int, outcome: Outcome)

  // ----- The queue of packets.

  function Ids(q: seq<Packet>): (s: set<nat>) {
    set p | p in q :: p.id
  }

  /** Earlier packets first, and first come first served among those of the same time. */
  ghost predicate Ordered(q: seq<Packet>) {
    forall i, j :: 0 <= i < j < |q| ==>
        q[i].sendAt < q[j].sendAt || (q[i].sendAt == q[j].sendAt && q[i].stamp < q[j].stamp)
  }

  ghost predicate DistinctIds(q: seq<Packet>) {
    forall i, j :: 0 <= i < j < |q| ==> q[i].id != q[j].id
  }

  /** Packets that wait for an action come before those that do not. */
  ghost predicate QueuedFirst(q: seq<Packet>) {
    forall i, j :: 0 <= i < j < |q| && q[j].queued ==> q[i].queued
  }

  /** The number of packets that go before a new one. */
  function InsertAt(q: seq<Packet>, sendAt: int): (k: nat)
    ensures k <= |q| && (forall i :: 0 <= i < k ==> q[i].sendAt <= sendAt) && (k < |q| ==> sendAt < q[k].sendAt)
  {
    if q == [] || sendAt < q[0].sendAt then 0 else 1 + InsertAt(q[1..], sendAt)
  }

  function Insert(q: seq<Packet>, p: Packet): seq<Packet> {
    var k := InsertAt(q, p.sendAt);
    q[..k] + [p] + q[k..]
  }

  /** The packets that stay when some are freed. */
  function Keep(q: seq<Packet>, stays: Packet -> bool): (r: seq<Packet>)
    ensures |r| <= |q| && forall p :: p in r <==> p in q && stays(p)
  {
    if q == [] then [] else (if stays(q[0]) then [q[0]] else []) + Keep(q[1..], stays)
  }

  /** The first packet that does not wait for an action. */
  function FirstUnqueued(q: seq<Packet>): (k: nat)
    ensures k <= |q| && (forall i :: 0 <= i < k ==> q[i].queued) && (k < |q| ==> !q[k].queued)
  {
    if q == [] || !q[0].queued then 0 else 1 + FirstUnqueued(q[1..])
  }

  // ----- The timer.

  /** The loop ends: no packet is left, the next one is not due, or there is no memory for an action. */
  predicate Stops(q: seq<Packet>, readings: seq<Reading>) {
    q == [] || readings == [] || q[0].sendAt >= readings[0].now || readings[0].outcome == NoMemory
  }

  /** The packets after the timer loop: the first `|readings|` of them are looked at. */
  function Marked(q: seq<Packet>, readings: seq<Reading>): (r: seq<Packet>)
    ensures |r| == |q|
  {
    if Stops(q, readings) then q
    else [q[0].(queued := readings[0].outcome == Posted)] + Marked(q[1..], readings[1..])
  }

  /** The actions that the timer loop posts. */
  function PostedActions(q: seq<Packet>, readings: seq<Reading>): seq<Action> {
    if Stops(q, readings) then []
    else (if readings[0].outcome == Posted then [TxHandle(q[0].id)] else []) + PostedActions(q[1..], readings[1..])
  }

  /** In no packet that the loop looks at does a post succeed after one has failed. */
  predicate FailuresLast(q: seq<Packet>, readings: seq<Reading>) {
    Stops(q, readings) ||
    ((readings[0].outcome == QueueFull ==> PostedActions(q[1..], readings[1..]) == []) &&
     FailuresLast(q[1..], readings[1..]))
  }

  // ----- The state and its steps.

  datatype State = State(queue: seq<Packet>, actions: seq<Action>, clock: int, nextId: nat, stamps: nat)

  datatype Event =
    | Advance(time: nat)
    | SendNew(itf: nat, proto: nat, after: nat)
    | Timer(readings: seq<Reading>)
    | ClearAll
    | ClearInterface(itf: nat, proto: nat)
    | Detach(id: nat)
    | PostOther
    | Execute(again: Option<nat>)

  /** `mdns_priv_send_after` */
  function SendAfterStep(s: State, p: Packet, after: nat): State {
    s.(queue := Insert(s.queue, p.(sendAt := s.clock + after, stamp := s.stamps)), stamps := s.stamps + 1)
  }

  /** `mdns_priv_send_packets` */
  function TimerStep(s: State, readings: seq<Reading>): State {
    var k := FirstUnqueued(s.queue);
    s.(queue := s.queue[..k] + Marked(s.queue[k..], readings),
       actions := s.actions + PostedActions(s.queue[k..], readings),
       clock := if readings == [] then s.clock else readings[|readings| - 1].now)
  }

  /** The action is for the packet at the head of the queue. */
  predicate IsExpected(s: State, id: nat) {
    s.queue != [] && s.queue[0].id == id && s.queue[0].queued
  }

  /** The next action is taken and executed; a packet that has been sent may be scheduled again. */
  function ExecuteStep(s: State, again: Option<nat>): State
    requires s.actions != []
  {
    var a, t := s.actions[0], s.(actions := s.actions[1..]);
    if a.Other? || !IsExpected(s, a.id) then t
    else
      var u, p := t.(queue := s.queue[1..]), s.queue[0].(queued := false);
      if again.Some? then SendAfterStep(u, p, again.value) else u
  }

  function Next(s: State, e: Event): State
    requires e.Execute? ==> s.actions != []
  {
    match e
    case Advance(time) => s.(clock := s.clock + time)
    case SendNew(itf, proto, after) =>
      SendAfterStep(s.(nextId := s.nextId + 1), Packet(s.nextId, itf, proto, 0, false, 0), after)
    case Timer(readings) => TimerStep(s, readings)
    case ClearAll => s.(queue := [])
    case ClearInterface(itf, proto) => s.(queue := Keep(s.queue, (p: Packet) => !(p.itf == itf && p.proto == proto)))
    case Detach(id) => s.(queue := Keep(s.queue, (p: Packet) => p.id != id))
    case PostOther => s.(actions := s.actions + [Other])
    case Execute(again) => ExecuteStep(s, again)
  }

  // ----- The invariant.

  /** The packets among `ids` for which actions are pending, in the order of the actions. */
  function LiveIds(actions: seq<Action>, ids: set<nat>): seq<nat> {
    if actions == [] then []
    else (if actions[0].TxHandle? && actions[0].id in ids then [actions[0].id] else []) + LiveIds(actions[1..], ids)
  }

  /** The packets that wait for an action, in the order of the queue. */
  function QueuedIds(q: seq<Packet>): seq<nat> {
    if q == [] then [] else (if q[0].queued then [q[0].id] else []) + QueuedIds(q[1..])
  }

  ghost predicate Bounded(s: State) {
    (forall i :: 0 <= i < |s.queue| ==> s.queue[i].id < s.nextId && s.queue[i].stamp < s.stamps) &&
    (forall i :: 0 <= i < |s.queue| && s.queue[i].queued ==> s.queue[i].sendAt < s.clock) &&
    forall i :: 0 <= i < |s.actions| && s.actions[i].TxHandle? ==> s.actions[i].id < s.nextId
  }

  ghost predicate Inv(s: State) {
    Ordered(s.queue) && DistinctIds(s.queue) && QueuedFirst(s.queue) && Bounded(s) &&
    LiveIds(s.actions, Ids(s.queue)) == QueuedIds(s.queue)
  }

  /** The clock does not run backwards. */
  ghost predicate Monotone(clock: int, readings: seq<Reading>) {
    (forall i :: 0 <= i < |readings| ==> clock <= readings[i].now) &&
    forall i, j :: 0 <= i <= j < |readings| ==> readings[i].now <= readings[j].now
  }

  /** What a step may rely on.  The timer has a reading for every packet it may look at. */
  ghost predicate Possible(s: State, e: Event) {
    (e.Execute? ==> s.actions != []) &&
    (e.Timer? ==> Monotone(s.clock, e.readings) && |e.readings| == |s.queue| - FirstUnqueued(s.queue))
  }

  /** The timer has not had a post succeed after a failed one. */
  predicate Regular(s: State, e: Event) {
    e.Timer? ==> FailuresLast(s.queue[FirstUnqueued(s.queue)..], e.readings)
  }

  // ----- Pending actions and queued packets.

  /** The ids in the sequence that are also in the set. */
  function Among(ids: seq<nat>, s: set<nat>): seq<nat> {
    if ids == [] then [] else (if ids[0] in s then [ids[0]] else []) + Among(ids[1..], s)
  }

  lemma Associative<T>(a: seq<T>, b: seq<T>, c: seq<T>)
    ensures a + b + c == a + (b + c)
  {}

  lemma AmongNothing(ids: seq<nat>, s: set<nat>)
    requires ids == []
    ensures Among(ids, s) == []
  {}

  lemma AmongHead(ids: seq<nat>, s: set<nat>)
    requires ids != []
    ensures Among(ids, s) == (if ids[0] in s then [ids[0]] else []) + Among(ids[1..], s)
  {}

  lemma {:induction false} AmongAppend(a: seq<nat>, b: seq<nat>, s: set<nat>)
    ensures Among(a + b, s) == Among(a, s) + Among(b, s)
  {
    hide Among;
    if a == [] {
      assert a + b == b && Among(a, s) == [] by { AmongNothing(a, s); }
    } else {
      var head := if a[0] in s then [a[0]] else [];
      AmongAppend(a[1..], b, s);
      AmongHead(a, s);
      AmongHead(a + b, s);
      assert (a + b)[1..] == a[1..] + b;
      Associative(head, Among(a[1..], s), Among(b, s));
    }
  }

  lemma {:induction false} LiveAmong(actions: seq<Action>, ids: set<nat>, fewer: set<nat>)
    requires fewer <= ids
    ensures LiveIds(actions, fewer) == Among(LiveIds(actions, ids), fewer)
  {
    if actions != [] {
      LiveAmong(actions[1..], ids, fewer);
      var head := if actions[0].TxHandle? && actions[0].id in ids then [actions[0].id] else [];
      AmongAppend(head, LiveIds(actions[1..], ids), fewer);
    }
  }

  lemma LiveNothing(actions: seq<Action>, ids: set<nat>)
    requires actions == []
    ensures LiveIds(actions, ids) == []
  {}

  lemma LiveHead(actions: seq<Action>, ids: set<nat>)
    requires actions != []
    ensures LiveIds(actions, ids) ==
            (if actions[0].TxHandle? && actions[0].id in ids then [actions[0].id] else []) + LiveIds(actions[1..], ids)
  {}

  lemma {:induction false} LiveAppend(a: seq<Action>, b: seq<Action>, ids: set<nat>)
    ensures LiveIds(a + b, ids) == LiveIds(a, ids) + LiveIds(b, ids)
  {
    hide LiveIds;
    if a == [] {
      assert a + b == b && LiveIds(a, ids) == [] by { LiveNothing(a, ids); }
    } else {
      var head := if a[0].TxHandle? && a[0].id in ids then [a[0].id] else [];
      LiveAppend(a[1..], b, ids);
      LiveHead(a, ids);
      LiveHead(a + b, ids);
      assert (a + b)[1..] == a[1..] + b;
      Associative(head, LiveIds(a[1..], ids), LiveIds(b, ids));
    }
  }

  /** A packet that no action names makes no difference. */
  lemma {:induction false} LiveFresh(actions: seq<Action>, ids: set<nat>, id: nat)
    requires TxHandle(id) !in actions
    ensures LiveIds(actions, ids + {id}) == LiveIds(actions, ids)
  {
    if actions != [] {
      LiveFresh(actions[1..], ids, id);
    }
  }

  lemma {:induction false} LiveMember(actions: seq<Action>, ids: set<nat>, id: nat)
    requires TxHandle(id) in actions && id in ids
    ensures id in LiveIds(actions, ids)
  {
    if actions[0] != TxHandle(id) {
      LiveMember(actions[1..], ids, id);
    }
  }

  lemma QueuedHead(q: seq<Packet>)
    requires q != []
    ensures QueuedIds(q) == (if q[0].queued then [q[0].id] else []) + QueuedIds(q[1..])
  {}

  lemma {:induction false} QueuedAppend(a: seq<Packet>, b: seq<Packet>)
    ensures QueuedIds(a + b) == QueuedIds(a) + QueuedIds(b)
  {
    hide QueuedIds;
    if a == [] {
      assert a + b == b && QueuedIds(a) == [] by { NoneQueued(a); }
    } else {
      var head := if a[0].queued then [a[0].id] else [];
      QueuedAppend(a[1..], b);
      QueuedHead(a);
      QueuedHead(a + b);
      assert (a + b)[1..] == a[1..] + b;
      Associative(head, QueuedIds(a[1..]), QueuedIds(b));
    }
  }

  lemma {:induction false} QueuedMember(q: seq<Packet>, id: nat)
    requires id in QueuedIds(q)
    ensures id in Ids(q)
  {
    if !(q[0].queued && q[0].id == id) {
      QueuedMember(q[1..], id);
      var p :| p in q[1..] && p.id == id;
      assert p in q;
    }
  }

  lemma {:induction false} NoneQueued(q: seq<Packet>)
    requires forall i :: 0 <= i < |q| ==> !q[i].queued
    ensures QueuedIds(q) == []
  {
    if q != [] {
      NoneQueued(q[1..]);
    }
  }

  // ----- Freeing packets.

  /** Packets that stay, stay in order. */
  lemma {:induction false} KeepIndex(q: seq<Packet>, stays: Packet -> bool, i: nat, j: nat) returns (a: nat, b: nat)
    requires i < j < |Keep(q, stays)|
    ensures a < b < |q| && q[a] == Keep(q, stays)[i] && q[b] == Keep(q, stays)[j]
  {
    if !stays(q[0]) {
      a, b := KeepIndex(q[1..], stays, i, j);
      a, b := a + 1, b + 1;
    } else if i > 0 {
      a, b := KeepIndex(q[1..], stays, i - 1, j - 1);
      a, b := a + 1, b + 1;
    } else {
      var p := Keep(q, stays)[j];
      assert p == Keep(q[1..], stays)[j - 1];
      assert p in q[1..];
      b :| 0 < b < |q| && q[b] == p;
      a := 0;
    }
  }

  lemma KeepOrder(q: seq<Packet>, stays: Packet -> bool)
    requires Ordered(q) && DistinctIds(q) && QueuedFirst(q)
    ensures Ordered(Keep(q, stays)) && DistinctIds(Keep(q, stays)) && QueuedFirst(Keep(q, stays))
  {
    hide Keep;
    var r := Keep(q, stays);
    forall i, j | 0 <= i < j < |r|
      ensures (r[i].sendAt < r[j].sendAt || (r[i].sendAt == r[j].sendAt && r[i].stamp < r[j].stamp)) &&
              r[i].id != r[j].id && (r[j].queued ==> r[i].queued)
    {
      var a, b := KeepIndex(q, stays, i, j);
    }
  }

  lemma {:induction false} KeepQueued(q: seq<Packet>, stays: Packet -> bool, ids: set<nat>)
    requires forall i :: 0 <= i < |q| ==> (q[i].id in ids) == stays(q[i])
    ensures QueuedIds(Keep(q, stays)) == Among(QueuedIds(q), ids)
  {
    if q != [] {
      KeepQueued(q[1..], stays, ids);
      QueuedAppend(if stays(q[0]) then [q[0]] else [], Keep(q[1..], stays));
      AmongAppend(if q[0].queued then [q[0].id] else [], QueuedIds(q[1..]), ids);
    }
  }

  lemma KeptIds(q: seq<Packet>, stays: Packet -> bool, i: nat)
    requires DistinctIds(q) && i < |q|
    ensures Ids(Keep(q, stays)) <= Ids(q)
    ensures (q[i].id in Ids(Keep(q, stays))) == stays(q[i])
  {
    if q[i].id in Ids(Keep(q, stays)) {
      var p :| p in Keep(q, stays) && p.id == q[i].id;
      var j :| 0 <= j < |q| && q[j] == p;
      assert i == j;
    }
  }

  lemma KeepInv(s: State, stays: Packet -> bool)
    requires Inv(s)
    ensures Inv(s.(queue := Keep(s.queue, stays)))
  {
    var q, r := s.queue, Keep(s.queue, stays);
    KeepOrder(q, stays);
    forall i | 0 <= i < |q| ensures (q[i].id in Ids(r)) == stays(q[i]) && Ids(r) <= Ids(q) {
      KeptIds(q, stays, i);
    }
    assert Ids(r) <= Ids(q);
    LiveAmong(s.actions, Ids(q), Ids(r));
    KeepQueued(q, stays, Ids(r));
    forall i | 0 <= i < |r| ensures r[i] in q {}
  }

  // ----- Scheduling a packet.

  lemma SplitQueued(q: seq<Packet>, p: Packet, k: nat)
    requires !p.queued && k <= |q|
    ensures QueuedIds(q[..k] + [p] + q[k..]) == QueuedIds(q)
  {
    hide QueuedIds;
    QueuedAppend(q[..k] + [p], q[k..]);
    QueuedAppend(q[..k], [p]);
    QueuedAppend(q[..k], q[k..]);
    assert q[..k] + q[k..] == q;
    NoneQueued([p]);
  }

  /** Packets that wait for an action are not overtaken by those that are scheduled later. */
  lemma InsertQueued(q: seq<Packet>, p: Packet, clock: int)
    requires Ordered(q) && QueuedFirst(q) && !p.queued && clock <= p.sendAt
    requires forall i :: 0 <= i < |q| && q[i].queued ==> q[i].sendAt < clock
    ensures QueuedFirst(Insert(q, p)) && QueuedIds(Insert(q, p)) == QueuedIds(q)
  {
    hide QueuedIds, Ordered;
    var k := InsertAt(q, p.sendAt);
    SplitQueued(q, p, k);
    forall i | k <= i < |q| ensures !q[i].queued {
      OrderedFrom(q, k, i);
    }
  }

  lemma InsertBounded(s: State, p: Packet, after: nat)
    requires Bounded(s) && p.id < s.nextId && !p.queued
    ensures Bounded(SendAfterStep(s, p, after))
  {
    hide InsertAt;
  }

  /** Scheduling keeps the invariant. */
  lemma SendAfterInv(s: State, p: Packet, after: nat)
    requires Inv(s) && p.id !in Ids(s.queue) && p.id < s.nextId && TxHandle(p.id) !in s.actions && !p.queued
    ensures Inv(SendAfterStep(s, p, after))
  {
    hide LiveIds, QueuedIds, Ordered, DistinctIds, QueuedFirst, InsertAt, Ids;
    var n := p.(sendAt := s.clock + after, stamp := s.stamps);
    InsertBounded(s, p, after);
    InsertOrder(s.queue, n);
    hide Insert;
    InsertQueued(s.queue, n, s.clock);
    forall x ensures x in Ids(Insert(s.queue, n)) <==> x in Ids(s.queue) + {n.id} {
      InsertMember(s.queue, n, x);
    }
    assert Ids(Insert(s.queue, n)) == Ids(s.queue) + {n.id};
    LiveFresh(s.actions, Ids(s.queue), n.id);
  }

  lemma OrderedFrom(q: seq<Packet>, k: nat, i: nat)
    requires Ordered(q) && k <= i < |q|
    ensures q[k].sendAt <= q[i].sendAt
  {}

  lemma InsertMember(q: seq<Packet>, p: Packet, id: nat)
    ensures id in Ids(Insert(q, p)) <==> id in Ids(q) || id == p.id
  {
    var k := InsertAt(q, p.sendAt);
    var r := Insert(q, p);
    assert r[k] == p;
    if id in Ids(q) {
      var i :| 0 <= i < |q| && q[i].id == id;
      assert r[if i < k then i else i + 1] == q[i];
    }
    if id in Ids(r) && id != p.id {
      var i :| 0 <= i < |r| && r[i].id == id;
      assert q[if i < k then i else i - 1] == r[i];
    }
  }

  lemma SplitOrder(q: seq<Packet>, p: Packet, k: nat)
    requires Ordered(q) && DistinctIds(q) && k <= |q|
    requires forall i :: 0 <= i < |q| ==> q[i].id != p.id && q[i].stamp < p.stamp
    requires forall i :: 0 <= i < k ==> q[i].sendAt <= p.sendAt
    requires forall i :: k <= i < |q| ==> p.sendAt < q[i].sendAt
    ensures Ordered(q[..k] + [p] + q[k..]) && DistinctIds(q[..k] + [p] + q[k..])
  {
    SplitDistinct(q, p, k);
    hide DistinctIds;
    var r := q[..k] + [p] + q[k..];
    forall i, j | 0 <= i < j < |r|
      ensures r[i].sendAt < r[j].sendAt || (r[i].sendAt == r[j].sendAt && r[i].stamp < r[j].stamp)
    {
      SplitEntry(q, p, k, i);
      SplitEntry(q, p, k, j);
    }
  }

  lemma SplitEntry(q: seq<Packet>, p: Packet, k: nat, i: nat)
    requires k <= |q| && i <= |q|
    ensures (q[..k] + [p] + q[k..])[i] == if i < k then q[i] else if i == k then p else q[i - 1]
  {}

  lemma InsertOrder(q: seq<Packet>, p: Packet)
    requires Ordered(q) && DistinctIds(q) && p.id !in Ids(q)
    requires forall i :: 0 <= i < |q| ==> q[i].stamp < p.stamp
    ensures Ordered(Insert(q, p)) && DistinctIds(Insert(q, p))
  {
    var k := InsertAt(q, p.sendAt);
    forall i | k <= i < |q| ensures p.sendAt < q[i].sendAt {
      OrderedFrom(q, k, i);
    }
    forall i | 0 <= i < |q| ensures q[i].id != p.id {
      assert q[i] in q;
    }
    SplitOrder(q, p, k);
  }

  // ----- The timer.

  function ActionIds(actions: seq<Action>): seq<nat> {
    if actions == [] then [] else (if actions[0].TxHandle? then [actions[0].id] else []) + ActionIds(actions[1..])
  }

  lemma PrependAction(id: nat, posted: bool, actions: seq<Action>)
    ensures ActionIds((if posted then [TxHandle(id)] else []) + actions) ==
            (if posted then [id] else []) + ActionIds(actions)
  {
    if posted {
      assert ([TxHandle(id)] + actions)[1..] == actions;
    } else {
      assert [] + actions == actions;
    }
  }

  /** The loop marks exactly the packets that it posts actions for. */
  lemma {:induction false} MarkedIds(q: seq<Packet>, readings: seq<Reading>)
    requires forall i :: 0 <= i < |q| ==> !q[i].queued
    ensures QueuedIds(Marked(q, readings)) == ActionIds(PostedActions(q, readings))
  {
    hide QueuedIds, ActionIds;
    if Stops(q, readings) {
      NoneQueued(q);
      NoActions();
    } else {
      var t, u := q[1..], readings[1..];
      var posted := readings[0].outcome == Posted;
      MarkedIds(t, u);
      QueuedHead(Marked(q, readings));
      assert Marked(q, readings)[1..] == Marked(t, u);
      hide PostedActions;
      PrependAction(q[0].id, posted, PostedActions(t, u));
      PostedHead(q, readings);
    }
  }

  lemma NoActions()
    ensures ActionIds([]) == []
  {}

  lemma PostedHead(q: seq<Packet>, readings: seq<Reading>)
    requires !Stops(q, readings)
    ensures PostedActions(q, readings) ==
            (if readings[0].outcome == Posted then [TxHandle(q[0].id)] else []) + PostedActions(q[1..], readings[1..])
  {}

  /** The packets are the same, except that they may or may not wait for an action. */
  ghost predicate Same(p: Packet, r: Packet) {
    p.id == r.id && p.itf == r.itf && p.proto == r.proto && p.sendAt == r.sendAt && p.stamp == r.stamp
  }

  /** The loop changes nothing else. */
  lemma {:induction false} MarkedSame(q: seq<Packet>, readings: seq<Reading>)
    ensures forall i :: 0 <= i < |q| ==> Same(Marked(q, readings)[i], q[i])
  {
    if !Stops(q, readings) {
      MarkedSame(q[1..], readings[1..]);
    }
  }

  lemma {:induction false} PostedForPackets(q: seq<Packet>, readings: seq<Reading>, ids: set<nat>)
    requires forall i :: 0 <= i < |q| ==> q[i].id in ids
    ensures forall a :: a in PostedActions(q, readings) ==> a.TxHandle? && a.id in ids
  {
    if !Stops(q, readings) {
      PostedForPackets(q[1..], readings[1..], ids);
    }
  }

  /** Marked packets were due. */
  lemma {:induction false} MarkedDue(q: seq<Packet>, readings: seq<Reading>, clock: int)
    requires forall i :: 0 <= i < |readings| ==> readings[i].now <= clock
    requires forall i :: 0 <= i < |q| ==> !q[i].queued
    ensures forall i :: 0 <= i < |q| && Marked(q, readings)[i].queued ==> q[i].sendAt < clock
  {
    if Stops(q, readings) {
    } else {
      MarkedDue(q[1..], readings[1..], clock);
    }
  }

  lemma {:induction false} LiveAll(actions: seq<Action>, ids: set<nat>)
    requires forall a :: a in actions ==> a.TxHandle? && a.id in ids
    ensures LiveIds(actions, ids) == ActionIds(actions)
  {
    if actions != [] {
      LiveAll(actions[1..], ids);
    }
  }

  ghost predicate NoneWaits(q: seq<Packet>) {
    forall i :: 0 <= i < |q| ==> !q[i].queued
  }

  lemma {:induction false} SomePosted(q: seq<Packet>, readings: seq<Reading>)
    requires NoneWaits(q)
    ensures PostedActions(q, readings) == [] <==> NoneWaits(Marked(q, readings))
  {
    if !Stops(q, readings) {
      var t, u := q[1..], readings[1..];
      assert NoneWaits(t);
      SomePosted(t, u);
      PostedHead(q, readings);
      NoneWaitsHead(q[0].(queued := readings[0].outcome == Posted), Marked(t, u));
    }
  }

  lemma NoneWaitsHead(p: Packet, r: seq<Packet>)
    ensures NoneWaits([p] + r) <==> !p.queued && NoneWaits(r)
  {
    var q := [p] + r;
    assert q[0] == p && forall i :: 0 <= i < |r| ==> r[i] == q[i + 1];
  }

  lemma FirstOfMarked(p: Packet, r: seq<Packet>)
    ensures QueuedFirst([p] + r) <==> QueuedFirst(r) && (p.queued || NoneWaits(r))
  {
    var q := [p] + r;
    if QueuedFirst(q) {
      forall i, j | 0 <= i < j < |r| && r[j].queued ensures r[i].queued {
        assert q[i + 1] == r[i] && q[j + 1] == r[j];
      }
      forall i | 0 <= i < |r| && !p.queued ensures !r[i].queued {
        assert q[i + 1] == r[i] && q[0] == p;
      }
    }
  }

  /** The marked packets come first exactly when no post succeeds after one has failed. */
  lemma {:induction false} MarkedFirst(q: seq<Packet>, readings: seq<Reading>)
    requires forall i :: 0 <= i < |q| ==> !q[i].queued
    ensures QueuedFirst(Marked(q, readings)) <==> FailuresLast(q, readings)
  {
    if Stops(q, readings) {
    } else {
      hide QueuedFirst;
      assert NoneWaits(q[1..]);
      MarkedFirst(q[1..], readings[1..]);
      SomePosted(q[1..], readings[1..]);
      FirstOfMarked(q[0].(queued := readings[0].outcome == Posted), Marked(q[1..], readings[1..]));
    }
  }

  /** The timer loop posts actions for exactly the packets that it marks. */
  lemma TimerLive(actions: seq<Action>, q: seq<Packet>, k: nat, readings: seq<Reading>)
    requires k <= |q| && (forall i :: k <= i < |q| ==> !q[i].queued) && LiveIds(actions, Ids(q)) == QueuedIds(q)
    ensures LiveIds(actions + PostedActions(q[k..], readings), Ids(q)) == QueuedIds(q[..k] + Marked(q[k..], readings))
  {
    hide LiveIds, QueuedIds, Marked, PostedActions, Ids;
    var b := q[k..];
    MarkedIds(b, readings);
    QueuedAppend(q[..k], b);
    QueuedAppend(q[..k], Marked(b, readings));
    NoneQueued(b);
    assert q[..k] + b == q && QueuedIds(q[..k]) + [] == QueuedIds(q[..k]);
    LiveAppend(actions, PostedActions(b, readings), Ids(q));
    PartIds(q, k);
    PostedForPackets(b, readings, Ids(q));
    LiveAll(PostedActions(b, readings), Ids(q));
  }

  /** The part of the invariant that the timer keeps whatever happens to its posts. */
  lemma TimerMatches(s: State, readings: seq<Reading>)
    requires Inv(s) && Possible(s, Timer(readings))
    ensures var t := TimerStep(s, readings);
            Ordered(t.queue) && DistinctIds(t.queue) && Bounded(t) &&
                LiveIds(t.actions, Ids(t.queue)) == QueuedIds(t.queue)
  {
    hide LiveIds, QueuedIds, Ordered, DistinctIds, Bounded, Monotone, Ids, Marked, PostedActions, Same;
    TimerBounded(s, readings);
    TimerSame(s, readings);
    UnqueuedRest(s.queue);
    hide QueuedFirst, FirstUnqueued;
    TimerLive(s.actions, s.queue, FirstUnqueued(s.queue), readings);
    SameIds(s.queue, TimerStep(s, readings).queue);
  }

  lemma PartIds(q: seq<Packet>, k: nat)
    requires k <= |q|
    ensures forall i :: 0 <= i < |q[k..]| ==> q[k..][i].id in Ids(q)
  {
    forall i | 0 <= i < |q[k..]| ensures q[k..][i].id in Ids(q) {
      assert q[k + i] in q;
    }
  }

  lemma TimerSame(s: State, readings: seq<Reading>)
    ensures var t := TimerStep(s, readings).queue;
            |t| == |s.queue| && forall i :: 0 <= i < |t| ==> Same(t[i], s.queue[i])
  {
    var k := FirstUnqueued(s.queue);
    MarkedSame(s.queue[k..], readings);
    hide Marked;
    forall i | k <= i < |s.queue| ensures TimerStep(s, readings).queue[i] == Marked(s.queue[k..], readings)[i - k] {}
    forall i | k <= i < |s.queue| ensures s.queue[i] == s.queue[k..][i - k] {}
  }

  lemma UnqueuedRest(q: seq<Packet>)
    requires QueuedFirst(q)
    ensures forall i :: FirstUnqueued(q) <= i < |q| ==> !q[i].queued
  {}

  /** Packets that differ only in whether they wait for an action. */
  lemma SameIds(q: seq<Packet>, r: seq<Packet>)
    requires |q| == |r| && forall i :: 0 <= i < |q| ==> Same(r[i], q[i])
    ensures Ids(q) == Ids(r)
    ensures Ordered(q) ==> Ordered(r)
    ensures DistinctIds(q) ==> DistinctIds(r)
  {
    forall i | 0 <= i < |q| ensures q[i].id == r[i].id && q[i].sendAt == r[i].sendAt && q[i].stamp == r[i].stamp {
      assert Same(r[i], q[i]);
    }
    forall id ensures id in Ids(q) <==> id in Ids(r) {
      if id in Ids(q) {
        var i :| 0 <= i < |q| && q[i].id == id;
        assert r[i] in r;
      }
      if id in Ids(r) {
        var i :| 0 <= i < |r| && r[i].id == id;
        assert q[i] in q;
      }
    }
  }

  lemma LastReading(s: State, readings: seq<Reading>)
    requires Monotone(s.clock, readings)
    ensures s.clock <= TimerStep(s, readings).clock
    ensures forall i :: 0 <= i < |readings| ==> readings[i].now <= TimerStep(s, readings).clock
  {}

  lemma TimerPackets(s: State, readings: seq<Reading>, i: nat)
    requires Bounded(s) && QueuedFirst(s.queue) && Monotone(s.clock, readings) && i < |s.queue|
    ensures var t := TimerStep(s, readings); var p := t.queue[i];
            p.id < s.nextId && p.stamp < s.stamps && (p.queued ==> p.sendAt < t.clock)
  {
    hide Marked, PostedActions;
    var k := FirstUnqueued(s.queue);
    var b, t := s.queue[k..], TimerStep(s, readings);
    UnqueuedRest(s.queue);
    LastReading(s, readings);
    hide QueuedFirst, FirstUnqueued, Monotone;
    TimerSame(s, readings);
    assert Same(t.queue[i], s.queue[i]);
    if i >= k {
      MarkedDue(b, readings, t.clock);
      assert t.queue[i] == Marked(b, readings)[i - k] && b[i - k] == s.queue[i];
    }
  }

  lemma TimerBounded(s: State, readings: seq<Reading>)
    requires Inv(s) && Possible(s, Timer(readings))
    ensures Bounded(TimerStep(s, readings))
  {
    hide Ordered, DistinctIds, QueuedFirst, FirstUnqueued, Monotone, LiveIds, QueuedIds, Marked, PostedActions, Ids;
    var k := FirstUnqueued(s.queue);
    forall i: nat | i < |s.queue|
      ensures var t := TimerStep(s, readings); var p := t.queue[i];
              p.id < s.nextId && p.stamp < s.stamps && (p.queued ==> p.sendAt < t.clock)
    {
      TimerPackets(s, readings, i);
    }
    PostedBounded(s.queue, k, readings, s.nextId);
  }

  lemma PostedBounded(q: seq<Packet>, k: nat, readings: seq<Reading>, n: nat)
    requires k <= |q| && forall i :: 0 <= i < |q| ==> q[i].id < n
    ensures forall a :: a in PostedActions(q[k..], readings) ==> a.TxHandle? && a.id < n
  {
    PartIds(q, k);
    PostedForPackets(q[k..], readings, Ids(q));
    forall a | a in PostedActions(q[k..], readings) ensures a.TxHandle? && a.id < n {
      var p :| p in q && p.id == a.id;
    }
  }

  /** The timer keeps the invariant if and only if no post succeeds after one has failed. */
  lemma TimerInv(s: State, readings: seq<Reading>)
    requires Inv(s) && Possible(s, Timer(readings))
    ensures Inv(TimerStep(s, readings)) <==> Regular(s, Timer(readings))
  {
    hide LiveIds, QueuedIds, Ordered, DistinctIds, Bounded;
    TimerMatches(s, readings);
    var k := FirstUnqueued(s.queue);
    UnqueuedRest(s.queue);
    MarkedFirst(s.queue[k..], readings);
    QueuedPrefix(s.queue[..k], Marked(s.queue[k..], readings));
  }

  lemma QueuedPrefix(a: seq<Packet>, b: seq<Packet>)
    requires forall i :: 0 <= i < |a| ==> a[i].queued
    ensures QueuedFirst(a + b) <==> QueuedFirst(b)
  {
    var q := a + b;
    if QueuedFirst(q) {
      forall i, j | 0 <= i < j < |b| && b[j].queued ensures b[i].queued {
        assert q[|a| + i] == b[i] && q[|a| + j] == b[j];
      }
    }
  }

  // ----- Executing actions.

  /** An action for a packet that is still scheduled is for the head of the queue: it is never skipped. */
  lemma NeverSkipped(s: State)
    requires Inv(s) && s.actions != [] && s.actions[0].TxHandle? && s.actions[0].id in Ids(s.queue)
    ensures IsExpected(s, s.actions[0].id)
    ensures QueuedIds(s.queue)[1..] == QueuedIds(s.queue[1..]) == LiveIds(s.actions[1..], Ids(s.queue))
  {
    var q := s.queue;
    LiveHead(s.actions, Ids(q));
    QueuedHead(q);
    assert LiveIds(s.actions, Ids(q))[0] == s.actions[0].id;
    if !q[0].queued {
      NoneQueued(q);
    }
    assert QueuedIds(q)[0] == q[0].id;
  }

  lemma ExecuteInv(s: State, again: Option<nat>)
    requires Inv(s) && s.actions != []
    ensures Inv(ExecuteStep(s, again))
  {
    hide Ordered, DistinctIds, QueuedFirst;
    var a, rest, q := s.actions[0], s.actions[1..], s.queue;
    LiveHead(s.actions, Ids(q));
    if a.TxHandle? && a.id in Ids(q) {
      NeverSkipped(s);
      HeadIds(q);
      LiveAmong(rest, Ids(q), Ids(q[1..]));
      AmongAll(QueuedIds(q[1..]), q[1..]);
      var u := s.(actions := rest, queue := q[1..]);
      assert Inv(u) by { TailInv(s); }
      if TxHandle(a.id) in rest {
        LiveMember(rest, Ids(q), a.id);
        QueuedMember(q[1..], a.id);
        assert false;
      }
      if again.Some? {
        SendAfterInv(u, q[0].(queued := false), again.value);
      }
    } else {
      HeadId(q);
      assert Bounded(s.(actions := rest));
    }
  }

  lemma HeadId(q: seq<Packet>)
    ensures q != [] ==> q[0].id in Ids(q)
  {
    if q != [] {
      assert q[0] in q;
    }
  }

  lemma HeadIds(q: seq<Packet>)
    requires q != [] && DistinctIds(q)
    ensures Ids(q[1..]) <= Ids(q) && q[0].id !in Ids(q[1..])
  {
    forall p | p in q[1..] ensures p in q && p.id != q[0].id {
      var i :| 0 <= i < |q[1..]| && q[1..][i] == p;
      assert q[i + 1] == p;
    }
  }

  lemma TailInv(s: State)
    requires Inv(s) && s.queue != [] && s.actions != []
    ensures Ordered(s.queue[1..]) && DistinctIds(s.queue[1..]) && QueuedFirst(s.queue[1..])
    ensures Bounded(s.(actions := s.actions[1..], queue := s.queue[1..]))
  {}

  lemma {:induction false} AmongAll(ids: seq<nat>, q: seq<Packet>)
    requires forall id :: id in ids ==> id in QueuedIds(q)
    ensures Among(ids, Ids(q)) == ids
  {
    if ids != [] {
      QueuedMember(q, ids[0]);
      AmongAll(ids[1..], q);
    }
  }

  // ----- Runs.

  lemma NextInv(s: State, e: Event)
    requires Inv(s) && Possible(s, e) && Regular(s, e)
    ensures Inv(Next(s, e))
  {
    hide Ordered, DistinctIds, QueuedFirst, LiveIds, QueuedIds;
    match e
    case Advance(_) =>
    case SendNew(itf, proto, after) =>
      NewPacket(s);
      SendAfterInv(s.(nextId := s.nextId + 1), Packet(s.nextId, itf, proto, 0, false, 0), after);
    case Timer(readings) =>
      hide Inv;
      TimerInv(s, readings);
    case ClearAll =>
      KeepInv(s, (p: Packet) => false);
      KeepNothing(s.queue);
    case ClearInterface(itf, proto) =>
      KeepInv(s, (p: Packet) => !(p.itf == itf && p.proto == proto));
    case Detach(id) =>
      KeepInv(s, (p: Packet) => p.id != id);
    case PostOther =>
      LiveAppend(s.actions, [Other], Ids(s.queue));
      OtherIsDead(Ids(s.queue));
    case Execute(again) =>
      ExecuteInv(s, again);
  }

  lemma {:induction false} KeepNothing(q: seq<Packet>)
    ensures Keep(q, (p: Packet) => false) == []
  {
    if q != [] {
      KeepNothing(q[1..]);
    }
  }

  lemma OtherIsDead(ids: set<nat>)
    ensures LiveIds([Other], ids) == []
  {}

  lemma NewPacket(s: State)
    requires Inv(s)
    ensures s.nextId !in Ids(s.queue) && TxHandle(s.nextId) !in s.actions && Inv(s.(nextId := s.nextId + 1))
  {
    hide Ordered, DistinctIds, QueuedFirst, LiveIds, QueuedIds;
  }

  /** The states of a run from `s`. */
  ghost predicate IsRun(s: State, events: seq<Event>, t: State)
    decreases |events|
  {
    if events == [] then s == t
    else Possible(s, events[0]) && Regular(s, events[0]) && IsRun(Next(s, events[0]), events[1..], t)
  }

  /** In every run of regular ticks the invariant holds. */
  lemma {:induction false} RunInv(s: State, events: seq<Event>, t: State)
    requires Inv(s) && IsRun(s, events, t)
    ensures Inv(t)
    decreases |events|
  {
    hide Inv, Regular, Next;
    if events != [] {
      NextInv(s, events[0]);
      RunInv(Next(s, events[0]), events[1..], t);
    }
  }

  const INITIAL := State([], [], 0, 0, 0)

  /**
   In every state of every run of regular ticks: time order, order of scheduling, and no action for a scheduled packet
   is skipped.
   */
  lemma RunSafety(events: seq<Event>, s: State)
    requires IsRun(INITIAL, events, s)
    ensures Ordered(s.queue) && QueuedFirst(s.queue) && LiveIds(s.actions, Ids(s.queue)) == QueuedIds(s.queue)
    ensures s.actions != [] && s.actions[0].TxHandle? && s.actions[0].id in Ids(s.queue) ==>
            IsExpected(s, s.actions[0].id)
  {
    assert Inv(INITIAL);
    RunInv(INITIAL, events, s);
    if s.actions != [] && s.actions[0].TxHandle? && s.actions[0].id in Ids(s.queue) {
      NeverSkipped(s);
    }
  }

  // ----- What a tick posts, and when.

  /** All rounds of the loop read the same time, and all posts succeed. */
  ghost predicate AllPosted(readings: seq<Reading>, now: int) {
    forall i :: 0 <= i < |readings| ==> readings[i] == Reading(now, Posted)
  }

  lemma {:induction false} DueMarked(q: seq<Packet>, readings: seq<Reading>, now: int)
    requires |readings| == |q| && AllPosted(readings, now)
    requires forall i, j :: 0 <= i < j < |q| ==> q[i].sendAt <= q[j].sendAt
    requires forall i :: 0 <= i < |q| ==> !q[i].queued
    ensures forall i :: 0 <= i < |q| ==> Marked(q, readings)[i] == q[i].(queued := q[i].sendAt < now)
    ensures FailuresLast(q, readings)
  {
    if !Stops(q, readings) {
      DueMarked(q[1..], readings[1..], now);
    }
  }

  /**
   A tick whose posts all succeed lets exactly the packets wait whose time has come, and the pending actions are for
   these packets, in the order of the queue.
   */
  lemma TickPostsDue(s: State, readings: seq<Reading>, now: int)
    requires Inv(s) && Possible(s, Timer(readings)) && AllPosted(readings, now) && s.clock <= now
    ensures var t := Next(s, Timer(readings));
            && |t.queue| == |s.queue|
            && (forall i :: 0 <= i < |s.queue| ==> t.queue[i] == s.queue[i].(queued := s.queue[i].sendAt < now))
            && LiveIds(t.actions, Ids(t.queue)) == QueuedIds(t.queue)
  {
    hide LiveIds, QueuedIds, Ids, Ordered, DistinctIds, QueuedFirst, Marked, PostedActions, FailuresLast;
    TickMarks(s.queue, readings, now);
    NextInv(s, Timer(readings));
  }

  /** The packets after such a tick. */
  lemma TickMarks(q: seq<Packet>, readings: seq<Reading>, now: int)
    requires Ordered(q) && QueuedFirst(q) && forall i :: 0 <= i < |q| && q[i].queued ==> q[i].sendAt < now
    requires |readings| == |q| - FirstUnqueued(q) && AllPosted(readings, now)
    ensures var k := FirstUnqueued(q);
            var r := q[..k] + Marked(q[k..], readings);
            (forall i :: 0 <= i < |q| ==> r[i] == q[i].(queued := q[i].sendAt < now)) && FailuresLast(q[k..], readings)
  {
    var k := FirstUnqueued(q);
    UnqueuedRest(q);
    hide FirstUnqueued, FailuresLast, QueuedFirst, Marked;
    var rest := q[k..];
    DueMarked(rest, readings, now);
    var r := q[..k] + Marked(rest, readings);
    forall i | 0 <= i < |q| ensures r[i] == q[i].(queued := q[i].sendAt < now) {
      if i >= k {
        assert r[i] == Marked(rest, readings)[i - k] && rest[i - k] == q[i];
      }
    }
  }

  /** A packet that was scheduled with a delay waits after such a tick exactly if more than the delay has passed. */
  lemma DelayKept(s: State, itf: nat, proto: nat, after: nat, time: nat, readings: seq<Reading>) returns (i: nat)
    requires Inv(s)
    requires var t := Next(Next(s, SendNew(itf, proto, after)), Advance(time));
             Possible(t, Timer(readings)) && AllPosted(readings, t.clock)
    ensures var t := Next(Next(s, SendNew(itf, proto, after)), Advance(time));
            var u := Next(t, Timer(readings));
            i < |u.queue| && u.queue[i].id == s.nextId && (u.queue[i].queued <==> time > after)
  {
    hide Inv, TimerStep, LiveIds, QueuedIds, Ordered, FirstUnqueued;
    var a := Next(s, SendNew(itf, proto, after));
    NextInv(s, SendNew(itf, proto, after));
    NextInv(a, Advance(time));
    i := InsertAt(s.queue, s.clock + after);
    TickPostsDue(Next(a, Advance(time)), readings, Next(a, Advance(time)).clock);
  }

  /** A packet that has been sent leaves the queue, or is back in it with its new time. */
  lemma SentPacket(s: State, after: nat)
    requires Inv(s) && s.actions != [] && s.actions[0].TxHandle? && s.actions[0].id in Ids(s.queue)
    ensures Ids(Next(s, Execute(None)).queue) == Ids(s.queue) - {s.actions[0].id}
    ensures exists p :: p in Next(s, Execute(Some(after))).queue && p.id == s.actions[0].id &&
                        p.sendAt == s.clock + after && !p.queued
    ensures forall p :: p in s.queue && p.id != s.actions[0].id ==> p in Next(s, Execute(Some(after))).queue
  {
    NeverSkipped(s);
    hide LiveIds, QueuedIds, Ordered, QueuedFirst, DistinctIds, Insert, Ids;
    HeadId(s.queue);
    WithoutHead(s.queue);
    Rescheduled(s.queue, s.queue[0].(queued := false, sendAt := s.clock + after, stamp := s.stamps));
  }

  lemma WithoutHead(q: seq<Packet>)
    requires q != [] && DistinctIds(q)
    ensures Ids(q[1..]) == Ids(q) - {q[0].id}
  {
    HeadIds(q);
    forall p | p in q && p.id != q[0].id ensures p in q[1..] {
      var i :| 0 <= i < |q| && q[i] == p;
      assert q[1..][i - 1] == p;
    }
  }

  lemma Rescheduled(q: seq<Packet>, p: Packet)
    requires q != []
    ensures p in Insert(q[1..], p)
    ensures forall o :: o in q && o != q[0] ==> o in Insert(q[1..], p)
  {
    var k := InsertAt(q[1..], p.sendAt);
    var r := Insert(q[1..], p);
    hide InsertAt;
    assert r[k] == p;
    forall o | o in q && o != q[0] ensures o in r {
      var i :| 0 <= i < |q| && q[i] == o;
      assert r[if i - 1 < k then i - 1 else i] == o;
    }
  }

  // ----- What happens when a post succeeds after one has failed.

  /** The next action is for a scheduled packet and will be skipped. */
  predicate Skips(s: State) {
    s.actions != [] && s.actions[0].TxHandle? && s.actions[0].id in Ids(s.queue) && !IsExpected(s, s.actions[0].id)
  }

  /** So many of the pending actions are executed, and nothing else happens. */
  function ExecuteAll(s: State, agains: seq<Option<nat>>): (t: State)
    requires |agains| <= |s.actions|
    ensures t.actions == s.actions[|agains|..]
    decreases |agains|
  {
    hide SendAfterStep, IsExpected;
    if agains == [] then s
    else
      var n := |agains| - 1;
      ExecutedActions(ExecuteAll(s, agains[..n]), agains[n]);
      ExecuteStep(ExecuteAll(s, agains[..n]), agains[n])
  }

  lemma ExecutedActions(s: State, again: Option<nat>)
    requires s.actions != []
    ensures ExecuteStep(s, again).actions == s.actions[1..]
  {
    hide Insert, IsExpected;
  }

  /** A packet that does not wait for an action stands before another one. */
  ghost predicate Overtaken(q: seq<Packet>, first: nat, later: nat) {
    exists i, j :: 0 <= i < j < |q| && q[i].id == first && !q[i].queued && q[j].id == later
  }

  /** Only the action for the later packet can change that, and it will be skipped. */
  lemma OvertakenStep(s: State, again: Option<nat>, first: nat, later: nat)
    requires s.actions != [] && s.actions[0] != TxHandle(later) && DistinctIds(s.queue) &&
             Overtaken(s.queue, first, later)
    ensures var t := ExecuteStep(s, again); DistinctIds(t.queue) && Overtaken(t.queue, first, later)
  {
    hide Insert, DistinctIds, Overtaken, Ids;
    if s.actions[0].TxHandle? && IsExpected(s, s.actions[0].id) {
      OvertakenHead(s.queue, first, later);
      if again.Some? {
        var n := s.queue[0].(queued := false).(sendAt := s.clock + again.value, stamp := s.stamps);
        OvertakenInsert(s.queue[1..], n, first, later);
      }
    }
  }

  lemma OvertakenHead(q: seq<Packet>, first: nat, later: nat)
    requires DistinctIds(q) && Overtaken(q, first, later) && q[0].queued
    ensures DistinctIds(q[1..]) && Overtaken(q[1..], first, later) && q[0].id !in Ids(q[1..])
  {
    HeadIds(q);
    hide Ids;
    var i, j :| 0 <= i < j < |q| && q[i].id == first && !q[i].queued && q[j].id == later;
    assert q[1..][i - 1] == q[i] && q[1..][j - 1] == q[j];
  }

  lemma InsertEntry(q: seq<Packet>, p: Packet, i: nat)
    requires i < |q|
    ensures |Insert(q, p)| == |q| + 1
    ensures Insert(q, p)[if i < InsertAt(q, p.sendAt) then i else i + 1] == q[i]
  {
    hide InsertAt;
    SplitEntry(q, p, InsertAt(q, p.sendAt), if i < InsertAt(q, p.sendAt) then i else i + 1);
  }

  lemma InsertDistinct(q: seq<Packet>, p: Packet)
    requires DistinctIds(q) && p.id !in Ids(q)
    ensures DistinctIds(Insert(q, p))
  {
    NotAmong(q, p.id);
    hide InsertAt, DistinctIds, Ids;
    SplitDistinct(q, p, InsertAt(q, p.sendAt));
  }

  lemma OvertakenInsert(q: seq<Packet>, p: Packet, first: nat, later: nat)
    requires Overtaken(q, first, later) && DistinctIds(q) && p.id !in Ids(q)
    ensures DistinctIds(Insert(q, p)) && Overtaken(Insert(q, p), first, later)
  {
    hide InsertAt, Insert, DistinctIds, Ids;
    InsertDistinct(q, p);
    var i, j :| 0 <= i < j < |q| && q[i].id == first && !q[i].queued && q[j].id == later;
    InsertEntry(q, p, i);
    InsertEntry(q, p, j);
  }

  lemma {:induction false} OvertakenRun(s: State, agains: seq<Option<nat>>, first: nat, later: nat)
    requires |agains| <= |s.actions| && TxHandle(later) !in s.actions[..|agains|]
    requires DistinctIds(s.queue) && Overtaken(s.queue, first, later)
    ensures var t := ExecuteAll(s, agains); DistinctIds(t.queue) && Overtaken(t.queue, first, later)
    decreases |agains|
  {
    hide DistinctIds, Overtaken, ExecuteStep;
    if agains != [] {
      var n := |agains| - 1;
      assert s.actions[n] in s.actions[..|agains|] && forall a :: a in s.actions[..n] ==> a in s.actions[..|agains|];
      OvertakenRun(s, agains[..n], first, later);
      OvertakenStep(ExecuteAll(s, agains[..n]), agains[n], first, later);
    }
  }

  lemma {:induction false} LiveSource(actions: seq<Action>, ids: set<nat>, id: nat)
    requires id in LiveIds(actions, ids)
    ensures TxHandle(id) in actions
  {
    if actions[0] != TxHandle(id) {
      LiveSource(actions[1..], ids, id);
    }
  }

  lemma {:induction false} QueuedIn(q: seq<Packet>, j: nat)
    requires j < |q| && q[j].queued
    ensures q[j].id in QueuedIds(q)
  {
    if j > 0 {
      QueuedIn(q[1..], j - 1);
    }
  }

  lemma {:induction false} FirstPlace(actions: seq<Action>, a: Action) returns (m: nat)
    requires a in actions
    ensures m < |actions| && actions[m] == a && a !in actions[..m]
  {
    if actions[0] == a {
      m := 0;
    } else {
      m := FirstPlace(actions[1..], a);
      assert actions[..m + 1] == [actions[0]] + actions[1..][..m];
      m := m + 1;
    }
  }

  lemma OvertakenSkips(s: State, first: nat, later: nat)
    requires s.actions != [] && s.actions[0] == TxHandle(later) && DistinctIds(s.queue) &&
             Overtaken(s.queue, first, later)
    ensures Skips(s)
  {
    var i, j :| 0 <= i < j < |s.queue| && s.queue[i].id == first && !s.queue[i].queued && s.queue[j].id == later;
    assert s.queue[j] in s.queue;
  }

  /** After an irregular tick, executing the pending actions comes to one that is skipped. */
  lemma IrregularSkips(s: State, readings: seq<Reading>, agains: seq<Option<nat>>) returns (m: nat)
    requires Inv(s) && Possible(s, Timer(readings)) && !Regular(s, Timer(readings))
    requires |agains| == |TimerStep(s, readings).actions|
    ensures m < |agains| && Skips(ExecuteAll(TimerStep(s, readings), agains[..m]))
  {
    hide LiveIds, QueuedIds, Ordered, DistinctIds, Bounded, TimerStep, Regular, ExecuteAll, Skips, Possible;
    TimerInv(s, readings);
    TimerMatches(s, readings);
    var t := TimerStep(s, readings);
    var i, j :| 0 <= i < j < |t.queue| && t.queue[j].queued && !t.queue[i].queued;
    var first, later := t.queue[i].id, t.queue[j].id;
    QueuedIn(t.queue, j);
    LiveSource(t.actions, Ids(t.queue), later);
    m := FirstPlace(t.actions, TxHandle(later));
    OvertakenRun(t, agains[..m], first, later);
    OvertakenSkips(ExecuteAll(t, agains[..m]), first, later);
  }

  lemma {:induction false} ExecuteAllInv(s: State, agains: seq<Option<nat>>)
    requires Inv(s) && |agains| <= |s.actions|
    ensures Inv(ExecuteAll(s, agains))
    decreases |agains|
  {
    hide Inv, ExecuteStep;
    if agains != [] {
      var n := |agains| - 1;
      ExecuteAllInv(s, agains[..n]);
      ExecuteInv(ExecuteAll(s, agains[..n]), agains[n]);
    }
  }

  /**
   After a tick, executing the pending actions, with no packets freed, skips the action of a packet that is still
   scheduled if and only if a post has succeeded after one had failed; whether packets are scheduled again does not
   matter.
   */
  lemma TickSkips(s: State, readings: seq<Reading>, agains: seq<Option<nat>>)
    requires Inv(s) && Possible(s, Timer(readings)) && |agains| == |TimerStep(s, readings).actions|
    ensures (exists m: nat :: m <= |agains| && Skips(ExecuteAll(TimerStep(s, readings), agains[..m]))) <==>
            !Regular(s, Timer(readings))
  {
    hide Inv, Possible, Regular, TimerStep, ExecuteAll, IsExpected;
    if Regular(s, Timer(readings)) {
      TimerInv(s, readings);
      forall m: nat | m <= |agains| ensures !Skips(ExecuteAll(TimerStep(s, readings), agains[..m])) {
        var t := ExecuteAll(TimerStep(s, readings), agains[..m]);
        ExecuteAllInv(TimerStep(s, readings), agains[..m]);
        if t.actions != [] && t.actions[0].TxHandle? && t.actions[0].id in Ids(t.queue) {
          NeverSkipped(t);
        }
      }
    } else {
      var m := IrregularSkips(s, readings, agains);
    }
  }

  /** The head of the queue waits for an action that is not pending. */
  ghost predicate Blocked(s: State) {
    s.queue != [] && s.queue[0].queued && s.queue[0].sendAt < s.clock && TxHandle(s.queue[0].id) !in s.actions &&
    DistinctIds(s.queue) && forall i :: 0 <= i < |s.queue| ==> s.queue[i].id < s.nextId
  }

  predicate Frees(e: Event) {
    e.ClearAll? || e.ClearInterface? || e.Detach?
  }

  lemma NotAmong(q: seq<Packet>, id: nat)
    requires id !in Ids(q)
    ensures forall i :: 0 <= i < |q| ==> q[i].id != id
  {
    forall i | 0 <= i < |q| ensures q[i].id != id {
      assert q[i] in q;
    }
  }

  lemma BlockedInsert(s: State, p: Packet, after: nat)
    requires Blocked(s) && p.id !in Ids(s.queue) && p.id < s.nextId
    ensures var t := SendAfterStep(s, p, after); Blocked(t) && t.queue[0] == s.queue[0] && Ids(s.queue) <= Ids(t.queue)
  {
    var n := p.(sendAt := s.clock + after, stamp := s.stamps);
    var q, k := s.queue, InsertAt(s.queue, n.sendAt);
    hide Ids, DistinctIds, InsertAt;
    NotAmong(q, p.id);
    forall id ensures id in Ids(q) ==> id in Ids(Insert(q, n)) {
      InsertMember(q, n, id);
    }
    SplitDistinct(q, n, k);
    forall i | 0 <= i <= |q| ensures Insert(q, n)[i].id < s.nextId {
      SplitEntry(q, n, k, i);
    }
    SplitEntry(q, n, k, 0);
  }

  lemma SplitDistinct(q: seq<Packet>, p: Packet, k: nat)
    requires DistinctIds(q) && k <= |q| && forall i :: 0 <= i < |q| ==> q[i].id != p.id
    ensures DistinctIds(q[..k] + [p] + q[k..])
  {
    var r := q[..k] + [p] + q[k..];
    forall i, j | 0 <= i < j < |r| ensures r[i].id != r[j].id {
      SplitEntry(q, p, k, i);
      SplitEntry(q, p, k, j);
    }
  }

  lemma BlockedTimer(s: State, readings: seq<Reading>)
    requires Blocked(s) && Possible(s, Timer(readings))
    ensures var t := TimerStep(s, readings); Blocked(t) && t.queue[0] == s.queue[0] && Ids(s.queue) <= Ids(t.queue)
  {
    hide Ids;
    var q, k, t := s.queue, FirstUnqueued(s.queue), TimerStep(s, readings);
    LastReading(s, readings);
    hide Monotone;
    TimerSame(s, readings);
    SameIds(q, t.queue);
    forall i | 0 <= i < |t.queue| ensures t.queue[i].id < s.nextId {
      assert Same(t.queue[i], q[i]);
    }
    OwnIds(q[k..]);
    PostedForPackets(q[k..], readings, Ids(q[k..]));
    NotInRest(q, k);
  }

  lemma OwnIds(q: seq<Packet>)
    ensures forall i :: 0 <= i < |q| ==> q[i].id in Ids(q)
  {
    forall i | 0 <= i < |q| ensures q[i].id in Ids(q) {
      assert q[i] in q;
    }
  }

  lemma NotInRest(q: seq<Packet>, k: nat)
    requires DistinctIds(q) && 0 < k <= |q|
    ensures q[0].id !in Ids(q[k..])
  {}

  lemma BlockedStep(s: State, e: Event)
    requires Blocked(s) && Possible(s, e) && !Frees(e)
    ensures Blocked(Next(s, e)) && Next(s, e).queue[0] == s.queue[0] && Ids(s.queue) <= Ids(Next(s, e).queue)
  {
    hide DistinctIds;
    match e
    case Advance(_) =>
    case SendNew(itf, proto, after) =>
      assert s.nextId !in Ids(s.queue);
      BlockedInsert(s.(nextId := s.nextId + 1), Packet(s.nextId, itf, proto, 0, false, 0), after);
    case Timer(readings) =>
      BlockedTimer(s, readings);
    case PostOther =>
    case Execute(again) =>
      assert s.actions[0] in s.actions;
  }

  /** A run in which no packet is freed. */
  ghost predicate IsRunWithoutFreeing(s: State, events: seq<Event>, t: State)
    decreases |events|
  {
    if events == [] then s == t
    else Possible(s, events[0]) && !Frees(events[0]) && IsRunWithoutFreeing(Next(s, events[0]), events[1..], t)
  }

  /** A blocked queue stays blocked: until packets are freed, none is ever sent. */
  lemma {:induction false} BlockedForever(s: State, events: seq<Event>, t: State)
    requires Blocked(s) && IsRunWithoutFreeing(s, events, t)
    ensures Blocked(t) && t.queue[0] == s.queue[0] && Ids(s.queue) <= Ids(t.queue)
    decreases |events|
  {
    hide Blocked, Frees, Next, Ids;
    if events != [] {
      BlockedStep(s, events[0]);
      BlockedForever(Next(s, events[0]), events[1..], t);
    }
  }

  /** Two packets that are due at time 1. */
  const FIRST := Packet(0, 0, 0, 0, false, 0)
  const SECOND := Packet(1, 1, 0, 0, false, 1)
  const TWO_PACKETS := State([FIRST, SECOND], [], 0, 2, 2)

  const ONE_PACKET := State([FIRST], [], 0, 1, 1)

  lemma OneScheduled()
    ensures Next(INITIAL, SendNew(0, 0, 0)) == ONE_PACKET && Inv(INITIAL)
  {}

  lemma NextScheduled()
    ensures Next(ONE_PACKET, SendNew(1, 0, 0)) == TWO_PACKETS
  {
    assert [FIRST][1..] == [] && InsertAt([], 0) == 0;
  }

  lemma TwoScheduled()
    ensures Next(Next(INITIAL, SendNew(0, 0, 0)), SendNew(1, 0, 0)) == TWO_PACKETS
    ensures Inv(TWO_PACKETS)
  {
    OneScheduled();
    NextScheduled();
    hide Inv, Next;
    NextInv(INITIAL, SendNew(0, 0, 0));
    NextInv(ONE_PACKET, SendNew(1, 0, 0));
  }

  lemma FailureThenSuccess(readings: seq<Reading>)
    requires readings == [Reading(1, QueueFull), Reading(1, Posted)]
    ensures Possible(TWO_PACKETS, Timer(readings)) && !Regular(TWO_PACKETS, Timer(readings))
    ensures Next(TWO_PACKETS, Timer(readings)) == State([FIRST, SECOND.(queued := true)], [TxHandle(1)], 1, 2, 2)
  {
    var q := [FIRST, SECOND];
    assert FirstUnqueued(q) == 0 && q[0..] == q && q[..0] == [];
    assert q[1..] == [SECOND] && readings[1..] == [Reading(1, Posted)];
    assert PostedActions(q[1..][1..], readings[1..][1..]) == [];
    assert PostedActions(q[1..], readings[1..]) == [TxHandle(1)];
    assert Marked(q[1..], readings[1..]) == [SECOND.(queued := true)];
    assert [] + [TxHandle(1)] == [TxHandle(1)];
  }

  lemma FirstFreed(q: seq<Packet>)
    requires |q| == 2 && q[0].id == 0 && q[1].id == 1
    ensures Keep(q, (p: Packet) => p.id != 0) == [q[1]]
  {
    hide Keep;
    KeepHead(q, (p: Packet) => p.id != 0);
    KeepHead(q[1..], (p: Packet) => p.id != 0);
    assert q[1..] == [q[1]] && q[1..][1..] == [];
    NothingKept((p: Packet) => p.id != 0);
  }

  lemma NothingKept(stays: Packet -> bool)
    ensures Keep([], stays) == []
  {}

  lemma SkippedThenFreed(s: State)
    requires s == State([FIRST, SECOND.(queued := true)], [TxHandle(1)], 1, 2, 2)
    ensures Blocked(Next(Next(s, Execute(None)), Detach(0)))
  {
    hide Keep;
    FirstFreed(s.queue);
  }

  /**
   It does happen: two packets are due, the post fails for the first and succeeds for the second, whose action is
   then skipped; when the first packet is freed, the second blocks the queue.
   */
  lemma FailureThenSuccessBlocks(readings: seq<Reading>)
    requires readings == [Reading(1, QueueFull), Reading(1, Posted)]
    ensures var s := Next(Next(INITIAL, SendNew(0, 0, 0)), SendNew(1, 0, 0));
            Inv(s) && Possible(s, Timer(readings)) && !Regular(s, Timer(readings)) &&
            Next(s, Timer(readings)).actions != [] &&
            Blocked(Next(Next(Next(s, Timer(readings)), Execute(None)), Detach(0)))
  {
    TwoScheduled();
    FailureThenSuccess(readings);
    hide Inv, Possible, Regular, Blocked, Next;
    SkippedThenFreed(Next(TWO_PACKETS, Timer(readings)));
  }

  lemma SkippedThenSent(s: State, readings: seq<Reading>)
    requires s == State([FIRST, SECOND.(queued := true)], [], 1, 2, 2)
    requires readings == [Reading(1, Posted), Reading(1, NoMemory)]
    ensures Possible(s, Timer(readings))
    ensures Next(s, Timer(readings)) == State([FIRST.(queued := true), SECOND.(queued := true)], [TxHandle(0)], 1, 2, 2)
  {
    var q := s.queue;
    assert FirstUnqueued(q) == 0 && q[0..] == q && q[..0] == [] && q[1..] == [q[1]];
    assert readings[1..] == [Reading(1, NoMemory)];
    assert Marked(q[1..], readings[1..]) == q[1..] && PostedActions(q[1..], readings[1..]) == [];
    assert PostedActions(q, readings) == [TxHandle(0)];
    assert [] + [TxHandle(0)] == [TxHandle(0)];
  }

  /**
   It needs no freeing: if the next tick posts the first packet and then finds no memory for an action for the second,
   the first is sent and the second blocks the queue.  (With memory, that tick posts the second one again.)
   */
  lemma BlocksWithoutFreeing(readings: seq<Reading>, next: seq<Reading>)
    requires readings == [Reading(1, QueueFull), Reading(1, Posted)] &&
             next == [Reading(1, Posted), Reading(1, NoMemory)]
    ensures var s := Next(Next(INITIAL, SendNew(0, 0, 0)), SendNew(1, 0, 0));
            Possible(s, Timer(readings)) && Next(s, Timer(readings)).actions != [] &&
            var t := Next(Next(s, Timer(readings)), Execute(None));
            Possible(t, Timer(next)) && Next(t, Timer(next)).actions != [] &&
            Blocked(Next(Next(t, Timer(next)), Execute(None)))
  {
    TwoScheduled();
    FailureThenSuccess(readings);
    hide Inv, Possible, Regular, Blocked, Next;
    SkippedAway(Next(TWO_PACKETS, Timer(readings)));
    SkippedThenSent(State([FIRST, SECOND.(queued := true)], [], 1, 2, 2), next);
    SecondBlocks(State([FIRST.(queued := true), SECOND.(queued := true)], [TxHandle(0)], 1, 2, 2));
  }

  lemma SkippedAway(s: State)
    requires s == State([FIRST, SECOND.(queued := true)], [TxHandle(1)], 1, 2, 2)
    ensures Next(s, Execute(None)) == State([FIRST, SECOND.(queued := true)], [], 1, 2, 2)
  {}

  lemma SecondBlocks(s: State)
    requires s == State([FIRST.(queued := true), SECOND.(queued := true)], [TxHandle(0)], 1, 2, 2)
    ensures Blocked(Next(s, Execute(None)))
  {
    assert s.queue[1..] == [s.queue[1]];
  }

  // ----- The list operations of the source.

  lemma {:induction false} KeepAppend(a: seq<Packet>, b: seq<Packet>, stays: Packet -> bool)
    ensures Keep(a + b, stays) == Keep(a, stays) + Keep(b, stays)
  {
    hide Keep;
    if a == [] {
      assert a + b == b && Keep(a, stays) == [];
    } else {
      KeepAppend(a[1..], b, stays);
      KeepHead(a, stays);
      KeepHead(a + b, stays);
      assert (a + b)[1..] == a[1..] + b;
      Associative(if stays(a[0]) then [a[0]] else [], Keep(a[1..], stays), Keep(b, stays));
    }
  }

  lemma KeepHead(q: seq<Packet>, stays: Packet -> bool)
    requires q != []
    ensures Keep(q, stays) == (if stays(q[0]) then [q[0]] else []) + Keep(q[1..], stays)
  {}

  lemma KeepStep(q: seq<Packet>, i: nat, stays: Packet -> bool)
    requires i < |q|
    ensures stays(q[i]) ==> q[..i] + Keep(q[i..], stays) == q[..i + 1] + Keep(q[i + 1..], stays)
    ensures !stays(q[i]) ==> Keep(q[i..], stays) == Keep(q[i + 1..], stays)
  {
    KeepHead(q[i..], stays);
    assert q[i..][1..] == q[i + 1..];
  }

  lemma InsertAtStep(q: seq<Packet>, k: nat, sendAt: int)
    requires k <= |q|
    ensures InsertAt(q[k..], sendAt) ==
            if k < |q| && q[k].sendAt <= sendAt then 1 + InsertAt(q[k + 1..], sendAt) else 0
  {
    if k < |q| {
      assert q[k..][1..] == q[k + 1..];
    }
  }

  lemma FirstUnqueuedStep(q: seq<Packet>, k: nat)
    requires k <= |q|
    ensures FirstUnqueued(q[k..]) == if k < |q| && q[k].queued then 1 + FirstUnqueued(q[k + 1..]) else 0
  {
    if k < |q| {
      assert q[k..][1..] == q[k + 1..];
    }
  }

  class Scheduler {
    /** The list at `s_tx_queue_head` and the action queue. */
    var queue: seq<Packet>
    var actions: seq<Action>
    /** The environment: the time, the addresses used so far and the number of packets scheduled so far. */
    var clock: int
    var nextId: nat
    var stamps: nat

    function Now(): State
      reads this
    {
      State(queue, actions, clock, nextId, stamps)
    }

    constructor ()
      ensures Now() == INITIAL
    {
      queue, actions, clock, nextId, stamps := [], [], 0, 0, 0;
    }

    /** The search of `mdns_priv_send_after`: the number of packets that go before the new one. */
    method FindPlace(sendAt: int) returns (k: nat)
      ensures k == InsertAt(queue, sendAt)
    {
      hide InsertAt;
      assert queue[0..] == queue;
      InsertAtStep(queue, 0, sendAt);
      if queue == [] || queue[0].sendAt > sendAt {
        return 0;
      }
      var q := 0;
      while q + 1 < |queue| && queue[q + 1].sendAt <= sendAt
        invariant 0 <= q < |queue| && InsertAt(queue, sendAt) == q + 1 + InsertAt(queue[q + 1..], sendAt)
      {
        InsertAtStep(queue, q + 1, sendAt);
        q := q + 1;
      }
      InsertAtStep(queue, q + 1, sendAt);
      return q + 1;
    }

    /** `mdns_priv_send_after` */
    method SendAfter(packet: Packet, after: nat)
      modifies this
      ensures Now() == SendAfterStep(old(Now()), packet, after)
    {
      hide InsertAt;
      var p := packet.(sendAt := clock + after, stamp := stamps);
      var k := FindPlace(p.sendAt);
      stamps := stamps + 1;
      queue := queue[..k] + [p] + queue[k..];
    }

    /** `mdns_priv_clear_tx_queue` */
    method ClearTxQueue()
      modifies this`queue
      ensures Now() == Next(old(Now()), ClearAll)
    {
      while queue != []
      {
        queue := queue[1..];
      }
    }

    /** The second loop of `mdns_priv_clear_tx_queue_if`, which keeps the head. */
    method ClearBehindHead(itf: nat, proto: nat, ghost stays: Packet -> bool)
      requires queue != [] && forall p :: stays(p) == !(p.itf == itf && p.proto == proto)
      modifies this`queue
      ensures queue == [old(queue)[0]] + Keep(old(queue)[1..], stays)
    {
      hide Keep;
      var q := 0;
      assert queue[..1] == [queue[0]];
      while q + 1 < |queue|
        invariant 0 <= q < |queue|
        invariant queue[..q + 1] + Keep(queue[q + 1..], stays) == [old(queue)[0]] + Keep(old(queue)[1..], stays)
        decreases |queue| - q
      {
        KeepStep(queue, q + 1, stays);
        if queue[q + 1].itf == itf && queue[q + 1].proto == proto {
          ghost var before := queue;
          queue := queue[..q + 1] + queue[q + 2..];
          assert queue[..q + 1] == before[..q + 1] && queue[q + 1..] == before[q + 2..];
        } else {
          q := q + 1;
        }
      }
      KeepEmpty(queue[q + 1..], stays);
      assert queue[..q + 1] == queue;
    }

    /** `mdns_priv_clear_tx_queue_if` */
    method ClearTxQueueIf(itf: nat, proto: nat)
      modifies this`queue
      ensures Now() == Next(old(Now()), ClearInterface(itf, proto))
    {
      ghost var stays := (p: Packet) => !(p.itf == itf && p.proto == proto);
      hide Keep;
      while queue != [] && queue[0].itf == itf && queue[0].proto == proto
        invariant Keep(queue, stays) == Keep(old(queue), stays)
      {
        KeepHead(queue, stays);
        queue := queue[1..];
      }
      if queue != [] {
        KeepHead(queue, stays);
        ClearBehindHead(itf, proto, stays);
      } else {
        KeepEmpty(queue, stays);
      }
    }

    /** The first loop of `mdns_priv_send_packets`. */
    method FindUnqueued() returns (p: nat)
      ensures p == FirstUnqueued(queue)
    {
      hide FirstUnqueued;
      p := 0;
      assert queue[0..] == queue;
      while p < |queue| && queue[p].queued
        invariant 0 <= p <= |queue| && FirstUnqueued(queue) == p + FirstUnqueued(queue[p..])
      {
        FirstUnqueuedStep(queue, p);
        p := p + 1;
      }
      FirstUnqueuedStep(queue, p);
    }

    /** The round of the timer loop for packet `p`, when there is memory for the action. */
    method PostAction(p: nat, outcome: Outcome)
      requires p < |queue| && outcome != NoMemory
      modifies this`queue, this`actions
      ensures queue == old(queue)[p := old(queue)[p].(queued := outcome == Posted)]
      ensures actions == if outcome == Posted then old(actions) + [TxHandle(old(queue)[p].id)] else old(actions)
    {
      queue := queue[p := queue[p].(queued := true)];
      if outcome == Posted {
        actions := actions + [TxHandle(queue[p].id)];
      } else {
        queue := queue[p := queue[p].(queued := false)];
      }
    }

    /** `mdns_priv_send_packets`, run by the timer. */
    method SendPackets(readings: seq<Reading>)
      requires |readings| == |queue| - FirstUnqueued(queue)
      modifies this
      ensures Now() == TimerStep(old(Now()), readings)
    {
      hide Marked, PostedActions, FirstUnqueued, TimerStep;
      ghost var t := TimerStep(Now(), readings);
      TimerStart(Now(), readings);
      clock := if readings == [] then clock else readings[|readings| - 1].now;
      var k := FindUnqueued();
      var p := k;
      assert readings[0..] == readings;
      while p < |queue| && queue[p].sendAt - readings[p - k].now < 0
        invariant k <= p <= |queue| && |readings| == |queue| - k
        invariant queue[..p] + Marked(queue[p..], readings[p - k..]) == t.queue
        invariant actions + PostedActions(queue[p..], readings[p - k..]) == t.actions
        invariant clock == t.clock && nextId == t.nextId && stamps == t.stamps
      {
        if readings[p - k].outcome == NoMemory {
          break;
        }
        TimerRound(queue, queue[p := queue[p].(queued := readings[p - k].outcome == Posted)], actions,
                   readings[p - k..], p);
        assert readings[p - k..][1..] == readings[p + 1 - k..];
        PostAction(p, readings[p - k].outcome);
        p := p + 1;
      }
      RoundsEnd(queue[p..], readings[p - k..]);
      assert queue[..p] + queue[p..] == queue && actions + [] == actions;
    }

    /** `send_packet`; whether the packet is scheduled again is for `handle_packet` to decide. */
    method SendPacket(id: nat, again: Option<nat>) returns (sent: bool)
      modifies this
      ensures sent == IsExpected(old(Now()), id)
      ensures !sent ==> Now() == old(Now())
      ensures sent ==> var u := old(Now()).(queue := old(queue)[1..]);
                Now() == if again.Some? then SendAfterStep(u, old(queue)[0].(queued := false), again.value) else u
    {
      sent := queue != [] && queue[0].id == id && queue[0].queued;
      if sent {
        var p := queue[0].(queued := false);
        queue := queue[1..];
        if again.Some? {
          SendAfter(p, again.value);
        }
      }
    }

    /** The service task takes the next action and executes it. */
    method ExecuteNext(again: Option<nat>)
      requires actions != []
      modifies this
      ensures Now() == Next(old(Now()), Execute(again))
    {
      var a := actions[0];
      actions := actions[1..];
      if a.TxHandle? {
        var sent := SendPacket(a.id, again);
      }
    }
  }

  lemma KeepEmpty(q: seq<Packet>, stays: Packet -> bool)
    requires q == []
    ensures Keep(q, stays) == []
  {}

  lemma {:induction false} MarkedRound(a: seq<Packet>, p: Packet, b: seq<Packet>, readings: seq<Reading>)
    requires !Stops([p] + b, readings)
    ensures a + Marked([p] + b, readings) ==
            a + [p.(queued := readings[0].outcome == Posted)] + Marked(b, readings[1..])
  {
    assert ([p] + b)[1..] == b;
  }

  /** One round of the timer loop. */
  lemma {:induction false} TimerRound(q: seq<Packet>, r: seq<Packet>, actions: seq<Action>, readings: seq<Reading>,
                                      p: nat)
    requires p < |q| && !Stops(q[p..], readings) && r == q[p := q[p].(queued := readings[0].outcome == Posted)]
    ensures q[..p] + Marked(q[p..], readings) == r[..p + 1] + Marked(r[p + 1..], readings[1..])
    ensures actions + PostedActions(q[p..], readings) ==
            (if readings[0].outcome == Posted then actions + [TxHandle(q[p].id)] else actions) +
                PostedActions(r[p + 1..], readings[1..])
  {
    PostedHead(q[p..], readings);
    hide Marked, PostedActions;
    assert q[p..] == [q[p]] + q[p + 1..] && q[p..][1..] == q[p + 1..] == r[p + 1..] && r[..p + 1] == q[..p] + [r[p]];
    MarkedRound(q[..p], q[p], q[p + 1..], readings);
    if readings[0].outcome == Posted {
      Associative(actions, [TxHandle(q[p].id)], PostedActions(q[p + 1..], readings[1..]));
    } else {
      assert [] + PostedActions(q[p + 1..], readings[1..]) == PostedActions(q[p + 1..], readings[1..]);
    }
  }

  /** The state after the timer, in terms of the packets from the first on that does not wait. */
  lemma TimerStart(s: State, readings: seq<Reading>)
    ensures var k, t := FirstUnqueued(s.queue), TimerStep(s, readings);
            && t.queue == s.queue[..k] + Marked(s.queue[k..], readings)
            && t.actions == s.actions + PostedActions(s.queue[k..], readings)
            && t.clock == (if readings == [] then s.clock else readings[|readings| - 1].now)
            && t.nextId == s.nextId && t.stamps == s.stamps
  {
    hide Marked, PostedActions, FirstUnqueued;
  }

  lemma RoundsEnd(q: seq<Packet>, readings: seq<Reading>)
    requires Stops(q, readings)
    ensures Marked(q, readings) == q && PostedActions(q, readings) == []
  {}
}
