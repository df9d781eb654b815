/**
 The state machine of one pair of interface and protocol: probing (section 8.1 of RFC 6762), announcing
 (section 8.3) and the list of services that are being probed.
 */
module Probing {
  import opened Options

  /** The states of `mdns_pcb_state_t`, in order. */
  datatype Phase = OFF | DUP | INIT | PROBE_1 | PROBE_2 | PROBE_3 | ANNOUNCE_1 | ANNOUNCE_2 | ANNOUNCE_3 | RUNNING

  /** The macro `PCB_STATE_IS_PROBING`, which also counts duplicates. */
  predicate IsProbing(phase: Phase) { phase.DUP? || phase.INIT? || SendsProbes(phase) }

  /** The states in which probes are sent. */
  predicate SendsProbes(phase: Phase) { phase.PROBE_1? || phase.PROBE_2? || phase.PROBE_3? }

  predicate IsAnnouncing(phase: Phase) { phase.ANNOUNCE_1? || phase.ANNOUNCE_2? || phase.ANNOUNCE_3? }

  /** A scheduled packet of the pair. */
  datatype Packet = Probe | Announcement | Answer

  /** The pair's packets in the transmit queue, in no particular order: how many there are of each kind. */
  datatype Scheduled = Scheduled(probes: nat, announcements: nat, answers: nat) {
    function Add(k: Packet): Scheduled {
      match k
      case Probe => this.(probes := probes + 1)
      case Announcement => this.(announcements := announcements + 1)
      case Answer => this.(answers := answers + 1)
    }

    predicate Has(k: Packet) {
      match k
      case Probe => probes > 0
      case Announcement => announcements > 0
      case Answer => answers > 0
    }

    function Remove(k: Packet): Scheduled
      requires Has(k)
    {
      match k
      case Probe => this.(probes := probes - 1)
      case Announcement => this.(announcements := announcements - 1)
      case Answer => this.(answers := answers - 1)
    }
  }

  const NOTHING := Scheduled(0, 0, 0)

  /** What the surroundings decide: whether there is a host name, and whether allocations succeed. */
  datatype Env = Env(hostname: bool, memory: bool, packet: bool)

  /**
   The block of the pair.  `services` is the array at `probe_services`, of which the first `count` entries are in
   use; `dispatches` counts the probes sent since probing has (re)started.
   */
  datatype Pcb = Pcb(phase: Phase, services: Option<seq<nat>>, count: nat, probeIp: bool, running: bool, failed: nat,
                     ready: bool, scheduled: Scheduled, dispatches: nat)
  {
    /** The services that are being probed. */
    function Held(): seq<nat> {
      if services.Some? && count <= |services.value| then services.value[..count] else []
    }
  }

  /** The length belongs to the list. */
  predicate Shaped(p: Pcb) {
    if p.services.None? then p.count == 0 else p.count <= |p.services.value|
  }

  /** Something is being probed for. */
  predicate Busy(p: Pcb) { p.services.Some? || p.running || p.probeIp }

  ghost predicate Distinct(s: seq<nat>) {
    forall i, j :: 0 <= i < j < |s| ==> s[i] != s[j]
  }

  // ----- Starting to probe.

  /** The services that are not held yet. */
  function Missing(services: seq<nat>, held: seq<nat>): (r: seq<nat>)
    ensures |r| <= |services| && forall x :: x in r <==> x in services && x !in held
  {
    if services == [] then []
    else Missing(services[..|services| - 1], held) +
         if services[|services| - 1] in held then [] else [services[|services| - 1]]
  }

  /** The number of entries that `init_probe_new_service` allocates. */
  function FinalLen(p: Pcb, services: seq<nat>): nat {
    |services| + if IsProbing(p.phase) then p.count else 0
  }

  /** The old entries are copied behind the new ones without leaving the allocation. */
  predicate CopyFits(p: Pcb, services: seq<nat>) {
    FinalLen(p, services) > 0 && p.services.Some? ==> |services| + p.count <= FinalLen(p, services)
  }

  /** `init_probe_new_service`, as far as its copy stays inside. */
  function StartProbe(p: Pcb, services: seq<nat>, probeIp: bool, env: Env): Pcb {
    var n := FinalLen(p, services);
    if n > 0 && !env.memory then p
    else
      var q := p.(probeIp := false, services := None, count := 0, running := false);
      if !env.packet then q
      else
        q.(probeIp := p.probeIp || probeIp, services := if n > 0 then Some(services + p.Held()) else None,
           count := n % 256, running := true, scheduled := p.scheduled.Add(Probe), phase := PROBE_1, dispatches := 0)
  }

  /** The services that `mdns_priv_init_pcb_probe` passes on. */
  function NewServices(p: Pcb, services: seq<nat>): seq<nat> {
    if IsProbing(p.phase) then Missing(services, p.Held()) else services
  }

  /** `mdns_priv_init_pcb_probe` */
  function InitProbe(p: Pcb, services: seq<nat>, probeIp: bool, env: Env): Pcb {
    var q := p.(scheduled := NOTHING);
    if !env.hostname then q.(phase := RUNNING) else StartProbe(q, NewServices(p, services), probeIp, env)
  }

  /** The copy of `mdns_priv_init_pcb_probe`, if it comes to one, stays inside its allocation. */
  predicate InitInside(p: Pcb, services: seq<nat>, env: Env) {
    env.hostname && env.memory ==> CopyFits(p, NewServices(p, services))
  }

  // ----- Sending.

  function After(phase: Phase): Phase {
    match phase
    case OFF => DUP
    case DUP => INIT
    case INIT => PROBE_1
    case PROBE_1 => PROBE_2
    case PROBE_2 => PROBE_3
    case PROBE_3 => ANNOUNCE_1
    case ANNOUNCE_1 => ANNOUNCE_2
    case ANNOUNCE_2 => ANNOUNCE_3
    case _ => RUNNING
  }

  /** `mdns_priv_pcb_schedule_tx_packet`, for a packet that has been dispatched. */
  function Schedule(p: Pcb, k: Packet, created: bool): Pcb {
    match p.phase
    case PROBE_1 => p.(scheduled := p.scheduled.Add(k), phase := PROBE_2)
    case PROBE_2 => p.(scheduled := p.scheduled.Add(k), phase := PROBE_3)
    case PROBE_3 =>
      if !created then p.(scheduled := p.scheduled.Add(k))
      else
        p.(running := false, probeIp := false, count := 0, failed := 0, services := None,
           scheduled := p.scheduled.Add(Announcement), phase := ANNOUNCE_1)
    case ANNOUNCE_1 => p.(scheduled := p.scheduled.Add(k), phase := ANNOUNCE_2)
    case ANNOUNCE_2 => p.(scheduled := p.scheduled.Add(k), phase := ANNOUNCE_3)
    case ANNOUNCE_3 => p.(phase := RUNNING)
    case _ => p
  }

  function Counted(p: Pcb, k: Packet): Pcb {
    p.(dispatches := p.dispatches + if k == Probe then 1 else 0)
  }

  /** `handle_packet` for one of the scheduled packets. */
  function Handle(p: Pcb, k: Packet, created: bool): Pcb
    requires p.scheduled.Has(k)
  {
    var q := p.(scheduled := p.scheduled.Remove(k));
    if p.phase == OFF then q
    else Schedule(Counted(q, k), k, created)
  }

  /** The step creates an announcement from a probe. */
  predicate Announces(p: Pcb, created: bool) {
    p.phase == PROBE_3 && created
  }

  // ----- Other steps.

  /** The index of a service among those held, or their number. */
  function IndexOf(held: seq<nat>, service: nat): (i: nat)
    ensures i <= |held| && (i < |held| ==> held[i] == service) && forall k :: 0 <= k < i ==> held[k] != service
  {
    if held == [] || held[0] == service then 0 else 1 + IndexOf(held[1..], service)
  }

  /** The entries behind one that is removed move up; the last one stays where it was, behind those in use. */
  function Shifted(s: seq<nat>, i: nat, count: nat): (r: seq<nat>)
    requires i < count <= |s|
    ensures |r| == |s|
  {
    s[..i] + s[i + 1..count] + s[count - 1..]
  }

  /** The pair without one of the services that it holds. */
  function Removed(p: Pcb, i: nat): Pcb
    requires p.services.Some? && i < p.count <= |p.services.value|
  {
    if p.count > 1 then p.(services := Some(Shifted(p.services.value, i, p.count)), count := p.count - 1)
    else
      var q := p.(count := 0, services := None);
      if p.probeIp then q else q.(running := false, phase := RUNNING)
  }

  /** `mdns_priv_pcb_check_probing_services` */
  function CheckService(p: Pcb, service: nat, removedAnswers: bool): Pcb {
    if IsProbing(p.phase) then
      var i := IndexOf(p.Held(), service);
      if i == |p.Held()| then p else Removed(p, i)
    else if IsAnnouncing(p.phase) && removedAnswers then p.(phase := RUNNING)
    else p
  }

  /** `deinit_pcb`, of an interface that is ready. */
  function Deinit(p: Pcb): Pcb {
    p.(services := None, phase := OFF, probeIp := false, count := 0, running := false, failed := 0, ready := false)
  }

  /** `mdns_priv_pcb_disable` */
  function Disable(p: Pcb): Pcb {
    if p.ready then Deinit(p.(scheduled := NOTHING)) else p.(phase := OFF)
  }

  /** `mdns_priv_pcb_enable`; `all` are the services of the host. */
  function Enable(p: Pcb, started: bool, all: seq<nat>, env: Env): Pcb {
    if !p.ready && !started then p.(failed := 0) else InitProbe(p.(ready := true), all, true, env)
  }

  /** `mdns_priv_pcb_set_duplicate`, for the interface that is a duplicate. */
  function SetDuplicate(p: Pcb): Pcb {
    (if p.ready then Deinit(p.(scheduled := NOTHING)) else p).(phase := DUP)
  }

  /** `mdns_priv_pcb_announce` */
  function Announce(p: Pcb, services: seq<nat>, includeIp: bool, env: Env): Pcb {
    if !p.ready then p
    else if IsProbing(p.phase) then InitProbe(p, services, includeIp, env)
    else if IsAnnouncing(p.phase) then (if p.scheduled == NOTHING then p else p.(phase := ANNOUNCE_1))
    else if p.phase == RUNNING && env.hostname then
      p.(phase := ANNOUNCE_1, scheduled := if env.packet then p.scheduled.Add(Announcement) else p.scheduled)
    else p
  }

  /** The pair without its list, which stays in its state. */
  function Cleared(p: Pcb): Pcb {
    p.(services := None, count := 0, running := false)
  }

  /** The part of `mdns_priv_probe_all_pcbs` for this pair. */
  function ProbeAll(p: Pcb, services: seq<nat>, probeIp: bool, clearOld: bool, env: Env): Pcb {
    if !p.ready then p
    else InitProbe(if clearOld then Cleared(p) else p, services, probeIp, env)
  }

  datatype Event =
    | Dispatch(packet: Packet, created: bool)
    | Probing(services: seq<nat>, probeIp: bool, env: Env)
    | ProbingAll(services: seq<nat>, probeIp: bool, clearOld: bool, env: Env)
    | Announcing(services: seq<nat>, includeIp: bool, env: Env)
    | ServiceRemoved(service: nat, removedAnswers: bool)
    | PacketFreed(packet: Packet)
    | AnswerScheduled
    | ProbeFailed
    | Enabled(started: bool, all: seq<nat>, env: Env)
    | Disabled
    | Duplicate
    | DuplicateGone

  /**
   What a step may rely on: packets come from the queue, answers are only given after probing, and only a duplicate is
   taken back when the other interface goes.  Whether the interface is ready makes no difference: packets that arrive
   make a pair probe without a test.
   */
  predicate Possible(p: Pcb, e: Event) {
    match e
    case Dispatch(k, _) => p.scheduled.Has(k)
    case PacketFreed(k) => p.scheduled.Has(k)
    case AnswerScheduled => IsAnnouncing(p.phase) || p.phase == RUNNING
    case DuplicateGone => p.phase == DUP
    case _ => true
  }

  function Next(p: Pcb, e: Event): Pcb
    requires Possible(p, e)
  {
    match e
    case Dispatch(k, created) => Handle(p, k, created)
    case Probing(services, probeIp, env) => InitProbe(p, services, probeIp, env)
    case ProbingAll(services, probeIp, clearOld, env) => ProbeAll(p, services, probeIp, clearOld, env)
    case Announcing(services, includeIp, env) => Announce(p, services, includeIp, env)
    case ServiceRemoved(service, removedAnswers) => CheckService(p, service, removedAnswers)
    case PacketFreed(k) => p.(scheduled := p.scheduled.Remove(k))
    case AnswerScheduled => p.(scheduled := p.scheduled.Add(Answer))
    case ProbeFailed => p.(failed := p.failed + 1)
    case Enabled(started, all, env) => Enable(p, started, all, env)
    case Disabled => Disable(p)
    case Duplicate => SetDuplicate(p)
    case DuplicateGone => p.(phase := OFF)
  }

  /** What the step copies stays inside its allocation. */
  predicate StepInside(p: Pcb, e: Event) {
    match e
    case Probing(services, _, env) => InitInside(p, services, env)
    case ProbingAll(services, _, clearOld, env) =>
      p.ready ==> InitInside(if clearOld then Cleared(p) else p, services, env)
    case Announcing(services, _, env) => p.ready && IsProbing(p.phase) ==> InitInside(p, services, env)
    case Enabled(started, all, env) => p.ready || started ==> InitInside(p.(ready := true), all, env)
    case _ => true
  }

  // ----- The first invariant: one probe at a time, and three of them before an announcement.

  ghost predicate OneProbe(p: Pcb) {
    (SendsProbes(p.phase) ==> p.scheduled == NOTHING || p.scheduled == NOTHING.Add(Probe)) &&
    (SendsProbes(p.phase) && p.scheduled != NOTHING ==>
       (p.phase == PROBE_1 ==> p.dispatches == 0) && (p.phase == PROBE_2 ==> p.dispatches == 1) &&
       (p.phase == PROBE_3 ==> p.dispatches >= 2))
  }

  ghost predicate IsRun(p: Pcb, events: seq<Event>, q: Pcb)
    decreases |events|
  {
    if events == [] then p == q else Possible(p, events[0]) && IsRun(Next(p, events[0]), events[1..], q)
  }

  const INITIAL := Pcb(OFF, None, 0, false, false, 0, false, NOTHING, 0)

  lemma InitProbeOne(p: Pcb, services: seq<nat>, probeIp: bool, env: Env)
    ensures OneProbe(InitProbe(p, services, probeIp, env))
  {
    hide NewServices, Pcb.Held;
  }

  lemma OnlyProbe(p: Pcb, k: Packet)
    requires OneProbe(p) && SendsProbes(p.phase) && p.scheduled.Has(k)
    ensures k == Probe && p.scheduled.Remove(k) == NOTHING
  {}

  lemma ScheduleOne(q: Pcb, k: Packet, created: bool)
    requires SendsProbes(q.phase) ==> k == Probe && q.scheduled == NOTHING
    requires q.phase == PROBE_1 ==> q.dispatches == 1
    requires q.phase == PROBE_2 ==> q.dispatches == 2
    requires q.phase == PROBE_3 ==> q.dispatches >= 3
    ensures OneProbe(Schedule(q, k, created))
  {
    match q.phase
    case PROBE_1 =>
    case PROBE_2 =>
    case PROBE_3 =>
    case _ => NoProbe(q, k, created);
  }

  lemma NoProbe(q: Pcb, k: Packet, created: bool)
    requires !SendsProbes(q.phase)
    ensures !SendsProbes(Schedule(q, k, created).phase)
  {
    hide Scheduled.Add;
  }

  lemma OneDispatch(p: Pcb, k: Packet)
    requires OneProbe(p) && SendsProbes(p.phase) && p.scheduled.Has(k)
    ensures p.phase == PROBE_1 ==> p.dispatches == 0
    ensures p.phase == PROBE_2 ==> p.dispatches == 1
    ensures p.phase == PROBE_3 ==> p.dispatches >= 2
  {}

  lemma HandleOne(p: Pcb, k: Packet, created: bool)
    requires OneProbe(p) && p.scheduled.Has(k)
    ensures OneProbe(Handle(p, k, created))
  {
    hide Schedule, Scheduled.Remove, Scheduled.Has, OneProbe;
    var q := p.(scheduled := p.scheduled.Remove(k));
    if p.phase == OFF {
      OffOne(q);
    } else {
      if SendsProbes(p.phase) {
        OnlyProbe(p, k);
        OneDispatch(p, k);
      }
      ScheduleOne(Counted(q, k), k, created);
    }
  }

  lemma OffOne(p: Pcb)
    requires p.phase == OFF
    ensures OneProbe(p)
  {}

  lemma FreedOne(p: Pcb, k: Packet)
    requires OneProbe(p) && p.scheduled.Has(k)
    ensures OneProbe(p.(scheduled := p.scheduled.Remove(k)))
  {
    if SendsProbes(p.phase) {
      OnlyProbe(p, k);
    }
  }

  lemma SameOne(p: Pcb, q: Pcb)
    requires OneProbe(p)
    requires SendsProbes(q.phase) ==> q.phase == p.phase && q.scheduled == p.scheduled && q.dispatches == p.dispatches
    ensures OneProbe(q)
  {}

  lemma OneProbeStep(p: Pcb, e: Event)
    requires OneProbe(p) && Possible(p, e)
    ensures OneProbe(Next(p, e))
  {
    hide OneProbe, InitProbe, Handle, Shifted, IndexOf, Scheduled.Add, Scheduled.Remove, Scheduled.Has;
    match e
    case Dispatch(k, created) => HandleOne(p, k, created);
    case Probing(services, probeIp, env) => InitProbeOne(p, services, probeIp, env);
    case ProbingAll(services, probeIp, clearOld, env) =>
      InitProbeOne(if clearOld then Cleared(p) else p, services, probeIp, env);
    case Announcing(services, includeIp, env) =>
      if p.ready && IsProbing(p.phase) {
        InitProbeOne(p, services, includeIp, env);
      } else {
        SameOne(p, Announce(p, services, includeIp, env));
      }
    case Enabled(started, all, env) =>
      if p.ready || started {
        InitProbeOne(p.(ready := true), all, true, env);
      } else {
        SameOne(p, Enable(p, started, all, env));
      }
    case PacketFreed(k) => FreedOne(p, k);
    case _ => SameOne(p, Next(p, e));
  }

  lemma {:induction false} OneProbeRun(p: Pcb, events: seq<Event>, q: Pcb)
    requires OneProbe(p) && IsRun(p, events, q)
    ensures OneProbe(q)
    decreases |events|
  {
    hide OneProbe, Next;
    if events != [] {
      OneProbeStep(p, events[0]);
      OneProbeRun(Next(p, events[0]), events[1..], q);
    }
  }

  /**
   In every state of every run: while probing, at most one packet is scheduled, and it is the probe; and an
   announcement is created only when this probe has been sent, and at least two before it since probing has
   (re)started.
   */
  lemma ProbeSafety(events: seq<Event>, p: Pcb, k: Packet, created: bool)
    requires IsRun(INITIAL, events, p)
    ensures SendsProbes(p.phase) ==> p.scheduled == NOTHING || p.scheduled == NOTHING.Add(Probe)
    ensures p.scheduled.Has(k) && Announces(p, created) ==>
              k == Probe && p.dispatches + 1 >= 3
  {
    OneProbeRun(INITIAL, events, p);
    hide IsRun, Next, Schedule;
    if p.scheduled.Has(k) && Announces(p, created) {
      OnlyProbe(p, k);
    }
  }

  // ----- Three packets are sent while announcing.

  /** The packets sent since announcing has (re)started. */
  datatype Sent = Sent(announcements: nat, others: nat) {
    function Total(): nat { announcements + others }

    function Add(k: Packet): Sent {
      if k == Announcement then this.(announcements := announcements + 1) else this.(others := others + 1)
    }
  }

  const NOTHING_SENT := Sent(0, 0)

  /** The step (re)starts announcing: out of probing, for a pair that runs, or with a packet that is still scheduled. */
  predicate RestartsAnnouncing(p: Pcb, e: Event) {
    match e
    case Dispatch(_, created) => Announces(p, created)
    case Announcing(_, _, env) =>
      p.ready && ((p.phase == RUNNING && env.hostname) || (IsAnnouncing(p.phase) && p.scheduled != NOTHING))
    case _ => false
  }

  function SentAfter(p: Pcb, e: Event, sent: Sent): Sent {
    if RestartsAnnouncing(p, e) then NOTHING_SENT
    else if e.Dispatch? && IsAnnouncing(p.phase) then sent.Add(e.packet)
    else sent
  }

  /** What has been sent at the end of a run. */
  function SentInRun(p: Pcb, events: seq<Event>, sent: Sent): Sent
    decreases |events|
  {
    if events == [] || !Possible(p, events[0]) then sent
    else SentInRun(Next(p, events[0]), events[1..], SentAfter(p, events[0], sent))
  }

  /** The state says how many packets have been sent. */
  predicate InStep(phase: Phase, sent: Sent) {
    && (phase == ANNOUNCE_1 ==> sent.Total() == 0)
    && (phase == ANNOUNCE_2 ==> sent.Total() == 1)
    && (phase == ANNOUNCE_3 ==> sent.Total() == 2)
  }

  lemma InitProbePhase(p: Pcb, services: seq<nat>, probeIp: bool, env: Env)
    ensures var q := InitProbe(p, services, probeIp, env);
            q.phase == p.phase || q.phase == PROBE_1 || q.phase == RUNNING
  {
    hide NewServices, Pcb.Held, Scheduled.Add;
  }

  lemma AddRemoved(s: Scheduled, k: Packet)
    requires s.Has(k)
    ensures s.Remove(k).Add(k) == s
  {}

  /** A packet that is sent while announcing. */
  lemma AnnouncingPacket(p: Pcb, k: Packet, created: bool)
    requires IsAnnouncing(p.phase) && p.scheduled.Has(k)
    ensures var q := Handle(p, k, created);
            if p.phase == ANNOUNCE_3 then q.phase == RUNNING && q.scheduled == p.scheduled.Remove(k)
            else q.scheduled == p.scheduled && q.phase == if p.phase == ANNOUNCE_1 then ANNOUNCE_2 else ANNOUNCE_3
  {
    AddRemoved(p.scheduled, k);
    hide Scheduled.Add, Scheduled.Remove, Scheduled.Has;
  }

  /** A packet that is sent in any other state. */
  lemma OtherPacket(p: Pcb, k: Packet, created: bool)
    requires !IsAnnouncing(p.phase) && p.scheduled.Has(k)
    ensures var q := Handle(p, k, created);
            if Announces(p, created) then q.phase == ANNOUNCE_1 else !IsAnnouncing(q.phase)
  {
    hide Scheduled.Add, Scheduled.Remove, Scheduled.Has;
  }

  lemma SentByPacket(p: Pcb, k: Packet, created: bool, sent: Sent)
    ensures SentAfter(p, Dispatch(k, created), sent) ==
            if Announces(p, created) then NOTHING_SENT else if IsAnnouncing(p.phase) then sent.Add(k) else sent
  {}

  lemma OneMoreSent(phase: Phase, next: Phase, sent: Sent, k: Packet)
    requires InStep(phase, sent)
    requires (phase == ANNOUNCE_1 && next == ANNOUNCE_2) || (phase == ANNOUNCE_2 && next == ANNOUNCE_3) ||
             next == RUNNING
    ensures InStep(next, sent.Add(k))
  {}

  lemma NotInStep(phase: Phase, sent: Sent)
    requires !IsAnnouncing(phase)
    ensures InStep(phase, sent)
  {}

  lemma FirstInStep()
    ensures InStep(ANNOUNCE_1, NOTHING_SENT)
  {}

  lemma HandleInStep(p: Pcb, k: Packet, created: bool, sent: Sent)
    requires InStep(p.phase, sent) && p.scheduled.Has(k)
    ensures InStep(Handle(p, k, created).phase, SentAfter(p, Dispatch(k, created), sent))
  {
    hide Handle, Scheduled.Has, Scheduled.Remove, InStep, SentAfter, Sent.Add;
    SentByPacket(p, k, created, sent);
    FirstInStep();
    if IsAnnouncing(p.phase) {
      AnnouncingPacket(p, k, created);
      OneMoreSent(p.phase, Handle(p, k, created).phase, sent, k);
    } else {
      OtherPacket(p, k, created);
      if !Announces(p, created) {
        NotInStep(Handle(p, k, created).phase, sent);
      }
    }
  }

  lemma SamePhase(p: Pcb, e: Event, sent: Sent, q: Pcb)
    requires InStep(p.phase, sent) && !e.Dispatch? && (q.phase == p.phase || !IsAnnouncing(q.phase))
    requires !RestartsAnnouncing(p, e)
    ensures InStep(q.phase, SentAfter(p, e, sent))
  {
    hide RestartsAnnouncing;
  }

  lemma AnnouncePhase(p: Pcb, services: seq<nat>, includeIp: bool, env: Env)
    ensures var q := Announce(p, services, includeIp, env);
            if RestartsAnnouncing(p, Announcing(services, includeIp, env)) then q.phase == ANNOUNCE_1
            else q.phase == p.phase || !IsAnnouncing(q.phase)
  {
    hide InitProbe, Scheduled.Add;
    InitProbePhase(p, services, includeIp, env);
  }

  lemma AnnounceInStep(p: Pcb, services: seq<nat>, includeIp: bool, env: Env, sent: Sent)
    requires InStep(p.phase, sent)
    ensures InStep(Announce(p, services, includeIp, env).phase,
                   SentAfter(p, Announcing(services, includeIp, env), sent))
  {
    hide Announce, RestartsAnnouncing, InStep;
    AnnouncePhase(p, services, includeIp, env);
    FirstInStep();
    var e := Announcing(services, includeIp, env);
    if !RestartsAnnouncing(p, e) {
      SamePhase(p, e, sent, Announce(p, services, includeIp, env));
    }
  }

  lemma OtherPhase(p: Pcb, e: Event)
    requires Possible(p, e) && !e.Dispatch? && !e.Announcing?
    ensures Next(p, e).phase == p.phase || !IsAnnouncing(Next(p, e).phase)
    ensures !RestartsAnnouncing(p, e)
  {
    hide InitProbe, IndexOf, Shifted, Scheduled.Add, Scheduled.Remove, Scheduled.Has;
    match e
    case Probing(services, probeIp, env) => InitProbePhase(p, services, probeIp, env);
    case ProbingAll(services, probeIp, clearOld, env) =>
      InitProbePhase(if clearOld then Cleared(p) else p, services, probeIp, env);
    case Enabled(started, all, env) => InitProbePhase(p.(ready := true), all, true, env);
    case _ =>
  }

  lemma StepInStep(p: Pcb, e: Event, sent: Sent)
    requires InStep(p.phase, sent) && Possible(p, e)
    ensures InStep(Next(p, e).phase, SentAfter(p, e, sent))
  {
    hide InStep, SentAfter, Handle, Announce, RestartsAnnouncing, IsAnnouncing;
    match e
    case Dispatch(k, created) => HandleInStep(p, k, created, sent);
    case Announcing(services, includeIp, env) => AnnounceInStep(p, services, includeIp, env, sent);
    case _ =>
      OtherPhase(p, e);
      SamePhase(p, e, sent, Next(p, e));
  }

  lemma {:induction false} RunInStep(p: Pcb, events: seq<Event>, q: Pcb, sent: Sent)
    requires InStep(p.phase, sent) && IsRun(p, events, q)
    ensures InStep(q.phase, SentInRun(p, events, sent))
    decreases |events|
  {
    hide InStep, Next, SentAfter, Possible;
    if events != [] {
      StepInStep(p, events[0], sent);
      RunInStep(Next(p, events[0]), events[1..], q, SentAfter(p, events[0], sent));
    }
  }

  /**
   In every run: a pair that announces starts to run with the third packet that it sends since announcing has
   (re)started, and not before; the first two of them are scheduled again.  So it has sent three announcements exactly
   if no other packet of the pair was sent meanwhile.
   */
  lemma AnnounceSafety(events: seq<Event>, p: Pcb, k: Packet, created: bool)
    requires IsRun(INITIAL, events, p) && IsAnnouncing(p.phase) && p.scheduled.Has(k)
    ensures var sent := SentInRun(INITIAL, events, NOTHING_SENT).Add(k);
            var q := Next(p, Dispatch(k, created));
            && (q.phase == RUNNING <==> sent.Total() == 3) && sent.Total() <= 3
            && q.scheduled == (if sent.Total() == 3 then p.scheduled.Remove(k) else p.scheduled)
            && (sent.Total() < 3 ==> IsAnnouncing(q.phase))
            && (q.phase == RUNNING ==> (sent.announcements == 3 <==> sent.others == 0))
  {
    RunInStep(INITIAL, events, p, NOTHING_SENT);
    AnnouncingPacket(p, k, created);
    hide IsRun, SentInRun, Handle, Scheduled.Has, Scheduled.Remove;
  }

  const ALL_WELL := Env(true, true, true)

  /** A pair that is to announce has a packet to send, if it could be created; one that runs gets a new announcement. */
  lemma AnnouncementScheduled(p: Pcb, services: seq<nat>, includeIp: bool, env: Env)
    requires RestartsAnnouncing(p, Announcing(services, includeIp, env)) && env.packet
    ensures var q := Next(p, Announcing(services, includeIp, env));
            q.phase == ANNOUNCE_1 && q.scheduled != NOTHING &&
            q.scheduled == if p.phase == RUNNING then p.scheduled.Add(Announcement) else p.scheduled
  {
    hide InitProbe;
  }

  /** How many packets are still to be sent while announcing. */
  function Left(phase: Phase): nat {
    if phase == ANNOUNCE_1 then 3 else if phase == ANNOUNCE_2 then 2 else if phase == ANNOUNCE_3 then 1 else 0
  }

  ghost predicate OnlyDispatches(events: seq<Event>) {
    forall e :: e in events ==> e.Dispatch?
  }

  ghost predicate Alone(p: Pcb) {
    p.scheduled == if Left(p.phase) > 0 then NOTHING.Add(Announcement) else NOTHING
  }

  lemma OnePacketSent(p: Pcb, k: Packet, created: bool)
    requires (IsAnnouncing(p.phase) || p.phase == RUNNING) && Alone(p) && p.scheduled.Has(k)
    ensures var q := Handle(p, k, created);
            (IsAnnouncing(q.phase) || q.phase == RUNNING) && Alone(q) && Left(q.phase) == Left(p.phase) - 1
  {
    hide Handle, Scheduled.Has, Scheduled.Remove;
    OnlyAnnouncement(p.scheduled, k);
    AnnouncingPacket(p, k, created);
  }

  lemma OnlyAnnouncement(s: Scheduled, k: Packet)
    requires s.Has(k)
    ensures s != NOTHING && (s == NOTHING.Add(Announcement) ==> s.Remove(k) == NOTHING)
  {}

  lemma {:induction false} AloneRun(p: Pcb, events: seq<Event>, q: Pcb)
    requires (IsAnnouncing(p.phase) || p.phase == RUNNING) && Alone(p) && OnlyDispatches(events) && IsRun(p, events, q)
    ensures Alone(q) && Left(q.phase) == Left(p.phase) - |events| && (IsAnnouncing(q.phase) || q.phase == RUNNING)
    decreases |events|
  {
    hide Alone, Handle, Left, Scheduled.Has;
    if events != [] {
      var e := events[0];
      assert e.Dispatch?;
      OnePacketSent(p, e.packet, e.created);
      AloneRun(Next(p, e), events[1..], q);
    }
  }

  /**
   With nothing else in between, the third probe is followed by three announcements: the pair runs after the third of
   them and not before, and until then one is scheduled.
   */
  lemma ThreeAnnouncements(p: Pcb, events: seq<Event>, q: Pcb)
    requires p.phase == PROBE_3 && p.scheduled == NOTHING.Add(Probe)
    requires events != [] && events[0] == Dispatch(Probe, true) && OnlyDispatches(events) && IsRun(p, events, q)
    ensures |events| <= 4 && (q.phase == RUNNING <==> |events| == 4)
    ensures q.scheduled == if |events| == 4 then NOTHING else NOTHING.Add(Announcement)
  {
    hide Handle, Scheduled.Has, Left;
    FirstAnnouncement(p);
    FirstAlone(Next(p, events[0]));
    AloneRun(Next(p, events[0]), events[1..], q);
    LeftOver(q);
  }

  lemma FirstAlone(a: Pcb)
    requires a.phase == ANNOUNCE_1 && a.scheduled == NOTHING.Add(Announcement)
    ensures Alone(a) && Left(a.phase) == 3
  {}

  lemma LeftOver(q: Pcb)
    requires Alone(q) && (IsAnnouncing(q.phase) || q.phase == RUNNING)
    ensures q.phase == RUNNING <==> Left(q.phase) == 0
    ensures q.scheduled == if Left(q.phase) == 0 then NOTHING else NOTHING.Add(Announcement)
  {}

  lemma FirstAnnouncement(p: Pcb)
    requires p.phase == PROBE_3 && p.scheduled == NOTHING.Add(Probe)
    ensures var a := Handle(p, Probe, true);
            a.phase == ANNOUNCE_1 && a.scheduled == NOTHING.Add(Announcement)
  {}

  lemma SentOneMore(p: Pcb, e: Event, next: Pcb, events: seq<Event>, q: Pcb, sent: Sent)
    requires Possible(p, e) && next == Next(p, e) && IsRun(next, events, q)
    ensures IsRun(p, [e] + events, q)
    ensures SentInRun(p, [e] + events, sent) == SentInRun(next, events, SentAfter(p, e, sent))
  {
    hide Possible, Next, SentAfter;
    assert ([e] + events)[1..] == events;
  }

  lemma StartedProbing()
    ensures Next(INITIAL, Enabled(true, [], ALL_WELL)) ==
            Pcb(PROBE_1, None, 0, true, true, 0, true, Scheduled(1, 0, 0), 0)
  {}

  lemma ProbesSent(p: Pcb)
    requires p == Pcb(PROBE_1, None, 0, true, true, 0, true, Scheduled(1, 0, 0), 0)
    ensures Handle(p, Probe, true) == p.(phase := PROBE_2, dispatches := 1)
    ensures Handle(p.(phase := PROBE_2, dispatches := 1), Probe, true) == p.(phase := PROBE_3, dispatches := 2)
  {}

  lemma ThirdProbeSent()
    ensures Handle(Pcb(PROBE_3, None, 0, true, true, 0, true, Scheduled(1, 0, 0), 2), Probe, true) ==
            Pcb(ANNOUNCE_1, None, 0, false, false, 0, true, Scheduled(0, 1, 0), 3)
  {}

  /** The answer is scheduled and sent, then the announcement, then the answer once more. */
  const ANSWERED := [AnswerScheduled, Dispatch(Answer, true), Dispatch(Announcement, true), Dispatch(Answer, true)]

  lemma MeanwhileSteps(p: Pcb) returns (a: Pcb, b: Pcb, c: Pcb, q: Pcb)
    requires p.phase == ANNOUNCE_1 && p.scheduled == Scheduled(0, 1, 0)
    ensures Possible(p, AnswerScheduled) && Next(p, AnswerScheduled) == a && a.phase == ANNOUNCE_1
    ensures Possible(a, Dispatch(Answer, true)) && Next(a, Dispatch(Answer, true)) == b && b.phase == ANNOUNCE_2
    ensures Possible(b, Dispatch(Announcement, true)) && Next(b, Dispatch(Announcement, true)) == c
    ensures c.phase == ANNOUNCE_3 && Possible(c, Dispatch(Answer, true)) && Next(c, Dispatch(Answer, true)) == q
    ensures q.phase == RUNNING && q.scheduled == Scheduled(0, 1, 0)
  {
    hide Next, Possible;
    AnswerAdded(p);
    a := Next(p, AnswerScheduled);
    AnnouncingStep(a, Answer);
    b := Next(a, Dispatch(Answer, true));
    AnnouncingStep(b, Announcement);
    c := Next(b, Dispatch(Announcement, true));
    AnnouncingStep(c, Answer);
    q := Next(c, Dispatch(Answer, true));
  }

  lemma AnswerAdded(p: Pcb)
    requires p.phase == ANNOUNCE_1 && p.scheduled == Scheduled(0, 1, 0)
    ensures Possible(p, AnswerScheduled)
    ensures Next(p, AnswerScheduled).phase == ANNOUNCE_1 && Next(p, AnswerScheduled).scheduled == Scheduled(0, 1, 1)
  {}

  lemma AnnouncingStep(p: Pcb, k: Packet)
    requires IsAnnouncing(p.phase) && p.scheduled.Has(k)
    ensures Possible(p, Dispatch(k, true))
    ensures var q := Next(p, Dispatch(k, true));
            if p.phase == ANNOUNCE_3 then q.phase == RUNNING && q.scheduled == p.scheduled.Remove(k)
            else q.scheduled == p.scheduled && q.phase == if p.phase == ANNOUNCE_1 then ANNOUNCE_2 else ANNOUNCE_3
  {
    hide Handle, Scheduled.Has, Scheduled.Remove;
    AnnouncingPacket(p, k, true);
  }

  lemma AnsweredMeanwhile(p: Pcb) returns (q: Pcb)
    requires p.phase == ANNOUNCE_1 && p.scheduled == Scheduled(0, 1, 0)
    ensures IsRun(p, ANSWERED, q) && q.phase == RUNNING && q.scheduled == Scheduled(0, 1, 0)
    ensures SentInRun(p, ANSWERED, NOTHING_SENT) == Sent(1, 2)
  {
    hide Next, Possible, SentAfter;
    var a: Pcb, b: Pcb, c: Pcb;
    a, b, c, q := MeanwhileSteps(p);
    SentMeanwhile(p, a, b, c);
    assert IsRun(q, [], q);
    SentOneMore(c, ANSWERED[3], q, [], q, Sent(1, 1));
    SentOneMore(b, ANSWERED[2], c, [ANSWERED[3]] + [], q, Sent(0, 1));
    SentOneMore(a, ANSWERED[1], b, [ANSWERED[2]] + ([ANSWERED[3]] + []), q, NOTHING_SENT);
    SentOneMore(p, ANSWERED[0], a, [ANSWERED[1]] + ([ANSWERED[2]] + ([ANSWERED[3]] + [])), q, NOTHING_SENT);
    assert ANSWERED == [ANSWERED[0]] + ([ANSWERED[1]] + ([ANSWERED[2]] + ([ANSWERED[3]] + [])));
  }

  lemma SentMeanwhile(p: Pcb, a: Pcb, b: Pcb, c: Pcb)
    requires p.phase == a.phase == ANNOUNCE_1 && b.phase == ANNOUNCE_2 && c.phase == ANNOUNCE_3
    ensures SentAfter(p, AnswerScheduled, NOTHING_SENT) == NOTHING_SENT
    ensures SentAfter(a, Dispatch(Answer, true), NOTHING_SENT) == Sent(0, 1)
    ensures SentAfter(b, Dispatch(Announcement, true), Sent(0, 1)) == Sent(1, 1)
    ensures SentAfter(c, Dispatch(Answer, true), Sent(1, 1)) == Sent(1, 2)
  {}

  /**
   A packet of another kind counts, too: a run in which an answer is scheduled while announcing.  It is sent twice, and
   the pair starts to run when only one announcement has been sent.
   */
  lemma AnswersCount() returns (events: seq<Event>, q: Pcb)
    ensures var probe := Dispatch(Probe, true);
            events == [Enabled(true, [], ALL_WELL), probe, probe, probe] + ANSWERED
    ensures IsRun(INITIAL, events, q) && q.phase == RUNNING && q.scheduled == Scheduled(0, 1, 0)
    ensures SentInRun(INITIAL, events, NOTHING_SENT) == Sent(1, 2)
  {
    hide Next, Possible, SentAfter;
    var a, b, c, d := ProbingSteps();
    SentBefore(a, b, c);
    q := AnsweredMeanwhile(d);
    var start, probe := Enabled(true, [], ALL_WELL), Dispatch(Probe, true);
    SentOneMore(c, probe, d, ANSWERED, q, NOTHING_SENT);
    SentOneMore(b, probe, c, [probe] + ANSWERED, q, NOTHING_SENT);
    SentOneMore(a, probe, b, [probe] + ([probe] + ANSWERED), q, NOTHING_SENT);
    SentOneMore(INITIAL, start, a, [probe] + ([probe] + ([probe] + ANSWERED)), q, NOTHING_SENT);
    events := [start] + ([probe] + ([probe] + ([probe] + ANSWERED)));
  }

  lemma ProbingSteps() returns (a: Pcb, b: Pcb, c: Pcb, d: Pcb)
    ensures var start, probe := Enabled(true, [], ALL_WELL), Dispatch(Probe, true);
            Possible(INITIAL, start) && Next(INITIAL, start) == a && Possible(a, probe) && Next(a, probe) == b &&
            Possible(b, probe) && Next(b, probe) == c && Possible(c, probe) && Next(c, probe) == d
    ensures a.phase == PROBE_1 && b.phase == PROBE_2 && c.phase == PROBE_3 && d.phase == ANNOUNCE_1
    ensures d.scheduled == Scheduled(0, 1, 0)
  {
    hide Handle, Enable;
    StartedProbing();
    a := Pcb(PROBE_1, None, 0, true, true, 0, true, Scheduled(1, 0, 0), 0);
    ProbesSent(a);
    ThirdProbeSent();
    b, c := a.(phase := PROBE_2, dispatches := 1), a.(phase := PROBE_3, dispatches := 2);
    d := Pcb(ANNOUNCE_1, None, 0, false, false, 0, true, Scheduled(0, 1, 0), 3);
  }

  lemma SentBefore(a: Pcb, b: Pcb, c: Pcb)
    requires a.phase == PROBE_1 && b.phase == PROBE_2 && c.phase == PROBE_3
    ensures SentAfter(INITIAL, Enabled(true, [], ALL_WELL), NOTHING_SENT) == NOTHING_SENT
    ensures SentAfter(a, Dispatch(Probe, true), NOTHING_SENT) == NOTHING_SENT
    ensures SentAfter(b, Dispatch(Probe, true), NOTHING_SENT) == NOTHING_SENT
    ensures SentAfter(c, Dispatch(Probe, true), NOTHING_SENT) == NOTHING_SENT
  {}

  // ----- The second invariant: the list of services.
  // ----- The second invariant: the list of services.

  /**
   The list is null and empty outside the states that count as probing, as are the other signs of probing, and it never
   holds a service twice.
   */
  ghost predicate ListInv(p: Pcb) {
    (!IsProbing(p.phase) ==> !Busy(p)) && Shaped(p) && (p.services.Some? ==> p.count > 0) && Distinct(p.Held())
  }

  /** The services given are different ones, and the number of those that are then probed fits eight bits. */
  ghost predicate Few(p: Pcb, services: seq<nat>) {
    Distinct(services) && |NewServices(p, services) + p.Held()| < 256
  }

  lemma {:induction false} MissingDistinct(services: seq<nat>, held: seq<nat>)
    requires Distinct(services)
    ensures Distinct(Missing(services, held))
  {
    if services != [] {
      var n := |services| - 1;
      MissingDistinct(services[..n], held);
      var r := Missing(services[..n], held);
      assert services[n] !in r;
      if services[n] !in held {
        SnocDistinct(r, services[n]);
      } else {
        assert r + [] == r;
      }
    }
  }

  lemma SnocDistinct(s: seq<nat>, x: nat)
    requires Distinct(s) && x !in s
    ensures Distinct(s + [x])
  {
    forall i | 0 <= i < |s| ensures s[i] != x {
      assert s[i] in s;
    }
  }

  lemma JoinDistinct(s: seq<nat>, t: seq<nat>)
    requires Distinct(s) && Distinct(t) && forall x :: x in s ==> x !in t
    ensures Distinct(s + t)
  {
    forall i, j | 0 <= i < |s| && 0 <= j < |t| ensures s[i] != t[j] {
      assert s[i] in s && t[j] in t;
    }
  }

  /** The entries that are new and those that are held. */
  lemma NewAndHeld(p: Pcb, services: seq<nat>)
    requires ListInv(p) && Distinct(services)
    ensures Distinct(NewServices(p, services) + p.Held())
    ensures forall x :: x in NewServices(p, services) + p.Held() <==> x in services || x in p.Held()
  {
    hide Pcb.Held;
    var r := NewServices(p, services);
    if IsProbing(p.phase) {
      MissingDistinct(services, p.Held());
      JoinDistinct(r, p.Held());
    } else {
      NothingHeld(p);
      assert r + p.Held() == r;
    }
  }

  lemma NothingHeld(p: Pcb)
    requires p.count == 0
    ensures p.Held() == []
  {}

  /** The copy of the old entries stays inside the allocation. */
  lemma CopyInside(p: Pcb, services: seq<nat>)
    requires ListInv(p)
    ensures CopyFits(p, services)
  {}

  /** The list after a successful (re)start: it ends where the length, taken modulo 256, says. */
  lemma CutAfterStart(p: Pcb, services: seq<nat>, probeIp: bool, env: Env)
    requires ListInv(p) && env.hostname && env.packet && (env.memory || FinalLen(p, NewServices(p, services)) == 0)
    ensures var all, q := NewServices(p, services) + p.Held(), InitProbe(p, services, probeIp, env);
            q.Held() == all[..|all| % 256] && q.count == |all| % 256 && q.phase == PROBE_1
  {
    hide NewServices, Distinct;
    HeldLen(p);
    var n, q := NewServices(p, services), InitProbe(p, services, probeIp, env);
    if FinalLen(p, n) > 0 {
      assert q.services.value == n + p.Held();
    }
  }

  lemma HeldAfterStart(p: Pcb, services: seq<nat>, probeIp: bool, env: Env)
    requires ListInv(p) && Few(p, services) && env.hostname && env.packet &&
             (env.memory || FinalLen(p, NewServices(p, services)) == 0)
    ensures InitProbe(p, services, probeIp, env).Held() == NewServices(p, services) + p.Held()
    ensures InitProbe(p, services, probeIp, env).count == |NewServices(p, services) + p.Held()|
  {
    hide InitProbe, NewServices, Distinct, Pcb.Held, FinalLen, ListInv, Busy, Shaped;
    CutAfterStart(p, services, probeIp, env);
    var all := NewServices(p, services) + p.Held();
    assert all[..|all|] == all;
  }

  /**
   A restart while probing leaves a list without duplicates.  It holds the old services and the new ones, and nothing
   else, exactly if they are fewer than 256.
   */
  lemma RestartUnion(p: Pcb, services: seq<nat>, probeIp: bool)
    requires ListInv(p) && Distinct(services)
    ensures var q := InitProbe(p, services, probeIp, Env(true, true, true));
            q.phase == PROBE_1 && Distinct(q.Held()) &&
            ((forall x :: x in q.Held() <==> x in services || x in p.Held()) <==> Few(p, services)) &&
            q.running && (q.probeIp <==> p.probeIp || probeIp) && q.scheduled == NOTHING.Add(Probe)
  {
    RestartFlags(p, services, probeIp);
    NewAndHeld(p, services);
    CutAfterStart(p, services, probeIp, Env(true, true, true));
    hide InitProbe, NewServices, Pcb.Held, FinalLen, ListInv;
    CutSame(NewServices(p, services) + p.Held());
  }

  lemma RestartFlags(p: Pcb, services: seq<nat>, probeIp: bool)
    ensures var q := InitProbe(p, services, probeIp, Env(true, true, true));
            q.running && (q.probeIp <==> p.probeIp || probeIp) && q.scheduled == NOTHING.Add(Probe)
  {
    hide NewServices, Pcb.Held, FinalLen;
  }

  /** What is cut off a list without duplicates is missing. */
  lemma CutSame(all: seq<nat>)
    requires Distinct(all)
    ensures Distinct(all[..|all| % 256])
    ensures (forall x :: x in all[..|all| % 256] <==> x in all) <==> |all| < 256
  {
    if |all| >= 256 {
      var x := all[|all| % 256];
      assert x in all && x !in all[..|all| % 256];
    } else {
      assert all[..|all|] == all;
    }
  }

  lemma HeldLen(p: Pcb)
    requires Shaped(p)
    ensures |p.Held()| == p.count
  {}

  /** (Re)starting keeps the invariant if there is a host name. */
  lemma InitProbeList(p: Pcb, services: seq<nat>, probeIp: bool, env: Env)
    requires ListInv(p) && Few(p, services) && env.hostname
    ensures ListInv(InitProbe(p, services, probeIp, env))
  {
    NothingDistinct();
    HeldLen(p);
    if env.packet && (env.memory || FinalLen(p, NewServices(p, services)) == 0) {
      NewAndHeld(p, services);
      HeldAfterStart(p, services, probeIp, env);
      hide NewServices, Distinct;
    } else {
      hide NewServices, Distinct;
    }
  }

  lemma NothingDistinct()
    ensures Distinct([])
  {}

  /**
   Without a host name, it is kept exactly if nothing is being probed for.  This is about the function alone: a pair is
   only probing when there is a host name, and the name stays, so that no run comes to the other case (see
   `ListSafety`).
   */
  lemma InitProbeWithoutName(p: Pcb, services: seq<nat>, probeIp: bool, env: Env)
    requires ListInv(p) && !env.hostname
    ensures ListInv(InitProbe(p, services, probeIp, env)) <==> !Busy(p)
  {
    NothingDistinct();
  }

  /** The next start for any services would then copy the old entries past the end of the allocation. */
  lemma CopyOutside(p: Pcb, services: seq<nat>, probeIp: bool, env: Env, more: seq<nat>)
    requires ListInv(p) && !env.hostname && more != []
    ensures CopyFits(InitProbe(p, services, probeIp, env), more) <==> p.services.None?
  {}

  lemma CheckServiceList(p: Pcb, service: nat, removedAnswers: bool)
    requires ListInv(p)
    ensures ListInv(CheckService(p, service, removedAnswers))
  {
    hide Distinct, Shifted;
    NothingDistinct();
    HeldLen(p);
    var i := IndexOf(p.Held(), service);
    hide IndexOf;
    if IsProbing(p.phase) && i < p.count && p.count > 1 {
      ShiftedList(p, i);
    }
  }

  /**
   A service that is being probed is taken out of the list, whose order is kept, and with the last one probing ends
   unless the addresses are being probed; other services make no difference.
   */
  lemma ServiceTakenOut(p: Pcb, service: nat, removedAnswers: bool)
    requires ListInv(p) && IsProbing(p.phase)
    ensures var q := CheckService(p, service, removedAnswers);
            if service !in p.Held() then q == p
            else
              (exists i :: 0 <= i < |p.Held()| && p.Held()[i] == service &&
                           q.Held() == p.Held()[..i] + p.Held()[i + 1..]) &&
              service !in q.Held() && q.scheduled == p.scheduled &&
              q.phase == if |p.Held()| == 1 && !p.probeIp then RUNNING else p.phase
  {
    hide Shifted, ListInv;
    var held, q := p.Held(), CheckService(p, service, removedAnswers);
    FoundAt(held, service);
    ListParts(p);
    if service in held {
      var i := IndexOf(held, service);
      hide IndexOf;
      RemovedHeld(p, i);
      forall k | 0 <= k < |q.Held()| ensures q.Held()[k] != service {
        assert q.Held()[k] == held[if k < i then k else k + 1];
      }
    }
  }

  lemma ListParts(p: Pcb)
    requires ListInv(p)
    ensures Distinct(p.Held()) && |p.Held()| == p.count && (p.count > 0 ==> p.services.Some?)
    ensures p.services.Some? ==> p.count <= |p.services.value| && p.Held() == p.services.value[..p.count]
  {
    hide Distinct;
  }

  lemma RemovedHeld(p: Pcb, i: nat)
    requires p.services.Some? && i < p.count <= |p.services.value| && Distinct(p.services.value[..p.count])
    ensures Removed(p, i).Held() == p.services.value[..p.count][..i] + p.services.value[..p.count][i + 1..]
  {
    ShiftedPrefix(p.services.value, i, p.count);
    hide Shifted, Distinct;
  }

  lemma ShiftedList(p: Pcb, i: nat)
    requires ListInv(p) && i < p.count && p.count > 1
    ensures ListInv(p.(services := Some(Shifted(p.services.value, i, p.count)), count := p.count - 1))
  {
    ShiftedPrefix(p.services.value, i, p.count);
    hide Distinct, Shifted;
  }

  lemma ShiftedPrefix(s: seq<nat>, i: nat, count: nat)
    requires i < count <= |s| && Distinct(s[..count])
    ensures Distinct(Shifted(s, i, count)[..count - 1])
    ensures Shifted(s, i, count)[..count - 1] == s[..i] + s[i + 1..count]
  {
    forall k | 0 <= k < count - 1 ensures Shifted(s, i, count)[k] == s[..count][if k < i then k else k + 1] {}
  }

  /** The step looks for the host name and is given services. */
  predicate Starts(e: Event) {
    e.Probing? || e.ProbingAll? || e.Announcing? || e.Enabled?
  }

  function Given(e: Event): seq<nat>
    requires Starts(e)
  {
    match e
    case Probing(services, _, _) => services
    case ProbingAll(services, _, _, _) => services
    case Announcing(services, _, _) => services
    case Enabled(_, all, _) => all
  }

  /**
   The list stays behind: a pair is stopped whose interface is not ready (and its block is not cleared), or a duplicate
   is taken back that is still busy.
   */
  predicate Abandons(p: Pcb, e: Event) {
    Busy(p) && ((e.Disabled? && !p.ready) || e.DuplicateGone?)
  }

  /** What keeps the list in order: no restart without a host name while probing, and not too many services. */
  ghost predicate Tame(p: Pcb, e: Event) {
    Starts(e) ==> (e.env.hostname || !Busy(p)) && Few(p, Given(e)) && Few(Cleared(p), Given(e))
  }

  lemma RestartList(p: Pcb, services: seq<nat>, probeIp: bool, env: Env)
    requires ListInv(p) && Few(p, services) && (env.hostname || !Busy(p))
    ensures ListInv(InitProbe(p, services, probeIp, env))
  {
    hide InitProbe;
    if env.hostname {
      InitProbeList(p, services, probeIp, env);
    } else {
      InitProbeWithoutName(p, services, probeIp, env);
    }
  }

  lemma ClearedList(p: Pcb)
    requires ListInv(p)
    ensures ListInv(Cleared(p))
  {
    NothingDistinct();
  }

  lemma SameList(p: Pcb, q: Pcb)
    requires ListInv(p) && q.services == p.services && q.count == p.count && q.running == p.running &&
             q.probeIp == p.probeIp
    requires IsProbing(p.phase) ==> IsProbing(q.phase)
    ensures ListInv(q)
  {
    hide Distinct;
  }

  lemma NoList(q: Pcb)
    requires !Busy(q) && q.count == 0
    ensures ListInv(q)
  {
    NothingDistinct();
  }

  lemma ScheduleParts(p: Pcb, k: Packet, created: bool)
    ensures var q := Schedule(p, k, created);
            if p.phase == PROBE_3 && created then !Busy(q) && q.count == 0
            else q.services == p.services && q.count == p.count && q.running == p.running && q.probeIp == p.probeIp &&
                 (IsProbing(p.phase) ==> IsProbing(q.phase))
  {
    hide Scheduled.Add;
    match p.phase
    case PROBE_3 =>
    case _ =>
  }

  /** What becomes of the list when a packet has been sent. */
  lemma HandleParts(p: Pcb, k: Packet, created: bool)
    requires p.scheduled.Has(k)
    ensures var q := Handle(p, k, created);
            if p.phase == PROBE_3 && created then !Busy(q) && q.count == 0
            else q.services == p.services && q.count == p.count && q.running == p.running && q.probeIp == p.probeIp &&
                 (IsProbing(p.phase) ==> IsProbing(q.phase))
  {
    hide Scheduled.Has, Scheduled.Remove, Schedule, Busy;
    ScheduleParts(Counted(p.(scheduled := p.scheduled.Remove(k)), k), k, created);
  }

  lemma HandleList(p: Pcb, k: Packet, created: bool)
    requires ListInv(p) && p.scheduled.Has(k)
    ensures ListInv(Handle(p, k, created))
  {
    hide Handle, Scheduled.Has, ListInv, Busy, IsProbing;
    HandleParts(p, k, created);
    if p.phase == PROBE_3 && created {
      NoList(Handle(p, k, created));
    } else {
      SameList(p, Handle(p, k, created));
    }
  }

  /** Stopping a pair keeps the invariant if and only if nothing is left behind. */
  lemma StopList(p: Pcb, e: Event)
    requires ListInv(p) && Possible(p, e) && (e.Disabled? || e.Duplicate? || e.DuplicateGone?)
    ensures ListInv(Next(p, e)) <==> !Abandons(p, e)
  {
    NothingDistinct();
  }

  /** A pair whose interface was ready is stopped with nothing left to be sent or probed for. */
  lemma StoppedEmpty(p: Pcb, e: Event)
    requires p.ready && Possible(p, e) && (e.Disabled? || e.Duplicate?)
    ensures var q := Next(p, e);
            q.scheduled == NOTHING && !Busy(q) && q.count == 0 && !q.ready && (q.phase == OFF <==> e.Disabled?)
  {
    hide InitProbe;
  }

  /** Every step keeps it, with the same exception. */
  lemma ListStep(p: Pcb, e: Event)
    requires ListInv(p) && Possible(p, e) && Tame(p, e)
    ensures ListInv(Next(p, e)) <==> !Abandons(p, e)
  {
    hide InitProbe, Handle, CheckService, Few, Distinct;
    match e
    case Dispatch(k, created) => HandleList(p, k, created);
    case Probing(services, probeIp, env) => RestartList(p, services, probeIp, env);
    case ProbingAll(services, probeIp, clearOld, env) =>
      ClearedList(p);
      if p.ready {
        RestartList(if clearOld then Cleared(p) else p, services, probeIp, env);
      }
    case Announcing(services, includeIp, env) =>
      if p.ready && IsProbing(p.phase) {
        RestartList(p, services, includeIp, env);
      }
    case Enabled(started, all, env) =>
      if p.ready || started {
        ReadyFew(p, all);
        RestartList(p.(ready := true), all, true, env);
      }
    case ServiceRemoved(service, removedAnswers) => CheckServiceList(p, service, removedAnswers);
    case Disabled => StopList(p, e);
    case Duplicate => StopList(p, e);
    case DuplicateGone => StopList(p, e);
    case _ =>
  }

  lemma ReadyFew(p: Pcb, services: seq<nat>)
    requires Few(p, services)
    ensures Few(p.(ready := true), services)
  {}

  // ----- Runs.

  /** A host name that a step sees is seen by all later ones. */
  ghost predicate NameLasts(events: seq<Event>) {
    forall i, j :: 0 <= i < j < |events| && Starts(events[i]) && Starts(events[j]) && events[i].env.hostname ==>
                     events[j].env.hostname
  }

  ghost predicate AllNamed(events: seq<Event>) {
    forall e :: e in events && Starts(e) ==> e.env.hostname
  }

  /** The services of the host, of which every step is given a list without duplicates. */
  ghost predicate FromHost(events: seq<Event>, host: set<nat>) {
    forall e :: e in events && Starts(e) ==> AreOf(Given(e), host)
  }

  ghost predicate AreOf(services: seq<nat>, host: set<nat>) {
    Distinct(services) && forall x :: x in services ==> x in host
  }

  ghost predicate HeldOf(p: Pcb, host: set<nat>) {
    forall x :: x in p.Held() ==> x in host
  }

  lemma {:induction false} DistinctSize(s: seq<nat>, host: set<nat>)
    requires AreOf(s, host)
    ensures |s| <= |host|
  {
    if s != [] {
      var x := s[0];
      assert forall i :: 0 < i < |s| ==> s[i] != x;
      DistinctSize(s[1..], host - {x});
    }
  }

  lemma FewOfHost(p: Pcb, services: seq<nat>, host: set<nat>)
    requires ListInv(p) && HeldOf(p, host) && AreOf(services, host) && |host| < 256
    ensures Few(p, services)
  {
    hide NewServices, Pcb.Held, ListInv;
    NewAndHeld(p, services);
    DistinctSize(NewServices(p, services) + p.Held(), host);
  }

  lemma InitProbeHeld(p: Pcb, services: seq<nat>, probeIp: bool, env: Env, host: set<nat>)
    requires ListInv(p) && HeldOf(p, host) && AreOf(services, host) && |host| < 256
    ensures HeldOf(InitProbe(p, services, probeIp, env), host)
  {
    FewOfHost(p, services, host);
    if env.hostname && env.packet && (env.memory || FinalLen(p, NewServices(p, services)) == 0) {
      NewAndHeld(p, services);
      HeldAfterStart(p, services, probeIp, env);
    }
    hide NewServices, Distinct, Few;
  }

  lemma CheckServiceHeld(p: Pcb, service: nat, removedAnswers: bool, host: set<nat>)
    requires ListInv(p) && HeldOf(p, host)
    ensures HeldOf(CheckService(p, service, removedAnswers), host)
  {
    hide Distinct, Shifted;
    var i := IndexOf(p.Held(), service);
    hide IndexOf;
    HeldLen(p);
    if IsProbing(p.phase) && i < p.count && p.count > 1 {
      ShiftedPrefix(p.services.value, i, p.count);
    }
  }

  lemma HandleHeld(p: Pcb, k: Packet, created: bool, host: set<nat>)
    requires HeldOf(p, host) && p.scheduled.Has(k)
    ensures HeldOf(Handle(p, k, created), host)
  {
    hide Handle, Scheduled.Has, IsProbing;
    HandleParts(p, k, created);
  }

  lemma HeldStep(p: Pcb, e: Event, host: set<nat>)
    requires ListInv(p) && HeldOf(p, host) && Possible(p, e) && |host| < 256
    requires Starts(e) ==> AreOf(Given(e), host)
    ensures HeldOf(Next(p, e), host)
  {
    hide InitProbe, Handle, CheckService, AreOf, Distinct;
    match e
    case Dispatch(k, created) => HandleHeld(p, k, created, host);
    case Probing(services, probeIp, env) => InitProbeHeld(p, services, probeIp, env, host);
    case ProbingAll(services, probeIp, clearOld, env) =>
      ClearedList(p);
      if p.ready {
        InitProbeHeld(if clearOld then Cleared(p) else p, services, probeIp, env, host);
      }
    case Announcing(services, includeIp, env) => InitProbeHeld(p, services, includeIp, env, host);
    case Enabled(started, all, env) =>
      if p.ready || started {
        InitProbeHeld(p.(ready := true), all, true, env, host);
      }
    case ServiceRemoved(service, removedAnswers) => CheckServiceHeld(p, service, removedAnswers, host);
    case _ =>
  }

  lemma TameOfHost(p: Pcb, e: Event, host: set<nat>)
    requires ListInv(p) && HeldOf(p, host) && |host| < 256
    requires Starts(e) ==> AreOf(Given(e), host) && (Busy(p) ==> e.env.hostname)
    ensures Tame(p, e)
  {
    hide ListInv, AreOf, Few;
    if Starts(e) {
      ClearedList(p);
      FewOfHost(p, Given(e), host);
      FewOfHost(Cleared(p), Given(e), host);
    }
  }

  /** Probing only starts when there is a host name. */
  lemma StartNeedsName(p: Pcb, e: Event)
    requires Possible(p, e) && !Busy(p) && Busy(Next(p, e))
    ensures Starts(e) && e.env.hostname
  {
    hide Shifted, IndexOf, Scheduled.Add, Scheduled.Remove, NewServices;
  }

  lemma NamedStep(p: Pcb, events: seq<Event>)
    requires events != [] && Possible(p, events[0]) && NameLasts(events) && (Busy(p) ==> AllNamed(events))
    ensures NameLasts(events[1..]) && (Busy(Next(p, events[0])) ==> AllNamed(events[1..]))
  {
    hide Next, Busy;
    if Busy(Next(p, events[0])) {
      if !Busy(p) {
        StartNeedsName(p, events[0]);
      }
      forall e | e in events[1..] && Starts(e) ensures e.env.hostname {
        var j :| 0 < j < |events| && events[j] == e;
      }
    }
  }

  /** The list is in order in all states of the run. */
  ghost predicate AllInOrder(p: Pcb, events: seq<Event>)
    decreases |events|
  {
    ListInv(p) && (events == [] || (Possible(p, events[0]) && AllInOrder(Next(p, events[0]), events[1..])))
  }

  /** No step of the run leaves a list behind. */
  ghost predicate NeverAbandons(p: Pcb, events: seq<Event>)
    decreases |events|
  {
    events == [] ||
    (Possible(p, events[0]) && !Abandons(p, events[0]) && NeverAbandons(Next(p, events[0]), events[1..]))
  }

  lemma {:induction false} ListRun(p: Pcb, events: seq<Event>, q: Pcb, host: set<nat>)
    requires ListInv(p) && HeldOf(p, host) && IsRun(p, events, q)
    requires FromHost(events, host) && |host| < 256
    requires NameLasts(events) && (Busy(p) ==> AllNamed(events))
    ensures AllInOrder(p, events) <==> NeverAbandons(p, events)
    ensures AllInOrder(p, events) ==> ListInv(q)
    decreases |events|
  {
    hide ListInv, HeldOf, AreOf, Tame, Next, Given, NameLasts, Abandons, Busy;
    if events != [] {
      var e := events[0];
      TameOfHost(p, e, host);
      ListStep(p, e);
      if ListInv(Next(p, e)) {
        HeldStep(p, e, host);
        NamedStep(p, events);
        ListRun(Next(p, e), events[1..], q, host);
      } else {
        NotInOrder(Next(p, e), events[1..]);
      }
    }
  }

  lemma NotInOrder(p: Pcb, events: seq<Event>)
    requires !ListInv(p)
    ensures !AllInOrder(p, events)
  {}

  /** Where the list is in order, no copy leaves its allocation. */
  lemma InOrderInside(p: Pcb, e: Event)
    requires ListInv(p)
    ensures StepInside(p, e)
  {
    hide Distinct, NewServices;
    if Starts(e) {
      ClearedList(p);
      CopyInside(p, NewServices(p, Given(e)));
      CopyInside(Cleared(p), NewServices(Cleared(p), Given(e)));
    }
  }

  /**
   For every run of a host with fewer than 256 services: in all its states the list is null and empty outside the
   states that count as probing, and has no duplicates, if and only if no step of it stops a busy pair whose interface
   is not ready or takes back a duplicate that is still busy.  In such a run no step copies past the end of its
   allocation.  That a restart finds a host name whenever the pair is busy is part of what is proved: all a run relies
   on is that a host name, once there, stays.
   */
  lemma ListSafety(events: seq<Event>, p: Pcb, host: set<nat>, e: Event)
    requires IsRun(INITIAL, events, p)
    requires NameLasts(events) && FromHost(events, host) && |host| < 256
    ensures AllInOrder(INITIAL, events) <==> NeverAbandons(INITIAL, events)
    ensures NeverAbandons(INITIAL, events) ==>
              (!IsProbing(p.phase) ==> p.services.None? && p.count == 0 && !p.running && !p.probeIp) &&
              Distinct(p.Held()) && StepInside(p, e)
  {
    NothingDistinct();
    ListRun(INITIAL, events, p, host);
    if NeverAbandons(INITIAL, events) {
      InOrderInside(p, e);
    }
  }

  // ----- A run that leaves a list behind.

  lemma OneMore(p: Pcb, e: Event, events: seq<Event>, q: Pcb)
    requires Possible(p, e) && IsRun(Next(p, e), events, q)
    ensures IsRun(p, [e] + events, q)
  {
    hide Possible, Next;
    assert ([e] + events)[1..] == events;
  }

  /** The first two steps. */
  lemma EnabledThenDisabled()
    ensures var b := Next(Next(INITIAL, Enabled(true, [], ALL_WELL)), Disabled);
            b.phase == OFF && b.services.None? && b.count == 0 && !b.ready
  {
    hide Scheduled.Add;
  }

  /** The last two steps: a pair that is not ready starts to probe for a service and is disabled. */
  lemma Abandoned(p: Pcb, service: nat) returns (q: Pcb)
    requires p.phase == OFF && p.services.None? && p.count == 0 && !p.ready
    ensures q == Next(Next(p, Probing([service], true, ALL_WELL)), Disabled)
    ensures q.phase == OFF && q.services == Some([service]) && q.count == 1
  {
    hide Scheduled.Add;
    assert p.Held() == [] && [service] + [] == [service];
    q := Next(Next(p, Probing([service], true, ALL_WELL)), Disabled);
  }

  /**
   The exception occurs: an interface is enabled and disabled, a packet that arrives late makes the pair probe for a
   service, and disabling the interface again leaves the list in a pair that is off.  Enabling it then copies the list
   past the end of the allocation.
   */
  lemma AbandonedList(service: nat) returns (events: seq<Event>, p: Pcb)
    ensures events == [Enabled(true, [], ALL_WELL), Disabled, Probing([service], true, ALL_WELL), Disabled]
    ensures IsRun(INITIAL, events, p) && NameLasts(events) && FromHost(events, {service})
    ensures p.phase == OFF && p.services == Some([service]) && p.count == 1
    ensures !StepInside(p, Enabled(true, [service], ALL_WELL))
  {
    hide Next, Possible, NameLasts, FromHost, StepInside;
    var late := Probing([service], true, ALL_WELL);
    events := [Enabled(true, [], ALL_WELL), Disabled, late, Disabled];
    LateSteps(service);
    var a := Next(INITIAL, Enabled(true, [], ALL_WELL));
    var b := Next(a, Disabled);
    EnabledThenDisabled();
    p := Abandoned(b, service);
    assert IsRun(p, [], p);
    OneMore(Next(b, late), Disabled, [], p);
    OneMore(b, late, [Disabled], p);
    OneMore(a, Disabled, [late, Disabled], p);
    OneMore(INITIAL, Enabled(true, [], ALL_WELL), [Disabled, late, Disabled], p);
    assert [Disabled] + [] == [Disabled] && [late] + [Disabled] == [late, Disabled];
    assert [Disabled] + [late, Disabled] == [Disabled, late, Disabled];
    assert events == [Enabled(true, [], ALL_WELL)] + [Disabled, late, Disabled];
    EnabledOutside(p, service);
  }

  lemma LateSteps(service: nat)
    ensures var late := Probing([service], true, ALL_WELL);
            var events := [Enabled(true, [], ALL_WELL), Disabled, late, Disabled];
            NameLasts(events) && FromHost(events, {service}) && forall p, e :: e in events ==> Possible(p, e)
  {
    hide Distinct;
    SingleService(service);
  }

  lemma SingleService(service: nat)
    ensures AreOf([service], {service}) && AreOf([], {service})
  {}

  lemma EnabledOutside(p: Pcb, service: nat)
    requires p.phase == OFF && p.services.Some? && p.count > 0
    ensures !StepInside(p, Enabled(true, [service], ALL_WELL))
  {}

  // ----- The shape of the block.

  lemma InitProbeShaped(p: Pcb, services: seq<nat>, probeIp: bool, env: Env)
    requires Shaped(p)
    ensures Shaped(InitProbe(p, services, probeIp, env))
  {
    hide NewServices;
    HeldLen(p);
  }

  lemma CheckServiceShaped(p: Pcb, service: nat, removedAnswers: bool)
    requires Shaped(p)
    ensures Shaped(CheckService(p, service, removedAnswers))
  {
    hide IndexOf, Shifted;
    HeldLen(p);
  }

  lemma ShapedStep(p: Pcb, e: Event)
    requires Shaped(p) && Possible(p, e)
    ensures Shaped(Next(p, e))
  {
    hide InitProbe, CheckService, Handle, Scheduled.Has, Scheduled.Add, Scheduled.Remove;
    match e
    case Dispatch(k, created) => HandleParts(p, k, created);
    case Probing(services, probeIp, env) => InitProbeShaped(p, services, probeIp, env);
    case ProbingAll(services, probeIp, clearOld, env) =>
      InitProbeShaped(if clearOld then Cleared(p) else p, services, probeIp, env);
    case Announcing(services, includeIp, env) => InitProbeShaped(p, services, includeIp, env);
    case Enabled(started, all, env) => InitProbeShaped(p.(ready := true), all, true, env);
    case ServiceRemoved(service, removedAnswers) => CheckServiceShaped(p, service, removedAnswers);
    case _ =>
  }

  /** In every state of every run, the length belongs to the list. */
  lemma {:induction false} ShapedRun(p: Pcb, events: seq<Event>, q: Pcb)
    requires Shaped(p) && IsRun(p, events, q)
    ensures Shaped(q)
    decreases |events|
  {
    hide Shaped, Next;
    if events != [] {
      ShapedStep(p, events[0]);
      ShapedRun(Next(p, events[0]), events[1..], q);
    }
  }

  /** While the state counts as probing, there is room for the list that is held. */
  lemma ProbingInside(p: Pcb, services: seq<nat>, env: Env)
    requires IsProbing(p.phase)
    ensures InitInside(p, services, env)
  {
    hide NewServices;
  }

  // ----- The functions of the source.

  lemma MissingStep(services: seq<nat>, held: seq<nat>, j: nat)
    requires j < |services|
    ensures Missing(services[..j + 1], held) ==
            Missing(services[..j], held) + if services[j] in held then [] else [services[j]]
  {
    assert services[..j + 1][..j] == services[..j];
  }

  lemma NothingMissing(held: seq<nat>)
    ensures Missing([], held) == []
  {}

  class Block {
    /** `mdns_pcb_t` */
    var state: Phase
    var probeServices: array?<nat>
    var probeServicesLen: nat
    var probeIp: bool
    var probeRunning: bool
    var failedProbes: nat
    /** The network interface and the transmit queue. */
    var ready: bool
    var scheduled: Scheduled
    var dispatches: nat

    function Now(): Pcb
      reads this, probeServices
    {
      Pcb(state, if probeServices == null then None else Some(probeServices[..]), probeServicesLen, probeIp,
          probeRunning, failedProbes, ready, scheduled, dispatches)
    }

    constructor ()
      ensures Now() == INITIAL
    {
      state, probeServices, probeServicesLen, probeIp, probeRunning, failedProbes := OFF, null, 0, false, false, 0;
      ready, scheduled, dispatches := false, NOTHING, 0;
    }

    /**
     The array that `init_probe_new_service` fills: the new services and those that are held.  The method stops before
     the first write past the end.
     */
    method CopyServices(services: seq<nat>, n: nat) returns (s: array<nat>, inside: bool)
      requires Shaped(Now()) && n == FinalLen(Now(), services)
      ensures fresh(s)
      ensures inside <==> (probeServices != null ==> |services| + probeServicesLen <= n)
      ensures inside ==> s[..] == services + Now().Held()
    {
      s := new nat[n];
      var len := |services|;
      var i := 0;
      while i < len
        invariant 0 <= i <= len && s[..i] == services[..i]
      {
        s[i] := services[i];
        i := i + 1;
      }
      if probeServices != null {
        i := 0;
        while i < probeServicesLen
          invariant 0 <= i <= probeServicesLen && len + i <= n && s[..len] == services
          invariant forall k :: 0 <= k < i ==> s[len + k] == probeServices[k]
        {
          if len + i >= n {
            return s, false;
          }
          s[len + i] := probeServices[i];
          i := i + 1;
        }
      }
      assert s[..] == services + Now().Held();
      return s, true;
    }

    /** `init_probe_new_service`, up to a write past the end of its allocation. */
    method InitProbeNewService(services: seq<nat>, ip: bool, env: Env) returns (inside: bool)
      requires Shaped(Now())
      modifies this
      ensures inside <==> (env.memory ==> CopyFits(old(Now()), services))
      ensures inside ==> Now() == StartProbe(old(Now()), services, ip, env)
    {
      hide Shaped, Scheduled.Add;
      inside := true;
      var servicesFinalLen := |services|;
      if IsProbing(state) {
        servicesFinalLen := servicesFinalLen + probeServicesLen;
      }
      var s: array?<nat> := null;
      if servicesFinalLen > 0 {
        if !env.memory {
          return;
        }
        s, inside := CopyServices(services, servicesFinalLen);
        if !inside {
          return;
        }
      }
      var newIp := probeIp || ip;
      probeIp, probeServices, probeServicesLen, probeRunning := false, null, 0, false;
      if !env.packet {
        return;
      }
      probeIp, probeServices, probeServicesLen, probeRunning := newIp, s, servicesFinalLen % 256, true;
      scheduled := scheduled.Add(Probe);
      state := PROBE_1;
      dispatches := 0;
    }

    /** The inner loop over the services that are being probed. */
    method IsHeld(service: nat) returns (found: bool)
      requires Shaped(Now())
      ensures found <==> service in Now().Held()
    {
      found := false;
      ghost var held := Now().Held();
      HeldLen(Now());
      var i := 0;
      while i < probeServicesLen
        invariant 0 <= i <= probeServicesLen && !found && service !in held[..i]
      {
        assert probeServices[i] == held[i] && held[..i + 1] == held[..i] + [held[i]];
        if probeServices[i] == service {
          found := true;
          break;
        }
        i := i + 1;
      }
      assert !found ==> held[..i] == held;
    }

    /** The services of a list that are not being probed yet. */
    method FindMissing(services: seq<nat>) returns (missing: seq<nat>)
      requires Shaped(Now())
      ensures missing == Missing(services, Now().Held())
    {
      hide Shaped, Missing, Pcb.Held;
      missing := [];
      ghost var held := Now().Held();
      NothingMissing(held);
      var j := 0;
      while j < |services|
        invariant 0 <= j <= |services| && missing == Missing(services[..j], held)
      {
        var found := IsHeld(services[j]);
        MissingStep(services, held, j);
        if !found {
          missing := missing + [services[j]];
        }
        j := j + 1;
      }
      assert services[..j] == services;
    }

    /** `mdns_priv_init_pcb_probe` */
    method InitPcbProbe(services: seq<nat>, ip: bool, env: Env) returns (inside: bool)
      requires Shaped(Now())
      modifies this
      ensures inside <==> InitInside(old(Now()), services, env)
      ensures inside ==> Now() == InitProbe(old(Now()), services, ip, env)
    {
      hide Missing, StartProbe;
      scheduled := NOTHING;
      if !env.hostname {
        state := RUNNING;
        return true;
      }
      if IsProbing(state) {
        var missing := FindMissing(services);
        inside := InitProbeNewService(missing, ip, env);
      } else {
        inside := InitProbeNewService(services, ip, env);
      }
    }

    /** `mdns_priv_pcb_schedule_tx_packet` */
    method ScheduleTxPacket(k: Packet, created: bool)
      modifies this
      ensures Now() == Schedule(old(Now()), k, created)
    {
      match state {
        case PROBE_1 | PROBE_2 =>
          scheduled := scheduled.Add(k);
          state := After(state);
        case PROBE_3 =>
          if !created {
            scheduled := scheduled.Add(k);
          } else {
            probeRunning, probeIp, probeServicesLen, failedProbes, probeServices := false, false, 0, 0, null;
            scheduled := scheduled.Add(Announcement);
            state := After(state);
          }
        case ANNOUNCE_1 | ANNOUNCE_2 =>
          scheduled := scheduled.Add(k);
          state := After(state);
        case ANNOUNCE_3 => state := RUNNING;
        case _ =>
      }
    }

    /** `handle_packet` */
    method HandlePacket(k: Packet, created: bool)
      requires scheduled.Has(k)
      modifies this
      ensures Now() == Handle(old(Now()), k, created)
    {
      hide Schedule;
      scheduled := scheduled.Remove(k);
      if state == OFF {
        return;
      }
      dispatches := dispatches + if k == Probe then 1 else 0;
      ScheduleTxPacket(k, created);
    }

    /** The entries behind one that is removed move up. */
    method ShiftServices(i: nat)
      requires probeServices != null && i < probeServicesLen <= probeServices.Length
      modifies probeServices
      ensures probeServices[..] == Shifted(old(probeServices[..]), i, probeServicesLen)
    {
      var a: array<nat> := probeServices;
      ghost var s := a[..];
      var n := i + 1;
      while n < probeServicesLen
        invariant i + 1 <= n <= probeServicesLen
        invariant forall k :: i <= k < n - 1 ==> a[k] == s[k + 1]
        invariant forall k :: 0 <= k < i || n - 1 <= k < a.Length ==> a[k] == s[k]
      {
        a[n - 1] := a[n];
        n := n + 1;
      }
      assert a[..] == Shifted(s, i, probeServicesLen);
    }

    /** A service is taken out of the list, and with the last one, probing may end. */
    method RemoveService(i: nat)
      requires probeServices != null && i < probeServicesLen <= probeServices.Length
      modifies this, probeServices
      ensures Now() == Removed(old(Now()), i)
    {
      hide Shifted;
      if probeServicesLen > 1 {
        ShiftServices(i);
        probeServicesLen := probeServicesLen - 1;
      } else {
        probeServicesLen := 0;
        probeServices := null;
        if !probeIp {
          probeRunning := false;
          state := RUNNING;
        }
      }
    }

    /** `mdns_priv_pcb_check_probing_services` */
    method CheckProbingServices(service: nat, removedAnswers: bool) returns (shouldRemoveQuestions: bool)
      requires Shaped(Now())
      modifies this, probeServices
      ensures Now() == CheckService(old(Now()), service, removedAnswers)
      ensures shouldRemoveQuestions == (IsProbing(old(state)) && service in old(Now().Held()))
    {
      hide Removed;
      if IsProbing(state) {
        ghost var held := Now().Held();
        HeldLen(Now());
        var i := 0;
        while i < probeServicesLen && probeServices[i] != service
          invariant 0 <= i <= probeServicesLen && Now() == old(Now())
          invariant IndexOf(held, service) == i + IndexOf(held[i..], service)
        {
          assert held[i..][1..] == held[i + 1..] && held[i] == probeServices[i];
          i := i + 1;
        }
        assert i < probeServicesLen ==> held[i] == probeServices[i];
        assert IndexOf(held, service) == i;
        FoundAt(held, service);
        if i < probeServicesLen {
          RemoveService(i);
          return true;
        }
      } else if IsAnnouncing(state) {
        if removedAnswers {
          state := RUNNING;
        }
      }
      return false;
    }

    /** `deinit_pcb`, of an interface that is ready. */
    method DeinitPcb()
      modifies this
      ensures Now() == Deinit(old(Now()))
    {
      ready := false;
      state, probeIp, probeServices, probeServicesLen, probeRunning, failedProbes := OFF, false, null, 0, false, 0;
    }

    /** `mdns_priv_pcb_disable` */
    method PcbDisable()
      modifies this
      ensures Now() == Disable(old(Now()))
    {
      if ready {
        scheduled := NOTHING;
        DeinitPcb();
      }
      state := OFF;
    }

    /** `mdns_priv_pcb_enable` */
    method PcbEnable(started: bool, all: seq<nat>, env: Env) returns (inside: bool)
      requires Shaped(Now())
      modifies this
      ensures inside <==> StepInside(old(Now()), Enabled(started, all, env))
      ensures inside ==> Now() == Enable(old(Now()), started, all, env)
    {
      hide InitProbe, InitInside;
      if !ready {
        if !started {
          failedProbes := 0;
          return true;
        }
        ready := true;
      }
      inside := InitPcbProbe(all, true, env);
    }

    /** What `mdns_priv_pcb_disable` does for the other interface, if that is a duplicate. */
    method PcbRevive(started: bool, all: seq<nat>, env: Env) returns (inside: bool)
      requires Shaped(Now()) && state == DUP
      modifies this
      ensures var p := Next(old(Now()), DuplicateGone);
              (inside <==> StepInside(p, Enabled(started, all, env))) &&
              (inside ==> Now() == Next(p, Enabled(started, all, env)))
    {
      hide Enable, InitInside;
      state := OFF;
      inside := PcbEnable(started, all, env);
    }

    /** `mdns_priv_pcb_set_duplicate` */
    method PcbSetDuplicate()
      modifies this
      ensures Now() == SetDuplicate(old(Now()))
    {
      if ready {
        scheduled := NOTHING;
        DeinitPcb();
      }
      state := DUP;
    }

    /** `mdns_priv_pcb_announce` */
    method PcbAnnounce(services: seq<nat>, includeIp: bool, env: Env)
      requires Shaped(Now())
      modifies this
      ensures Now() == Announce(old(Now()), services, includeIp, env)
    {
      hide InitProbe, InitInside;
      if ready {
        if IsProbing(state) {
          ProbingInside(Now(), services, env);
          var inside := InitPcbProbe(services, includeIp, env);
          assert inside;
        } else if IsAnnouncing(state) {
          if scheduled != NOTHING {
            state := ANNOUNCE_1;
          }
        } else if state == RUNNING {
          if !env.hostname {
            return;
          }
          state := ANNOUNCE_1;
          if env.packet {
            scheduled := scheduled.Add(Announcement);
          }
        }
      }
    }

    /** The loop body of `mdns_priv_probe_all_pcbs`. */
    method ProbePcb(services: seq<nat>, ip: bool, clearOldProbe: bool, env: Env) returns (inside: bool)
      requires Shaped(Now())
      modifies this
      ensures inside <==> StepInside(old(Now()), ProbingAll(services, ip, clearOldProbe, env))
      ensures inside ==> Now() == ProbeAll(old(Now()), services, ip, clearOldProbe, env)
    {
      hide InitProbe, InitInside;
      inside := true;
      if ready {
        if clearOldProbe {
          probeServices, probeServicesLen, probeRunning := null, 0, false;
        }
        inside := InitPcbProbe(services, ip, env);
      }
    }
  }

  lemma {:induction false} FoundAt(held: seq<nat>, service: nat)
    ensures IndexOf(held, service) < |held| <==> service in held
  {
    if held != [] && held[0] != service {
      FoundAt(held[1..], service);
    }
  }
}
