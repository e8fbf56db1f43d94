/** Who is sent what, over whole runs of the fan-out: transfer traffic reaches only clients that were its
    owner when it was delivered, audio levels only clients that subscribed; but for upstream payloads that do
    not parse, which go to every opened client as they are. */
module Routing {
  import opened Wire
  import opened Commands
  import opened Cache
  import opened Locks
  import opened Transfer
  import opened Packing
  import opened Reliable
  import opened Upstream
  import opened FanOut
  import opened Convergence

  /** Delivering a transfer payload queues it for one session at most: that of the lane's owner while a
      lane is active, and nobody's while media is disabled. */
  lemma TransferReachesOneOwner(sessions: Sessions, payload: Bytes, cfg: MediaConfig, stores: Stores, lane: Lane)
    ensures var after := FannedOut(sessions, TransferPayload(payload), FanoutOwner(cfg, stores, lane));
            && after.Keys == sessions.Keys
            && (forall a, b :: a in sessions && b in sessions && after[a] != sessions[a] && after[b] != sessions[b]
                  ==> a == b)
            && (forall a :: a in sessions && after[a] != sessions[a] ==>
                  && cfg.enabled && sessions[a].isOpen && after[a] == QueueOn(sessions[a], [payload])
                  && (lane.Some? ==> a == lane.value.owner)
                  && (lane.None? ==> OwnerOf(stores, 0) == Some(a)
                                     || (OwnerOf(stores, 0) == None && OwnerOf(stores, 255) == Some(a))))
            && (forall a :: a in sessions && sessions[a].isOpen && cfg.enabled && lane.None?
                            && (OwnerOf(stores, 0) == Some(a)
                                || (OwnerOf(stores, 0) == None && OwnerOf(stores, 255) == Some(a))) ==>
                  after[a].queued == sessions[a].queued + [payload])
            && (cfg.enabled && lane.Some? && lane.value.owner in sessions && sessions[lane.value.owner].isOpen ==>
                  after[lane.value.owner].queued == sessions[lane.value.owner].queued + [payload])
  {
    hide OwnerOf;
  }

  // ---------------------------------------------------------------- commands of a route

  /** No command at the front of the payload takes this route; if it parses, that is all of its commands. */
  ghost predicate FreeOf(payload: Bytes, route: Route) {
    forall c :: c in Leading(payload) ==> RouteOf(c.name) != route
  }

  /** Free of the route, or an upstream payload that does not parse. */
  ghost predicate Excused(payload: Bytes, route: Route, log: seq<Bytes>) {
    FreeOf(payload, route) || (Parse(payload).Err? && payload in log)
  }

  lemma FreeIffParsed(payload: Bytes, cmds: seq<Command>, route: Route)
    requires Parse(payload) == Ok(cmds)
    ensures FreeOf(payload, route) <==> forall c :: c in cmds ==> RouteOf(c.name) != route
  {
    LeadingOfParsed(payload, 0);
    hide Leading, ParseAt, RouteOf;
  }

  ghost predicate AllFree(payloads: seq<Bytes>, route: Route) {
    forall p :: p in payloads ==> FreeOf(p, route)
  }

  /** The event that is there to carry the commands of this route. */
  predicate Carries(e: UpstreamEvent, route: Route) {
    (e.AudioLevels? && route == ToAudio) || (e.TransferPayload? && route == ToTransfer)
  }

  ghost predicate Kept(e: UpstreamEvent, route: Route, log: seq<Bytes>) {
    e.Connected? || Carries(e, route) || Excused(e.payload, route, log)
  }

  predicate IsSpecial(route: Route) {
    route == ToAudio || route == ToTransfer
  }

  lemma ChunkFree(cmds: seq<Command>, own: Route, route: Route)
    requires AllFramed(cmds) && own != route
    ensures FreeOf(Joined(Routed(cmds, own)), route)
  {
    hide Parse, Joined, Routed, RouteOf, Framed, FreeOf;
    ChunksReparse(cmds, own);
    RoutedMembers(cmds, own);
    FreeIffParsed(Joined(Routed(cmds, own)), Routed(cmds, own), route);
  }

  /** One payload's events, exactly: one that is not there for the route has a command of it at its front if and
      only if the payload does not parse and has one at its own front. */
  lemma EventLeaksIff(payload: Bytes, e: UpstreamEvent, route: Route)
    requires IsSpecial(route) && e in EventsOf(payload) && !Carries(e, route)
    ensures !e.Connected?
    ensures !FreeOf(e.payload, route) <==> Parse(payload).Err? && !FreeOf(payload, route)
    ensures Parse(payload).Err? ==> e == StatePayload(payload)
  {
    hide Parse, Joined, Routed, RouteOf, Framed, FreeOf;
    if Parse(payload).Ok? {
      var cmds := Parse(payload).value;
      ParseIffFraming(payload, cmds);
      ChunkFree(cmds, ToState, route);
      if route != ToAudio {
        ChunkFree(cmds, ToAudio, route);
      }
      if route != ToTransfer {
        ChunkFree(cmds, ToTransfer, route);
      }
    }
  }

  lemma EventsKept(payload: Bytes, route: Route, log: seq<Bytes>)
    requires IsSpecial(route) && payload in log
    ensures forall e :: e in EventsOf(payload) ==> Kept(e, route, log)
  {
    hide EventsOf, FreeOf, Parse;
    forall e | e in EventsOf(payload)
      ensures Kept(e, route, log)
    {
      if !Carries(e, route) {
        EventLeaksIff(payload, e, route);
      }
    }
  }

  lemma CacheableRoutes(c: Command, route: Route)
    requires IsSpecial(route) && (Cacheable(c) || c.name == INIT_COMPLETE)
    ensures RouteOf(c.name) != route
  {
    SkippedRoutes(c.name);
    hide RouteOf, Skipped;
  }

  lemma DumpCommandsRoute(s: CacheState, route: Route)
    requires Valid(s) && IsSpecial(route)
    ensures forall c :: c in DumpCommands(s) ==> RouteOf(c.name) != route
  {
    SyntheticIncmParses();
    hide RouteOf, IsSpecial, Framed, KeyOf, Skipped;
    forall c | c in DumpCommands(s)
      ensures RouteOf(c.name) != route
    {
      if c in StoredCommands(s) {
        var i :| 0 <= i < |s.keys| && StoredCommands(s)[i] == c;
        assert StoredUnder(s.slots[s.keys[i]], s.keys[i]);
      }
      CacheableRoutes(c, route);
    }
  }

  /** A packed dump carries neither audio nor transfer commands. */
  lemma DumpFree(s: CacheState, route: Route)
    requires Valid(s) && IsSpecial(route)
    ensures AllFree(Pack(Dump(s)), route)
  {
    DumpIsFramed(s);
    DumpCommandsRoute(s, route);
    var cmds, packets := DumpCommands(s), Pack(Dump(s));
    var groups := PackGroups(cmds);
    GroupsFramed(groups);
    hide Valid, DumpCommands, Dump, Pack, AllFramed, RouteOf, Parse;
    forall p | p in packets
      ensures FreeOf(p, route)
    {
      var i :| 0 <= i < |packets| && packets[i] == p;
      GroupFree(p, groups, i, route);
    }
  }

  lemma GroupFree(packet: Bytes, groups: seq<seq<Command>>, i: nat, route: Route)
    requires i < |groups| && AllFramed(groups[i]) && IsGroup(packet, groups[i])
    requires forall c :: c in Concat(groups) ==> RouteOf(c.name) != route
    ensures FreeOf(packet, route)
  {
    ParseIffFraming(packet, groups[i]);
    FreeIffParsed(packet, groups[i], route);
    hide Parse, RouteOf, AllFramed, Joined, FreeOf;
    forall c | c in groups[i]
      ensures RouteOf(c.name) != route
    {
      MemberOfConcat(groups, i, c);
    }
  }

  // ---------------------------------------------------------------- the invariant

  ghost predicate TaskKept(t: Task, route: Route, log: seq<Bytes>) {
    match t
    case Holding(e) => Kept(e, route, log)
    case Resync(dump) => AllFree(Pack(dump), route)
    case _ => true
  }

  ghost predicate EventsAllKept(events: seq<UpstreamEvent>, route: Route, log: seq<Bytes>) {
    forall e :: e in events ==> Kept(e, route, log)
  }

  /** What is on its way is in the event of its route or is excused, and so is what `addr` has been sent. */
  ghost predicate KeptFrom(h: Hub, addr: Addr, route: Route, log: seq<Bytes>) {
    && EventsAllKept(h.queue, route, log) && EventsAllKept(h.unpublished, route, log)
    && TaskKept(h.task, route, log)
    && (addr in h.sessions ==> SessionKept(h.sessions[addr], route, log))
  }

  ghost predicate SessionKept(s: Session, route: Route, log: seq<Bytes>) {
    && (forall p :: p in s.queued ==> Excused(p, route, log))
    && (route == ToAudio ==> !s.audio)
  }

  /** The steps that may give `addr` commands of the route. */
  predicate Grants(step: Step, addr: Addr, route: Route) {
    (route == ToTransfer && step == Deliver(Some(addr))) || (route == ToAudio && step == SetAudio(addr, true))
  }

  lemma LongerLog(h: Hub, addr: Addr, route: Route, log: seq<Bytes>, more: seq<Bytes>)
    requires KeptFrom(h, addr, route, log)
    ensures KeptFrom(h, addr, route, log + more)
  {
    hide FreeOf, Parse, AllFree, Carries;
  }

  lemma EventKeepsSession(s: Session, addr: Addr, e: UpstreamEvent, owner: Option<Addr>, route: Route, log: seq<Bytes>)
    requires IsSpecial(route) && Kept(e, route, log) && SessionKept(s, route, log)
    requires !Grants(Deliver(owner), addr, route)
    ensures SessionKept(GivenEvent(s, addr, e, owner), route, log)
  {
    hide Excused;
  }

  lemma DeliverKeepsFrom(h: Hub, addr: Addr, owner: Option<Addr>, route: Route, log: seq<Bytes>)
    requires Valid(h.cache) && IsSpecial(route) && KeptFrom(h, addr, route, log)
    requires !Grants(Deliver(owner), addr, route)
    ensures KeptFrom(After(h, Deliver(owner)), addr, route, log)
  {
    hide Kept, FreeOf, GivenEvent, EventsAllKept, Valid, Pack, Parse;
    if h.task.Holding? && addr in h.sessions {
      EventKeepsSession(h.sessions[addr], addr, h.task.event, owner, route, log);
    }
  }

  lemma AckedKeepsFrom(h: Hub, addr: Addr, who: Addr, route: Route, log: seq<Bytes>)
    requires Valid(h.cache) && IsSpecial(route) && KeptFrom(h, addr, route, log)
    ensures KeptFrom(After(h, Acked(who)), addr, route, log)
  {
    hide FreeOf, EventsAllKept, TaskKept, Valid, Dump, Pack, Parse;
    DumpFree(h.cache, route);
  }

  lemma IngestKeepsFrom(h: Hub, addr: Addr, datagram: Bytes, route: Route, log: seq<Bytes>)
    requires Valid(h.cache) && IsSpecial(route) && KeptFrom(h, addr, route, log)
    ensures KeptFrom(After(h, Ingest(datagram)), addr, route, log + LoggedBy(h, Ingest(datagram)))
  {
    hide Kept, SessionKept, TaskKept, Valid, EventsOf, Ingested, StateChunk, SawReady, Packets.DecodePacket;
    var longer := log + LoggedBy(h, Ingest(datagram));
    LongerLog(h, addr, route, log, LoggedBy(h, Ingest(datagram)));
    if LoggedBy(h, Ingest(datagram)) != [] {
      var payload := Packets.DecodePacket(datagram).value.payload;
      assert longer[|log|] == payload;
      EventsKept(payload, route, longer);
    }
  }

  lemma PublishKeepsFrom(h: Hub, addr: Addr, route: Route, log: seq<Bytes>)
    requires Valid(h.cache) && KeptFrom(h, addr, route, log)
    ensures KeptFrom(After(h, Publish), addr, route, log)
  {
    hide SessionKept, TaskKept, Valid, Excused;
  }

  lemma StepKeepsFrom(h: Hub, addr: Addr, step: Step, route: Route, log: seq<Bytes>)
    requires Valid(h.cache) && IsSpecial(route) && KeptFrom(h, addr, route, log) && !Grants(step, addr, route)
    ensures KeptFrom(After(h, step), addr, route, log + LoggedBy(h, step))
  {
    hide Valid, Kept, Excused, FreeOf, Dump, Pack, Opened, FannedOut, Resynced, Ingested, EventsOf, Sent,
      Packets.DecodePacket;
    if !step.Ingest? {
      assert log + LoggedBy(h, step) == log;
    }
    match step
    case Ingest(datagram) => IngestKeepsFrom(h, addr, datagram, route, log);
    case Publish => PublishKeepsFrom(h, addr, route, log);
    case Receive =>
    case TakeDump => DumpFree(h.cache, route);
    case Deliver(owner) => DeliverKeepsFrom(h, addr, owner, route, log);
    case Handshake(_) =>
    case Acked(who) => AckedKeepsFrom(h, addr, who, route, log);
    case SetAudio(_, _) =>
    case TimedOut(_) =>
  }

  lemma {:induction false} RunKeepsFrom(h: Hub, steps: seq<Step>, addr: Addr, route: Route, log: seq<Bytes>)
    requires HubInv(h) && IsSpecial(route) && KeptFrom(h, addr, route, log)
    requires forall i :: 0 <= i < |steps| ==> !Grants(steps[i], addr, route)
    ensures KeptFrom(Run(h, steps), addr, route, log + Log(h, steps))
    decreases |steps|
  {
    hide HubInv, After, KeptFrom, Grants, LoggedBy;
    if steps == [] {
      assert log + [] == log;
    } else {
      InvIsValid(h);
      StepKeeps(h, steps[0]);
      StepKeepsFrom(h, addr, steps[0], route, log);
      var next := After(h, steps[0]);
      RunKeepsFrom(next, steps[1..], addr, route, log + LoggedBy(h, steps[0]));
      Associative(log, LoggedBy(h, steps[0]), Log(next, steps[1..]));
    }
  }

  lemma ReachedExcuses(steps: seq<Step>, addr: Addr, route: Route, p: Bytes)
    requires IsSpecial(route) && forall i :: 0 <= i < |steps| ==> !Grants(steps[i], addr, route)
    requires addr in Reached(steps).sessions && p in Reached(steps).sessions[addr].queued
    ensures Excused(p, route, FullLog(steps))
  {
    hide HubInv, Run, Log, Excused, Grants;
    StartInv();
    RunKeepsFrom(START, steps, addr, route, []);
    assert [] + Log(START, steps) == FullLog(steps);
  }

  // ---------------------------------------------------------------- the theorems

  /** A transfer command stands at the front of these bytes, among their well-framed commands. */
  ghost predicate LeadsToTransfer(bytes: Bytes) {
    exists c :: c in Leading(bytes) && IsTransferCommand(c.name)
  }

  ghost predicate LeadsToAudio(bytes: Bytes) {
    exists c :: c in Leading(bytes) && IsEphemeralCommand(c.name)
  }

  lemma RoutesAreClasses(n: CommandName)
    ensures RouteOf(n) == ToTransfer <==> IsTransferCommand(n)
    ensures RouteOf(n) == ToAudio <==> IsEphemeralCommand(n)
  {
    ClassesDisjoint(n);
    hide IsTransferCommand, IsEphemeralCommand;
  }

  lemma FreeIsNotLeading(bytes: Bytes)
    ensures FreeOf(bytes, ToTransfer) <==> !LeadsToTransfer(bytes)
    ensures FreeOf(bytes, ToAudio) <==> !LeadsToAudio(bytes)
  {
    hide Leading, RouteOf, IsTransferCommand, IsEphemeralCommand;
    forall c | c in Leading(bytes)
      ensures RouteOf(c.name) == ToTransfer <==> IsTransferCommand(c.name)
      ensures RouteOf(c.name) == ToAudio <==> IsEphemeralCommand(c.name)
    {
      RoutesAreClasses(c.name);
    }
  }

  /** Over whole runs: of the payloads that were given to a client that was never the owner when an event was
      delivered, in events and dumps, exactly those have a transfer command at their front that are upstream
      payloads which do not parse and have one there. */
  lemma OnlyOwnersGetTransfers(steps: seq<Step>, addr: Addr, p: Bytes)
    requires forall i :: 0 <= i < |steps| ==> steps[i] != Deliver(Some(addr))
    requires addr in Reached(steps).sessions && p in Reached(steps).sessions[addr].queued
    ensures LeadsToTransfer(p) <==> p in FullLog(steps) && Parse(p).Err? && LeadsToTransfer(p)
    ensures forall c :: c in ParsedOrNone(p) ==> !IsTransferCommand(c.name)
  {
    hide Reached, FullLog, FreeOf, LeadsToTransfer, LeadsToAudio, Parse, IsTransferCommand;
    ReachedExcuses(steps, addr, ToTransfer, p);
    FreeIsNotLeading(p);
    ParsedHasNone(p, ToTransfer);
  }

  /** The same for audio levels and clients that never subscribed. */
  lemma OnlySubscribersGetAudio(steps: seq<Step>, addr: Addr, p: Bytes)
    requires forall i :: 0 <= i < |steps| ==> steps[i] != SetAudio(addr, true)
    requires addr in Reached(steps).sessions && p in Reached(steps).sessions[addr].queued
    ensures LeadsToAudio(p) <==> p in FullLog(steps) && Parse(p).Err? && LeadsToAudio(p)
    ensures forall c :: c in ParsedOrNone(p) ==> !IsEphemeralCommand(c.name)
  {
    hide Reached, FullLog, FreeOf, LeadsToTransfer, LeadsToAudio, Parse, IsEphemeralCommand;
    ReachedExcuses(steps, addr, ToAudio, p);
    FreeIsNotLeading(p);
    ParsedHasNone(p, ToAudio);
  }

  lemma ParsedHasNone(p: Bytes, route: Route)
    requires IsSpecial(route) && (Parse(p).Ok? ==> FreeOf(p, route))
    ensures forall c :: c in ParsedOrNone(p) ==>
              !(if route == ToTransfer then IsTransferCommand(c.name) else IsEphemeralCommand(c.name))
  {
    hide RouteOf, IsTransferCommand, IsEphemeralCommand, Parse, FreeOf;
    if Parse(p).Ok? {
      FreeIffParsed(p, Parse(p).value, route);
      forall c | c in Parse(p).value
        ensures !(if route == ToTransfer then IsTransferCommand(c.name) else IsEphemeralCommand(c.name))
      {
        RoutesAreClasses(c.name);
      }
    }
  }

  lemma RawDoesNotParse(c: Command)
    requires Framed(c) && IsTransferCommand(c.name)
    ensures Parse(c.raw + [0]).Err? && LeadsToTransfer(c.raw + [0])
  {
    JoinedSingle(c);
    ParseIffFraming(c.raw, [c]);
    assert AllFramed([c]);
    ParseAppend(c.raw, [0]);
    assert Parse([0]).Err?;
    LeadingOfCommand(c, [0]);
    hide Parse, Leading, IsTransferCommand;
    assert c in [c] + Leading([0]);
  }

  lemma FourSteps(h: Hub, a: Step, b: Step, c: Step, d: Step)
    requires HubInv(h)
    ensures Valid(h.cache) && HubInv(After(h, a)) && Valid(After(h, a).cache)
    ensures var h1 := After(h, a); HubInv(After(h1, b)) && Valid(After(h1, b).cache)
    ensures var h2 := After(After(h, a), b); HubInv(After(h2, c)) && Valid(After(h2, c).cache)
    ensures Run(h, [a, b, c, d]) == After(After(After(After(h, a), b), c), d)
  {
    hide HubInv, After, Valid;
    InvIsValid(h);
    StepKeeps(h, a);
    var h1 := After(h, a);
    InvIsValid(h1);
    StepKeeps(h1, b);
    var h2 := After(h1, b);
    InvIsValid(h2);
    StepKeeps(h2, c);
    var h3 := After(h2, c);
    InvIsValid(h3);
    StepKeeps(h3, d);
    assert [a, b, c, d][1..] == [b, c, d] && [b, c, d][1..] == [c, d] && [c, d][1..] == [d] && [d][1..] == [];
    assert Run(h3, [d]) == After(h3, d);
    assert Run(h2, [c, d]) == Run(h3, [d]);
    assert Run(h1, [b, c, d]) == Run(h2, [c, d]);
  }

  /** A raw payload on its way from upstream to an opened session, step by step. */
  lemma RawIngested(h: Hub, datagram: Bytes, payload: Bytes)
    requires Valid(h.cache) && Quiet(h) && Parse(payload).Err?
    requires Packets.DecodePacket(datagram).Ok? && Packets.DecodePacket(datagram).value.payload == payload
    ensures var h' := After(h, Ingest(datagram));
            && h'.unpublished == [StatePayload(payload)] && !h'.finishing && h'.queue == [] && !h'.lagged
            && h'.task == Idle && h'.sessions == h.sessions
  {
    hide Valid, Parse, Packets.DecodePacket, Ingested, StateChunk;
  }

  lemma RawTravels(h: Hub, e: UpstreamEvent)
    requires Valid(h.cache) && h.unpublished == [e] && h.queue == [] && !h.lagged && h.task == Idle
    ensures var h' := After(h, Publish);
            && Valid(h'.cache)
            && After(h', Receive).task == Holding(e) && After(h', Receive).sessions == h.sessions
  {
    hide Valid;
  }

  lemma RawDelivered(h: Hub, addr: Addr, payload: Bytes)
    requires Valid(h.cache) && h.task == Holding(StatePayload(payload)) && IsOpenAt(h, addr)
    ensures var h' := After(h, Deliver(None));
            addr in h'.sessions && h'.sessions[addr].queued == h.sessions[addr].queued + [payload]
  {
    hide Valid;
  }

  /** The input: a transfer command followed by one stray byte does not parse, and when it comes from upstream it is
      given to every opened client, with nobody being the owner. */
  lemma RawReachesAll(h: Hub, addr: Addr, c: Command, header: Packets.PacketHeader)
    requires HubInv(h) && Quiet(h) && IsOpenAt(h, addr)
    requires Framed(c) && IsTransferCommand(c.name) && |c.raw| < Packets.MAX_PAYLOAD
    ensures var payload := c.raw + [0];
            var steps := [Ingest(Packets.PacketBytes(header, payload)), Publish, Receive, Deliver(None)];
            && addr in Run(h, steps).sessions
            && Run(h, steps).sessions[addr].queued == h.sessions[addr].queued + [payload]
            && LeadsToTransfer(payload)
  {
    hide HubInv, After, Valid, Parse, Packets.DecodePacket, Packets.PacketBytes, Framed, IsTransferCommand,
      LeadsToTransfer, Quiet;
    var payload := c.raw + [0];
    var datagram := Packets.PacketBytes(header, payload);
    RawDoesNotParse(c);
    Packets.PacketRoundTrip(header, payload);
    FourSteps(h, Ingest(datagram), Publish, Receive, Deliver(None));
    RawIngested(h, datagram, payload);
    RawTravels(After(h, Ingest(datagram)), StatePayload(payload));
    RawDelivered(After(After(After(h, Ingest(datagram)), Publish), Receive), addr, payload);
  }
}
