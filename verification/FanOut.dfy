/** Fan-out to clients and late join (the event loop and `handle_datagram` of atem-proxy/src/server.rs,
    with the ingest and publish order of upstream.rs), within one upstream session.

    The upstream task, the fan-out task and the datagram handler interleave freely; a step here is one
    stretch that runs under a lock. The broadcast channel keeps the last `CAPACITY` events: an
    overflow drops the oldest unread one, and the reader is told once that it lagged. */
module FanOut {
  import opened Wire
  import opened Packets
  import opened Commands
  import opened Reliable
  import opened Packing
  import opened Cache
  import opened Locks
  import opened Upstream

  const CAPACITY := 512

  /** A client session; `queued` is every payload given to its endpoint so far, in order. */
  datatype Session = Session(isOpen: bool, dumpSent: bool, audio: bool, queued: seq<Bytes>)

  type Sessions = map<Addr, Session>

  /** Where the fan-out task is: waiting, holding a received event, told that it lagged, or holding the
      dump it took to resynchronise. */
  datatype Task = Idle | Holding(event: UpstreamEvent) | LagSeen | Resync(dump: seq<Bytes>)

  /** `unpublished` is what the upstream task has ingested but not yet sent on the channel. */
  datatype Hub = Hub(
    cache: CacheState, unpublished: seq<UpstreamEvent>, finishing: bool, connected: bool,
    queue: seq<UpstreamEvent>, lagged: bool, task: Task, sessions: Sessions)

  const NEW_SESSION := Session(false, false, false, [])

  // ---------------------------------------------------------------- what sessions are given

  function QueueOn(s: Session, payloads: seq<Bytes>): Session {
    s.(queued := s.queued + payloads)
  }

  /** Who gets an event: state goes to every opened session, audio to opened subscribers, transfer
      traffic to the one owner if its session is opened. */
  predicate Receives(s: Session, addr: Addr, e: UpstreamEvent, owner: Option<Addr>) {
    s.isOpen && match e
    case Connected => false
    case StatePayload(_) => true
    case AudioLevels(_) => s.audio
    case TransferPayload(_) => owner == Some(addr)
  }

  function GivenEvent(s: Session, addr: Addr, e: UpstreamEvent, owner: Option<Addr>): Session {
    if Receives(s, addr, e, owner) then QueueOn(s, [e.payload]) else s
  }

  function FannedOut(sessions: Sessions, e: UpstreamEvent, owner: Option<Addr>): Sessions {
    map a | a in sessions :: GivenEvent(sessions[a], a, e, owner)
  }

  function GivenDump(s: Session, dump: seq<Bytes>): Session {
    if s.isOpen then QueueOn(s, Pack(dump)) else s
  }

  function Resynced(sessions: Sessions, dump: seq<Bytes>): Sessions {
    map a | a in sessions :: GivenDump(sessions[a], dump)
  }

  /** The first acknowledgement opens the session and queues the dump. */
  function Opened(s: Session, dump: seq<Bytes>): Session {
    if s.isOpen then s
    else if s.dumpSent then s.(isOpen := true)
    else QueueOn(s.(isOpen := true, dumpSent := true), Pack(dump))
  }

  // ---------------------------------------------------------------- steps

  datatype Step =
    | Ingest(datagram: Bytes)
    | Publish
    | Receive
    | TakeDump
    | Deliver(owner: Option<Addr>)
    | Handshake(addr: Addr)
    | Acked(addr: Addr)
    | SetAudio(addr: Addr, on: bool)
    | TimedOut(addr: Addr)

  /** What the cache ingests of a payload: the state chunk, or the whole payload if it does not parse. */
  function StateChunk(payload: Bytes): Bytes {
    match Parse(payload)
    case Ok(cmds) => Joined(Routed(cmds, ToState))
    case Err(_) => payload
  }

  function Sent(h: Hub, e: UpstreamEvent): Hub {
    if |h.queue| < CAPACITY then h.(queue := h.queue + [e])
    else h.(queue := h.queue[1..] + [e], lagged := true)
  }

  function After(h: Hub, step: Step): Hub
    requires Valid(h.cache)
  {
    match step
    case Ingest(datagram) =>
      // One payload at a time: the previous one has been published.
      if h.unpublished != [] || h.finishing || DecodePacket(datagram).Err? then h
      else
        var payload := DecodePacket(datagram).value.payload;
        h.(cache := Ingested(h.cache, StateChunk(payload)), unpublished := EventsOf(payload),
           finishing := SawReady(payload))
    case Publish =>
      if h.unpublished != [] then Sent(h.(unpublished := h.unpublished[1..]), h.unpublished[0])
      else if h.finishing then
        var ready := h.(cache := h.cache.(ready := true), finishing := false, connected := true);
        if h.connected then ready else Sent(ready, Connected)
      else h
    case Receive =>
      if !h.task.Idle? then h
      else if h.lagged then h.(lagged := false, task := LagSeen)
      else if h.queue != [] then h.(queue := h.queue[1..], task := Holding(h.queue[0]))
      else h
    case TakeDump =>
      if h.task.LagSeen? then h.(task := Resync(Dump(h.cache))) else h
    case Deliver(owner) =>
      if h.task.Holding? then h.(task := Idle, sessions := FannedOut(h.sessions, h.task.event, owner))
      else if h.task.Resync? then h.(task := Idle, sessions := Resynced(h.sessions, h.task.dump))
      else h
    case Handshake(addr) =>
      if h.connected && h.cache.ready then h.(sessions := h.sessions[addr := NEW_SESSION]) else h
    case Acked(addr) =>
      if addr in h.sessions then h.(sessions := h.sessions[addr := Opened(h.sessions[addr], Dump(h.cache))]) else h
    case SetAudio(addr, on) =>
      if addr in h.sessions then h.(sessions := h.sessions[addr := h.sessions[addr].(audio := on)]) else h
    case TimedOut(addr) => h.(sessions := h.sessions - {addr})
  }

  const START := Hub(EMPTY, [], false, false, [], false, Idle, map[])

  // ---------------------------------------------------------------- views and pending updates

  /** A client's last-wins view of what it has been given. The client is taken to read payloads as the proxy
      does: one that does not parse means nothing to it. */
  function View(payloads: seq<Bytes>): map<CacheKey, Bytes> {
    IngestAll(EMPTY, payloads).slots
  }

  function EventUpdate(e: UpstreamEvent): map<CacheKey, Bytes> {
    if e.StatePayload? then UpdateOf(e.payload) else map[]
  }

  /** What the events will write, the last one winning. */
  function Pending(events: seq<UpstreamEvent>): map<CacheKey, Bytes> {
    if events == [] then map[] else EventUpdate(events[0]) + Pending(events[1..])
  }

  lemma {:induction false} PendingAppend(a: seq<UpstreamEvent>, b: seq<UpstreamEvent>)
    ensures Pending(a + b) == Pending(a) + Pending(b)
  {
    hide EventUpdate;
    if a == [] {
      assert a + b == b;
    } else {
      DropOfAppend(a, b, 1);
      PendingAppend(a[1..], b);
      OverrideAssociates(EventUpdate(a[0]), Pending(a[1..]), Pending(b));
    }
  }

  lemma ViewOfOne(payload: Bytes)
    ensures View([payload]) == UpdateOf(payload)
  {
    IngestPayloadIsOverride(EMPTY, payload);
    hide Ingested, UpdateOf;
    assert IngestAll(EMPTY, [payload]) == Ingested(IngestAll(EMPTY, []), payload) by {
      assert [payload][..0] == [];
    }
    assert map[] + UpdateOf(payload) == UpdateOf(payload);
  }

  lemma {:induction false} ViewAppend(a: seq<Bytes>, b: seq<Bytes>)
    ensures View(a + b) == View(a) + View(b)
    decreases |b|
  {
    hide Ingested, UpdateOf;
    if b == [] {
      assert a + b == a;
    } else {
      var n := |b| - 1;
      assert (a + b)[..|a + b| - 1] == a + b[..n];
      ViewAppend(a, b[..n]);
      IngestPayloadIsOverride(IngestAll(EMPTY, a + b[..n]), b[n]);
      IngestPayloadIsOverride(IngestAll(EMPTY, b[..n]), b[n]);
    }
  }

  lemma {:induction false} ViewIsUpdate(payloads: seq<Bytes>)
    requires ParseAll(payloads).Ok?
    ensures View(payloads) == Update(ParseAll(payloads).value)
  {
    if payloads != [] {
      var cmds, rest := Parse(payloads[0]).value, payloads[1..];
      ViewIsUpdate(rest);
      assert payloads == [payloads[0]] + rest;
      ViewAppend([payloads[0]], rest);
      ViewOfOne(payloads[0]);
      IngestAppend(EMPTY, cmds, ParseAll(rest).value);
      IngestIsOverride(IngestCommands(EMPTY, cmds), ParseAll(rest).value);
      hide Parse, View, IngestCommands;
    }
  }

  /** A packed dump is the whole cache: its view is exactly the slots. */
  lemma DumpView(s: CacheState)
    requires Valid(s)
    ensures View(Pack(Dump(s))) == s.slots
  {
    DumpIsFramed(s);
    PackedParses(DumpCommands(s));
    ViewIsUpdate(Pack(Dump(s)));
    DumpReplays(s);
    hide View, Pack, ParseAll, Valid, DumpCommands;
  }

  // ---------------------------------------------------------------- events of a payload

  /** Audio and transfer events write nothing into a view, and no event is too long to send. */
  ghost predicate Wholesome(e: UpstreamEvent) {
    !e.Connected? ==>
      && |e.payload| <= MAX_PAYLOAD
      && (!e.StatePayload? ==> UpdateOf(e.payload) == map[])
  }

  lemma RoutedUpdate(cmds: seq<Command>, route: Route)
    requires AllFramed(cmds)
    ensures UpdateOf(Joined(Routed(cmds, route))) == Update(Routed(cmds, route))
    ensures route == ToAudio || route == ToTransfer ==> Update(Routed(cmds, route)) == map[]
  {
    hide Parse, Routed, Joined, Update, IngestCommands, Skipped;
    ChunksReparse(cmds, route);
    if route == ToAudio || route == ToTransfer {
      RoutedMembers(cmds, route);
      forall c | c in Routed(cmds, route)
        ensures Skipped(c.name)
      {
        SkippedRoutes(c.name);
      }
      SkippedUpdatesNothing(Routed(cmds, route));
    }
  }

  lemma EmptyUpdate()
    ensures UpdateOf([]) == map[]
  {
    assert Parse([]) == Ok([]);
  }

  lemma PendingOfOne(e: UpstreamEvent)
    ensures Pending([e]) == EventUpdate(e)
  {
    assert [e][1..] == [];
  }

  lemma PendingIfAny(chunk: Bytes, e: UpstreamEvent)
    requires e.StatePayload? ==> e.payload == chunk
    ensures Pending(IfAny(chunk, e)) == if chunk == [] then map[] else EventUpdate(e)
  {
    PendingOfOne(e);
    hide EventUpdate;
  }

  /** The events of a payload write what the cache ingested of it. */
  lemma EventsUpdate(payload: Bytes)
    ensures Pending(EventsOf(payload)) == UpdateOf(StateChunk(payload))
  {
    hide Parse, Routed, Joined, UpdateOf;
    match Parse(payload)
    case Err(_) => PendingOfOne(StatePayload(payload));
    case Ok(cmds) =>
      var state, audio, transfer :=
        Joined(Routed(cmds, ToState)), Joined(Routed(cmds, ToAudio)), Joined(Routed(cmds, ToTransfer));
      var e1, e2, e3 := IfAny(state, StatePayload(state)), IfAny(audio, AudioLevels(audio)),
        IfAny(transfer, TransferPayload(transfer));
      PendingAppend(e1, e2);
      PendingAppend(e1 + e2, e3);
      PendingIfAny(state, StatePayload(state));
      PendingIfAny(audio, AudioLevels(audio));
      PendingIfAny(transfer, TransferPayload(transfer));
      EmptyUpdate();
      hide Pending, IfAny;
  }

  lemma EventsWholesome(payload: Bytes)
    requires |payload| <= MAX_PAYLOAD
    ensures forall e :: e in EventsOf(payload) ==> Wholesome(e)
  {
    EventsFit(payload);
    if Parse(payload).Ok? {
      var cmds := Parse(payload).value;
      ParseIffFraming(payload, cmds);
      RoutedUpdate(cmds, ToAudio);
      RoutedUpdate(cmds, ToTransfer);
    }
    hide Parse, Routed, Joined, UpdateOf, Update;
  }

  // ---------------------------------------------------------------- overriding maps

  lemma OverrideAssociates<K, V>(a: map<K, V>, b: map<K, V>, c: map<K, V>)
    ensures a + (b + c) == (a + b) + c
  {
  }

  /** Overriding with what is already there, `u` being part of it. */
  lemma OverrideTwice<K, V>(s: map<K, V>, p: map<K, V>, u: map<K, V>)
    requires s + p == s
    ensures (s + u) + (p + u) == s + u
  {
    forall k | k in s + u
      ensures ((s + u) + (p + u))[k] == (s + u)[k]
    {
      if k in p && k !in u {
        assert (s + p)[k] == p[k];
      }
    }
    assert ((s + u) + (p + u)).Keys == (s + u).Keys by {
      assert p.Keys <= (s + p).Keys;
    }
  }

  lemma OverrideSuffix<K, V>(s: map<K, V>, a: map<K, V>, b: map<K, V>)
    requires s + (a + b) == s
    ensures s + b == s
  {
    forall k | k in b
      ensures k in s && s[k] == b[k]
    {
      assert (s + (a + b))[k] == b[k];
    }
  }

  lemma OverrideAll<K, V>(v: map<K, V>, s: map<K, V>, p: map<K, V>)
    requires v.Keys <= s.Keys && s + p == s
    ensures v + (s + p) == s
  {
  }

  // ---------------------------------------------------------------- the invariant

  /** What the task at hand will write before anything in the queue. */
  function TaskUpdate(t: Task): map<CacheKey, Bytes> {
    match t
    case Holding(e) => EventUpdate(e)
    case Resync(dump) => View(Pack(dump))
    case _ => map[]
  }

  function ToCome(h: Hub): map<CacheKey, Bytes> {
    Pending(h.queue + h.unpublished)
  }

  /** No event has been lost that a coming dump does not make up for. */
  predicate Steady(h: Hub) {
    !h.lagged && !h.task.LagSeen?
  }

  ghost predicate AllFit(payloads: seq<Bytes>) {
    forall p :: p in payloads ==> |p| <= MAX_PAYLOAD
  }

  ghost predicate TaskWholesome(t: Task) {
    match t
    case Holding(e) => Wholesome(e)
    case Resync(dump) => AllFit(Pack(dump)) && SendsReady(dump)
    case _ => true
  }

  ghost predicate SendsReady(dump: seq<Bytes>) {
    forall s: CacheState :: IngestAll(s, Pack(dump)).ready
  }

  /** A session's view stays within the cache, and applying what is still to come to the view of an
      opened one gives exactly the cache. */
  ghost predicate SessionInv(s: Session, slots: map<CacheKey, Bytes>, toCome: map<CacheKey, Bytes>, steady: bool) {
    && AllFit(s.queued)
    && (!s.isOpen ==> s.queued == [] && !s.dumpSent)
    && (s.isOpen ==> IngestAll(EMPTY, s.queued).ready)
    && View(s.queued).Keys <= slots.Keys
    && (s.isOpen && steady ==> View(s.queued) + toCome == slots)
  }

  ghost predicate CacheInv(c: CacheState) {
    Valid(c) && forall k :: k in c.slots ==> |c.slots[k]| <= MAX_PAYLOAD
  }

  ghost predicate AllWholesome(events: seq<UpstreamEvent>) {
    forall e :: e in events ==> Wholesome(e)
  }

  /** What is still to come writes nothing that the cache does not already hold: `now` by the task at
      hand and then `later` by the queue. */
  ghost predicate Coming(slots: map<CacheKey, Bytes>, now: map<CacheKey, Bytes>, later: map<CacheKey, Bytes>,
                         steady: bool)
  {
    && slots + later == slots
    && now.Keys <= slots.Keys
    && (steady ==> slots + (now + later) == slots)
  }

  ghost predicate SessionsInv(sessions: Sessions, slots: map<CacheKey, Bytes>, toCome: map<CacheKey, Bytes>,
                              steady: bool)
  {
    forall a :: a in sessions ==> SessionInv(sessions[a], slots, toCome, steady)
  }

  ghost predicate HubInv(h: Hub) {
    && CacheInv(h.cache)
    && AllWholesome(h.queue + h.unpublished)
    && TaskWholesome(h.task)
    && Coming(h.cache.slots, TaskUpdate(h.task), ToCome(h), Steady(h))
    && SessionsInv(h.sessions, h.cache.slots, TaskUpdate(h.task) + ToCome(h), Steady(h))
  }

  // ---------------------------------------------------------------- sessions

  lemma {:induction false} IngestAllAppend(s: CacheState, a: seq<Bytes>, b: seq<Bytes>)
    ensures IngestAll(s, a + b) == IngestAll(IngestAll(s, a), b)
    decreases |b|
  {
    hide Ingested;
    if b == [] {
      assert a + b == a;
    } else {
      assert (a + b)[..|a + b| - 1] == a + b[..|b| - 1];
      IngestAllAppend(s, a, b[..|b| - 1]);
    }
  }

  lemma {:induction false} ReadyStays(s: CacheState, cmds: seq<Command>)
    requires s.ready
    ensures IngestCommands(s, cmds).ready
  {
    if cmds != [] {
      ReadyStays(s, cmds[..|cmds| - 1]);
    }
  }

  lemma {:induction false} ReadyStaysAll(s: CacheState, payloads: seq<Bytes>)
    requires s.ready
    ensures IngestAll(s, payloads).ready
  {
    IngestAllIsLog(s, payloads);
    ReadyStays(s, LogOf(payloads));
  }

  lemma {:induction false} IngestParsed(s: CacheState, payloads: seq<Bytes>)
    requires ParseAll(payloads).Ok?
    ensures IngestAll(s, payloads) == IngestCommands(s, ParseAll(payloads).value)
    decreases |payloads|
  {
    hide Parse, IngestCommands;
    if payloads == [] {
      IngestNothing(s);
    } else {
      var first, rest := payloads[0], payloads[1..];
      assert payloads == [first] + rest;
      IngestAllAppend(s, [first], rest);
      IngestOne(s, first);
      IngestParsed(Ingested(s, first), rest);
      IngestAppend(s, Parse(first).value, ParseAll(rest).value);
    }
  }

  lemma IngestNothing(s: CacheState)
    ensures IngestCommands(s, []) == s && IngestAll(s, []) == s
  {
  }

  lemma IngestOne(s: CacheState, payload: Bytes)
    ensures IngestAll(s, [payload]) == Ingested(s, payload)
  {
    hide Ingested;
    assert [payload][..0] == [];
  }

  /** A dump sent to a client fits the wire, makes it ready, and is the whole cache. */
  lemma DumpSends(s: CacheState)
    requires CacheInv(s)
    ensures AllFit(Pack(Dump(s))) && SendsReady(Dump(s)) && View(Pack(Dump(s))) == s.slots
  {
    hide Pack, View, Grouped;
    DumpView(s);
    DumpIsFramed(s);
    var cmds := DumpCommands(s);
    DumpCommandsFit(s);
    var groups := PackGroups(cmds);
    PackedFits(Pack(Dump(s)), cmds, groups);
    PackedParses(cmds);
    forall t: CacheState
      ensures IngestAll(t, Pack(Dump(s))).ready
    {
      IngestParsed(t, Pack(Dump(s)));
      EndsReady(t, s);
    }
  }

  lemma EndsReady(t: CacheState, s: CacheState)
    requires Valid(s)
    ensures IngestCommands(t, DumpCommands(s)).ready
  {
    ClassesDisjoint(INIT_COMPLETE);
    hide StoredCommands, Valid, Store;
  }

  lemma DumpCommandsFit(s: CacheState)
    requires CacheInv(s)
    ensures forall c :: c in DumpCommands(s) ==> |c.raw| <= MAX_PAYLOAD
  {
    StoredIsFramed(s);
    SyntheticIncmParses();
    forall c | c in DumpCommands(s)
      ensures |c.raw| <= MAX_PAYLOAD
    {
      if c in StoredCommands(s) {
        var i :| 0 <= i < |s.keys| && StoredCommands(s)[i] == c;
        assert s.keys[i] in s.slots;
      }
    }
  }

  /** Appending payloads to an opened session appends their update to its view. */
  lemma SessionGrows(s: Session, more: seq<Bytes>, slots: map<CacheKey, Bytes>, toCome: map<CacheKey, Bytes>,
                     rest: map<CacheKey, Bytes>, steady: bool)
    requires s.isOpen && SessionInv(s, slots, toCome, steady)
    requires AllFit(more) && View(more).Keys <= slots.Keys && toCome == View(more) + rest
    ensures SessionInv(QueueOn(s, more), slots, rest, steady)
  {
    ViewAppend(s.queued, more);
    OverrideAssociates(View(s.queued), View(more), rest);
    IngestAllAppend(EMPTY, s.queued, more);
    ReadyStaysAll(IngestAll(EMPTY, s.queued), more);
    hide View, IngestAll;
  }

  /** Delivering the held event: a client that is skipped loses nothing that a view would show. */
  lemma EventDelivered(s: Session, a: Addr, e: UpstreamEvent, owner: Option<Addr>, slots: map<CacheKey, Bytes>,
                       rest: map<CacheKey, Bytes>, steady: bool)
    requires Wholesome(e) && EventUpdate(e).Keys <= slots.Keys
    requires SessionInv(s, slots, EventUpdate(e) + rest, steady)
    ensures SessionInv(GivenEvent(s, a, e, owner), slots, rest, steady)
  {
    if Receives(s, a, e, owner) {
      ViewOfOne(e.payload);
      assert AllFit([e.payload]);
      hide View, UpdateOf, AllFit, SessionInv;
      assert EventUpdate(e) == View([e.payload]);
      SessionGrows(s, [e.payload], slots, EventUpdate(e) + rest, rest, steady);
    } else {
      hide View, UpdateOf, IngestAll, AllFit;
      if s.isOpen {
        assert map[] + rest == rest;
      }
    }
  }

  lemma DumpDelivered(s: Session, dump: seq<Bytes>, slots: map<CacheKey, Bytes>, rest: map<CacheKey, Bytes>, steady: bool)
    requires AllFit(Pack(dump)) && View(Pack(dump)).Keys <= slots.Keys
    requires SessionInv(s, slots, View(Pack(dump)) + rest, steady)
    ensures SessionInv(GivenDump(s, dump), slots, rest, steady)
  {
    if s.isOpen {
      SessionGrows(s, Pack(dump), slots, View(Pack(dump)) + rest, rest, steady);
    }
    hide View, Pack, IngestAll, AllFit;
  }

  /** A client opening at any moment: its dump already holds what is still to come. */
  lemma OpenedInv(s: Session, c: CacheState, toCome: map<CacheKey, Bytes>, steady: bool)
    requires CacheInv(c)
    requires steady ==> c.slots + toCome == c.slots
    requires SessionInv(s, c.slots, toCome, steady)
    ensures SessionInv(Opened(s, Dump(c)), c.slots, toCome, steady)
  {
    hide Pack, View, Dump, IngestAll;
    if !s.isOpen {
      DumpSends(c);
      assert [] + Pack(Dump(c)) == Pack(Dump(c));
    }
  }

  /** The cache takes in more: every view is as far behind as the new pending update says. */
  lemma SessionIngests(s: Session, slots: map<CacheKey, Bytes>, toCome: map<CacheKey, Bytes>,
                       update: map<CacheKey, Bytes>, steady: bool)
    requires SessionInv(s, slots, toCome, steady)
    ensures SessionInv(s, slots + update, toCome + update, steady)
  {
    OverrideAssociates(View(s.queued), toCome, update);
    hide View, IngestAll, AllFit;
  }

  // ---------------------------------------------------------------- every step keeps the invariant

  ghost predicate SessionFits(h: Hub, s: Session) {
    SessionInv(s, h.cache.slots, TaskUpdate(h.task) + ToCome(h), Steady(h))
  }

  lemma PutSession(h: Hub, addr: Addr, s: Session)
    requires HubInv(h) && SessionFits(h, s)
    ensures HubInv(h.(sessions := h.sessions[addr := s]))
  {
    hide SessionInv, TaskUpdate, Pending, CacheInv, AllWholesome, TaskWholesome, Coming;
  }

  lemma FreshSession(slots: map<CacheKey, Bytes>, toCome: map<CacheKey, Bytes>, steady: bool)
    ensures SessionInv(NEW_SESSION, slots, toCome, steady)
  {
  }

  lemma HandshakeKeeps(h: Hub, addr: Addr)
    requires HubInv(h)
    ensures HubInv(After(h, Handshake(addr)))
  {
    hide HubInv, SessionInv;
    FreshSession(h.cache.slots, TaskUpdate(h.task) + ToCome(h), Steady(h));
    PutSession(h, addr, NEW_SESSION);
  }

  lemma AckedKeeps(h: Hub, addr: Addr)
    requires HubInv(h)
    ensures HubInv(After(h, Acked(addr)))
  {
    hide SessionInv, TaskUpdate, Pending, Valid, AllWholesome, TaskWholesome, Opened;
    if addr in h.sessions {
      OpenedInv(h.sessions[addr], h.cache, TaskUpdate(h.task) + ToCome(h), Steady(h));
      PutSession(h, addr, Opened(h.sessions[addr], Dump(h.cache)));
    }
  }

  lemma SetAudioKeeps(h: Hub, addr: Addr, on: bool)
    requires HubInv(h)
    ensures HubInv(After(h, SetAudio(addr, on)))
  {
    hide SessionInv, TaskUpdate, Pending, CacheInv, AllWholesome, TaskWholesome, Coming;
    if addr in h.sessions {
      AudioFlagOnly(h.sessions[addr], on, h.cache.slots, TaskUpdate(h.task) + ToCome(h), Steady(h));
      PutSession(h, addr, h.sessions[addr].(audio := on));
    }
  }

  lemma TimedOutKeeps(h: Hub, addr: Addr)
    requires HubInv(h)
    ensures HubInv(After(h, TimedOut(addr)))
  {
    hide SessionInv, TaskUpdate, Pending, CacheInv, AllWholesome, TaskWholesome, Coming;
  }

  lemma AudioFlagOnly(s: Session, on: bool, slots: map<CacheKey, Bytes>, toCome: map<CacheKey, Bytes>, steady: bool)
    requires SessionInv(s, slots, toCome, steady)
    ensures SessionInv(s.(audio := on), slots, toCome, steady)
  {
    hide View, IngestAll, AllFit;
  }

  lemma NothingNow(later: map<CacheKey, Bytes>)
    ensures map[] + later == later
  {
  }

  /** The task is done: what it had to write is in the views, and only the queue is still to come. */
  lemma TaskDone(h: Hub, sessions: Sessions)
    requires HubInv(h) && !h.task.LagSeen?
    requires SessionsInv(sessions, h.cache.slots, ToCome(h), Steady(h))
    ensures HubInv(h.(task := Idle, sessions := sessions))
  {
    hide SessionsInv, Pending, CacheInv, AllWholesome;
    var h' := h.(task := Idle, sessions := sessions);
    NothingNow(ToCome(h));
    assert ToCome(h') == ToCome(h) && TaskUpdate(h'.task) == map[];
    assert Coming(h.cache.slots, map[], ToCome(h), Steady(h'));
  }

  lemma EventFannedOut(h: Hub, owner: Option<Addr>)
    requires HubInv(h) && h.task.Holding?
    ensures HubInv(After(h, Deliver(owner)))
  {
    hide SessionInv, Pending, CacheInv, AllWholesome, EventUpdate, GivenEvent, Wholesome;
    var e := h.task.event;
    var sessions := FannedOut(h.sessions, e, owner);
    forall a | a in sessions
      ensures SessionInv(sessions[a], h.cache.slots, ToCome(h), Steady(h))
    {
      EventDelivered(h.sessions[a], a, e, owner, h.cache.slots, ToCome(h), Steady(h));
    }
    TaskDone(h, sessions);
    hide HubInv, FannedOut;
  }

  lemma DumpFannedOut(h: Hub, owner: Option<Addr>)
    requires HubInv(h) && h.task.Resync?
    ensures HubInv(After(h, Deliver(owner)))
  {
    hide SessionInv, Pending, CacheInv, AllWholesome, View, GivenDump, SendsReady, AllFit;
    var dump := h.task.dump;
    var sessions := Resynced(h.sessions, dump);
    forall a | a in sessions
      ensures SessionInv(sessions[a], h.cache.slots, ToCome(h), Steady(h))
    {
      DumpDelivered(h.sessions[a], dump, h.cache.slots, ToCome(h), Steady(h));
    }
    TaskDone(h, sessions);
    hide HubInv, Resynced;
  }

  lemma DeliverKeeps(h: Hub, owner: Option<Addr>)
    requires HubInv(h)
    ensures HubInv(After(h, Deliver(owner)))
  {
    hide HubInv, FannedOut, Resynced;
    if h.task.Holding? {
      EventFannedOut(h, owner);
    } else if h.task.Resync? {
      DumpFannedOut(h, owner);
    }
  }

  /** Whatever a client missed, the whole cache followed by the pending events makes up for it. */
  lemma ResyncCoversAll(s: Session, slots: map<CacheKey, Bytes>, before: map<CacheKey, Bytes>,
                        later: map<CacheKey, Bytes>, steady: bool)
    requires SessionInv(s, slots, before, false) && slots + later == slots
    ensures SessionInv(s, slots, slots + later, steady)
  {
    hide View, IngestAll, AllFit;
    OverrideAll(View(s.queued), slots, later);
  }

  lemma TakeDumpKeeps(h: Hub)
    requires HubInv(h)
    ensures HubInv(After(h, TakeDump))
  {
    hide SessionInv, Pending, Valid, AllWholesome, View, Dump, Pack, AllFit, SendsReady;
    if h.task.LagSeen? {
      var slots, later, h' := h.cache.slots, ToCome(h), After(h, TakeDump);
      DumpSends(h.cache);
      OverrideAll(slots, slots, later);
      assert TaskUpdate(h'.task) == slots && ToCome(h') == later;
      forall a | a in h.sessions
        ensures SessionInv(h.sessions[a], slots, slots + later, Steady(h'))
      {
        ResyncCoversAll(h.sessions[a], slots, map[] + later, later, Steady(h'));
      }
    }
  }

  lemma LagNoticed(h: Hub)
    requires HubInv(h) && h.task.Idle? && h.lagged
    ensures HubInv(h.(lagged := false, task := LagSeen))
  {
    hide SessionInv, Pending, CacheInv, AllWholesome;
    var h' := h.(lagged := false, task := LagSeen);
    assert ToCome(h') == ToCome(h) && !Steady(h') && !Steady(h);
  }

  lemma EventTaken(h: Hub)
    requires HubInv(h) && h.task.Idle? && !h.lagged && h.queue != []
    ensures HubInv(h.(queue := h.queue[1..], task := Holding(h.queue[0])))
  {
    var e, h' := h.queue[0], h.(queue := h.queue[1..], task := Holding(h.queue[0]));
    EventLeavesQueue(h.queue, h.unpublished);
    hide SessionInv, Pending, CacheInv, EventUpdate, Wholesome;
    var now, later, slots := EventUpdate(e), ToCome(h'), h.cache.slots;
    assert ToCome(h) == now + later;
    NothingNow(ToCome(h));
    OverrideSuffix(slots, now, later);
    assert now.Keys <= slots.Keys by {
      assert now.Keys <= (slots + (now + later)).Keys;
    }
    assert Steady(h') && Steady(h);
  }

  lemma EventLeavesQueue(queue: seq<UpstreamEvent>, unpublished: seq<UpstreamEvent>)
    requires queue != [] && AllWholesome(queue + unpublished)
    ensures Pending(queue + unpublished) == EventUpdate(queue[0]) + Pending(queue[1..] + unpublished)
    ensures Wholesome(queue[0]) && AllWholesome(queue[1..] + unpublished)
  {
    hide Wholesome, EventUpdate;
    assert (queue + unpublished)[1..] == queue[1..] + unpublished;
    assert (queue + unpublished)[0] in queue + unpublished;
    assert forall e :: e in queue[1..] + unpublished ==> e in queue + unpublished;
  }

  lemma ReceiveKeeps(h: Hub)
    requires HubInv(h)
    ensures HubInv(After(h, Receive))
  {
    hide HubInv;
    if h.task.Idle? && h.lagged {
      LagNoticed(h);
    } else if h.task.Idle? && h.queue != [] {
      EventTaken(h);
    }
  }

  // ---------------------------------------------------------------- upstream steps

  lemma NotSteady(s: Session, slots: map<CacheKey, Bytes>, toCome: map<CacheKey, Bytes>,
                  other: map<CacheKey, Bytes>, steady: bool)
    requires SessionInv(s, slots, toCome, steady)
    ensures SessionInv(s, slots, other, false)
  {
    hide View, IngestAll, AllFit;
  }

  /** An event moves from the upstream task to the channel. If the channel is full its oldest event is
      lost, and the state is no longer steady: the task will be told, and will resynchronise. */
  lemma SentKeeps(h: Hub, e: UpstreamEvent, rest: seq<UpstreamEvent>)
    requires HubInv(h) && h.unpublished == [e] + rest
    ensures HubInv(Sent(h.(unpublished := rest), e))
  {
    var h' := Sent(h.(unpublished := rest), e);
    var all := h.queue + h.unpublished;
    if |h.queue| < CAPACITY {
      assert h'.queue + h'.unpublished == all;
      hide SessionsInv, Pending, CacheInv, AllWholesome, TaskWholesome, Coming;
    } else {
      assert h'.queue + h'.unpublished == h.queue[1..] + h.unpublished;
      EventLeavesQueue(h.queue, h.unpublished);
      hide SessionInv, Pending, CacheInv, EventUpdate, TaskWholesome, TaskUpdate, Wholesome;
      OverrideSuffix(h.cache.slots, EventUpdate(h.queue[0]), ToCome(h'));
      forall a | a in h.sessions
        ensures SessionInv(h.sessions[a], h.cache.slots, TaskUpdate(h.task) + ToCome(h'), false)
      {
        NotSteady(h.sessions[a], h.cache.slots, TaskUpdate(h.task) + ToCome(h),
                  TaskUpdate(h.task) + ToCome(h'), Steady(h));
      }
    }
  }

  lemma ReadyIsOutside(h: Hub, finishing: bool, connected: bool, ready: bool)
    requires HubInv(h)
    ensures HubInv(h.(cache := h.cache.(ready := ready), finishing := finishing, connected := connected))
  {
    hide SessionsInv, Pending, TaskWholesome, Coming, AllWholesome, StoredUnder;
  }

  lemma ConnectedPending(queue: seq<UpstreamEvent>)
    ensures Pending(queue + [Connected]) == Pending(queue)
    ensures AllWholesome(queue) ==> AllWholesome(queue + [Connected])
  {
    PendingAppend(queue, [Connected]);
    PendingOfOne(Connected);
    hide Pending;
  }

  lemma ConnectedWritesNothing(h: Hub)
    requires HubInv(h) && h.unpublished == []
    ensures HubInv(h.(unpublished := [Connected]))
  {
    hide SessionsInv, Pending, CacheInv, TaskWholesome, TaskUpdate, Coming, AllWholesome;
    ConnectedPending(h.queue);
    assert h.queue + [] == h.queue;
  }

  lemma PublishKeeps(h: Hub)
    requires HubInv(h)
    ensures HubInv(After(h, Publish))
  {
    hide HubInv, Sent;
    if h.unpublished != [] {
      assert h.unpublished == [h.unpublished[0]] + h.unpublished[1..];
      SentKeeps(h, h.unpublished[0], h.unpublished[1..]);
    } else if h.finishing {
      var ready := h.(cache := h.cache.(ready := true), finishing := false, connected := true);
      ReadyIsOutside(h, false, true, true);
      if !h.connected {
        ConnectedWritesNothing(ready);
        assert [Connected] == [Connected] + [];
        SentKeeps(ready.(unpublished := [Connected]), Connected, []);
        assert ready.(unpublished := [Connected]).(unpublished := []) == ready;
      }
    }
  }

  lemma StateChunkFits(payload: Bytes)
    ensures |StateChunk(payload)| <= |payload|
  {
    if Parse(payload).Ok? {
      ParseIffFraming(payload, Parse(payload).value);
      RoutedLength(Parse(payload).value, ToState);
    }
    hide Parse, Routed, Joined;
  }

  lemma {:induction false} IngestKeepsSmall(s: CacheState, cmds: seq<Command>)
    requires CacheInv(s) && AllFramed(cmds) && forall c :: c in cmds ==> |c.raw| <= MAX_PAYLOAD
    ensures CacheInv(IngestCommands(s, cmds))
  {
    IngestKeepsValid(s, cmds);
    hide Valid, KeyOf, Skipped, Framed, ParseVersion;
    if cmds != [] {
      IngestKeepsSmall(s, cmds[..|cmds| - 1]);
      assert cmds[|cmds| - 1] in cmds;
    }
  }

  lemma {:induction false} RawsWithin(cmds: seq<Command>)
    ensures forall c :: c in cmds ==> |c.raw| <= |Joined(cmds)|
  {
    if cmds != [] {
      assert cmds == [cmds[0]] + cmds[1..];
      JoinedCons(cmds[0], cmds[1..]);
      RawsWithin(cmds[1..]);
      hide Joined;
    }
  }

  lemma IngestedInv(s: CacheState, payload: Bytes)
    requires CacheInv(s) && |payload| <= MAX_PAYLOAD
    ensures CacheInv(Ingested(s, payload))
  {
    hide CacheInv, Parse, IngestCommands, Joined, AllFramed;
    if Parse(payload).Ok? {
      var cmds := Parse(payload).value;
      ParseIffFraming(payload, cmds);
      RawsWithin(cmds);
      IngestKeepsSmall(s, cmds);
    }
  }

  lemma IngestKeeps(h: Hub, datagram: Bytes)
    requires HubInv(h)
    ensures HubInv(After(h, Ingest(datagram)))
  {
    hide HubInv, DecodePacket, Ingested, StateChunk, EventsOf, SawReady;
    if h.unpublished == [] && !h.finishing && DecodePacket(datagram).Ok? {
      PayloadIngested(h, DecodePacket(datagram).value.payload, SawReady(DecodePacket(datagram).value.payload));
    }
  }

  lemma ComingIngests(slots: map<CacheKey, Bytes>, now: map<CacheKey, Bytes>, later: map<CacheKey, Bytes>,
                      update: map<CacheKey, Bytes>, steady: bool)
    requires Coming(slots, now, later, steady)
    ensures Coming(slots + update, now, later + update, steady)
  {
    OverrideTwice(slots, later, update);
    if steady {
      OverrideTwice(slots, now + later, update);
      OverrideAssociates(now, later, update);
    }
  }

  /** The cache takes in the state chunk, and the events that carry the same update become pending. */
  lemma PayloadIngested(h: Hub, payload: Bytes, finishing: bool)
    requires HubInv(h) && h.unpublished == [] && |payload| <= MAX_PAYLOAD
    ensures HubInv(h.(cache := Ingested(h.cache, StateChunk(payload)), unpublished := EventsOf(payload),
                      finishing := finishing))
  {
    var h' := h.(cache := Ingested(h.cache, StateChunk(payload)), unpublished := EventsOf(payload),
                 finishing := finishing);
    var update, now, later := UpdateOf(StateChunk(payload)), TaskUpdate(h.task), ToCome(h);
    hide Ingested, StateChunk, EventsOf, Pending, SessionInv, CacheInv, TaskWholesome, TaskUpdate, UpdateOf,
      Coming, Wholesome;
    StateChunkFits(payload);
    IngestedInv(h.cache, StateChunk(payload));
    IngestPayloadIsOverride(h.cache, StateChunk(payload));
    EventsUpdate(payload);
    EventsWholesome(payload);
    assert h.queue + [] == h.queue;
    PendingAppend(h.queue, EventsOf(payload));
    assert ToCome(h') == later + update;
    ComingIngests(h.cache.slots, now, later, update, Steady(h));
    OverrideAssociates(now, later, update);
    forall a | a in h.sessions
      ensures SessionInv(h.sessions[a], h.cache.slots + update, now + (later + update), Steady(h))
    {
      SessionIngests(h.sessions[a], h.cache.slots, now + later, update, Steady(h));
    }
  }

  lemma StepKeeps(h: Hub, step: Step)
    requires HubInv(h)
    ensures HubInv(After(h, step))
  {
    hide HubInv, After;
    match step
    case Ingest(datagram) => IngestKeeps(h, datagram);
    case Publish => PublishKeeps(h);
    case Receive => ReceiveKeeps(h);
    case TakeDump => TakeDumpKeeps(h);
    case Deliver(owner) => DeliverKeeps(h, owner);
    case Handshake(addr) => HandshakeKeeps(h, addr);
    case Acked(addr) => AckedKeeps(h, addr);
    case SetAudio(addr, on) => SetAudioKeeps(h, addr, on);
    case TimedOut(addr) => TimedOutKeeps(h, addr);
  }
}
