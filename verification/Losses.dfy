/** What an overflow of the broadcast channel loses: over any run of the hub, exactly the levels and transfer commands
    in the events that were pushed out. A resync dump makes up for state alone. */
module Losses {
  import opened Wire
  import opened Commands
  import opened Reliable
  import opened Packing
  import opened Cache
  import opened Locks
  import opened Upstream
  import opened FanOut
  import opened Convergence
  import opened Routing
  import opened Streams

  /** The event that a step pushes out of the channel, which holds 512. */
  function LostBy(h: Hub, step: Step): seq<UpstreamEvent> {
    if step.Publish? && (h.unpublished != [] || (h.finishing && !h.connected)) && |h.queue| >= 512 then [h.queue[0]]
    else []
  }

  /** The events that a run pushes out, in order. */
  ghost function LostIn(h: Hub, steps: seq<Step>): seq<UpstreamEvent>
    requires HubInv(h)
    decreases |steps|
  {
    hide HubInv, After;
    if steps == [] then []
    else
      InvIsValid(h);
      StepKeeps(h, steps[0]);
      LostBy(h, steps[0]) + LostIn(After(h, steps[0]), steps[1..])
  }

  /** How often each command of the stream occurs. */
  ghost function Bag(cmds: seq<Command>, stream: Stream): multiset<Command> {
    multiset(Only(cmds, stream))
  }

  ghost function PipeBag(h: Hub, stream: Stream): multiset<Command> {
    Bag(CommandsOf(OnItsWay(h)), stream)
  }

  lemma BagAppend(a: seq<Command>, b: seq<Command>, stream: Stream)
    ensures Bag(a + b, stream) == Bag(a, stream) + Bag(b, stream) && Bag([], stream) == multiset{}
  {
    OnlyAppend(a, b, stream);
    OnlyNothing(stream);
    hide Only;
  }

  lemma EventsBag(a: seq<UpstreamEvent>, b: seq<UpstreamEvent>, stream: Stream)
    ensures Bag(CommandsOf(a + b), stream) == Bag(CommandsOf(a), stream) + Bag(CommandsOf(b), stream)
    ensures Bag(CommandsOf([]), stream) == multiset{}
    ensures Bag(CommandsOf([Connected]), stream) == multiset{}
  {
    hide Bag, CommandsOf;
    CommandsAppend(a, b);
    BagAppend(CommandsOf(a), CommandsOf(b), stream);
    CommandsOfOne(Connected);
    NothingInEvents();
  }

  predicate IsLive(stream: Stream) {
    stream == LevelsStream || stream == TransferStream
  }

  /** The step leaves the client its session, and what it needs to be given the stream. */
  predicate Grants(h: Hub, step: Step, addr: Addr, stream: Stream) {
    match step
    case Handshake(a) => a != addr
    case TimedOut(a) => a != addr
    case SetAudio(a, on) => a == addr && stream == LevelsStream ==> on
    case Deliver(owner) =>
      stream == TransferStream && h.task.Holding? && h.task.event.TransferPayload? ==> owner == Some(addr)
    case _ => true
  }

  predicate Granted(h: Hub, addr: Addr, stream: Stream) {
    IsOpenAt(h, addr) && (stream == LevelsStream ==> h.sessions[addr].audio)
  }

  /** Each event holds its own stream, and a dump that is about to be queued holds none of this one. */
  ghost predicate PureHub(h: Hub, stream: Stream) {
    AllPure(OnItsWay(h), stream) && (h.task.Resync? ==> Only(LogOf(Pack(h.task.dump)), stream) == [])
  }

  // ---------------------------------------------------------------- dumps

  lemma {:induction false} ParseAllIsLog(payloads: seq<Bytes>)
    requires ParseAll(payloads).Ok?
    ensures LogOf(payloads) == ParseAll(payloads).value
    decreases |payloads|
  {
    hide Parse, LogOf;
    if payloads == [] {
      LogOfOne([]);
    } else {
      assert payloads == [payloads[0]] + payloads[1..];
      LogAppend([payloads[0]], payloads[1..]);
      LogOfOne(payloads[0]);
      ParseAllIsLog(payloads[1..]);
    }
  }

  lemma {:induction false} OnlyWithout(cmds: seq<Command>, stream: Stream)
    requires forall c :: c in cmds ==> StreamOf(c.name) != stream
    ensures Only(cmds, stream) == []
  {
    hide StreamOf;
    if cmds != [] {
      assert cmds[|cmds| - 1] in cmds;
      OnlyWithout(cmds[..|cmds| - 1], stream);
    }
  }

  /** A packed dump holds neither levels nor transfers. */
  lemma DumpIsState(s: CacheState, stream: Stream)
    requires Valid(s) && IsLive(stream)
    ensures Only(LogOf(Pack(Dump(s))), stream) == []
  {
    hide Valid, DumpCommands, Dump, Pack, ParseAll, StreamOf, RouteOf, LogOf, Only;
    DumpIsFramed(s);
    PackedParses(DumpCommands(s));
    ParseAllIsLog(Pack(Dump(s)));
    DumpCommandsRoute(s, RouteFor(stream));
    forall c | c in DumpCommands(s)
      ensures StreamOf(c.name) != stream
    {
      RouteIsStream(c.name, stream);
    }
    OnlyWithout(DumpCommands(s), stream);
  }

  // ---------------------------------------------------------------- one step

  lemma PublishPushes(h: Hub)
    requires Valid(h.cache)
    ensures var t := if h.task.Holding? then [h.task.event] else []; var rest := h.queue + h.unpublished;
            var on := OnItsWay(After(h, Publish));
            && OnItsWay(h) == t + rest
            && (LostBy(h, Publish) == [] ==> on == OnItsWay(h) || on == OnItsWay(h) + [Connected])
            && (LostBy(h, Publish) != [] ==>
                  && rest != [] && LostBy(h, Publish) == [rest[0]]
                  && (on == t + rest[1..] || on == t + (rest[1..] + [Connected])))
  {
    hide Valid;
    var e := if h.unpublished != [] then h.unpublished[0] else Connected;
    if h.unpublished != [] {
      assert h.queue + h.unpublished == (h.queue + [e]) + h.unpublished[1..];
      assert h.queue != [] ==> (h.queue[1..] + [e]) + h.unpublished[1..] == (h.queue + h.unpublished)[1..];
    } else {
      assert h.queue + [] == h.queue && h.queue + [Connected] + [] == h.queue + [Connected];
      assert h.queue != [] ==> (h.queue[1..] + [Connected]) + [] == (h.queue + [])[1..] + [Connected];
    }
    assert OnItsWay(h) + [] == OnItsWay(h);
  }

  lemma PushBag(t: seq<UpstreamEvent>, rest: seq<UpstreamEvent>, on: seq<UpstreamEvent>, lost: seq<UpstreamEvent>,
                stream: Stream)
    requires if lost == [] then on == t + rest || on == t + rest + [Connected]
             else rest != [] && lost == [rest[0]] && (on == t + rest[1..] || on == t + (rest[1..] + [Connected]))
    ensures Bag(CommandsOf(on), stream) + Bag(CommandsOf(lost), stream) == Bag(CommandsOf(t + rest), stream)
    ensures AllPure(t + rest, stream) ==> AllPure(on, stream)
  {
    ConnectedIsPure(stream);
    hide Bag, CommandsOf, Pure;
    EventsBag(t + rest, [Connected], stream);
    if lost != [] {
      assert rest == [rest[0]] + rest[1..];
      EventsBag(t, rest, stream);
      EventsBag([rest[0]], rest[1..], stream);
      EventsBag(t, rest[1..], stream);
      EventsBag(t, rest[1..] + [Connected], stream);
      EventsBag(rest[1..], [Connected], stream);
    }
  }

  lemma PublishBag(h: Hub, stream: Stream)
    requires Valid(h.cache)
    ensures PipeBag(After(h, Publish), stream) + Bag(CommandsOf(LostBy(h, Publish)), stream) == PipeBag(h, stream)
    ensures PureHub(h, stream) ==> PureHub(After(h, Publish), stream)
  {
    PublishPushes(h);
    PublishKeepsTask(h);
    hide Valid, After, OnItsWay, LostBy, Bag, CommandsOf, AllPure, Only, LogOf, Pack;
    var t := if h.task.Holding? then [h.task.event] else [];
    PushBag(t, h.queue + h.unpublished, OnItsWay(After(h, Publish)), LostBy(h, Publish), stream);
  }

  lemma PublishKeepsTask(h: Hub)
    requires Valid(h.cache)
    ensures After(h, Publish).task == h.task && After(h, Publish).sessions == h.sessions
  {
    hide Valid;
  }

  lemma ConnectedIsPure(stream: Stream)
    ensures Pure(Connected, stream)
  {
    OnlyNothing(stream);
  }

  lemma IngestBag(h: Hub, datagram: Bytes, stream: Stream)
    requires Valid(h.cache) && stream != ReadyStream
    ensures PipeBag(After(h, Ingest(datagram)), stream)
         == PipeBag(h, stream) + Bag(LogOf(LoggedBy(h, Ingest(datagram))), stream)
    ensures PureHub(h, stream) ==> PureHub(After(h, Ingest(datagram)), stream)
  {
    hide Valid, After, OnItsWay, LoggedBy, Only, CommandsOf, AllPure, LogOf, EventsOfAll, Pack, Bag;
    var log := LoggedBy(h, Ingest(datagram));
    IngestJoins(h, datagram);
    IngestKeepsTask(h, datagram);
    LogStreams(log, stream);
    SameBags(CommandsOf(EventsOfAll(log)), LogOf(log), stream);
    EventsBag(OnItsWay(h), EventsOfAll(log), stream);
    BothPure(OnItsWay(h), EventsOfAll(log), stream);
  }

  lemma SameBags(a: seq<Command>, b: seq<Command>, stream: Stream)
    requires Only(a, stream) == Only(b, stream)
    ensures Bag(a, stream) == Bag(b, stream)
  {
    hide Only;
  }

  lemma BothPure(a: seq<UpstreamEvent>, b: seq<UpstreamEvent>, stream: Stream)
    requires AllPure(b, stream)
    ensures AllPure(a, stream) ==> AllPure(a + b, stream)
  {
    hide Pure;
  }

  lemma IngestKeepsTask(h: Hub, datagram: Bytes)
    requires Valid(h.cache)
    ensures After(h, Ingest(datagram)).task == h.task && After(h, Ingest(datagram)).sessions == h.sessions
  {
    hide Valid, EventsOf, Ingested, StateChunk, SawReady, Packets.DecodePacket;
  }

  /** What one delivery gives to a client that is granted the stream. */
  lemma DeliverBag(h: Hub, owner: Option<Addr>, addr: Addr, stream: Stream)
    requires Valid(h.cache) && IsLive(stream) && PureHub(h, stream) && Granted(h, addr, stream)
    requires Grants(h, Deliver(owner), addr, stream)
    ensures var h' := After(h, Deliver(owner));
            && Granted(h', addr, stream) && PureHub(h', stream)
            && Bag(LogOf(h'.sessions[addr].queued), stream) + PipeBag(h', stream)
               == Bag(LogOf(h.sessions[addr].queued), stream) + PipeBag(h, stream)
  {
    hide Valid, After, Bag, CommandsOf, GivenEvent, LogOf, Only, Pack, AllPure, OnItsWay, GivenDump;
    DeliverDoes(h, owner, addr);
    var s, on := h.sessions[addr], OnItsWay(After(h, Deliver(owner)));
    match h.task
    case Holding(e) =>
      EventsBag([e], on, stream);
      CommandsOfOne(e);
      PureRest(e, on, stream);
      EventGiven(s, addr, e, owner, stream);
    case Resync(dump) => DumpGiven(s, dump, stream);
    case _ =>
  }

  lemma PureRest(e: UpstreamEvent, rest: seq<UpstreamEvent>, stream: Stream)
    requires AllPure([e] + rest, stream)
    ensures Pure(e, stream) && AllPure(rest, stream)
  {
    hide Pure;
    assert ([e] + rest)[0] == e;
    assert forall x :: x in rest ==> x in [e] + rest;
  }

  lemma DeliverDoes(h: Hub, owner: Option<Addr>, addr: Addr)
    requires Valid(h.cache) && addr in h.sessions
    ensures var h', s := After(h, Deliver(owner)), h.sessions[addr];
            && addr in h'.sessions
            && (h.task.Holding? ==> h'.task.Idle? && h'.sessions[addr] == GivenEvent(s, addr, h.task.event, owner)
                                    && OnItsWay(h) == [h.task.event] + OnItsWay(h'))
            && (h.task.Resync? ==> h'.task.Idle? && h'.sessions[addr] == GivenDump(s, h.task.dump)
                                   && OnItsWay(h) == OnItsWay(h'))
            && (!h.task.Holding? && !h.task.Resync? ==> h' == h)
  {
    hide Valid, GivenEvent, GivenDump;
  }

  lemma DumpGiven(s: Session, dump: seq<Bytes>, stream: Stream)
    requires Only(LogOf(Pack(dump)), stream) == []
    ensures var t := GivenDump(s, dump);
            && t.isOpen == s.isOpen && t.audio == s.audio
            && Bag(LogOf(t.queued), stream) == Bag(LogOf(s.queued), stream)
  {
    LogAppend(s.queued, Pack(dump));
    BagAppend(LogOf(s.queued), LogOf(Pack(dump)), stream);
    hide LogOf, Only, Pack;
  }

  lemma EventGiven(s: Session, addr: Addr, e: UpstreamEvent, owner: Option<Addr>, stream: Stream)
    requires IsLive(stream) && s.isOpen && (stream == LevelsStream ==> s.audio) && Pure(e, stream)
    requires stream == TransferStream && e.TransferPayload? ==> owner == Some(addr)
    ensures var t := GivenEvent(s, addr, e, owner);
            && t.isOpen && t.audio == s.audio
            && Bag(LogOf(t.queued), stream) == Bag(LogOf(s.queued), stream) + Bag(EventCommands(e), stream)
  {
    hide LogOf, Only, ParsedOrNone;
    if Receives(s, addr, e, owner) {
      LogAppend(s.queued, [e.payload]);
      LogOfOne(e.payload);
      BagAppend(LogOf(s.queued), ParsedOrNone(e.payload), stream);
    } else {
      OnlyNothing(stream);
    }
  }

  lemma StepBag(h: Hub, step: Step, addr: Addr, stream: Stream)
    requires Valid(h.cache) && IsLive(stream) && PureHub(h, stream) && Granted(h, addr, stream)
    requires Grants(h, step, addr, stream)
    ensures var h' := After(h, step);
            && Granted(h', addr, stream) && PureHub(h', stream)
            && Bag(LogOf(h'.sessions[addr].queued), stream) + PipeBag(h', stream) + Bag(CommandsOf(LostBy(h, step)), stream)
               == Bag(LogOf(h.sessions[addr].queued), stream) + PipeBag(h, stream) + Bag(LogOf(LoggedBy(h, step)), stream)
  {
    EventsBag([], [], stream);
    BagAppend([], [], stream);
    LogOfOne([]);
    match step
    case Ingest(datagram) =>
      IngestBag(h, datagram, stream);
      IngestKeepsTask(h, datagram);
      hide Valid, After, Bag, PipeBag, CommandsOf, LogOf, PureHub;
    case Publish =>
      PublishBag(h, stream);
      PublishKeepsTask(h);
      hide Valid, After, Bag, PipeBag, CommandsOf, LogOf, PureHub, LostBy;
    case Deliver(owner) =>
      DeliverBag(h, owner, addr, stream);
      hide Valid, After, Bag, PipeBag, CommandsOf, LogOf, PureHub;
    case _ => OtherSteps(h, step, addr, stream);
      hide Valid, After, Bag, PipeBag, CommandsOf, LogOf, PureHub;
  }

  lemma OtherSteps(h: Hub, step: Step, addr: Addr, stream: Stream)
    requires Valid(h.cache) && IsLive(stream) && PureHub(h, stream) && Granted(h, addr, stream)
    requires Grants(h, step, addr, stream) && !step.Ingest? && !step.Publish? && !step.Deliver?
    ensures var h' := After(h, step);
            && Granted(h', addr, stream) && PureHub(h', stream) && OnItsWay(h') == OnItsWay(h)
            && h'.sessions[addr].queued == h.sessions[addr].queued
    ensures LostBy(h, step) == [] && LoggedBy(h, step) == []
  {
    DumpIsState(h.cache, stream);
    OtherStepsKeep(h, step, addr, stream);
    hide Valid, After, AllPure, Only, LogOf, Pack, Dump, OnItsWay, Granted, Grants;
  }

  lemma OtherStepsKeep(h: Hub, step: Step, addr: Addr, stream: Stream)
    requires Valid(h.cache) && Granted(h, addr, stream)
    requires Grants(h, step, addr, stream) && !step.Ingest? && !step.Publish? && !step.Deliver?
    ensures var h' := After(h, step);
            && Granted(h', addr, stream) && OnItsWay(h') == OnItsWay(h)
            && h'.sessions[addr].queued == h.sessions[addr].queued
            && (h'.task.Resync? ==> h'.task == h.task || h'.task == Resync(Dump(h.cache)))
  {
    hide Valid, Pack, Dump;
    if step.Receive? && h.queue != [] {
      assert h.queue + h.unpublished == [h.queue[0]] + (h.queue[1..] + h.unpublished);
    }
  }

  // ---------------------------------------------------------------- every reachable hub is pure

  lemma PipeOfOthers(h: Hub, step: Step)
    requires Valid(h.cache) && !step.Ingest? && !step.Publish?
    ensures var h' := After(h, step);
            && (OnItsWay(h') == OnItsWay(h) || (h.task.Holding? && OnItsWay(h) == [h.task.event] + OnItsWay(h')))
            && (h'.task.Resync? ==> h'.task == h.task || h'.task == Resync(Dump(h.cache)))
  {
    hide Valid, Pack, Dump, FannedOut, Resynced, Opened;
    if step.Receive? && h.queue != [] {
      assert h.queue + h.unpublished == [h.queue[0]] + (h.queue[1..] + h.unpublished);
    }
  }

  lemma PureStays(h: Hub, step: Step, stream: Stream)
    requires Valid(h.cache) && IsLive(stream) && PureHub(h, stream)
    ensures PureHub(After(h, step), stream)
  {
    hide Valid, After, AllPure, Only, LogOf, Pack, Dump, OnItsWay;
    match step
    case Ingest(datagram) =>
      IngestBag(h, datagram, stream);
    case Publish =>
      PublishBag(h, stream);
    case _ =>
      PipeOfOthers(h, step);
      DumpIsState(h.cache, stream);
      if h.task.Holding? && OnItsWay(h) == [h.task.event] + OnItsWay(After(h, step)) {
        PureRest(h.task.event, OnItsWay(After(h, step)), stream);
      }
  }

  lemma {:induction false} RunStaysPure(h: Hub, steps: seq<Step>, stream: Stream)
    requires HubInv(h) && IsLive(stream) && PureHub(h, stream)
    ensures PureHub(Run(h, steps), stream)
    decreases |steps|
  {
    hide HubInv, After, PureHub;
    if steps != [] {
      InvIsValid(h);
      StepKeeps(h, steps[0]);
      PureStays(h, steps[0], stream);
      RunStaysPure(After(h, steps[0]), steps[1..], stream);
    }
  }

  /** At every reachable moment each event on its way holds its own stream alone, so the laws below may start anywhere. */
  lemma ReachedPure(steps: seq<Step>, stream: Stream)
    requires IsLive(stream)
    ensures PureHub(Reached(steps), stream)
  {
    hide HubInv, Run, PureHub;
    StartInv();
    StartPure(stream);
    RunStaysPure(START, steps, stream);
  }

  lemma StartPure(stream: Stream)
    ensures PureHub(START, stream)
  {
  }

  // ---------------------------------------------------------------- runs

  /** Over the whole run the client keeps its session and what it needs to be given the stream. */
  ghost predicate GrantsAll(h: Hub, steps: seq<Step>, addr: Addr, stream: Stream)
    requires HubInv(h)
    decreases |steps|
  {
    hide HubInv;
    steps == [] ||
    (InvIsValid(h);
     StepKeeps(h, steps[0]);
     Grants(h, steps[0], addr, stream) && GrantsAll(After(h, steps[0]), steps[1..], addr, stream))
  }

  /** Over any run, with any number of overflows: what the client is given of the stream, what is still on its way and
      what was pushed out are together what it had, what was on its way and what upstream sent. */
  lemma {:induction false} NothingElseIsLost(h: Hub, steps: seq<Step>, addr: Addr, stream: Stream)
    requires HubInv(h) && IsLive(stream) && PureHub(h, stream) && Granted(h, addr, stream)
    requires GrantsAll(h, steps, addr, stream)
    ensures var h' := Run(h, steps);
            && Granted(h', addr, stream) && PureHub(h', stream)
            && Bag(LogOf(h'.sessions[addr].queued), stream) + PipeBag(h', stream)
               + Bag(CommandsOf(LostIn(h, steps)), stream)
               == Bag(LogOf(h.sessions[addr].queued), stream) + PipeBag(h, stream) + Bag(LogOf(Log(h, steps)), stream)
    decreases |steps|
  {
    hide HubInv, After, PureHub, Grants, Bag, PipeBag, LogOf, CommandsOf, LoggedBy, LostBy;
    if steps == [] {
      LogOfOne([]);
      EventsBag([], [], stream);
      BagAppend([], [], stream);
    } else {
      InvIsValid(h);
      StepKeeps(h, steps[0]);
      StepBag(h, steps[0], addr, stream);
      var next := After(h, steps[0]);
      NothingElseIsLost(next, steps[1..], addr, stream);
      EventsBag(LostBy(h, steps[0]), LostIn(next, steps[1..]), stream);
      LogAppend(LoggedBy(h, steps[0]), Log(next, steps[1..]));
      BagAppend(LogOf(LoggedBy(h, steps[0])), LogOf(Log(next, steps[1..])), stream);
      var h' := Run(h, steps);
      SumsChain(Bag(LogOf(h'.sessions[addr].queued), stream) + PipeBag(h', stream),
                Bag(LogOf(next.sessions[addr].queued), stream) + PipeBag(next, stream),
                Bag(LogOf(h.sessions[addr].queued), stream) + PipeBag(h, stream),
                Bag(CommandsOf(LostBy(h, steps[0])), stream), Bag(CommandsOf(LostIn(next, steps[1..])), stream),
                Bag(LogOf(LoggedBy(h, steps[0])), stream), Bag(LogOf(Log(next, steps[1..])), stream));
    }
  }

  lemma SumsChain<T>(last: multiset<T>, next: multiset<T>, first: multiset<T>, lost: multiset<T>, lostLater: multiset<T>,
                     sent: multiset<T>, sentLater: multiset<T>)
    requires next + lost == first + sent && last + lostLater == next + sentLater
    ensures last + (lost + lostLater) == first + (sent + sentLater)
  {
    assert last + (lost + lostLater) == (last + lostLater) + lost;
    assert (next + sentLater) + lost == (next + lost) + sentLater;
    assert first + (sent + sentLater) == (first + sent) + sentLater;
  }

  /** From one moment with nothing on its way to another, an owner is given every transfer command that upstream sent
      (a subscriber every level report) if and only if no event that was pushed out held one. */
  lemma CompleteIff(h: Hub, steps: seq<Step>, addr: Addr, stream: Stream)
    requires HubInv(h) && IsLive(stream) && Granted(h, addr, stream) && GrantsAll(h, steps, addr, stream)
    requires Quiet(h) && Quiet(Run(h, steps))
    ensures addr in Run(h, steps).sessions
    ensures Bag(LogOf(Run(h, steps).sessions[addr].queued), stream)
            == Bag(LogOf(h.sessions[addr].queued), stream) + Bag(LogOf(Log(h, steps)), stream)
            <==> Only(CommandsOf(LostIn(h, steps)), stream) == []
  {
    hide HubInv, Run, Log, LostIn, LogOf, CommandsOf, PipeBag, PureHub, Only, OnItsWay, Quiet, GrantsAll;
    QuietPipe(h, stream);
    QuietPipe(Run(h, steps), stream);
    NothingElseIsLost(h, steps, addr, stream);
    BagEmptyIff(CommandsOf(LostIn(h, steps)), stream);
    hide Bag;
    SumsComplete(Bag(LogOf(Run(h, steps).sessions[addr].queued), stream), Bag(CommandsOf(LostIn(h, steps)), stream),
                 Bag(LogOf(h.sessions[addr].queued), stream), Bag(LogOf(Log(h, steps)), stream));
  }

  lemma BagEmptyIff(cmds: seq<Command>, stream: Stream)
    ensures Bag(cmds, stream) == multiset{} <==> Only(cmds, stream) == []
  {
    hide Only;
    assert |Bag(cmds, stream)| == |Only(cmds, stream)|;
  }

  lemma SumsComplete<T>(given: multiset<T>, lost: multiset<T>, had: multiset<T>, sent: multiset<T>)
    requires given + multiset{} + lost == had + multiset{} + sent
    ensures given == had + sent <==> lost == multiset{}
  {
    assert given + multiset{} + lost == given + lost && had + multiset{} + sent == had + sent;
    if given == had + sent {
      assert |given + lost| == |given| + |lost|;
    }
  }

  lemma QuietPipe(h: Hub, stream: Stream)
    requires Quiet(h)
    ensures OnItsWay(h) == [] && PureHub(h, stream) && PipeBag(h, stream) == multiset{}
  {
    EventsBag([], [], stream);
  }

  // ---------------------------------------------------------------- the input

  /** One payload after another, published at once while nobody reads the channel. */
  function Burst(datagram: Bytes, n: nat): seq<Step> {
    if n == 0 then [] else [Ingest(datagram), Publish] + Burst(datagram, n - 1)
  }

  /** The payload is one transfer command. */
  predicate OneTransfer(datagram: Bytes, c: Command) {
    && Framed(c) && IsTransferCommand(c.name)
    && Packets.DecodePacket(datagram).Ok? && Packets.DecodePacket(datagram).value.payload == c.raw
  }

  lemma OneEvent(c: Command)
    requires Framed(c) && IsTransferCommand(c.name)
    ensures EventsOf(c.raw) == [TransferPayload(c.raw)] && !SawReady(c.raw)
    ensures EventCommands(TransferPayload(c.raw)) == [c] == Only([c], TransferStream)
  {
    hide Parse, Routed, Joined, RouteOf, Only, StreamOf, IsTransferCommand, Framed, EventsOf, Part;
    ParseSingle(c);
    RoutesAreClasses(c.name);
    EventsInParts(c.raw);
    OnePart(c, StateStream);
    OnePart(c, LevelsStream);
    OnePart(c, TransferStream);
    RoutedOne(c, ToReady);
    RoutedOne(c, ToTransfer);
    RoutedIsOnly([c], TransferStream);
  }

  lemma OnePart(c: Command, stream: Stream)
    requires Framed(c) && RouteOf(c.name) == ToTransfer && stream != ReadyStream
    ensures Part([c], stream) == if stream == TransferStream then [TransferPayload(c.raw)] else []
  {
    RoutedOne(c, RouteFor(stream));
    JoinedSingle(c);
    JoinedNone();
    hide Routed, Joined, RouteOf;
  }

  lemma JoinedNone()
    ensures Joined([]) == []
  {
  }

  lemma RoutedOne(c: Command, route: Route)
    ensures Routed([c], route) == if RouteOf(c.name) == route then [c] else []
  {
    assert [c][..0] == [];
    assert Routed([c], route) == Routed([], route) + IfRouted(c, route);
    hide RouteOf;
  }

  lemma ParseSingle(c: Command)
    requires Framed(c)
    ensures Parse(c.raw) == Ok([c])
  {
    JoinedSingle(c);
    ParseIffFraming(c.raw, [c]);
    assert Framed([c][0]);
    hide Parse;
  }

  lemma BurstStep(h: Hub, datagram: Bytes, c: Command)
    requires HubInv(h) && UpstreamIdle(h) && OneTransfer(datagram, c)
    ensures Valid(h.cache) && HubInv(After(h, Ingest(datagram))) && Valid(After(h, Ingest(datagram)).cache)
    ensures var h1 := After(h, Ingest(datagram)); var h2 := After(h1, Publish);
            && HubInv(h2) && UpstreamIdle(h2)
            && LostBy(h, Ingest(datagram)) == []
            && LostBy(h1, Publish) == (if |h.queue| >= 512 then [h.queue[0]] else [])
            && (|h.queue| < 512 ==> h2.queue == h.queue + [TransferPayload(c.raw)])
  {
    hide HubInv, Valid, After, UpstreamIdle, OneTransfer, LostBy;
    InvIsValid(h);
    StepKeeps(h, Ingest(datagram));
    var h1 := After(h, Ingest(datagram));
    InvIsValid(h1);
    StepKeeps(h1, Publish);
    BurstIngests(h, datagram, c);
    BurstPublishes(h1, TransferPayload(c.raw));
  }

  lemma BurstIngests(h: Hub, datagram: Bytes, c: Command)
    requires Valid(h.cache) && UpstreamIdle(h) && OneTransfer(datagram, c)
    ensures var h1 := After(h, Ingest(datagram));
            && h1.unpublished == [TransferPayload(c.raw)] && !h1.finishing && h1.queue == h.queue
            && LostBy(h, Ingest(datagram)) == []
  {
    OneEvent(c);
    hide Valid, Framed, IsTransferCommand, EventsOf, SawReady, Ingested, StateChunk, Packets.DecodePacket, EventCommands,
      Only;
  }

  lemma BurstPublishes(h: Hub, e: UpstreamEvent)
    requires Valid(h.cache) && h.unpublished == [e] && !h.finishing
    ensures var h2 := After(h, Publish);
            && UpstreamIdle(h2)
            && LostBy(h, Publish) == (if |h.queue| >= 512 then [h.queue[0]] else [])
            && (|h.queue| < 512 ==> h2.queue == h.queue + [e])
  {
    hide Valid;
  }

  predicate UpstreamIdle(h: Hub) {
    h.unpublished == [] && !h.finishing
  }

  /** With room for all but one of them, a burst of the same event pushes one out. */
  lemma {:induction false} BurstLoses(h: Hub, datagram: Bytes, c: Command, n: nat)
    requires HubInv(h) && UpstreamIdle(h) && OneTransfer(datagram, c)
    requires n >= 1 && |h.queue| + n == 513 && forall e :: e in h.queue ==> e == TransferPayload(c.raw)
    ensures LostIn(h, Burst(datagram, n)) == [TransferPayload(c.raw)]
    decreases n
  {
    hide HubInv, After, UpstreamIdle, OneTransfer, LostBy, Valid;
    BurstStep(h, datagram, c);
    var h1 := After(h, Ingest(datagram));
    var h2 := After(h1, Publish);
    var rest := Burst(datagram, n - 1);
    assert Burst(datagram, n)[1..] == [Publish] + rest && ([Publish] + rest)[1..] == rest;
    assert LostIn(h, Burst(datagram, n)) == LostBy(h, Ingest(datagram)) + LostIn(h1, [Publish] + rest);
    assert LostIn(h1, [Publish] + rest) == LostBy(h1, Publish) + LostIn(h2, rest);
    if n > 1 {
      BurstLoses(h2, datagram, c, n - 1);
    } else {
      assert h.queue[0] in h.queue;
    }
  }

  /** The input: 513 transfer commands that upstream sends while the fan-out task does not get to read. One is pushed
      out, so by `NothingElseIsLost` its owner is never given all of them. */
  lemma OverflowLoses(h: Hub, datagram: Bytes, c: Command)
    requires HubInv(h) && Quiet(h) && OneTransfer(datagram, c)
    ensures Only(CommandsOf(LostIn(h, Burst(datagram, 513))), TransferStream) == [c]
  {
    BurstLoses(h, datagram, c, 513);
    OneEvent(c);
    CommandsOfOne(TransferPayload(c.raw));
    hide HubInv, LostIn, Burst, Only, CommandsOf, EventCommands, IsTransferCommand, Framed;
  }
}
