/** What does arrive: every upstream command leaves in an event of its kind, and over runs of the hub a client is
    given, in order, all the levels it subscribed to and all the transfer traffic it owns. */
module Streams {
  import opened Wire
  import opened Commands
  import opened Spelling
  import opened Reliable
  import opened Cache
  import opened Locks
  import opened Upstream
  import opened FanOut
  import opened Convergence
  import opened Routing

  datatype Stream = StateStream | LevelsStream | TransferStream | ReadyStream

  /** By name, every command belongs to exactly one stream. */
  ghost function StreamOf(n: CommandName): Stream {
    if ReadyName(n) then ReadyStream
    else if TransferName(n) then TransferStream
    else if LevelsName(n) then LevelsStream
    else StateStream
  }

  /** The commands of one stream, in order. */
  ghost function Only(cmds: seq<Command>, stream: Stream): seq<Command> {
    if cmds == [] then []
    else
      var last := cmds[|cmds| - 1];
      Only(cmds[..|cmds| - 1], stream) + if StreamOf(last.name) == stream then [last] else []
  }

  function RouteFor(stream: Stream): Route {
    match stream
    case StateStream => ToState
    case LevelsStream => ToAudio
    case TransferStream => ToTransfer
    case ReadyStream => ToReady
  }

  lemma RouteIsStream(n: CommandName, stream: Stream)
    ensures RouteOf(n) == RouteFor(stream) <==> StreamOf(n) == stream
  {
    ClassesBySpelling(n);
    ClassesDisjoint(n);
    hide IsTransferCommand, IsEphemeralCommand, IsLockStatus, TransferName, LevelsName, LockStatusName, ReadyName,
      IsLockRequest, LockRequestName, IsAudioLevelsSubscribe, SubscriptionName;
  }

  lemma {:induction false} RoutedIsOnly(cmds: seq<Command>, stream: Stream)
    ensures Routed(cmds, RouteFor(stream)) == Only(cmds, stream)
  {
    hide RouteOf, StreamOf, RouteFor;
    if cmds != [] {
      RoutedIsOnly(cmds[..|cmds| - 1], stream);
      RouteIsStream(cmds[|cmds| - 1].name, stream);
    }
  }

  lemma {:induction false} OnlyAppend(a: seq<Command>, b: seq<Command>, stream: Stream)
    ensures Only(a + b, stream) == Only(a, stream) + Only(b, stream)
    decreases |b|
  {
    hide StreamOf;
    if b == [] {
      assert a + b == a;
    } else {
      assert (a + b)[..|a + b| - 1] == a + b[..|b| - 1];
      OnlyAppend(a, b[..|b| - 1], stream);
    }
  }

  lemma OnlyNext(cmds: seq<Command>, c: Command, stream: Stream)
    ensures Only(cmds + [c], stream) == if StreamOf(c.name) == stream then Only(cmds, stream) + [c] else Only(cmds, stream)
  {
    assert (cmds + [c])[..|cmds|] == cmds;
    assert Only(cmds, stream) + [] == Only(cmds, stream);
    hide StreamOf;
  }

  lemma {:induction false} OnlyOfOnly(cmds: seq<Command>, own: Stream, stream: Stream)
    ensures Only(Only(cmds, own), stream) == if own == stream then Only(cmds, stream) else []
  {
    hide StreamOf, Only;
    if cmds == [] {
      OnlyNothing(own);
      OnlyNothing(stream);
    } else {
      var rest, last := cmds[..|cmds| - 1], cmds[|cmds| - 1];
      assert cmds == rest + [last];
      OnlyOfOnly(rest, own, stream);
      OnlyNext(rest, last, own);
      OnlyNext(rest, last, stream);
      OnlyNext(Only(rest, own), last, stream);
    }
  }

  lemma OnlyNothing(stream: Stream)
    ensures Only([], stream) == []
  {
  }

  // ---------------------------------------------------------------- the events of one payload

  /** The commands that a client reads in a list of events, in order. */
  ghost function CommandsOf(events: seq<UpstreamEvent>): seq<Command> {
    if events == [] then []
    else CommandsOf(events[..|events| - 1]) + EventCommands(events[|events| - 1])
  }

  ghost function EventCommands(e: UpstreamEvent): seq<Command> {
    if e.Connected? then [] else ParsedOrNone(e.payload)
  }

  /** The stream that an event is there for. */
  ghost function StreamFor(e: UpstreamEvent): Stream {
    match e
    case Connected => ReadyStream
    case StatePayload(_) => StateStream
    case AudioLevels(_) => LevelsStream
    case TransferPayload(_) => TransferStream
  }

  lemma {:induction false} CommandsAppend(a: seq<UpstreamEvent>, b: seq<UpstreamEvent>)
    ensures CommandsOf(a + b) == CommandsOf(a) + CommandsOf(b)
    decreases |b|
  {
    hide EventCommands;
    if b == [] {
      assert a + b == a;
    } else {
      assert (a + b)[..|a + b| - 1] == a + b[..|b| - 1];
      CommandsAppend(a, b[..|b| - 1]);
      Associative(CommandsOf(a), CommandsOf(b[..|b| - 1]), EventCommands(b[|b| - 1]));
    }
  }

  lemma CommandsOfOne(e: UpstreamEvent)
    ensures CommandsOf([e]) == EventCommands(e)
  {
    assert [e][..0] == [];
    assert CommandsOf([e]) == CommandsOf([]) + EventCommands(e);
  }

  /** The event that takes the commands of a stream, if there are any. */
  function Part(cmds: seq<Command>, stream: Stream): seq<UpstreamEvent> {
    var chunk := Joined(Routed(cmds, RouteFor(stream)));
    match stream
    case StateStream => IfAny(chunk, StatePayload(chunk))
    case LevelsStream => IfAny(chunk, AudioLevels(chunk))
    case TransferStream => IfAny(chunk, TransferPayload(chunk))
    case ReadyStream => []
  }

  lemma EventsInParts(payload: Bytes)
    requires Parse(payload).Ok?
    ensures var cmds := Parse(payload).value;
            EventsOf(payload) == Part(cmds, StateStream) + Part(cmds, LevelsStream) + Part(cmds, TransferStream)
  {
    hide Parse, Routed, Joined, IfAny;
  }

  lemma PartHolds(cmds: seq<Command>, stream: Stream)
    requires AllFramed(cmds) && stream != ReadyStream
    ensures CommandsOf(Part(cmds, stream)) == Only(cmds, stream)
    ensures forall e :: e in Part(cmds, stream) ==>
              !e.Connected? && StreamFor(e) == stream && ParsedOrNone(e.payload) == Only(cmds, stream) != []
    ensures Only(cmds, stream) != [] ==> Part(cmds, stream) != []
  {
    var chunk := Joined(Routed(cmds, RouteFor(stream)));
    ChunksReparse(cmds, RouteFor(stream));
    RoutedIsOnly(cmds, stream);
    EmptyIff(chunk);
    CommandsOfOne(StatePayload(chunk));
    CommandsOfOne(AudioLevels(chunk));
    CommandsOfOne(TransferPayload(chunk));
    hide Routed, Joined, Only, Parse;
  }

  lemma EmptyIff(payload: Bytes)
    ensures Parse(payload) == Ok([]) <==> payload == []
  {
    ParseIffFraming(payload, []);
  }

  /** A payload that parses: every event holds exactly the commands of its stream, in order; the events come with
      state first, then levels, then transfers. */
  lemma EventsInOrder(payload: Bytes)
    requires Parse(payload).Ok?
    ensures var cmds := Parse(payload).value;
            && CommandsOf(EventsOf(payload)) == Only(cmds, StateStream) + Only(cmds, LevelsStream) + Only(cmds, TransferStream)
            && forall e :: e in EventsOf(payload) ==>
                 !e.Connected? && ParsedOrNone(e.payload) == Only(cmds, StreamFor(e)) != []
  {
    hide Parse, Only, Part, EventsOf, CommandsOf, ParsedOrNone, StreamFor, Framed;
    var cmds := Parse(payload).value;
    ParseIffFraming(payload, cmds);
    EventsInParts(payload);
    PartHolds(cmds, StateStream);
    PartHolds(cmds, LevelsStream);
    PartHolds(cmds, TransferStream);
    CommandsAppend(Part(cmds, StateStream), Part(cmds, LevelsStream));
    CommandsAppend(Part(cmds, StateStream) + Part(cmds, LevelsStream), Part(cmds, TransferStream));
  }

  /** Whether it parses or not, each stream of a payload leaves in its events whole and in order. */
  lemma EventsKeepStreams(payload: Bytes, stream: Stream)
    requires stream != ReadyStream
    ensures Only(CommandsOf(EventsOf(payload)), stream) == Only(ParsedOrNone(payload), stream)
  {
    hide Parse, Only, StreamOf, CommandsOf, EventsOf;
    if Parse(payload).Ok? {
      EventsInOrder(payload);
      var cmds := Parse(payload).value;
      var a, b, c := Only(cmds, StateStream), Only(cmds, LevelsStream), Only(cmds, TransferStream);
      OnlyAppend(a, b, stream);
      OnlyAppend(a + b, c, stream);
      OnlyOfOnly(cmds, StateStream, stream);
      OnlyOfOnly(cmds, LevelsStream, stream);
      OnlyOfOnly(cmds, TransferStream, stream);
    } else {
      RawCommands(payload);
    }
  }

  lemma RawCommands(payload: Bytes)
    requires Parse(payload).Err?
    ensures CommandsOf(EventsOf(payload)) == [] == ParsedOrNone(payload)
  {
    CommandsOfOne(StatePayload(payload));
    hide Parse;
  }

  /** Nothing is lost or added on the way into the events: their commands and the `InCm`s are the payload's. */
  lemma EventsCarryAll(payload: Bytes)
    requires Parse(payload).Ok?
    ensures multiset(CommandsOf(EventsOf(payload))) + multiset(Only(Parse(payload).value, ReadyStream))
         == multiset(Parse(payload).value)
  {
    hide Parse, Only, Routed, CommandsOf, EventsOf, ParsedOrNone;
    var cmds := Parse(payload).value;
    EventsInOrder(payload);
    OnlyPartition(cmds);
  }

  lemma OnlyPartition(cmds: seq<Command>)
    ensures multiset(Only(cmds, StateStream) + Only(cmds, LevelsStream) + Only(cmds, TransferStream))
          + multiset(Only(cmds, ReadyStream)) == multiset(cmds)
  {
    hide Only, Routed;
    RoutesPartition(cmds);
    RoutedIsOnly(cmds, StateStream);
    RoutedIsOnly(cmds, LevelsStream);
    RoutedIsOnly(cmds, TransferStream);
    RoutedIsOnly(cmds, ReadyStream);
  }

  lemma {:induction false} OnlyMembers(cmds: seq<Command>, stream: Stream)
    ensures forall c :: c in Only(cmds, stream) <==> c in cmds && StreamOf(c.name) == stream
  {
    hide StreamOf;
    if cmds != [] {
      var rest, last := cmds[..|cmds| - 1], cmds[|cmds| - 1];
      OnlyMembers(rest, stream);
      assert cmds == rest + [last];
    }
  }

  /** In particular every transfer command leaves in a transfer event, every level report in an audio event, and every
      other command but the `InCm` in a state event. */
  lemma EveryCommandLeaves(payload: Bytes, c: Command)
    requires Parse(payload).Ok? && c in Parse(payload).value && !ReadyName(c.name)
    ensures exists e :: e in EventsOf(payload) && StreamFor(e) == StreamOf(c.name) && c in EventCommands(e)
  {
    hide Parse, Only, Part, EventsOf, ParsedOrNone, StreamFor, Framed, ReadyName, TransferName, LevelsName;
    var cmds, stream := Parse(payload).value, StreamOf(c.name);
    assert stream != ReadyStream;
    ParseIffFraming(payload, cmds);
    OnlyMembers(cmds, stream);
    EventsInParts(payload);
    PartHolds(cmds, stream);
    var e := Part(cmds, stream)[0];
    assert e in Part(cmds, stream);
    assert EventCommands(e) == Only(cmds, stream);
    assert e in EventsOf(payload);
  }

  // ---------------------------------------------------------------- what an open client is given, in order

  /** A client that is open, has this audio flag, and owns the transfers or not, is to be given such an event. */
  predicate Wants(e: UpstreamEvent, audio: bool, owns: bool) {
    match e
    case Connected => false
    case StatePayload(_) => true
    case AudioLevels(_) => audio
    case TransferPayload(_) => owns
  }

  function Wanted(events: seq<UpstreamEvent>, audio: bool, owns: bool): seq<Bytes> {
    if events == [] then []
    else
      var last := events[|events| - 1];
      Wanted(events[..|events| - 1], audio, owns) + if Wants(last, audio, owns) then [last.payload] else []
  }

  /** What has been ingested and not yet handed to the sessions, the oldest first. */
  function OnItsWay(h: Hub): seq<UpstreamEvent> {
    (if h.task.Holding? then [h.task.event] else []) + (h.queue + h.unpublished)
  }

  function EventsOfAll(log: seq<Bytes>): seq<UpstreamEvent> {
    if log == [] then [] else EventsOfAll(log[..|log| - 1]) + EventsOf(log[|log| - 1])
  }

  predicate OpenWith(h: Hub, addr: Addr, audio: bool) {
    IsOpenAt(h, addr) && h.sessions[addr].audio == audio
  }

  /** The step leaves the client its session, its audio flag and its ownership. */
  predicate Leaves(h: Hub, step: Step, addr: Addr, audio: bool, owns: bool) {
    match step
    case Handshake(a) => a != addr
    case TimedOut(a) => a != addr
    case SetAudio(a, on) => a == addr ==> on == audio
    case Deliver(owner) => h.task.Holding? && h.task.event.TransferPayload? ==> (owner == Some(addr) <==> owns)
    case _ => true
  }

  /** No overflow has happened, and none is being made up for. */
  predicate Flowing(h: Hub) {
    !h.lagged && (h.task.Idle? || h.task.Holding?)
  }

  lemma {:induction false} WantedAppend(a: seq<UpstreamEvent>, b: seq<UpstreamEvent>, audio: bool, owns: bool)
    ensures Wanted(a + b, audio, owns) == Wanted(a, audio, owns) + Wanted(b, audio, owns)
    decreases |b|
  {
    if b == [] {
      assert a + b == a;
    } else {
      assert (a + b)[..|a + b| - 1] == a + b[..|b| - 1];
      WantedAppend(a, b[..|b| - 1], audio, owns);
    }
  }

  lemma WantedOfOne(e: UpstreamEvent, audio: bool, owns: bool)
    ensures Wanted([e], audio, owns) == if Wants(e, audio, owns) then [e.payload] else []
  {
    assert [e][..0] == [];
    assert Wanted([e][..0], audio, owns) == [];
  }

  lemma WantedNothing(audio: bool, owns: bool)
    ensures Wanted([], audio, owns) == []
  {
  }

  lemma {:induction false} EventsOfAllAppend(a: seq<Bytes>, b: seq<Bytes>)
    ensures EventsOfAll(a + b) == EventsOfAll(a) + EventsOfAll(b)
    decreases |b|
  {
    hide EventsOf;
    if b == [] {
      assert a + b == a;
    } else {
      assert (a + b)[..|a + b| - 1] == a + b[..|b| - 1];
      EventsOfAllAppend(a, b[..|b| - 1]);
      Associative(EventsOfAll(a), EventsOfAll(b[..|b| - 1]), EventsOf(b[|b| - 1]));
    }
  }

  lemma EventsOfAllOne(payload: Bytes)
    ensures EventsOfAll([payload]) == EventsOf(payload)
  {
    assert [payload][..0] == [];
    assert EventsOfAll([payload]) == EventsOfAll([]) + EventsOf(payload);
    hide EventsOf;
  }

  /** What the steps of the two tasks do to the events on their way. */
  lemma PipeNext(h: Hub, step: Step)
    requires Valid(h.cache) && Flowing(h) && !After(h, step).lagged
    ensures var h' := After(h, step); var log := LoggedBy(h, step);
            && Flowing(h')
            && (if step.Deliver? && h.task.Holding? then OnItsWay(h) == [h.task.event] + OnItsWay(h')
                else OnItsWay(h') == OnItsWay(h) + EventsOfAll(log)
                     || (log == [] && OnItsWay(h') == OnItsWay(h) + [Connected]))
            && (step.Deliver? ==> log == [])
  {
    hide Valid, EventsOf, EventsOfAll, Ingested, StateChunk, SawReady, Packets.DecodePacket, Dump, Pack, Opened,
      FannedOut, Resynced;
    assert OnItsWay(h) + [] == OnItsWay(h);
    match step
    case Ingest(datagram) => IngestJoins(h, datagram);
    case Publish =>
      NothingLogged();
      PublishMoves(h);
    case Receive => NothingLogged();
    case _ => NothingLogged();
  }

  lemma NothingLogged()
    ensures EventsOfAll([]) == []
  {
  }

  lemma IngestJoins(h: Hub, datagram: Bytes)
    requires Valid(h.cache)
    ensures OnItsWay(After(h, Ingest(datagram))) == OnItsWay(h) + EventsOfAll(LoggedBy(h, Ingest(datagram)))
  {
    hide Valid, EventsOf, EventsOfAll, Ingested, StateChunk, SawReady, Packets.DecodePacket;
    if LoggedBy(h, Ingest(datagram)) != [] {
      EventsOfAllOne(Packets.DecodePacket(datagram).value.payload);
    } else {
      NothingLogged();
      assert OnItsWay(h) + [] == OnItsWay(h);
    }
  }

  lemma PublishMoves(h: Hub)
    requires Valid(h.cache) && !h.lagged && !After(h, Publish).lagged
    ensures OnItsWay(After(h, Publish)) == OnItsWay(h) || OnItsWay(After(h, Publish)) == OnItsWay(h) + [Connected]
  {
    hide Valid;
    if h.unpublished != [] {
      assert h.queue + h.unpublished == (h.queue + [h.unpublished[0]]) + h.unpublished[1..];
    } else {
      assert h.queue + [] == h.queue && h.queue + [Connected] + [] == h.queue + [Connected];
    }
  }

  /** What a step gives to the client. */
  lemma SessionNext(h: Hub, step: Step, addr: Addr, audio: bool, owns: bool)
    requires Valid(h.cache) && Flowing(h) && OpenWith(h, addr, audio) && Leaves(h, step, addr, audio, owns)
    ensures var h' := After(h, step); var before := h.sessions[addr].queued;
            && OpenWith(h', addr, audio)
            && h'.sessions[addr].queued
               == (if step.Deliver? && h.task.Holding? && Wants(h.task.event, audio, owns) then before + [h.task.event.payload]
                   else before)
  {
    hide Valid, EventsOf, Ingested, StateChunk, SawReady, Packets.DecodePacket, Dump, Pack;
    assert h.sessions[addr].(audio := audio) == h.sessions[addr];
  }

  lemma StepInOrder(h: Hub, step: Step, addr: Addr, audio: bool, owns: bool)
    requires Valid(h.cache) && Flowing(h) && OpenWith(h, addr, audio) && Leaves(h, step, addr, audio, owns)
    requires !After(h, step).lagged
    ensures var h' := After(h, step);
            && Flowing(h') && OpenWith(h', addr, audio)
            && h'.sessions[addr].queued + Wanted(OnItsWay(h'), audio, owns)
               == h.sessions[addr].queued + Wanted(OnItsWay(h), audio, owns)
                  + Wanted(EventsOfAll(LoggedBy(h, step)), audio, owns)
  {
    hide Valid, After, Flowing, Leaves, OnItsWay, Wanted, Wants, LoggedBy, EventsOfAll;
    PipeNext(h, step);
    SessionNext(h, step, addr, audio, owns);
    var h', log := After(h, step), LoggedBy(h, step);
    NothingLogged();
    WantedNothing(audio, owns);
    if step.Deliver? && h.task.Holding? {
      WantedAppend([h.task.event], OnItsWay(h'), audio, owns);
      WantedOfOne(h.task.event, audio, owns);
    } else {
      WantedAppend(OnItsWay(h), EventsOfAll(log), audio, owns);
      WantedAppend(OnItsWay(h), [Connected], audio, owns);
      WantedOfOne(Connected, audio, owns);
      assert !Wants(Connected, audio, owns) by {
        ConnectedUnwanted(audio, owns);
      }
    }
  }

  lemma ConnectedUnwanted(audio: bool, owns: bool)
    ensures !Wants(Connected, audio, owns)
  {
  }

  /** Over the whole run the client stays open with its flag and its ownership, and the channel never overflows. */
  ghost predicate Undisturbed(h: Hub, steps: seq<Step>, addr: Addr, audio: bool, owns: bool)
    requires HubInv(h)
    decreases |steps|
  {
    hide HubInv;
    steps == [] ||
    (InvIsValid(h);
     StepKeeps(h, steps[0]);
     Leaves(h, steps[0], addr, audio, owns) && !After(h, steps[0]).lagged
     && Undisturbed(After(h, steps[0]), steps[1..], addr, audio, owns))
  }

  /** Such a client is given, in order and without anything else, the payloads of all events that are for it: with what
      is still on its way at the end, they are those on their way at the beginning and those of the whole log. */
  lemma {:induction false} GivenInOrder(h: Hub, steps: seq<Step>, addr: Addr, audio: bool, owns: bool)
    requires HubInv(h) && Flowing(h) && OpenWith(h, addr, audio) && Undisturbed(h, steps, addr, audio, owns)
    ensures var h' := Run(h, steps);
            && Flowing(h') && OpenWith(h', addr, audio)
            && h'.sessions[addr].queued + Wanted(OnItsWay(h'), audio, owns)
               == h.sessions[addr].queued + Wanted(OnItsWay(h), audio, owns)
                  + Wanted(EventsOfAll(Log(h, steps)), audio, owns)
    decreases |steps|
  {
    hide HubInv, After, Flowing, Leaves, OnItsWay, Wanted, LoggedBy, EventsOfAll;
    if steps == [] {
      NothingLogged();
      WantedNothing(audio, owns);
    } else {
      InvIsValid(h);
      StepKeeps(h, steps[0]);
      StepInOrder(h, steps[0], addr, audio, owns);
      var next, log := After(h, steps[0]), LoggedBy(h, steps[0]);
      GivenInOrder(next, steps[1..], addr, audio, owns);
      EventsOfAllAppend(log, Log(next, steps[1..]));
      WantedAppend(EventsOfAll(log), EventsOfAll(Log(next, steps[1..])), audio, owns);
    }
  }

  // ---------------------------------------------------------------- by command

  predicate WantsStream(stream: Stream, audio: bool, owns: bool) {
    match stream
    case StateStream => true
    case LevelsStream => audio
    case TransferStream => owns
    case ReadyStream => false
  }

  lemma {:induction false} LogAppend(a: seq<Bytes>, b: seq<Bytes>)
    ensures LogOf(a + b) == LogOf(a) + LogOf(b)
    decreases |b|
  {
    hide ParsedOrNone;
    if b == [] {
      assert a + b == a;
    } else {
      assert (a + b)[..|a + b| - 1] == a + b[..|b| - 1];
      LogAppend(a, b[..|b| - 1]);
      Associative(LogOf(a), LogOf(b[..|b| - 1]), ParsedOrNone(b[|b| - 1]));
    }
  }

  lemma LogOfOne(payload: Bytes)
    ensures LogOf([payload]) == ParsedOrNone(payload) && LogOf([]) == []
  {
    assert [payload][..0] == [];
    assert LogOf([payload]) == LogOf([]) + ParsedOrNone(payload);
    hide ParsedOrNone;
  }

  /** An event holds commands of its own stream only. */
  ghost predicate Pure(e: UpstreamEvent, stream: Stream) {
    StreamFor(e) == stream || Only(EventCommands(e), stream) == []
  }

  ghost predicate AllPure(events: seq<UpstreamEvent>, stream: Stream) {
    forall e :: e in events ==> Pure(e, stream)
  }

  lemma EventsPure(payload: Bytes, stream: Stream)
    requires stream != ReadyStream
    ensures AllPure(EventsOf(payload), stream)
  {
    hide Parse, Only, StreamOf, EventsOf;
    if Parse(payload).Ok? {
      EventsInOrder(payload);
      forall e | e in EventsOf(payload)
        ensures Pure(e, stream)
      {
        OnlyOfOnly(Parse(payload).value, StreamFor(e), stream);
      }
    } else {
      RawEvent(payload);
      OnlyNothing(stream);
    }
  }

  lemma RawEvent(payload: Bytes)
    requires Parse(payload).Err?
    ensures EventsOf(payload) == [StatePayload(payload)]
  {
  }

  /** Of pure events, the commands of a stream that are given are all of them if the stream is wanted, else none. */
  lemma {:induction false} WantedCommands(events: seq<UpstreamEvent>, audio: bool, owns: bool, stream: Stream)
    requires AllPure(events, stream) && stream != ReadyStream
    ensures Only(LogOf(Wanted(events, audio, owns)), stream)
         == if WantsStream(stream, audio, owns) then Only(CommandsOf(events), stream) else []
    decreases |events|
  {
    hide Only, EventCommands, Parse, ParsedOrNone, LogOf;
    OnlyNothing(stream);
    LogOfOne([]);
    if events != [] {
      var rest, last := events[..|events| - 1], events[|events| - 1];
      assert Pure(last, stream);
      WantedCommands(rest, audio, owns, stream);
      OnlyAppend(CommandsOf(rest), EventCommands(last), stream);
      if Wants(last, audio, owns) {
        LogAppend(Wanted(rest, audio, owns), [last.payload]);
        LogOfOne(last.payload);
        OnlyAppend(LogOf(Wanted(rest, audio, owns)), ParsedOrNone(last.payload), stream);
        EventCommandsAre(last);
      }
      WantsByStream(last, audio, owns);
      hide Wants, WantsStream, StreamFor;
      assert Wanted(rest, audio, owns) + [] == Wanted(rest, audio, owns);
    }
  }

  lemma EventCommandsAre(e: UpstreamEvent)
    ensures EventCommands(e) == if e.Connected? then [] else ParsedOrNone(e.payload)
  {
  }

  lemma WantsByStream(e: UpstreamEvent, audio: bool, owns: bool)
    ensures Wants(e, audio, owns) == WantsStream(StreamFor(e), audio, owns)
    ensures Wants(e, audio, owns) ==> !e.Connected?
  {
  }

  /** Over a log of payloads. */
  lemma {:induction false} LogStreams(log: seq<Bytes>, stream: Stream)
    requires stream != ReadyStream
    ensures AllPure(EventsOfAll(log), stream)
    ensures Only(CommandsOf(EventsOfAll(log)), stream) == Only(LogOf(log), stream)
    decreases |log|
  {
    hide Only, EventsOf, ParsedOrNone, CommandsOf, Pure;
    if log == [] {
      OnlyNothing(stream);
      NothingInEvents();
    } else {
      var rest, last := log[..|log| - 1], log[|log| - 1];
      LogStreams(rest, stream);
      EventsPure(last, stream);
      EventsKeepStreams(last, stream);
      CommandsAppend(EventsOfAll(rest), EventsOf(last));
      OnlyAppend(CommandsOf(EventsOfAll(rest)), CommandsOf(EventsOf(last)), stream);
      OnlyAppend(LogOf(rest), ParsedOrNone(last), stream);
    }
  }

  lemma NothingInEvents()
    ensures CommandsOf([]) == []
  {
  }

  /** From one moment with nothing on its way to another, an undisturbed client is given exactly the commands of the
      streams it wants that upstream sent, in their order: the owner every transfer command, the subscriber every
      level report, and everyone all the rest; of the streams it does not want it is given none. */
  lemma StreamsArrive(h: Hub, steps: seq<Step>, addr: Addr, audio: bool, owns: bool, stream: Stream)
    requires HubInv(h) && Flowing(h) && OpenWith(h, addr, audio) && Undisturbed(h, steps, addr, audio, owns)
    requires OnItsWay(h) == [] && OnItsWay(Run(h, steps)) == [] && stream != ReadyStream
    ensures addr in Run(h, steps).sessions
    ensures Only(LogOf(Run(h, steps).sessions[addr].queued), stream)
         == Only(LogOf(h.sessions[addr].queued), stream)
            + if WantsStream(stream, audio, owns) then Only(LogOf(Log(h, steps)), stream) else []
  {
    hide HubInv, Run, Log, Undisturbed, OnItsWay, Only, EventsOfAll, LogOf, CommandsOf, Wants, WantsStream, AllPure;
    GivenInOrder(h, steps, addr, audio, owns);
    var log, h' := Log(h, steps), Run(h, steps);
    var news := Wanted(EventsOfAll(log), audio, owns);
    assert h'.sessions[addr].queued + [] == h'.sessions[addr].queued;
    assert h.sessions[addr].queued + [] == h.sessions[addr].queued;
    assert h'.sessions[addr].queued == h.sessions[addr].queued + news;
    hide Wanted;
    LogStreams(log, stream);
    WantedCommands(EventsOfAll(log), audio, owns, stream);
    LogAppend(h.sessions[addr].queued, news);
    OnlyAppend(LogOf(h.sessions[addr].queued), LogOf(news), stream);
  }
}
