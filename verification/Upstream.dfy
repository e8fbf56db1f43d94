/** Splitting an upstream payload into state, audio and transfer events
    (`handle_upstream_payload` in atem-proxy/src/upstream.rs). */
module Upstream {
  import opened Wire
  import opened Packets
  import opened Commands
  import opened Reliable
  import opened Cache
  import opened Locks

  datatype UpstreamEvent =
    | Connected
    | StatePayload(payload: Bytes)
    | AudioLevels(payload: Bytes)
    | TransferPayload(payload: Bytes)

  datatype Route = ToState | ToAudio | ToTransfer | ToReady

  function RouteOf(n: CommandName): Route {
    if n == INIT_COMPLETE then ToReady
    else if IsTransferCommand(n) then ToTransfer
    else if IsLockStatus(n) then ToState
    else if IsEphemeralCommand(n) then ToAudio
    else ToState
  }

  /** The commands of one route, in order. */
  function Routed(cmds: seq<Command>, route: Route): seq<Command> {
    if cmds == [] then [] else Routed(cmds[..|cmds| - 1], route) + IfRouted(cmds[|cmds| - 1], route)
  }

  function IfRouted(c: Command, route: Route): seq<Command> {
    if RouteOf(c.name) == route then [c] else []
  }

  function IfAny(chunk: Bytes, event: UpstreamEvent): seq<UpstreamEvent> {
    if chunk == [] then [] else [event]
  }

  /** The events of a payload; one that does not parse is passed on raw, as state. */
  function EventsOf(payload: Bytes): seq<UpstreamEvent> {
    match Parse(payload)
    case Err(_) => [StatePayload(payload)]
    case Ok(cmds) =>
      var state, audio, transfer :=
        Joined(Routed(cmds, ToState)), Joined(Routed(cmds, ToAudio)), Joined(Routed(cmds, ToTransfer));
      IfAny(state, StatePayload(state)) + IfAny(audio, AudioLevels(audio))
      + IfAny(transfer, TransferPayload(transfer))
  }

  predicate SawReady(payload: Bytes) {
    Parse(payload).Ok? && Routed(Parse(payload).value, ToReady) != []
  }

  const INIT_ACK_REMOTE_SEQ := 0x61

  /** The special acknowledgement that tells the switcher the init dump is complete. */
  function InitCompleteAck(e: Endpoint): Bytes {
    var ackId := if e.ack.highestRecv.Some? then e.ack.highestRecv.value else 0;
    PacketBytes(NewHeader(NO_FLAGS.(ackReply := true), e.sessionId, HEADER_LEN)
                .(ackId := ackId, unknown := INIT_ACK_REMOTE_SEQ), [])
  }

  /** The upstream session's own state: the cache, the lock broker, its endpoint, and whether `Connected` was
      sent. */
  class UpstreamSession {
    const cache: StateCache
    const locks: LockBroker
    const rel: ReliableEndpoint
    var connected: bool

    constructor (cache: StateCache, locks: LockBroker, rel: ReliableEndpoint)
      ensures this.cache == cache && this.locks == locks && this.rel == rel && !connected
    {
      this.cache, this.locks, this.rel, this.connected := cache, locks, rel, false;
    }

    /** `ack` is the init-complete acknowledgement, sent with the first `InCm`. */
    method HandleUpstreamPayload(payload: Bytes) returns (events: seq<UpstreamEvent>, ack: Option<Bytes>)
      modifies this`connected, cache, locks, rel`isOpen
      ensures cache.State() == Ingested(old(cache.State()), payload)
      ensures locks.stores == AfterStatusPayload(old(locks.stores), payload)
      ensures events == EventsOf(payload) + if SawReady(payload) && !old(connected) then [Connected] else []
      ensures connected == (old(connected) || SawReady(payload))
      ensures rel.isOpen == (old(rel.isOpen) || (SawReady(payload) && !old(connected)))
      ensures ack == if SawReady(payload) && !old(connected) then Some(InitCompleteAck(old(rel.State()))) else None
    {
      hide Ingested, AfterStatusPayload, Routed, Joined, Parse, PacketBytes;
      ack := None;
      var parsed := ParseCommands(payload);
      if parsed.Err? {
        RawIsIgnored(old(cache.State()), old(locks.stores), payload);
        cache.IngestPayload(payload);
        events := [StatePayload(payload)];
        return;
      }
      var stateChunk, audioChunk, transferChunk, sawReady := SplitCommands(parsed.value);
      SplitKeepsState(old(cache.State()), old(locks.stores), payload);
      events := [];
      if stateChunk != [] {
        locks.OnUpstreamLockStatus(stateChunk);
        cache.IngestPayload(stateChunk);
        events := events + [StatePayload(stateChunk)];
      }
      if audioChunk != [] {
        events := events + [AudioLevels(audioChunk)];
      }
      if transferChunk != [] {
        events := events + [TransferPayload(transferChunk)];
      }
      assert events == EventsOf(payload);
      if sawReady {
        cache.SetReady(true);
        if !connected {
          connected := true;
          events := events + [Connected];
          rel.isOpen := true;
          var header := NewHeader(NO_FLAGS.(ackReply := true), rel.sessionId, HEADER_LEN);
          header := header.(ackId := if rel.ack.highestRecv.Some? then rel.ack.highestRecv.value else 0);
          header := header.(unknown := INIT_ACK_REMOTE_SEQ);
          var bytes := EncodePacket(header, []);
          ack := Some(bytes);
        }
      }
    }
  }

  /** The three buffers that the loop over the commands fills, and whether it saw an `InCm`. */
  method SplitCommands(cmds: seq<Command>)
      returns (stateChunk: Bytes, audioChunk: Bytes, transferChunk: Bytes, sawReady: bool)
    ensures stateChunk == Joined(Routed(cmds, ToState))
    ensures audioChunk == Joined(Routed(cmds, ToAudio))
    ensures transferChunk == Joined(Routed(cmds, ToTransfer))
    ensures sawReady == (Routed(cmds, ToReady) != [])
  {
    stateChunk, audioChunk, transferChunk := [], [], [];
    sawReady := false;
    for k := 0 to |cmds|
      invariant stateChunk == Joined(Routed(cmds[..k], ToState))
      invariant audioChunk == Joined(Routed(cmds[..k], ToAudio))
      invariant transferChunk == Joined(Routed(cmds[..k], ToTransfer))
      invariant sawReady == (Routed(cmds[..k], ToReady) != [])
    {
      var c := cmds[k];
      RouteNext(cmds, k, ToState);
      RouteNext(cmds, k, ToAudio);
      RouteNext(cmds, k, ToTransfer);
      RouteNext(cmds, k, ToReady);
      hide Routed, Joined, IsTransferCommand, IsLockStatus, IsEphemeralCommand;
      if c.name == INIT_COMPLETE {
        sawReady := true;
        continue;
      }
      if IsTransferCommand(c.name) {
        transferChunk := transferChunk + c.raw;
        continue;
      }
      if IsLockStatus(c.name) {
        stateChunk := stateChunk + c.raw;
        continue;
      }
      if IsEphemeralCommand(c.name) {
        audioChunk := audioChunk + c.raw;
      } else {
        stateChunk := stateChunk + c.raw;
      }
    }
    assert cmds[..|cmds|] == cmds;
  }

  lemma RouteNext(cmds: seq<Command>, k: nat, route: Route)
    requires k < |cmds|
    ensures Joined(Routed(cmds[..k + 1], route))
         == if RouteOf(cmds[k].name) == route then Joined(Routed(cmds[..k], route)) + cmds[k].raw
            else Joined(Routed(cmds[..k], route))
    ensures Routed(cmds[..k + 1], route) != []
            <==> Routed(cmds[..k], route) != [] || RouteOf(cmds[k].name) == route
  {
    assert cmds[..k + 1][..k] == cmds[..k];
    hide RouteOf, Joined;
    if RouteOf(cmds[k].name) == route {
      JoinedAppend(Routed(cmds[..k], route), [cmds[k]]);
      JoinedSingle(cmds[k]);
    } else {
      assert Routed(cmds[..k], route) + [] == Routed(cmds[..k], route);
    }
  }

  lemma RawIsIgnored(s: CacheState, stores: Stores, payload: Bytes)
    requires Parse(payload).Err?
    ensures Ingested(s, payload) == s && AfterStatusPayload(stores, payload) == stores
  {
  }

  // ---------------------------------------------------------------- the split loses nothing

  lemma {:induction false} RoutedMembers(cmds: seq<Command>, route: Route)
    ensures forall c :: c in Routed(cmds, route) <==> c in cmds && RouteOf(c.name) == route
    ensures AllFramed(cmds) ==> AllFramed(Routed(cmds, route))
  {
    if cmds != [] {
      var rest, last := cmds[..|cmds| - 1], cmds[|cmds| - 1];
      RoutedMembers(rest, route);
      assert cmds == rest + [last];
      hide RouteOf, Framed;
    }
  }

  lemma RoutedNothing(route: Route)
    ensures Routed([], route) == []
  {
  }

  /** Every command takes exactly one route: the four parts have all the commands, each as often as
      the payload does. */
  lemma {:induction false} RoutesPartition(cmds: seq<Command>)
    ensures multiset(Routed(cmds, ToState)) + multiset(Routed(cmds, ToAudio))
          + multiset(Routed(cmds, ToTransfer)) + multiset(Routed(cmds, ToReady)) == multiset(cmds)
  {
    hide Routed, RouteOf;
    if cmds == [] {
      RoutedNothing(ToState);
      RoutedNothing(ToAudio);
      RoutedNothing(ToTransfer);
      RoutedNothing(ToReady);
    } else {
      var rest, last := cmds[..|cmds| - 1], cmds[|cmds| - 1];
      assert cmds == rest + [last];
      RoutesPartition(rest);
      RoutedMultiset(rest, last, ToState);
      RoutedMultiset(rest, last, ToAudio);
      RoutedMultiset(rest, last, ToTransfer);
      RoutedMultiset(rest, last, ToReady);
    }
  }

  lemma RoutedMultiset(rest: seq<Command>, last: Command, route: Route)
    ensures multiset(Routed(rest + [last], route))
         == multiset(Routed(rest, route)) + (if RouteOf(last.name) == route then multiset{last} else multiset{})
  {
    assert (rest + [last])[..|rest|] == rest;
    hide RouteOf;
  }

  /** Each chunk parses back to the commands of its route, in their order in the payload. */
  lemma ChunksReparse(cmds: seq<Command>, route: Route)
    requires AllFramed(cmds)
    ensures Parse(Joined(Routed(cmds, route))) == Ok(Routed(cmds, route))
  {
    RoutedMembers(cmds, route);
    ParseIffFraming(Joined(Routed(cmds, route)), Routed(cmds, route));
    hide *;
  }

  lemma SkippedRoutes(n: CommandName)
    ensures RouteOf(n) == ToAudio ==> Skipped(n) && !IsLockStatus(n)
    ensures RouteOf(n) == ToTransfer ==> Skipped(n) && !IsLockStatus(n)
    ensures RouteOf(n) == ToReady <==> n == INIT_COMPLETE
    ensures n == INIT_COMPLETE ==> !Skipped(n) && !IsLockStatus(n)
  {
    ClassesDisjoint(n);
    hide IsTransferCommand, IsEphemeralCommand;
  }

  lemma IngestReady(s: CacheState, c: Command, ready: bool)
    ensures IngestCommand(s, c).(ready := ready) == IngestCommand(s.(ready := ready), c).(ready := ready)
    ensures RouteOf(c.name) == ToAudio || RouteOf(c.name) == ToTransfer ==> IngestCommand(s, c) == s
    ensures RouteOf(c.name) == ToReady ==> IngestCommand(s, c) == s.(ready := true)
    ensures RouteOf(c.name) == ToState ==> IngestCommand(s, c).ready == s.ready
  {
    SkippedRoutes(c.name);
    hide KeyOf, Skipped, ParseVersion, RouteOf;
  }

  lemma {:induction false} StateChunkIngests(s: CacheState, cmds: seq<Command>)
    ensures IngestCommands(s, cmds)
         == (if Routed(cmds, ToReady) != [] then IngestCommands(s, Routed(cmds, ToState)).(ready := true)
             else IngestCommands(s, Routed(cmds, ToState)))
  {
    if cmds != [] {
      var rest, last := cmds[..|cmds| - 1], cmds[|cmds| - 1];
      StateChunkIngests(s, rest);
      var kept := Routed(rest, ToState);
      assert (kept + [last])[..|kept|] == kept && kept + [] == kept;
      IngestReady(IngestCommands(s, kept), last, true);
      hide IngestCommand, RouteOf;
    }
  }

  lemma OtherRoutesHoldNoStatus(stores: Stores, c: Command)
    requires RouteOf(c.name) != ToState
    ensures AfterStatusCommand(stores, c) == stores
  {
    SkippedRoutes(c.name);
    hide RouteOf, IsLockStatus, Skipped;
  }

  lemma {:induction false} StateChunkLocks(stores: Stores, cmds: seq<Command>)
    ensures AfterStatus(stores, cmds) == AfterStatus(stores, Routed(cmds, ToState))
  {
    hide RouteOf, AfterStatusCommand;
    if cmds != [] {
      var rest, last := cmds[..|cmds| - 1], cmds[|cmds| - 1];
      StateChunkLocks(stores, rest);
      var kept := Routed(rest, ToState);
      if RouteOf(last.name) == ToState {
        assert (kept + [last])[..|kept|] == kept;
      } else {
        assert kept + [] == kept;
        OtherRoutesHoldNoStatus(AfterStatus(stores, rest), last);
      }
    }
  }

  /** The split path leaves the cache and the locks as if the whole payload had been ingested. */
  lemma SplitKeepsState(s: CacheState, stores: Stores, payload: Bytes)
    requires Parse(payload).Ok?
    ensures var cmds := Parse(payload).value; var chunk := Joined(Routed(cmds, ToState));
            && Ingested(s, payload)
               == (if SawReady(payload) then Ingested(s, chunk).(ready := true) else Ingested(s, chunk))
            && AfterStatusPayload(stores, payload) == AfterStatusPayload(stores, chunk)
            && (chunk == [] ==> Ingested(s, chunk) == s && AfterStatusPayload(stores, chunk) == stores)
  {
    var cmds := Parse(payload).value;
    ParseIffFraming(payload, cmds);
    ChunksReparse(cmds, ToState);
    StateChunkIngests(s, cmds);
    StateChunkLocks(stores, cmds);
    assert Parse([]) == Ok([]);
    hide Parse, Routed, Joined, IngestCommand, AfterStatusCommand;
  }

  /** No event is longer than the payload it came from. */
  lemma EventsFit(payload: Bytes)
    ensures forall e :: e in EventsOf(payload) ==> !e.Connected? && |e.payload| <= |payload|
  {
    if Parse(payload).Ok? {
      var cmds := Parse(payload).value;
      ParseIffFraming(payload, cmds);
      RoutedLength(cmds, ToState);
      RoutedLength(cmds, ToAudio);
      RoutedLength(cmds, ToTransfer);
    }
    hide Routed, Joined, Parse;
  }

  lemma {:induction false} RoutedLength(cmds: seq<Command>, route: Route)
    ensures |Joined(Routed(cmds, route))| <= |Joined(cmds)|
  {
    if cmds != [] {
      var rest, last := cmds[..|cmds| - 1], cmds[|cmds| - 1];
      RoutedLength(rest, route);
      assert cmds == rest + [last];
      JoinedAppend(rest, [last]);
      JoinedAppend(Routed(rest, route), [last]);
      assert Routed(rest, route) + [] == Routed(rest, route);
      hide RouteOf, Joined;
    }
  }
}
