/** The proxy's client side in place (atem-proxy/src/server.rs): the sessions map, the fan-out of one
    upstream event, the handling of one client datagram, and one timer tick. Sockets are left out: a
    method returns what the source sends. */
module Server {
  import opened Wire
  import opened Packets
  import opened Reliable
  import opened Cache
  import opened Locks
  import opened Transfer
  import opened Filter
  import opened Upstream
  import opened FanOut
  import Timing
  import Transport

  /** `ReliableConfig::default()`, in milliseconds. */
  const CLIENT_CONFIG := ReliableConfig(32, 30, 16, 5, 100)

  // ---------------------------------------------------------------- one packet of a client

  predicate Acks(h: PacketHeader) {
    h.flags.ackReply || h.ackId != 0
  }

  /** Of a session, what queueing leaves alone: the payloads that have left its queue, the endpoint but for
      that queue, and the time of the last packet. */
  datatype Remainder = Remainder(sent: seq<Bytes>, ep: Endpoint, heardAt: nat)

  /** Session ids have the high bit set. */
  function ServerSessionId(index: u16): u16 {
    0x8000 + index % 0x8000
  }

  /** The high bit and the low fifteen bits of the index. */
  lemma SessionIdHasHighBit(index: u16)
    ensures ServerSessionId(index) >= 0x8000 && (ServerSessionId(index) - index) % 0x8000 == 0
  {
  }

  /** The HELLO reply: status 2 and seven zero bytes under the new session's id. */
  function HandshakeReply(sessionId: u16): Bytes {
    PacketBytes(NewHeader(NO_FLAGS.(handshake := true), sessionId, 20), [2, 0, 0, 0, 0, 0, 0, 0])
  }

  /** The client reads a handshake packet with its session id and the status. */
  lemma HandshakeReplyDecodes(sessionId: u16)
    ensures var r := DecodePacket(HandshakeReply(sessionId));
            && r.Ok? && r.value.header.flags == NO_FLAGS.(handshake := true)
            && r.value.header.sessionId == sessionId && r.value.payload == [2, 0, 0, 0, 0, 0, 0, 0]
    ensures DecodePacket(HandshakeReply(sessionId)).value.header
         == PacketHeader(PacketFlags(false, true, false, false, false), 20, sessionId, 0, 0, 0, 0)
  {
    PacketRoundTrip(NewHeader(NO_FLAGS.(handshake := true), sessionId, 20), [2, 0, 0, 0, 0, 0, 0, 0]);
    hide DecodePacket, HeaderBytes;
  }

  /** The counter after this many HELLOs that were answered: it starts at 1 and wraps. */
  function CounterAfter(hellos: nat): u16 {
    (1 + hellos) % 0x1_0000
  }

  lemma CounterNext(hellos: nat)
    ensures CounterAfter(hellos + 1) == (CounterAfter(hellos) + 1) % 0x1_0000
  {
  }

  /** Over any number of HELLOs, across the counter's wraps: two sessions have the same id exactly when the
      HELLOs that made them are a multiple of 2^15 apart. */
  lemma SessionIdsRepeatIff(i: nat, j: nat)
    ensures ServerSessionId(CounterAfter(i)) == ServerSessionId(CounterAfter(j)) <==> (i - j) % 0x8000 == 0
  {
    RemainderTwice(1 + i);
    RemainderTwice(1 + j);
    SameRemainderIff(1 + i, 1 + j);
  }

  lemma RemainderTwice(n: nat)
    ensures n % 0x1_0000 % 0x8000 == n % 0x8000
  {
    var q, r := n / 0x1_0000, n % 0x1_0000;
    OnlyRemainder(n, 2 * q + r / 0x8000, r % 0x8000);
  }

  lemma OnlyRemainder(n: int, q: int, r: int)
    requires n == 0x8000 * q + r && 0 <= r < 0x8000
    ensures n % 0x8000 == r
  {
  }

  lemma SameRemainderIff(m: nat, n: nat)
    ensures m % 0x8000 == n % 0x8000 <==> (m - n) % 0x8000 == 0
  {
    assert m - n == (m / 0x8000 - n / 0x8000) * 0x8000 + (m % 0x8000 - n % 0x8000);
  }

  /** A session after the handshake: the HELLO counts as id 0 both ways. */
  function NewEndpoint(sessionId: u16, now: nat): Endpoint {
    Endpoint(sessionId, 1, CLIENT_CONFIG, [], [], AckState(None, 1, None, 0), now, false)
  }

  /** A new session starts where the transport model starts. */
  lemma NewEndpointIsFresh(sessionId: u16, now: nat)
    ensures Transport.Fresh(Transport.Peer(NewEndpoint(sessionId, now), [], [[]], 1, []), 1, 1)
  {
    assert seq<Bytes>(1, _ => []) == [[]];
  }

  lemma NewEndpointIsRegular(sessionId: u16, now: nat)
    ensures Timing.Regular(NewEndpoint(sessionId, now))
  {
  }

  /** A client session in numbers, over any run of calls: keepalives 100 ms apart while it is idle, an acknowledgement
      after 16 packets or, if there are any, 5 ms after the last one, everything in flight sent again after 30 ms, and
      32 packets in flight at most. */
  lemma ClientIntervals(sessionId: u16, start: nat, calls: seq<Timing.Call>, i: nat, j: nat)
    requires Timing.Speaks(calls) && i < j < |calls| && calls[j].PollIt?
    ensures var e := NewEndpoint(sessionId, start);
            && (Timing.SendsAt(e, calls, j, Timing.Keepalive)
                <==> && Timing.Idle(Timing.At(e, calls, j)) && calls[j].now >= start + 100
                     && forall k :: 0 <= k < j && Timing.SendsAt(e, calls, k, Timing.Keepalive) ==>
                          calls[j].now >= calls[k].now + 100)
            && (Timing.SendsAt(e, calls, i, Timing.Acknowledgement)
                && (forall k :: i < k < j ==> !Timing.SendsAt(e, calls, k, Timing.Acknowledgement)) ==>
                  (Timing.SendsAt(e, calls, j, Timing.Acknowledgement)
                   <==> var n := Timing.AcceptedIn(e, calls, i + 1, j);
                        n >= 16 || (n >= 1 && calls[j].clock >= calls[i].clock + 5)))
            && (Timing.SendsAt(e, calls, j, Timing.Retransmission)
                <==> var window := Timing.At(e, calls, j).inFlight;
                     window != [] && calls[j].now >= window[0].sentAt + 30)
            && |Timing.At(e, calls, j).inFlight| <= 32
  {
    hide Timing.SendsAt, Timing.At, Timing.Idle, Timing.Regular, Timing.Speaks, Timing.AcceptedIn;
    NewEndpointIsRegular(sessionId, start);
    var e := NewEndpoint(sessionId, start);
    Timing.KeepaliveIff(e, calls, j);
    Timing.RetransmissionIff(e, calls, j);
    Timing.WindowBounded(e, calls, j);
    if Timing.SendsAt(e, calls, i, Timing.Acknowledgement)
       && forall k :: i < k < j ==> !Timing.SendsAt(e, calls, k, Timing.Acknowledgement) {
      Timing.AcknowledgementIff(e, calls, i, j);
    }
  }

  /** What a packet does to the endpoint's window and to the ids it has accepted. */
  function Heard(e: Endpoint, h: PacketHeader): Endpoint {
    var acked := if Acks(h) then OnAck(e, h.ackId) else e;
    if h.flags.ackRequest then Accept(acked, h.packetId) else acked
  }

  /** That is what the transport model does with the same datagram. */
  lemma HeardIsReceive(p: Transport.Peer, data: Bytes)
    requires DecodePacket(data).Ok? && !DecodePacket(data).value.header.flags.handshake
    ensures Transport.Receive(p, data).ep == Heard(p.ep, DecodePacket(data).value.header)
  {
    hide DecodePacket;
  }

  /** A packet's commands are looked at exactly when the transport hands its payload over, and a retransmit request is sent
      exactly when the transport sends one. */
  lemma TakenIsDelivered(p: Transport.Peer, data: Bytes)
    requires DecodePacket(data).Ok? && !DecodePacket(data).value.header.flags.handshake
    ensures var packet := DecodePacket(data).value;
            && Transport.Receive(p, data).delivered == p.delivered + (if Taken(p.ep, packet) then [packet.payload] else [])
            && Transport.ReceiveReply(p, data)
               == if Refused(p.ep, packet.header) then [Transport.Request(RetransmitRequest(p.ep))] else []
  {
    hide DecodePacket, RetransmitRequest, DropCovered;
    OneOrNone(DecodePacket(data).value.payload);
    assert p.delivered + [] == p.delivered;
  }

  lemma OneOrNone(payload: Bytes)
    ensures NonEmpties([payload]) == if payload == [] then [] else [payload]
  {
    assert [payload][1..] == [];
  }

  /** The same, with the opening of the session that comes with its first acknowledgement. */
  function AfterHeard(r: Remainder, h: PacketHeader, wasOpen: bool, now: nat): Remainder {
    Remainder(r.sent, Heard(r.ep, h).(isOpen := r.ep.isOpen || (Acks(h) && !wasOpen)), now)
  }

  /** The packet's commands are looked at: it is the reliable packet that was expected. */
  predicate Taken(e: Endpoint, packet: Packet) {
    packet.header.flags.ackRequest && Accepts(e, packet.header.packetId) && packet.payload != []
  }

  predicate Refused(e: Endpoint, h: PacketHeader) {
    h.flags.ackRequest && !Accepts(e, h.packetId)
  }

  /** The session after a packet: opened by its first acknowledgement, and with the audio flag that the
      packet's commands leave. */
  function AfterPacket(s: Session, e: Endpoint, packet: Packet, dump: seq<Bytes>, actions: seq<FilterAction>): Session {
    var heard := if Acks(packet.header) then Opened(s, dump) else s;
    if Taken(e, packet) then heard.(audio := AudioAfter(actions, s.audio)) else heard
  }

  /** A packet acknowledges if it has the flag or names any id but 0, also when it is a data packet: only then does it
      open the session and touch the window. */
  lemma AnyAckOpens(s: Session, e: Endpoint, packet: Packet, dump: seq<Bytes>, actions: seq<FilterAction>)
    ensures var acks := packet.header.flags.ackReply || packet.header.ackId != 0;
            && AfterPacket(s, e, packet, dump, actions).isOpen == (s.isOpen || acks)
            && (acks && !s.isOpen && !s.dumpSent ==>
                  AfterPacket(s, e, packet, dump, actions).queued == s.queued + Pack(dump))
            && (!acks || s.isOpen ==> AfterPacket(s, e, packet, dump, actions).queued == s.queued)
            && Heard(e, packet.header).inFlight == (if acks then DropCovered(e.inFlight, packet.header.ackId) else e.inFlight)
  {
    hide Pack, DropCovered, AudioAfter;
  }

  /** What a packet does to the sessions is what the fan-out model's steps do: the first acknowledgement,
      then the audio flag. */
  lemma PacketIsSteps(h: Hub, addr: Addr, e: Endpoint, packet: Packet, actions: seq<FilterAction>)
    requires Cache.Valid(h.cache) && addr in h.sessions
    ensures var s := h.sessions[addr];
            var acked := if Acks(packet.header) then After(h, Acked(addr)) else h;
            && acked.cache == h.cache
            && (if Taken(e, packet) then After(acked, SetAudio(addr, AudioAfter(actions, s.audio))) else acked)
               == h.(sessions := h.sessions[addr := AfterPacket(s, e, packet, Dump(h.cache), actions)])
  {
    hide Cache.Valid, Dump, Pack, AudioAfter, Taken;
    assert h.sessions[addr := h.sessions[addr]] == h.sessions;
  }

  /** A client session. `queued` is every payload given to the endpoint so far and `sent` those that
      have left its outbound queue. */
  class ClientSession {
    const rel: ReliableEndpoint
    var dumpSent: bool
    var isOpen: bool
    var audio: bool
    ghost var queued: seq<Bytes>
    ghost var sent: seq<Bytes>

    ghost function Now(): Session
      reads this
    {
      Session(isOpen, dumpSent, audio, queued)
    }

    /** Nothing given to the endpoint is lost, doubled or reordered on its way to the wire. */
    ghost predicate Valid()
      reads this, rel
    {
      queued == sent + rel.outbound
    }

    /** With `Valid`, the outbound queue is what `Now` says. */
    ghost function Rest(): Remainder
      reads this, rel
    {
      Remainder(sent, rel.State().(outbound := []), rel.lastRecvAt)
    }

    constructor (rel: ReliableEndpoint)
      requires rel.outbound == []
      ensures this.rel == rel && Now() == NEW_SESSION && Valid() && sent == []
    {
      this.rel := rel;
      dumpSent, isOpen, audio := false, false, false;
      queued, sent := [], [];
    }

    method Give(payload: Bytes)
      requires Valid()
      modifies `queued, rel`outbound
      ensures Valid() && Rest() == old(Rest()) && Now() == QueueOn(old(Now()), [payload])
    {
      rel.QueuePayload(payload);
      queued := queued + [payload];
    }

    method GiveDumpPacked(dump: seq<Bytes>)
      requires Valid()
      modifies `queued, rel`outbound
      ensures Valid() && Rest() == old(Rest()) && Now() == QueueOn(old(Now()), Pack(dump))
    {
      rel.QueueCommandsPacked(dump);
      queued := queued + Pack(dump);
    }

    /** The first acknowledgement opens the session and queues the dump. */
    method OpenOnce(cache: StateCache)
      requires Valid() && Cache.Valid(cache.State())
      modifies this, rel`outbound, rel`isOpen
      ensures Valid() && sent == old(sent)
      ensures Now() == Opened(old(Now()), Dump(cache.State()))
      ensures rel.isOpen == (old(rel.isOpen) || !old(isOpen))
    {
      if !isOpen {
        isOpen := true;
        rel.isOpen := true;
        if !dumpSent {
          var dump := cache.BuildDump();
          GiveDumpPacked(dump);
          dumpSent := true;
        }
      }
    }

    /** Everything a session does with a packet that is not a handshake. */
    method Handle(packet: Packet, addr: Addr, cache: StateCache, filter: CommandFilter, now: nat)
        returns (reply: Option<Bytes>, forward: seq<Bytes>)
      requires Valid() && Cache.Valid(cache.State()) && filter.transfer.locks == filter.locks
      modifies this, rel, filter, filter.locks, filter.transfer
      ensures Valid() && Rest() == AfterHeard(old(Rest()), packet.header, old(isOpen), now)
      ensures var e, actions := old(Rest()).ep, PayloadActions(filter.Config(), old(filter.State()), addr, packet.payload);
              && Now() == AfterPacket(old(Now()), e, packet, Dump(old(cache.State())), actions)
              && forward == (if Taken(e, packet) then Forwards(actions) else [])
              && reply == (if Refused(e, packet.header) then Some(RetransmitRequest(e)) else None)
      ensures filter.State() == if Taken(old(Rest()).ep, packet)
                                then AfterPayload(filter.Config(), old(filter.State()), addr, packet.payload)
                                else old(filter.State())
    {
      hide Pack, DropCovered, AfterPayload, PayloadActions, Cache.Valid, Dump, Forwards, AudioAfter;
      rel.lastRecvAt := now;
      NoteAck(packet.header, cache);
      reply, forward := TakeReliable(packet, addr, filter);
    }

    /** The acknowledgement that a packet carries: the window, and the opening of the session. */
    method NoteAck(h: PacketHeader, cache: StateCache)
      requires Valid() && Cache.Valid(cache.State())
      modifies this, rel`inFlight, rel`outbound, rel`isOpen
      ensures Valid() && sent == old(sent)
      ensures rel.State() == (if Acks(h) then OnAck(old(rel.State()), h.ackId) else old(rel.State()))
                             .(outbound := rel.outbound, isOpen := old(rel.isOpen) || (Acks(h) && !old(isOpen)))
      ensures Now() == if Acks(h) then Opened(old(Now()), Dump(cache.State())) else old(Now())
    {
      hide Pack, DropCovered, Cache.Valid, Dump;
      if h.flags.ackReply || h.ackId != 0 {
        rel.OnAckId(h.ackId);
        OpenOnce(cache);
      }
    }

    /** A reliable packet: refused and asked for again, or accepted and passed to the filter. */
    method TakeReliable(packet: Packet, addr: Addr, filter: CommandFilter)
        returns (reply: Option<Bytes>, forward: seq<Bytes>)
      requires filter.transfer.locks == filter.locks
      modifies `audio, rel`ack, filter, filter.locks, filter.transfer
      ensures rel.State() == if packet.header.flags.ackRequest then Accept(old(rel.State()), packet.header.packetId)
                             else old(rel.State())
      ensures var actions := PayloadActions(filter.Config(), old(filter.State()), addr, packet.payload);
              if Taken(old(rel.State()), packet) then
                audio == AudioAfter(actions, old(audio)) && forward == Forwards(actions)
                && filter.State() == AfterPayload(filter.Config(), old(filter.State()), addr, packet.payload)
              else audio == old(audio) && forward == [] && filter.State() == old(filter.State())
      ensures reply == if Refused(old(rel.State()), packet.header) then Some(RetransmitRequest(old(rel.State()))) else None
    {
      hide AfterPayload, PayloadActions, Forwards, AudioAfter;
      reply, forward := None, [];
      if packet.header.flags.ackRequest {
        var accepted := rel.AcceptReliable(packet.header.packetId, packet.header.flags.isRetransmit);
        if !accepted {
          var request := rel.BuildRetransmitRequest();
          reply := Some(request);
        } else if packet.payload != [] {
          var actions := filter.ProcessPayload(addr, packet.payload);
          forward := Apply(actions);
        }
      }
    }

    /** The loop over the filter's actions. */
    method Apply(actions: seq<FilterAction>) returns (forward: seq<Bytes>)
      modifies `audio
      ensures forward == Forwards(actions) && audio == AudioAfter(actions, old(audio))
    {
      forward := [];
      for k := 0 to |actions|
        invariant forward == Forwards(actions[..k]) && audio == AudioAfter(actions[..k], old(audio))
      {
        assert actions[..k + 1][..k] == actions[..k];
        match actions[k]
        case Forward(raw) => forward := forward + [raw];
        case Dropped(_, _) =>
        case AudioSubscribe(enable, toSend) =>
          audio := enable;
          if toSend.Some? {
            forward := forward + [toSend.value];
          }
      }
      assert actions[..|actions|] == actions;
    }

    /** One poll of the endpoint. */
    method PollRel(now: nat, clock: nat) returns (out: seq<Bytes>)
      requires Valid()
      modifies `sent, rel`inFlight, rel`outbound, rel`nextSendId, rel`ack, rel`lastPingAt
      ensures Valid() && old(sent) <= sent && Now() == old(Now())
      ensures rel.State() == Poll(old(rel.State()), now, clock) && out == PollOut(old(rel.State()), now, clock)
    {
      ghost var before := rel.outbound;
      PollOutboundSuffix(rel.State(), now, clock);
      out := rel.PollOutbound(now, clock);
      ghost var n := |before| - |rel.outbound|;
      assert before == before[..n] + before[n..];
      sent := sent + before[..n];
    }
  }

  /** The endpoint and the session that a HELLO makes. */
  method NewSession(sessionId: u16, now: nat) returns (session: ClientSession)
    ensures fresh(session) && fresh(session.rel) && session.Valid() && session.Now() == NEW_SESSION
    ensures session.Rest() == Remainder([], NewEndpoint(sessionId, now), now)
  {
    var rel := new ReliableEndpoint(sessionId, CLIENT_CONFIG, now);
    rel.nextSendId := 1;
    rel.ack := rel.ack.(expectedRecv := 1);
    session := new ClientSession(rel);
  }

  lemma {:induction false} FillSuffix(e: Endpoint, now: nat)
    ensures |Fill(e, now).outbound| <= |e.outbound|
    ensures Fill(e, now).outbound == e.outbound[|e.outbound| - |Fill(e, now).outbound|..]
    decreases |e.outbound|
  {
    if CanFill(e) {
      FillSuffix(TransmitNext(e, now), now);
    }
  }

  lemma PollOutboundSuffix(e: Endpoint, now: nat, clock: nat)
    ensures var left := Poll(e, now, clock).outbound;
            |left| <= |e.outbound| && left == e.outbound[|e.outbound| - |left|..]
  {
    FillSuffix(Resend(e, now), now);
    hide Fill;
  }

  class ProxyServer {
    const cache: StateCache
    const filter: CommandFilter
    const transfer: TransferLane
    var sessions: map<Addr, ClientSession>
    var nextSid: u16

    ghost var repr: set<object>

    /** The sessions and their endpoints are this server's, and no two clients share one. */
    ghost predicate Apart()
      reads `sessions, `repr
    {
      && (forall a :: a in sessions ==> sessions[a] in repr && sessions[a].rel in repr)
      && (forall a, b :: a in sessions && b in sessions && a != b ==>
            sessions[a] != sessions[b] && sessions[a].rel != sessions[b].rel)
    }

    /** The shared objects are wired up as one proxy, and none of them is part of a session. */
    ghost predicate Outside()
      reads `sessions, `repr
    {
      && filter.transfer == transfer && transfer.locks == filter.locks
      && cache !in repr && filter !in repr && transfer !in repr && filter.locks !in repr
    }

    ghost predicate AllValid()
      requires Apart()
      reads `sessions, `repr, repr
    {
      forall a :: a in sessions ==> sessions[a].Valid()
    }

    ghost predicate Valid()
      reads `sessions, `repr, repr
    {
      this !in repr && Outside() && Apart() && AllValid()
    }

    ghost function Clients(): (r: Sessions)
      requires Apart()
      reads `sessions, `repr, repr
      ensures r.Keys == sessions.Keys
    {
      map a | a in sessions :: sessions[a].Now()
    }

    ghost function Rest(): (r: map<Addr, Remainder>)
      requires Apart()
      reads `sessions, `repr, repr
      ensures r.Keys == sessions.Keys
    {
      map a | a in sessions :: sessions[a].Rest()
    }

    ghost function Endpoints(): (r: map<Addr, Endpoint>)
      requires Apart()
      reads `sessions, `repr, repr
      ensures r.Keys == sessions.Keys
    {
      map a | a in sessions :: sessions[a].rel.State()
    }

    ghost function HeardAt(): (r: map<Addr, nat>)
      requires Apart()
      reads `sessions, `repr, repr
      ensures r.Keys == sessions.Keys
    {
      map a | a in sessions :: sessions[a].rel.lastRecvAt
    }

    constructor (cache: StateCache, filter: CommandFilter, transfer: TransferLane)
      requires filter.transfer == transfer && transfer.locks == filter.locks
      ensures this.cache == cache && this.filter == filter && this.transfer == transfer
      ensures sessions == map[] && repr == {} && nextSid == 1 && Valid()
    {
      this.cache, this.filter, this.transfer := cache, filter, transfer;
      sessions, repr, nextSid := map[], {}, 1;
    }

    method GiveTo(a: Addr, payload: Bytes)
      requires Valid() && a in sessions
      modifies repr
      ensures Valid() && Rest() == old(Rest())
      ensures Clients() == old(Clients())[a := QueueOn(old(Clients())[a], [payload])]
    {
      hide ClientSession.Now, ClientSession.Rest, ClientSession.Valid, QueueOn;
      sessions[a].Give(payload);
    }

    method GiveDumpTo(a: Addr, dump: seq<Bytes>)
      requires Valid() && a in sessions
      modifies repr
      ensures Valid() && Rest() == old(Rest())
      ensures Clients() == old(Clients())[a := QueueOn(old(Clients())[a], Pack(dump))]
    {
      hide ClientSession.Now, ClientSession.Rest, ClientSession.Valid, QueueOn;
      sessions[a].GiveDumpPacked(dump);
    }

    lemma FlagsAt(a: Addr)
      requires Apart() && a in sessions
      ensures Clients()[a].isOpen == sessions[a].isOpen && Clients()[a].audio == sessions[a].audio
    {
    }

    method FanOutState(payload: Bytes)
      requires Valid()
      modifies repr
      ensures Valid() && Rest() == old(Rest())
      ensures Clients() == FannedOut(old(Clients()), StatePayload(payload), None)
    {
      hide PartlyFannedOut, FannedOut, GivenEvent, Receives, ProxyServer.Apart, ProxyServer.AllValid,
        ProxyServer.Outside, ProxyServer.Clients, ProxyServer.Rest, QueueOn;
      ghost var before, e := Clients(), StatePayload(payload);
      AllFannedOut(before, e, None);
      var left := sessions.Keys;
      while left != {}
        invariant left <= sessions.Keys && Valid() && Rest() == old(Rest())
        invariant Clients() == PartlyFannedOut(before, left, e, None)
        decreases |left|
      {
        var a :| a in left;
        FanOutOneMore(before, left, a, e, None);
        FlagsAt(a);
        WhoReceives(before[a], a, payload);
        left := left - {a};
        if sessions[a].isOpen {
          GiveTo(a, payload);
        }
      }
    }

    method FanOutAudio(payload: Bytes)
      requires Valid()
      modifies repr
      ensures Valid() && Rest() == old(Rest())
      ensures Clients() == FannedOut(old(Clients()), AudioLevels(payload), None)
    {
      hide PartlyFannedOut, FannedOut, GivenEvent, Receives, ProxyServer.Apart, ProxyServer.AllValid,
        ProxyServer.Outside, ProxyServer.Clients, ProxyServer.Rest, QueueOn;
      ghost var before, e := Clients(), AudioLevels(payload);
      AllFannedOut(before, e, None);
      var left := sessions.Keys;
      while left != {}
        invariant left <= sessions.Keys && Valid() && Rest() == old(Rest())
        invariant Clients() == PartlyFannedOut(before, left, e, None)
        decreases |left|
      {
        var a :| a in left;
        FanOutOneMore(before, left, a, e, None);
        FlagsAt(a);
        WhoReceives(before[a], a, payload);
        left := left - {a};
        if sessions[a].isOpen && sessions[a].audio {
          GiveTo(a, payload);
        }
      }
    }

    method FanOutTransfer(payload: Bytes)
      requires Valid()
      modifies repr
      ensures Valid() && Rest() == old(Rest())
      ensures Clients() == FannedOut(old(Clients()), TransferPayload(payload),
                                     old(FanoutOwner(transfer.cfg, transfer.locks.stores, transfer.active)))
    {
      hide FannedOut, FanoutOwner, ProxyServer.Apart, ProxyServer.AllValid, ProxyServer.Outside,
        ProxyServer.Clients, ProxyServer.Rest;
      ghost var before := Clients();
      var owner := transfer.FanoutTo();
      TransferGoesToOwner(before, payload, owner);
      if owner.Some? && owner.value in sessions {
        FlagsAt(owner.value);
        if sessions[owner.value].isOpen {
          GiveTo(owner.value, payload);
        }
      }
    }

    /** One event of the channel. */
    method HandleEvent(e: UpstreamEvent)
      requires Valid()
      modifies repr
      ensures Valid() && Rest() == old(Rest())
      ensures Clients() == FannedOut(old(Clients()), e,
                                     old(FanoutOwner(transfer.cfg, transfer.locks.stores, transfer.active)))
    {
      OwnerMatters(Clients(), e, None, FanoutOwner(transfer.cfg, transfer.locks.stores, transfer.active));
      hide FannedOut, FanoutOwner, ProxyServer.Apart, ProxyServer.AllValid, ProxyServer.Outside,
        ProxyServer.Clients, ProxyServer.Rest;
      match e
      case Connected =>
      case StatePayload(payload) => FanOutState(payload);
      case AudioLevels(payload) => FanOutAudio(payload);
      case TransferPayload(payload) => FanOutTransfer(payload);
    }

    /** After a lag: every opened session gets the dump that was taken. */
    method ResyncOpened(dump: seq<Bytes>)
      requires Valid()
      modifies repr
      ensures Valid() && Rest() == old(Rest())
      ensures Clients() == Resynced(old(Clients()), dump)
    {
      hide PartlyResynced, Resynced, GivenDump, Pack, ProxyServer.Apart, ProxyServer.AllValid,
        ProxyServer.Outside, ProxyServer.Clients, ProxyServer.Rest, QueueOn;
      ghost var before := Clients();
      AllResynced(before, dump);
      var left := sessions.Keys;
      while left != {}
        invariant left <= sessions.Keys && Valid() && Rest() == old(Rest())
        invariant Clients() == PartlyResynced(before, left, dump)
        decreases |left|
      {
        var a :| a in left;
        ResyncOneMore(before, left, a, dump);
        FlagsAt(a);
        left := left - {a};
        if sessions[a].isOpen {
          GiveDumpTo(a, dump);
        }
      }
    }

    /** Puts a session that nobody has into the map. */
    method Install(addr: Addr, session: ClientSession)
      requires Valid() && session.Valid() && session !in repr && session.rel !in repr
      requires session.rel as object != this && session as object != this
      requires {session, session.rel} !! {cache, filter, transfer, filter.locks}
      modifies `sessions, `repr
      ensures Valid() && repr == old(repr) + {session, session.rel}
      ensures Clients() == old(Clients())[addr := session.Now()]
      ensures Rest() == old(Rest())[addr := session.Rest()]
    {
      hide ClientSession.Now, ClientSession.Rest, ClientSession.Valid;
      ghost var was, clients, rest := sessions, Clients(), Rest();
      repr := repr + {session, session.rel};
      sessions := sessions[addr := session];
      assert Valid();
      hide ProxyServer.AllValid, ProxyServer.Outside;
      assert forall a :: a in was ==> was[a].Now() == clients[a] && was[a].Rest() == rest[a];
      assert Clients() == clients[addr := session.Now()];
      hide ProxyServer.Clients;
      assert Rest() == rest[addr := session.Rest()];
    }

    /** A HELLO: refused until upstream is connected and ready, else answered with a new session, in place of
        any that the client had. */
    method Handshake(addr: Addr, connected: bool, now: nat) returns (reply: Option<Bytes>)
      requires Valid()
      modifies `sessions, `repr, `nextSid
      ensures Valid() && fresh(repr - old(repr))
      ensures if connected && cache.ready then
                var sessionId := ServerSessionId(old(nextSid));
                && Clients() == old(Clients())[addr := NEW_SESSION]
                && Rest() == old(Rest())[addr := Remainder([], NewEndpoint(sessionId, now), now)]
                && reply == Some(HandshakeReply(sessionId)) && nextSid == (old(nextSid) + 1) % 0x1_0000
              else Clients() == old(Clients()) && Rest() == old(Rest()) && reply == None && nextSid == old(nextSid)
    {
      hide ProxyServer.Clients, ProxyServer.Rest, ProxyServer.Apart, ProxyServer.AllValid, PacketBytes;
      if !connected || !cache.ready {
        return None;
      }
      var sessionId := ServerSessionId(nextSid);
      nextSid := (nextSid + 1) % 0x1_0000;
      var bytes := EncodePacket(NewHeader(NO_FLAGS.(handshake := true), sessionId, 20), [2, 0, 0, 0, 0, 0, 0, 0]);
      var session := NewSession(sessionId, now);
      Install(addr, session);
      return Some(bytes);
    }

    method HandleAt(packet: Packet, addr: Addr, now: nat) returns (reply: Option<Bytes>, forward: seq<Bytes>)
      requires Valid() && addr in sessions && Cache.Valid(cache.State())
      modifies repr, filter, filter.locks, filter.transfer
      ensures Valid()
      ensures var s, r := old(Clients())[addr], old(Rest())[addr];
              var actions := PayloadActions(filter.Config(), old(filter.State()), addr, packet.payload);
              && Clients() == old(Clients())[addr := AfterPacket(s, r.ep, packet, Dump(old(cache.State())), actions)]
              && Rest() == old(Rest())[addr := AfterHeard(r, packet.header, s.isOpen, now)]
              && forward == (if Taken(r.ep, packet) then Forwards(actions) else [])
              && reply == (if Refused(r.ep, packet.header) then Some(RetransmitRequest(r.ep)) else None)
      ensures filter.State() == if Taken(old(Rest())[addr].ep, packet)
                                then AfterPayload(filter.Config(), old(filter.State()), addr, packet.payload)
                                else old(filter.State())
    {
      hide ClientSession.Now, ClientSession.Rest, ClientSession.Valid, AfterPacket, AfterHeard, Forwards,
        PayloadActions, AfterPayload, Cache.Valid, Dump, Taken, Refused, RetransmitRequest;
      FlagsAt(addr);
      ghost var clients, rest := Clients(), Rest();
      reply, forward := sessions[addr].Handle(packet, addr, cache, filter, now);
      assert Valid();
      hide ProxyServer.AllValid, ProxyServer.Outside;
      assert forall a :: a in sessions && a != addr ==> sessions[a].Now() == clients[a] && sessions[a].Rest() == rest[a];
    }

    /** One client datagram. What does not decode, or comes from an address without a session, changes
        nothing and is not answered. */
    method HandleDatagram(data: Bytes, addr: Addr, connected: bool, now: nat)
        returns (reply: Option<Bytes>, forward: seq<Bytes>)
      requires Valid() && Cache.Valid(cache.State())
      modifies this, repr, filter, filter.locks, filter.transfer
      ensures Valid() && fresh(repr - old(repr))
      ensures KindOf(data, addr, old(Clients())).Ignored? ==>
                Clients() == old(Clients()) && Rest() == old(Rest()) && filter.State() == old(filter.State())
                && reply == None && forward == []
      ensures KindOf(data, addr, old(Clients())).Hello? ==>
                && (if connected && cache.ready then
                      var sessionId := ServerSessionId(old(nextSid));
                      && Clients() == old(Clients())[addr := NEW_SESSION]
                      && Rest() == old(Rest())[addr := Remainder([], NewEndpoint(sessionId, now), now)]
                      && reply == Some(HandshakeReply(sessionId)) && nextSid == (old(nextSid) + 1) % 0x1_0000
                    else Clients() == old(Clients()) && Rest() == old(Rest()) && reply == None
                         && nextSid == old(nextSid))
                && filter.State() == old(filter.State()) && forward == []
      ensures !KindOf(data, addr, old(Clients())).Hello? ==> nextSid == old(nextSid)
      ensures KindOf(data, addr, old(Clients())).FromClient? ==>
                var packet, s, r := KindOf(data, addr, old(Clients())).packet, old(Clients())[addr], old(Rest())[addr];
                var actions := PayloadActions(filter.Config(), old(filter.State()), addr, packet.payload);
                && Clients() == old(Clients())[addr := AfterPacket(s, r.ep, packet, Dump(old(cache.State())), actions)]
                && Rest() == old(Rest())[addr := AfterHeard(r, packet.header, s.isOpen, now)]
                && forward == (if Taken(r.ep, packet) then Forwards(actions) else [])
                && reply == (if Refused(r.ep, packet.header) then Some(RetransmitRequest(r.ep)) else None)
                && filter.State() == (if Taken(r.ep, packet)
                                      then AfterPayload(filter.Config(), old(filter.State()), addr, packet.payload)
                                      else old(filter.State()))
    {
      hide AfterPacket, AfterHeard, Forwards, PayloadActions, AfterPayload, Cache.Valid, Dump, Taken, Refused,
        RetransmitRequest, DecodePacket, ProxyServer.Clients, ProxyServer.Rest, ProxyServer.Apart, ProxyServer.AllValid;
      reply, forward := None, [];
      var decoded := DecodePacket(data);
      if decoded.Err? {
        return;
      }
      var packet := decoded.value;
      if packet.header.flags.handshake {
        reply := Handshake(addr, connected, now);
        return;
      }
      if addr !in sessions {
        return;
      }
      reply, forward := HandleAt(packet, addr, now);
    }

    /** One client's turn in a timer tick. */
    method PollAt(a: Addr, now: nat, clock: nat) returns (out: seq<Bytes>)
      requires Valid() && a in sessions
      modifies repr
      ensures Valid() && Clients() == old(Clients()) && HeardAt() == old(HeardAt())
      ensures out == PollOut(old(Endpoints())[a], now, clock)
      ensures Endpoints() == old(Endpoints())[a := Poll(old(Endpoints())[a], now, clock)]
    {
      hide ClientSession.Valid, ClientSession.Now, ReliableEndpoint.State, Poll, PollOut;
      out := sessions[a].PollRel(now, clock);
    }

    method Remove(dead: seq<Addr>)
      requires Valid()
      modifies `sessions
      ensures Valid()
      ensures Clients() == old(Clients()) - Members(dead) && Endpoints() == old(Endpoints()) - Members(dead)
    {
      hide ClientSession.Valid, ClientSession.Now, ReliableEndpoint.State;
      assert old(sessions) - Members([]) == old(sessions) by {
        assert Members([]) == {};
      }
      for k := 0 to |dead|
        invariant sessions == old(sessions) - Members(dead[..k])
      {
        RemoveOneMore(old(sessions), dead, k);
        sessions := sessions - {dead[k]};
      }
      assert dead[..|dead|] == dead;
    }

    /** The locked part of a timer tick: clients that have been silent for longer than `idle` are dropped,
        all others are polled. */
    method PollAll(now: nat, clock: nat, idle: nat) returns (dead: seq<Addr>, packets: map<Addr, seq<Bytes>>)
      requires Valid()
      modifies `sessions, repr
      ensures Valid()
      ensures NoDuplicates(dead) && Members(dead) == Overdue(old(HeardAt()), now, idle)
      ensures Clients() == old(Clients()) - Members(dead)
      ensures Endpoints() == Polled(old(Endpoints()), Members(dead), now, clock)
      ensures packets == PolledPackets(old(Endpoints()), Members(dead), now, clock)
    {
      hide Poll, PollOut, Overdue, Polled, PolledPackets, PartlyPolled, ProxyServer.Apart, ProxyServer.AllValid,
        ProxyServer.Outside, ProxyServer.Clients, ProxyServer.HeardAt, ProxyServer.Endpoints, Members, NoDuplicates;
      ghost var before, overdue := Endpoints(), Overdue(HeardAt(), now, idle);
      NothingPolled(before, HeardAt(), now, clock, idle);
      dead, packets := [], map[];
      var left := sessions.Keys;
      while left != {}
        invariant left <= sessions.Keys && Valid() && sessions == old(sessions) && repr == old(repr)
        invariant Clients() == old(Clients()) && HeardAt() == old(HeardAt())
        invariant NoDuplicates(dead) && Members(dead) == overdue - left
        invariant Endpoints() == PartlyPolled(before, left + overdue, now, clock)
        invariant packets == PolledPackets(before, left + overdue, now, clock)
        decreases |left|
      {
        var a :| a in left;
        HeardOf(a);
        OneMorePolled(before, HeardAt(), left, a, now, clock, idle);
        OneMoreDead(dead, overdue, left, a);
        left := left - {a};
        if Elapsed(now, sessions[a].rel.lastRecvAt) > idle {
          dead := dead + [a];
        } else {
          var out := PollAt(a, now, clock);
          packets := packets[a := out];
        }
      }
      AllPolled(before, overdue, now, clock);
      Remove(dead);
    }

    /** After the lock is released: the filter forgets the dropped clients, and `cleanup` is sent upstream. */
    method Forget(dead: seq<Addr>) returns (cleanup: seq<seq<Bytes>>)
      requires filter.transfer.locks == filter.locks
      modifies filter, filter.locks, filter.transfer
      ensures filter.State() == AfterAllGone(old(filter.State()), dead)
      ensures |cleanup| == |dead|
      ensures forall i :: 0 <= i < |dead| ==> CleansUp(cleanup[i], AfterAllGone(old(filter.State()), dead[..i]), dead[i])
    {
      hide CleansUp, AfterGone;
      cleanup := [];
      for k := 0 to |dead|
        invariant filter.State() == AfterAllGone(old(filter.State()), dead[..k]) && |cleanup| == k
        invariant forall i :: 0 <= i < k ==> CleansUp(cleanup[i], AfterAllGone(old(filter.State()), dead[..i]), dead[i])
      {
        assert dead[..k + 1][..k] == dead[..k];
        var out := filter.ClientDisconnected(dead[k]);
        cleanup := cleanup + [out];
      }
      assert dead[..|dead|] == dead;
    }

    /** One timer tick. */
    method Tick(now: nat, clock: nat, idle: nat)
        returns (dead: seq<Addr>, packets: map<Addr, seq<Bytes>>, cleanup: seq<seq<Bytes>>)
      requires Valid()
      modifies `sessions, repr, filter, filter.locks, filter.transfer
      ensures Valid()
      ensures NoDuplicates(dead) && Members(dead) == Overdue(old(HeardAt()), now, idle)
      ensures Clients() == old(Clients()) - Members(dead)
      ensures Endpoints() == Polled(old(Endpoints()), Members(dead), now, clock)
      ensures packets == PolledPackets(old(Endpoints()), Members(dead), now, clock)
      ensures filter.State() == AfterAllGone(old(filter.State()), dead) && |cleanup| == |dead|
      ensures forall i :: 0 <= i < |dead| ==> CleansUp(cleanup[i], AfterAllGone(old(filter.State()), dead[..i]), dead[i])
    {
      hide Overdue, Polled, PolledPackets, Members, NoDuplicates, CleansUp, AfterAllGone, ProxyServer.Apart,
        ProxyServer.AllValid, ProxyServer.Clients, ProxyServer.HeardAt, ProxyServer.Endpoints;
      dead, packets := PollAll(now, clock, idle);
      cleanup := Forget(dead);
    }

    lemma HeardOf(a: Addr)
      requires Apart() && a in sessions
      ensures HeardAt()[a] == sessions[a].rel.lastRecvAt
    {
    }
  }

  /** What a datagram from an address is to the server. */
  datatype Kind = Ignored | Hello | FromClient(packet: Packet)

  function KindOf(data: Bytes, addr: Addr, clients: Sessions): Kind {
    match DecodePacket(data)
    case Err(_) => Ignored
    case Ok(packet) =>
      if packet.header.flags.handshake then Hello
      else if addr in clients then FromClient(packet)
      else Ignored
  }

  /** Every handshake packet is a HELLO, also from a client that has a session; any other packet is its session's, and
      nobody's if it has none. */
  lemma KindByHeader(header: PacketHeader, payload: Bytes, addr: Addr, clients: Sessions)
    ensures var kind := KindOf(PacketBytes(header, payload), addr, clients);
            && (header.flags.handshake ==> kind == Hello)
            && (!header.flags.handshake && addr in clients ==>
                  kind == FromClient(Packet(header.(length := HEADER_LEN + |Clip(payload)|), Clip(payload))))
            && (!header.flags.handshake && addr !in clients ==> kind == Ignored)
  {
    PacketRoundTrip(header, payload);
    hide DecodePacket, PacketBytes;
  }

  // ---------------------------------------------------------------- loops over the clients

  /** The fan-out of an event while the clients in `left` are still to be served. */
  ghost function PartlyFannedOut(sessions: Sessions, left: set<Addr>, e: UpstreamEvent, owner: Option<Addr>): Sessions {
    map a | a in sessions :: if a in left then sessions[a] else GivenEvent(sessions[a], a, e, owner)
  }

  lemma FanOutOneMore(sessions: Sessions, left: set<Addr>, a: Addr, e: UpstreamEvent, owner: Option<Addr>)
    requires a in left && left <= sessions.Keys
    ensures var before := PartlyFannedOut(sessions, left, e, owner);
            && before[a] == sessions[a]
            && PartlyFannedOut(sessions, left - {a}, e, owner)
               == (if Receives(sessions[a], a, e, owner) then before[a := QueueOn(before[a], [e.payload])] else before)
  {
    hide Receives;
  }

  lemma WhoReceives(s: Session, a: Addr, payload: Bytes)
    ensures Receives(s, a, StatePayload(payload), None) == s.isOpen
    ensures Receives(s, a, AudioLevels(payload), None) == (s.isOpen && s.audio)
  {
  }

  lemma AllFannedOut(sessions: Sessions, e: UpstreamEvent, owner: Option<Addr>)
    ensures PartlyFannedOut(sessions, {}, e, owner) == FannedOut(sessions, e, owner)
    ensures PartlyFannedOut(sessions, sessions.Keys, e, owner) == sessions
  {
    hide GivenEvent;
  }

  lemma TransferGoesToOwner(sessions: Sessions, payload: Bytes, owner: Option<Addr>)
    ensures FannedOut(sessions, TransferPayload(payload), owner)
         == if owner.Some? && owner.value in sessions && sessions[owner.value].isOpen
            then sessions[owner.value := QueueOn(sessions[owner.value], [payload])]
            else sessions
  {
  }

  /** Only a transfer payload looks at the owner. */
  lemma OwnerMatters(sessions: Sessions, e: UpstreamEvent, one: Option<Addr>, other: Option<Addr>)
    ensures !e.TransferPayload? ==> FannedOut(sessions, e, one) == FannedOut(sessions, e, other)
    ensures e.Connected? ==> FannedOut(sessions, e, one) == sessions
  {
    assert !e.TransferPayload? ==>
        forall a :: a in sessions ==> GivenEvent(sessions[a], a, e, one) == GivenEvent(sessions[a], a, e, other);
  }

  ghost function PartlyResynced(sessions: Sessions, left: set<Addr>, dump: seq<Bytes>): Sessions {
    map a | a in sessions :: if a in left then sessions[a] else GivenDump(sessions[a], dump)
  }

  lemma ResyncOneMore(sessions: Sessions, left: set<Addr>, a: Addr, dump: seq<Bytes>)
    requires a in left && left <= sessions.Keys
    ensures var before := PartlyResynced(sessions, left, dump);
            && before[a] == sessions[a]
            && PartlyResynced(sessions, left - {a}, dump)
               == if sessions[a].isOpen then before[a := QueueOn(before[a], Pack(dump))] else before
  {
    hide Pack;
  }

  lemma AllResynced(sessions: Sessions, dump: seq<Bytes>)
    ensures PartlyResynced(sessions, {}, dump) == Resynced(sessions, dump)
    ensures PartlyResynced(sessions, sessions.Keys, dump) == sessions
  {
    hide GivenDump;
  }

  // ---------------------------------------------------------------- a timer tick

  /** The clients that have been silent for longer than `idle`. */
  function Overdue(heardAt: map<Addr, nat>, now: nat, idle: nat): set<Addr> {
    set a | a in heardAt && Elapsed(now, heardAt[a]) > idle
  }

  /** A client is dropped only after more than `idle` of silence, and then always. */
  lemma OverdueIff(heardAt: map<Addr, nat>, now: nat, idle: nat, a: Addr)
    ensures a in Overdue(heardAt, now, idle) <==> a in heardAt && now > heardAt[a] + idle
  {
  }

  /** Any packet of a client puts off its being dropped: then it takes more than `idle` from that packet on. And its
      endpoint is open, so that it sends keepalives, exactly when its session is. */
  lemma HeardStays(heardAt: map<Addr, nat>, a: Addr, r: Remainder, s: Session, packet: Packet, dump: seq<Bytes>,
                   actions: seq<FilterAction>, now: nat, later: nat, idle: nat)
    requires r.ep.isOpen == s.isOpen
    ensures var r' := AfterHeard(r, packet.header, s.isOpen, now);
            && (a in Overdue(heardAt[a := r'.heardAt], later, idle) <==> later > now + idle)
            && r'.ep.isOpen == AfterPacket(s, r.ep, packet, dump, actions).isOpen
            && r'.sent == r.sent
  {
    hide Pack, DropCovered, AudioAfter;
  }

  function Members(xs: seq<Addr>): set<Addr> {
    set i | 0 <= i < |xs| :: xs[i]
  }

  ghost predicate NoDuplicates(xs: seq<Addr>) {
    forall i, j :: 0 <= i < j < |xs| ==> xs[i] != xs[j]
  }

  /** The endpoints after the polls, those in `skipped` not polled. */
  ghost function PartlyPolled(endpoints: map<Addr, Endpoint>, skipped: set<Addr>, now: nat, clock: nat)
      : map<Addr, Endpoint>
  {
    map a | a in endpoints :: if a in skipped then endpoints[a] else Poll(endpoints[a], now, clock)
  }

  function Polled(endpoints: map<Addr, Endpoint>, dead: set<Addr>, now: nat, clock: nat): map<Addr, Endpoint> {
    map a | a in endpoints && a !in dead :: Poll(endpoints[a], now, clock)
  }

  function PolledPackets(endpoints: map<Addr, Endpoint>, skipped: set<Addr>, now: nat, clock: nat)
      : map<Addr, seq<Bytes>>
  {
    map a | a in endpoints && a !in skipped :: PollOut(endpoints[a], now, clock)
  }

  lemma NothingPolled(endpoints: map<Addr, Endpoint>, heardAt: map<Addr, nat>, now: nat, clock: nat, idle: nat)
    requires heardAt.Keys == endpoints.Keys
    ensures var overdue := Overdue(heardAt, now, idle); var all := endpoints.Keys + overdue;
            && PartlyPolled(endpoints, all, now, clock) == endpoints && PolledPackets(endpoints, all, now, clock) == map[]
            && NoDuplicates([]) && Members([]) == overdue - endpoints.Keys
  {
    hide Poll, PollOut;
  }

  lemma OneMorePolled(endpoints: map<Addr, Endpoint>, heardAt: map<Addr, nat>, left: set<Addr>, a: Addr,
                      now: nat, clock: nat, idle: nat)
    requires heardAt.Keys == endpoints.Keys && a in left && left <= endpoints.Keys
    ensures var overdue := Overdue(heardAt, now, idle); var before := PartlyPolled(endpoints, left + overdue, now, clock);
            && (a in overdue <==> Elapsed(now, heardAt[a]) > idle)
            && before[a] == endpoints[a]
            && PartlyPolled(endpoints, left - {a} + overdue, now, clock)
               == (if a in overdue then before else before[a := Poll(before[a], now, clock)])
            && PolledPackets(endpoints, left - {a} + overdue, now, clock)
               == (if a in overdue then PolledPackets(endpoints, left + overdue, now, clock)
                   else PolledPackets(endpoints, left + overdue, now, clock)[a := PollOut(before[a], now, clock)])
  {
    hide Poll, PollOut;
  }

  lemma OneMoreDead(dead: seq<Addr>, overdue: set<Addr>, left: set<Addr>, a: Addr)
    requires NoDuplicates(dead) && Members(dead) == overdue - left && a in left
    ensures if a in overdue then NoDuplicates(dead + [a]) && Members(dead + [a]) == overdue - (left - {a})
            else Members(dead) == overdue - (left - {a})
  {
    forall i | 0 <= i < |dead|
      ensures dead[i] != a
    {
      assert dead[i] in Members(dead);
    }
    MembersAppend(dead, a);
  }

  lemma RemoveOneMore<T>(m: map<Addr, T>, dead: seq<Addr>, k: nat)
    requires k < |dead|
    ensures (m - Members(dead[..k])) - {dead[k]} == m - Members(dead[..k + 1])
  {
    assert dead[..k + 1] == dead[..k] + [dead[k]];
    MembersAppend(dead[..k], dead[k]);
  }

  lemma MembersAppend(xs: seq<Addr>, a: Addr)
    ensures Members(xs + [a]) == Members(xs) + {a}
  {
    assert forall i :: 0 <= i < |xs| ==> (xs + [a])[i] == xs[i];
    assert (xs + [a])[|xs|] == a;
  }

  lemma AllPolled(endpoints: map<Addr, Endpoint>, overdue: set<Addr>, now: nat, clock: nat)
    ensures PartlyPolled(endpoints, {} + overdue, now, clock) - overdue == Polled(endpoints, overdue, now, clock)
    ensures {} + overdue == overdue && overdue - {} == overdue
  {
    hide Poll;
  }
}
