/** When an endpoint sends what, over any run of calls, told by the datagrams it gives out and the times of its
    polls: keepalives, acknowledgements and retransmissions. */
module Timing {
  import opened Wire
  import opened Packets
  import opened Reliable
  import opened Layout

  // ---------------------------------------------------------------- kinds of datagrams

  datatype Kind = Keepalive | Carrier | Retransmission | Acknowledgement | Other

  /** What a receiver makes of a datagram, by its header and payload. */
  function KindOf(bytes: Bytes): Kind {
    match DecodePacket(bytes)
    case Err(_) => Other
    case Ok(packet) =>
      var flags := packet.header.flags;
      if flags == ONLY_ACK_REQUEST then if packet.payload == [] then Keepalive else Carrier
      else if flags == ONLY_ACK_REQUEST.(isRetransmit := true) then Retransmission
      else if flags == ONLY_ACK_REPLY then Acknowledgement
      else Other
  }

  function SessionOf(bytes: Bytes): Option<u16> {
    match DecodePacket(bytes)
    case Err(_) => None
    case Ok(packet) => Some(packet.header.sessionId)
  }

  /** All of them are of this kind and bear this session id. */
  ghost predicate AllAre(out: seq<Bytes>, kind: Kind, sessionId: u16) {
    forall b :: b in out ==> KindOf(b) == kind && SessionOf(b) == Some(sessionId)
  }

  ghost predicate Sends(out: seq<Bytes>, kind: Kind) {
    exists b :: b in out && KindOf(b) == kind
  }

  // ---------------------------------------------------------------- one poll

  /** A window entry is a reliable packet of this session under its id. */
  predicate EntryBears(entry: InFlightEntry, sessionId: u16) {
    && DecodePacket(entry.bytes).Ok?
    && DecodePacket(entry.bytes).value.header.flags == ONLY_ACK_REQUEST
    && DecodePacket(entry.bytes).value.header.sessionId == sessionId
    && DecodePacket(entry.bytes).value.header.packetId == entry.packetId
  }

  /** Every entry of the window bears the session's id, and no queued payload is empty: an empty one is sent as the
      very datagram that a keepalive is. */
  predicate Regular(e: Endpoint) {
    && (forall i :: 0 <= i < |e.inFlight| ==> EntryBears(e.inFlight[i], e.sessionId))
    && (forall i :: 0 <= i < |e.outbound| ==> e.outbound[i] != [])
  }

  lemma DataPacketKind(e: Endpoint, payload: Bytes)
    ensures KindOf(DataPacket(e, payload)) == (if payload == [] then Keepalive else Carrier)
    ensures SessionOf(DataPacket(e, payload)) == Some(e.sessionId)
    ensures forall now :: EntryBears(InFlightEntry(e.nextSendId, DataPacket(e, payload), now), e.sessionId)
  {
    DataDatagram(e, payload);
    hide DecodePacket, DataPacket;
  }

  lemma AckPacketKind(e: Endpoint)
    requires e.ack.highestRecv.Some?
    ensures KindOf(AckPacket(e)) == Acknowledgement && SessionOf(AckPacket(e)) == Some(e.sessionId)
  {
    AckDatagram(e);
    hide DecodePacket, AckPacket;
  }

  lemma ResentKind(e: Endpoint)
    requires Regular(e)
    ensures AllAre(ResentBytes(e.inFlight), Retransmission, e.sessionId)
  {
    var out := ResentBytes(e.inFlight);
    forall b | b in out
      ensures KindOf(b) == Retransmission && SessionOf(b) == Some(e.sessionId)
    {
      var i :| 0 <= i < |out| && out[i] == b;
      assert EntryBears(e.inFlight[i], e.sessionId);
      MarkRetransmitDecodes(e.inFlight[i].bytes);
      hide DecodePacket, MarkRetransmit;
    }
    hide KindOf, SessionOf;
  }

  lemma ResendRegular(e: Endpoint, now: nat)
    requires Regular(e)
    ensures Regular(Resend(e, now))
  {
    forall i | 0 <= i < |e.inFlight|
      ensures EntryBears(e.inFlight[i].(sentAt := now), e.sessionId)
    {
      assert EntryBears(e.inFlight[i], e.sessionId);
    }
    hide EntryBears;
  }

  lemma TransmitRegular(e: Endpoint, payload: Bytes, now: nat)
    requires Regular(e)
    ensures Regular(Transmit(e, payload, now))
  {
    DataPacketKind(e, payload);
    hide EntryBears, DataPacket;
  }

  lemma {:induction false} FillSends(e: Endpoint, now: nat)
    requires Regular(e)
    ensures Regular(Fill(e, now)) && Fill(e, now).sessionId == e.sessionId
    ensures AllAre(FillOut(e, now), Carrier, e.sessionId)
    ensures e.outbound == [] ==> Fill(e, now) == e
    ensures e.outbound != [] ==> Fill(e, now).inFlight != [] || Fill(e, now).outbound != []
    ensures Fill(e, now).ack == e.ack && Fill(e, now).config == e.config
    ensures Fill(e, now).isOpen == e.isOpen && Fill(e, now).lastPingAt == e.lastPingAt
    decreases |e.outbound|
  {
    if CanFill(e) {
      var first := e.(outbound := e.outbound[1..]);
      TransmitRegular(first, e.outbound[0], now);
      DataPacketKind(first, e.outbound[0]);
      DataPacketKind(e, e.outbound[0]);
      FillSends(TransmitNext(e, now), now);
      FillKeepsWindow(TransmitNext(e, now), now);
      hide KindOf, SessionOf, DataPacket, Regular;
    }
  }

  lemma {:induction false} FillKeepsWindow(e: Endpoint, now: nat)
    ensures |e.inFlight| <= |Fill(e, now).inFlight|
    decreases |e.outbound|
  {
    if CanFill(e) {
      FillKeepsWindow(TransmitNext(e, now), now);
    }
  }

  /** The times of the clock at which something last done at `since` is due again after `gap`. */
  predicate Due(now: nat, since: nat, gap: nat) {
    now >= since + gap || gap == 0
  }

  /** An acknowledgement goes out once enough packets were accepted since the last one, or any were and the delay
      has passed or there was no last one. */
  predicate AcksAt(e: Endpoint, clock: nat) {
    && e.ack.highestRecv.Some?
    && (|| e.ack.packetsSinceAck >= e.config.ackCoalesceCount
        || (e.ack.packetsSinceAck >= 1 && match e.ack.lastAckSentAt
                                          case None => true
                                          case Some(t) => Due(clock, t, e.config.ackCoalesceAfter)))
  }

  predicate Idle(e: Endpoint) {
    e.isOpen && e.inFlight == [] && e.outbound == []
  }

  /** Everything that one poll sends, by kind: it resends if the packet at the front is due, acknowledges by count or
      by delay, and sends a keepalive if the endpoint is open and idle and one is due. Every datagram bears the
      session's id. */
  lemma PollSends(e: Endpoint, now: nat, clock: nat)
    requires Regular(e)
    ensures var out := PollOut(e, now, clock);
            && (Sends(out, Retransmission) <==> e.inFlight != [] && Due(now, e.inFlight[0].sentAt, e.config.retransmitAfter))
            && (Sends(out, Acknowledgement) <==> AcksAt(e, clock))
            && (Sends(out, Keepalive) <==> Idle(e) && Due(now, e.lastPingAt, e.config.pingInterval))
            && !Sends(out, Other)
            && (forall b :: b in out ==> SessionOf(b) == Some(e.sessionId))
    ensures Regular(Poll(e, now, clock))
  {
    hide *;
    var e1 := Resend(e, now);
    var e2 := Fill(e1, now);
    var e3 := SendAck(e2, clock);
    ResendPart(e, now);
    FillSends(e1, now);
    AckPart(e2, clock);
    PingPart(e3, now);
    PollInParts(e, now, clock);
    PhasesKeep(e, e1, e2, e3, clock);
    FourParts(ResendOut(e, now), FillOut(e1, now), SendAckOut(e2, clock), PingOut(e3, now), e.sessionId);
  }

  /** What the later phases look at is as it was when the poll began. */
  lemma PhasesKeep(e: Endpoint, e1: Endpoint, e2: Endpoint, e3: Endpoint, clock: nat)
    requires e1 == e.(inFlight := e1.inFlight) && |e1.inFlight| == |e.inFlight|
    requires if e1.outbound == [] then e2 == e1 else e2.inFlight != [] || e2.outbound != []
    requires e2.ack == e1.ack && e2.config == e1.config && e2.sessionId == e1.sessionId
    requires e2.isOpen == e1.isOpen && e2.lastPingAt == e1.lastPingAt
    requires e3 == e2.(ack := e3.ack)
    ensures AcksAt(e2, clock) <==> AcksAt(e, clock)
    ensures Idle(e3) <==> Idle(e)
    ensures e3.lastPingAt == e.lastPingAt && e3.config == e.config && e3.sessionId == e.sessionId
  {
  }

  lemma PollInParts(e: Endpoint, now: nat, clock: nat)
    ensures var e1 := Resend(e, now); var e2 := Fill(e1, now); var e3 := SendAck(e2, clock);
            && PollOut(e, now, clock) == ResendOut(e, now) + FillOut(e1, now) + SendAckOut(e2, clock) + PingOut(e3, now)
            && Poll(e, now, clock) == Ping(e3, now)
  {
    hide ResentBytes, FillOut, AckDue, PingDue, DataPacket, AckPacket;
  }

  lemma ResendPart(e: Endpoint, now: nat)
    requires Regular(e)
    ensures AllAre(ResendOut(e, now), Retransmission, e.sessionId)
    ensures ResendOut(e, now) != []
            <==> e.inFlight != [] && Due(now, e.inFlight[0].sentAt, e.config.retransmitAfter)
    ensures var e1 := Resend(e, now);
            && Regular(e1) && e1 == e.(inFlight := e1.inFlight) && |e1.inFlight| == |e.inFlight|
  {
    ResendRegular(e, now);
    ResentKind(e);
    hide KindOf, SessionOf, EntryBears, Regular;
  }

  lemma AckPart(e: Endpoint, clock: nat)
    ensures AllAre(SendAckOut(e, clock), Acknowledgement, e.sessionId)
    ensures SendAckOut(e, clock) != [] <==> AcksAt(e, clock)
    ensures var e3 := SendAck(e, clock); e3 == e.(ack := e3.ack) && (Regular(e) ==> Regular(e3))
  {
    if e.ack.highestRecv.Some? {
      AckPacketKind(e);
    }
    hide KindOf, SessionOf, EntryBears, AckPacket;
  }

  lemma PingPart(e: Endpoint, now: nat)
    requires Regular(e)
    ensures AllAre(PingOut(e, now), Keepalive, e.sessionId)
    ensures PingOut(e, now) != [] <==> Idle(e) && Due(now, e.lastPingAt, e.config.pingInterval)
    ensures Regular(Ping(e, now))
  {
    DataPacketKind(e, []);
    TransmitRegular(e, [], now);
    hide KindOf, SessionOf, EntryBears, DataPacket;
  }

  lemma FourParts(r: seq<Bytes>, f: seq<Bytes>, a: seq<Bytes>, p: seq<Bytes>, sessionId: u16)
    requires AllAre(r, Retransmission, sessionId) && AllAre(f, Carrier, sessionId)
    requires AllAre(a, Acknowledgement, sessionId) && AllAre(p, Keepalive, sessionId)
    ensures var out := r + f + a + p;
            && (Sends(out, Retransmission) <==> r != []) && (Sends(out, Carrier) <==> f != [])
            && (Sends(out, Acknowledgement) <==> a != []) && (Sends(out, Keepalive) <==> p != [])
            && !Sends(out, Other)
            && (forall b :: b in out ==> SessionOf(b) == Some(sessionId))
  {
    hide KindOf, SessionOf;
    var out := r + f + a + p;
    assert r != [] ==> r[0] in out;
    assert f != [] ==> f[0] in out;
    assert a != [] ==> a[0] in out;
    assert p != [] ==> p[0] in out;
  }


  /** The order in which one poll sends: retransmissions, new payloads, an acknowledgement, a keepalive. */
  function Rank(kind: Kind): nat {
    match kind
    case Retransmission => 0
    case Carrier => 1
    case Acknowledgement => 2
    case Keepalive => 3
    case Other => 4
  }

  ghost predicate RankedFrom(out: seq<Bytes>, low: nat, high: nat) {
    forall i :: 0 <= i < |out| ==> low <= Rank(KindOf(out[i])) <= high
  }

  ghost predicate InRankOrder(out: seq<Bytes>) {
    forall i, j :: 0 <= i < j < |out| ==> Rank(KindOf(out[i])) <= Rank(KindOf(out[j]))
  }

  lemma RankOfPart(out: seq<Bytes>, kind: Kind, sessionId: u16)
    requires AllAre(out, kind, sessionId)
    ensures RankedFrom(out, Rank(kind), Rank(kind)) && InRankOrder(out)
  {
    hide KindOf, SessionOf;
    forall i | 0 <= i < |out|
      ensures KindOf(out[i]) == kind
    {
      assert out[i] in out;
    }
  }

  lemma RankJoins(a: seq<Bytes>, b: seq<Bytes>, middle: nat, high: nat)
    requires InRankOrder(a) && RankedFrom(a, 0, middle) && InRankOrder(b) && RankedFrom(b, middle, high)
    ensures InRankOrder(a + b) && (middle <= high ==> RankedFrom(a + b, 0, high))
  {
    hide KindOf, Rank;
    forall i | 0 <= i < |a + b|
      ensures (a + b)[i] == if i < |a| then a[i] else b[i - |a|]
    {
    }
  }

  lemma PollOrder(e: Endpoint, now: nat, clock: nat)
    requires Regular(e)
    ensures InRankOrder(PollOut(e, now, clock))
  {
    hide Regular, PollOut, ResendOut, FillOut, SendAckOut, PingOut, AllAre, RankedFrom, InRankOrder, Resend, Fill, SendAck;
    var e1 := Resend(e, now);
    var e2 := Fill(e1, now);
    var e3 := SendAck(e2, clock);
    ResendPart(e, now);
    FillSends(e1, now);
    AckPart(e2, clock);
    PingPart(e3, now);
    PollInParts(e, now, clock);
    var r, f, a, p := ResendOut(e, now), FillOut(e1, now), SendAckOut(e2, clock), PingOut(e3, now);
    RankOfPart(r, Retransmission, e.sessionId);
    RankOfPart(f, Carrier, e.sessionId);
    RankOfPart(a, Acknowledgement, e2.sessionId);
    RankOfPart(p, Keepalive, e3.sessionId);
    Wider(r, 0, 0, 1);
    RankJoins(r, f, 1, 1);
    Wider(r + f, 0, 1, 2);
    RankJoins(r + f, a, 2, 2);
    Wider(r + f + a, 0, 2, 3);
    RankJoins(r + f + a, p, 3, 3);
  }

  lemma Wider(out: seq<Bytes>, low: nat, high: nat, higher: nat)
    requires RankedFrom(out, low, high) && high <= higher
    ensures RankedFrom(out, low, higher)
  {
    hide KindOf, Rank;
  }

  /** The keepalive of an endpoint that is open and idle and has nothing to acknowledge, once the interval has passed:
      one datagram, an empty reliable packet under the next id, and the interval starts again. */
  lemma KeepaliveSent(e: Endpoint, now: nat, clock: nat)
    requires Idle(e) && e.ack.highestRecv == None && now >= e.lastPingAt + e.config.pingInterval
    ensures |PollOut(e, now, clock)| == 1
    ensures DecodePacket(PollOut(e, now, clock)[0])
         == Ok(Packet(PacketHeader(ONLY_ACK_REQUEST, 12, e.sessionId, 0, 0, 0, e.nextSendId), []))
    ensures Poll(e, now, clock).lastPingAt == now
    ensures Poll(e, now, clock).nextSendId == NextPacketId(e.nextSendId) && |Poll(e, now, clock).inFlight| == 1
  {
    DataDatagram(e, []);
    hide DecodePacket, DataPacket, NextPacketId;
    assert PollOut(e, now, clock) == [DataPacket(e, [])];
  }

  /** Before that it sends nothing and stays as it is. */
  lemma NothingToSend(e: Endpoint, now: nat, clock: nat)
    requires Idle(e) && e.ack.highestRecv == None && e.lastPingAt <= now < e.lastPingAt + e.config.pingInterval
    ensures PollOut(e, now, clock) == [] && Poll(e, now, clock) == e
  {
    hide DataPacket;
  }

  // ---------------------------------------------------------------- runs of calls

  /** Everything that is done to an endpoint. */
  datatype Call =
    | QueueOne(payload: Bytes)
    | QueuePacked(commands: seq<Bytes>)
    | OpenIt
    | AckArrives(ackId: u16)
    | PacketArrives(packetId: u16)
    | PollIt(now: nat, clock: nat)

  function AfterCall(e: Endpoint, c: Call): Endpoint {
    match c
    case QueueOne(payload) => e.(outbound := e.outbound + [payload])
    case QueuePacked(commands) => e.(outbound := e.outbound + Pack(commands))
    case OpenIt => e.(isOpen := true)
    case AckArrives(ackId) => OnAck(e, ackId)
    case PacketArrives(packetId) => Accept(e, packetId)
    case PollIt(now, clock) => Poll(e, now, clock)
  }

  function SentBy(e: Endpoint, c: Call): seq<Bytes> {
    if c.PollIt? then PollOut(e, c.now, c.clock) else []
  }

  /** The endpoint before call `n`. */
  function At(e: Endpoint, calls: seq<Call>, n: nat): Endpoint
    requires n <= |calls|
  {
    if n == 0 then e else AfterCall(At(e, calls, n - 1), calls[n - 1])
  }

  /** Call `i` is a poll that sends a datagram of this kind. */
  ghost predicate SendsAt(e: Endpoint, calls: seq<Call>, i: nat, kind: Kind)
    requires i < |calls|
  {
    calls[i].PollIt? && Sends(SentBy(At(e, calls, i), calls[i]), kind)
  }

  /** Nobody queues an empty payload. */
  predicate Speaks(calls: seq<Call>) {
    forall i :: 0 <= i < |calls| && calls[i].QueueOne? ==> calls[i].payload != []
  }

  lemma {:induction false} PackNoEmpties(current: Bytes, commands: seq<Bytes>)
    ensures forall p :: p in PackFrom(current, commands) ==> p != []
    decreases |commands|
  {
    if commands != [] {
      PackNoEmpties(current, commands[1..]);
      PackNoEmpties([], commands[1..]);
      PackNoEmpties(current + commands[0], commands[1..]);
      PackNoEmpties([] + commands[0], commands[1..]);
    }
  }

  lemma {:induction false} DropIsSuffix(window: seq<InFlightEntry>, ackId: u16)
    ensures var left := DropCovered(window, ackId);
            |left| <= |window| && left == window[|window| - |left|..]
    decreases |window|
  {
    hide IsAckCovering;
    if window != [] {
      DropIsSuffix(window[1..], ackId);
    }
  }

  lemma CallRegular(e: Endpoint, c: Call)
    requires Regular(e) && (c.QueueOne? ==> c.payload != [])
    ensures Regular(AfterCall(e, c))
    ensures AfterCall(e, c).config == e.config && AfterCall(e, c).sessionId == e.sessionId
  {
    hide EntryBears, Poll, PackFrom, DropCovered;
    match c
    case QueuePacked(commands) =>
      PackNoEmpties([], commands);
      assert forall i :: 0 <= i < |Pack(commands)| ==> Pack(commands)[i] in Pack(commands);
    case AckArrives(ackId) => DropIsSuffix(e.inFlight, ackId);
    case PollIt(now, clock) =>
      PollSends(e, now, clock);
      PollConfig(e, now, clock);
    case _ =>
  }

  lemma PollConfig(e: Endpoint, now: nat, clock: nat)
    ensures Poll(e, now, clock).config == e.config && Poll(e, now, clock).sessionId == e.sessionId
  {
    FillConfig(Resend(e, now), now);
    hide Fill, DataPacket, AckPacket;
  }

  lemma {:induction false} FillConfig(e: Endpoint, now: nat)
    ensures var f := Fill(e, now);
            && f.config == e.config && f.sessionId == e.sessionId && f.ack == e.ack && f.lastPingAt == e.lastPingAt
            && f.isOpen == e.isOpen
    decreases |e.outbound|
  {
    hide DataPacket;
    if CanFill(e) {
      FillConfig(TransmitNext(e, now), now);
    }
  }

  lemma {:induction false} StaysRegular(e: Endpoint, calls: seq<Call>, n: nat)
    requires Regular(e) && Speaks(calls) && n <= |calls|
    ensures Regular(At(e, calls, n))
    ensures At(e, calls, n).config == e.config && At(e, calls, n).sessionId == e.sessionId
    decreases n
  {
    hide Regular, AfterCall;
    if n > 0 {
      StaysRegular(e, calls, n - 1);
      CallRegular(At(e, calls, n - 1), calls[n - 1]);
    }
  }

  /** Over any run of calls, every datagram is a keepalive, a payload, a retransmission or an acknowledgement, and bears
      the session's id. */
  lemma EveryDatagram(e: Endpoint, calls: seq<Call>, i: nat, b: Bytes)
    requires Regular(e) && Speaks(calls) && i < |calls| && b in SentBy(At(e, calls, i), calls[i])
    ensures KindOf(b) != Other && SessionOf(b) == Some(e.sessionId)
  {
    hide Regular, PollOut, KindOf, SessionOf, At, AcksAt, Poll;
    StaysRegular(e, calls, i);
    PollSends(At(e, calls, i), calls[i].now, calls[i].clock);
  }

  // ---------------------------------------------------------------- keepalives

  /** A poll sends a keepalive exactly when the endpoint is open and idle and one is due, and then notes its time. */
  lemma KeepaliveAt(e: Endpoint, calls: seq<Call>, i: nat)
    requires Regular(e) && Speaks(calls) && i < |calls|
    ensures SendsAt(e, calls, i, Keepalive)
            <==> calls[i].PollIt? && Idle(At(e, calls, i))
                 && Due(calls[i].now, At(e, calls, i).lastPingAt, e.config.pingInterval)
    ensures At(e, calls, i + 1).lastPingAt
         == if SendsAt(e, calls, i, Keepalive) then calls[i].now else At(e, calls, i).lastPingAt
  {
    hide Regular, KindOf, SessionOf, Fill, FillOut, AckPacket, DataPacket, Sends, DropCovered, PackFrom;
    StaysRegular(e, calls, i);
    if calls[i].PollIt? {
      PollSends(At(e, calls, i), calls[i].now, calls[i].clock);
      PollNotesPing(At(e, calls, i), calls[i].now, calls[i].clock);
      hide Poll, PollOut, AcksAt;
    }
  }

  lemma PollNotesPing(e: Endpoint, now: nat, clock: nat)
    ensures Poll(e, now, clock).lastPingAt
         == if Idle(e) && Due(now, e.lastPingAt, e.config.pingInterval) then now else e.lastPingAt
  {
    var e1 := Resend(e, now);
    var e2 := Fill(e1, now);
    FillConfig(e1, now);
    FillEmptiness(e1, now);
    hide Fill, DataPacket, AckPacket;
  }

  lemma {:induction false} FillEmptiness(e: Endpoint, now: nat)
    ensures var f := Fill(e, now);
            f.inFlight == [] && f.outbound == [] <==> e.inFlight == [] && e.outbound == []
    decreases |e.outbound|
  {
    hide DataPacket;
    if CanFill(e) {
      FillEmptiness(TransmitNext(e, now), now);
    }
  }

  /** Where the time of the last keepalive comes from: the poll that sent it, or the start. */
  lemma {:induction false} LastKeepalive(e: Endpoint, calls: seq<Call>, i: nat, j: nat)
    requires Regular(e) && Speaks(calls) && i <= j <= |calls|
    ensures At(e, calls, j).lastPingAt == At(e, calls, i).lastPingAt
            || exists k :: i <= k < j && SendsAt(e, calls, k, Keepalive) && At(e, calls, j).lastPingAt == calls[k].now
    ensures e.config.pingInterval > 0 ==> At(e, calls, i).lastPingAt <= At(e, calls, j).lastPingAt
    decreases j
  {
    hide Regular, At, SendsAt, Idle;
    if i < j {
      LastKeepalive(e, calls, i, j - 1);
      KeepaliveAt(e, calls, j - 1);
    }
  }

  /** Keepalives are at least an interval apart. */
  lemma KeepalivesSpaced(e: Endpoint, calls: seq<Call>, i: nat, j: nat)
    requires Regular(e) && Speaks(calls) && i < j < |calls|
    requires SendsAt(e, calls, i, Keepalive) && SendsAt(e, calls, j, Keepalive)
    ensures Due(calls[j].now, calls[i].now, e.config.pingInterval)
  {
    hide Regular, At, SendsAt, Idle;
    KeepaliveAt(e, calls, i);
    KeepaliveAt(e, calls, j);
    LastKeepalive(e, calls, i + 1, j);
  }

  /** Over any run of calls, a poll sends a keepalive if and only if the endpoint is open and idle then and an interval
      has passed since the start and since every keepalive before. */
  lemma KeepaliveIff(e: Endpoint, calls: seq<Call>, j: nat)
    requires Regular(e) && Speaks(calls) && j < |calls| && calls[j].PollIt?
    ensures SendsAt(e, calls, j, Keepalive)
            <==> && Idle(At(e, calls, j)) && Due(calls[j].now, e.lastPingAt, e.config.pingInterval)
                 && forall i :: 0 <= i < j && SendsAt(e, calls, i, Keepalive) ==>
                      Due(calls[j].now, calls[i].now, e.config.pingInterval)
  {
    hide Regular, Sends, SentBy, Idle, AfterCall;
    KeepaliveAt(e, calls, j);
    LastKeepalive(e, calls, 0, j);
    assert At(e, calls, 0) == e;
    hide At;
    if SendsAt(e, calls, j, Keepalive) {
      forall i | 0 <= i < j && SendsAt(e, calls, i, Keepalive)
        ensures Due(calls[j].now, calls[i].now, e.config.pingInterval)
      {
        KeepalivesSpaced(e, calls, i, j);
      }
    }
  }

  // ---------------------------------------------------------------- acknowledgements

  /** How many of the calls from `i` up to `j` brought the packet that was expected. */
  function AcceptedIn(e: Endpoint, calls: seq<Call>, i: nat, j: nat): nat
    requires j <= |calls|
    decreases j
  {
    if i >= j then 0
    else AcceptedIn(e, calls, i, j - 1) + if AcceptedAt(e, calls, j - 1) then 1 else 0
  }

  predicate AcceptedAt(e: Endpoint, calls: seq<Call>, k: nat)
    requires k < |calls|
  {
    calls[k].PacketArrives? && calls[k].packetId == At(e, calls, k).ack.expectedRecv
  }

  /** What a call does to the acknowledgement state. */
  lemma AckStateNext(e: Endpoint, calls: seq<Call>, k: nat)
    requires Regular(e) && Speaks(calls) && k < |calls|
    ensures var a, b := At(e, calls, k).ack, At(e, calls, k + 1).ack;
            && (SendsAt(e, calls, k, Acknowledgement) <==> calls[k].PollIt? && AcksAt(At(e, calls, k), calls[k].clock))
            && (if SendsAt(e, calls, k, Acknowledgement) then
                  b == a.(packetsSinceAck := 0, lastAckSentAt := Some(calls[k].clock))
                else if AcceptedAt(e, calls, k) then
                  && b.packetsSinceAck == Min(a.packetsSinceAck + 1, 0xFFFF)
                  && b.highestRecv == Some(calls[k].packetId) && b.lastAckSentAt == a.lastAckSentAt
                else b == a)
  {
    hide Regular, KindOf, SessionOf, Fill, FillOut, AckPacket, DataPacket, Sends, DropCovered, PackFrom;
    StaysRegular(e, calls, k);
    if calls[k].PollIt? {
      PollSends(At(e, calls, k), calls[k].now, calls[k].clock);
      PollAcks(At(e, calls, k), calls[k].now, calls[k].clock);
      hide Poll, PollOut, AcksAt;
    }
  }

  lemma PollAcks(e: Endpoint, now: nat, clock: nat)
    ensures Poll(e, now, clock).ack
         == if AcksAt(e, clock) then e.ack.(packetsSinceAck := 0, lastAckSentAt := Some(clock)) else e.ack
  {
    FillConfig(Resend(e, now), now);
    hide Fill, DataPacket, AckPacket;
  }

  /** Between acknowledgements the count is what arrived, and the time of the last one stays. */
  lemma {:induction false} AckStateSince(e: Endpoint, calls: seq<Call>, i: nat, j: nat)
    requires Regular(e) && Speaks(calls) && i <= j <= |calls|
    requires forall k :: i <= k < j ==> !SendsAt(e, calls, k, Acknowledgement)
    ensures var a, b := At(e, calls, i).ack, At(e, calls, j).ack;
            && b.packetsSinceAck == Min(a.packetsSinceAck + AcceptedIn(e, calls, i, j), 0xFFFF)
            && b.lastAckSentAt == a.lastAckSentAt
            && (b.highestRecv.Some? <==> a.highestRecv.Some? || AcceptedIn(e, calls, i, j) > 0)
            && (AcceptedIn(e, calls, i, j) == 0 ==> b.highestRecv == a.highestRecv)
    decreases j
  {
    hide Regular, At, SendsAt, AcceptedAt, AcksAt;
    if i < j {
      AckStateSince(e, calls, i, j - 1);
      AckStateNext(e, calls, j - 1);
    }
  }

  /** After an acknowledgement, the next one goes out at the first poll at which as many packets as the configuration
      counts have been accepted since, or any at all and the delay has passed. */
  lemma AcknowledgementIff(e: Endpoint, calls: seq<Call>, i: nat, j: nat)
    requires Regular(e) && Speaks(calls) && i < j < |calls| && calls[j].PollIt?
    requires SendsAt(e, calls, i, Acknowledgement)
    requires forall k :: i < k < j ==> !SendsAt(e, calls, k, Acknowledgement)
    ensures var n := AcceptedIn(e, calls, i + 1, j);
            SendsAt(e, calls, j, Acknowledgement)
            <==> n >= e.config.ackCoalesceCount || (n >= 1 && Due(calls[j].clock, calls[i].clock, e.config.ackCoalesceAfter))
  {
    hide Regular, At, Sends, SentBy, AcceptedAt, AcceptedIn;
    AckStateNext(e, calls, i);
    AckStateSince(e, calls, i + 1, j);
    AckStateNext(e, calls, j);
    StaysRegular(e, calls, j);
  }

  /** The first acknowledgement goes out at the first poll after a packet was accepted. */
  lemma FirstAcknowledgementIff(e: Endpoint, calls: seq<Call>, j: nat)
    requires Regular(e) && Speaks(calls) && j < |calls| && calls[j].PollIt?
    requires e.ack.highestRecv == None && e.ack.lastAckSentAt == None && e.ack.packetsSinceAck == 0
    requires forall k :: 0 <= k < j ==> !SendsAt(e, calls, k, Acknowledgement)
    ensures SendsAt(e, calls, j, Acknowledgement) <==> AcceptedIn(e, calls, 0, j) >= 1
  {
    hide Regular, Sends, SentBy, AcceptedAt, AcceptedIn, AfterCall;
    AckStateSince(e, calls, 0, j);
    AckStateNext(e, calls, j);
    assert At(e, calls, 0) == e;
    hide At;
  }

  /** An acknowledgement names the packet that was accepted last, whatever came between. */
  lemma AcknowledgesTheLast(e: Endpoint, calls: seq<Call>, k: nat, j: nat, b: Bytes)
    requires Regular(e) && Speaks(calls) && k < j < |calls|
    requires AcceptedAt(e, calls, k) && forall l :: k < l < j ==> !AcceptedAt(e, calls, l)
    requires b in SentBy(At(e, calls, j), calls[j]) && KindOf(b) == Acknowledgement
    ensures DecodePacket(b).value.header.ackId == calls[k].packetId
  {
    hide Regular, At, AcceptedAt, DecodePacket, PollOut, ResendOut, FillOut, PingOut, AckPacket;
    HighestIsLast(e, calls, k, j);
    StaysRegular(e, calls, j);
    AckNames(At(e, calls, j), calls[j].now, calls[j].clock, b);
  }

  lemma AckNames(e: Endpoint, now: nat, clock: nat, b: Bytes)
    requires Regular(e) && b in PollOut(e, now, clock) && KindOf(b) == Acknowledgement && e.ack.highestRecv.Some?
    ensures DecodePacket(b).Ok? && DecodePacket(b).value.header.ackId == e.ack.highestRecv.value
  {
    hide Regular, DecodePacket, Fill, ResendOut, FillOut, PingOut, AckPacket, EntryBears, SessionOf, KindOf, AcksAt;
    var e1 := Resend(e, now);
    var e2 := Fill(e1, now);
    ResendPart(e, now);
    FillSends(e1, now);
    AckPart(e2, clock);
    PingPart(SendAck(e2, clock), now);
    FillConfig(e1, now);
    AckDatagram(e2);
    PollInParts(e, now, clock);
    OnlyAckPart(ResendOut(e, now), FillOut(e1, now), SendAckOut(e2, clock), PingOut(SendAck(e2, clock), now), e.sessionId, b);
  }

  lemma OnlyAckPart(r: seq<Bytes>, f: seq<Bytes>, a: seq<Bytes>, p: seq<Bytes>, sessionId: u16, b: Bytes)
    requires AllAre(r, Retransmission, sessionId) && AllAre(f, Carrier, sessionId) && AllAre(p, Keepalive, sessionId)
    requires b in r + f + a + p && KindOf(b) == Acknowledgement
    ensures b in a
  {
    hide KindOf, SessionOf;
  }

  lemma {:induction false} HighestIsLast(e: Endpoint, calls: seq<Call>, k: nat, j: nat)
    requires Regular(e) && Speaks(calls) && k < j <= |calls|
    requires AcceptedAt(e, calls, k) && forall l :: k < l < j ==> !AcceptedAt(e, calls, l)
    ensures At(e, calls, j).ack.highestRecv == Some(calls[k].packetId)
    decreases j
  {
    hide Regular, At, SendsAt, AcksAt;
    if k + 1 < j {
      HighestIsLast(e, calls, k, j - 1);
    }
    AckStateNext(e, calls, j - 1);
    NeverBoth(e, calls, k);
  }

  lemma NeverBoth(e: Endpoint, calls: seq<Call>, k: nat)
    requires k < |calls| && AcceptedAt(e, calls, k)
    ensures !SendsAt(e, calls, k, Acknowledgement) && calls[k].PacketArrives?
  {
    hide At, Sends;
  }

  // ---------------------------------------------------------------- retransmissions

  /** Nothing in the window was sent before `t`. */
  predicate SentSince(window: seq<InFlightEntry>, t: nat) {
    forall i :: 0 <= i < |window| ==> window[i].sentAt >= t
  }

  lemma {:induction false} FillStamps(e: Endpoint, now: nat)
    ensures var f := Fill(e, now);
            && |e.inFlight| <= |f.inFlight| && f.inFlight[..|e.inFlight|] == e.inFlight
            && forall i :: |e.inFlight| <= i < |f.inFlight| ==> f.inFlight[i].sentAt == now
    decreases |e.outbound|
  {
    hide DataPacket;
    if CanFill(e) {
      var next := TransmitNext(e, now);
      FillStamps(next, now);
      assert next.inFlight[..|e.inFlight|] == e.inFlight;
      assert Fill(e, now).inFlight[..|e.inFlight|] == Fill(next, now).inFlight[..|next.inFlight|][..|e.inFlight|];
    }
  }

  /** A poll leaves the window in place, stamps all of it with its time if it resends, and everything that it adds in
      any case. */
  lemma PollStamps(e: Endpoint, now: nat, clock: nat)
    ensures var w, v, again := e.inFlight, Poll(e, now, clock).inFlight,
              e.inFlight != [] && Due(now, e.inFlight[0].sentAt, e.config.retransmitAfter);
            && |w| <= |v|
            && (forall i :: 0 <= i < |w| ==> v[i] == if again then w[i].(sentAt := now) else w[i])
            && (forall i :: |w| <= i < |v| ==> v[i].sentAt == now)
  {
    var e1 := Resend(e, now);
    FillStamps(e1, now);
    var f := Fill(e1, now);
    assert forall i :: 0 <= i < |e1.inFlight| ==> f.inFlight[i] == f.inFlight[..|e1.inFlight|][i];
    hide Fill, DataPacket, AckPacket, AckDue;
  }

  lemma CallKeepsStamps(e: Endpoint, c: Call, t: nat)
    requires SentSince(e.inFlight, t) && (c.PollIt? ==> c.now >= t)
    ensures SentSince(AfterCall(e, c).inFlight, t)
  {
    hide Poll, DropCovered, PackFrom;
    match c
    case AckArrives(ackId) => DropIsSuffix(e.inFlight, ackId);
    case PollIt(now, clock) => PollStamps(e, now, clock);
    case _ =>
  }

  lemma {:induction false} StampsSince(e: Endpoint, calls: seq<Call>, i: nat, j: nat, t: nat)
    requires i <= j <= |calls| && SentSince(At(e, calls, i).inFlight, t)
    requires forall k :: i <= k < j && calls[k].PollIt? ==> calls[k].now >= t
    ensures SentSince(At(e, calls, j).inFlight, t)
    decreases j
  {
    hide SentSince, AfterCall;
    if i < j {
      StampsSince(e, calls, i, j - 1, t);
      CallKeepsStamps(At(e, calls, j - 1), calls[j - 1], t);
    }
  }

  /** Once the window has been resent, nothing is resent again before the retransmit time has passed. */
  lemma RetransmissionsSpaced(e: Endpoint, calls: seq<Call>, i: nat, j: nat)
    requires Regular(e) && Speaks(calls) && i < j < |calls|
    requires SendsAt(e, calls, i, Retransmission) && SendsAt(e, calls, j, Retransmission)
    requires forall k :: i <= k < j && calls[k].PollIt? ==> calls[k].now >= calls[i].now
    ensures Due(calls[j].now, calls[i].now, e.config.retransmitAfter)
  {
    hide Regular, PollOut, Poll, AcksAt, Idle;
    StaysRegular(e, calls, i);
    StaysRegular(e, calls, j);
    var first, second := At(e, calls, i), At(e, calls, j);
    PollSends(first, calls[i].now, calls[i].clock);
    PollSends(second, calls[j].now, calls[j].clock);
    PollStamps(first, calls[i].now, calls[i].clock);
    assert At(e, calls, i + 1) == Poll(first, calls[i].now, calls[i].clock);
    hide At;
    StampsSince(e, calls, i + 1, j, calls[i].now);
  }

  /** A poll resends if and only if the packet at the front of the window was last sent at least the retransmit time
      ago. */
  lemma RetransmissionIff(e: Endpoint, calls: seq<Call>, j: nat)
    requires Regular(e) && Speaks(calls) && j < |calls| && calls[j].PollIt?
    ensures var window := At(e, calls, j).inFlight;
            SendsAt(e, calls, j, Retransmission)
            <==> window != [] && Due(calls[j].now, window[0].sentAt, e.config.retransmitAfter)
  {
    hide Regular, PollOut, Poll, AcksAt, Idle, At;
    StaysRegular(e, calls, j);
    PollSends(At(e, calls, j), calls[j].now, calls[j].clock);
  }

  // ---------------------------------------------------------------- the window

  lemma {:induction false} FillBound(e: Endpoint, now: nat)
    ensures var f := Fill(e, now);
            && |f.inFlight| <= Max(|e.inFlight|, e.config.maxInFlight)
            && (f.outbound == [] || |f.inFlight| >= e.config.maxInFlight)
    decreases |e.outbound|
  {
    hide DataPacket;
    if CanFill(e) {
      FillBound(TransmitNext(e, now), now);
    }
  }

  /** A poll fills the window: afterwards it is full or nothing is queued. */
  lemma PollFillsWindow(e: Endpoint, now: nat, clock: nat)
    ensures var f := Poll(e, now, clock);
            && (f.outbound == [] || |f.inFlight| >= e.config.maxInFlight)
            && |f.inFlight| <= Max(Max(|e.inFlight|, 1), e.config.maxInFlight)
  {
    FillBound(Resend(e, now), now);
    hide Fill, DataPacket, AckPacket, AckDue;
  }

  /** Over any run of calls no more than the configured number of packets is in flight, but for a keepalive. */
  lemma {:induction false} WindowBounded(e: Endpoint, calls: seq<Call>, n: nat)
    requires Regular(e) && Speaks(calls) && n <= |calls| && e.inFlight == []
    ensures |At(e, calls, n).inFlight| <= Max(1, e.config.maxInFlight)
    decreases n
  {
    hide Regular, Poll, DropCovered, PackFrom;
    if n > 0 {
      WindowBounded(e, calls, n - 1);
      StaysRegular(e, calls, n - 1);
      var before := At(e, calls, n - 1);
      match calls[n - 1]
      case AckArrives(ackId) => DropIsSuffix(before.inFlight, ackId);
      case PollIt(now, clock) => PollFillsWindow(before, now, clock);
      case _ =>
    }
  }
}
