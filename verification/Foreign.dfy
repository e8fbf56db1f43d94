/** Datagrams that are not the link's own, such as those of a client's earlier session: the server compares no
    session ids, so what they carry is taken for this session's. When they do harm, and exactly when they do
    nothing. And how the upstream datagram loop differs from the client-side one. */
module Foreign {
  import opened Wire
  import opened Packets
  import opened Reliable
  import opened Transport

  /** A packet with this header would change the endpoint: it acknowledges the front of the window, or is
      taken for the next reliable packet. */
  predicate Touches(e: Endpoint, h: PacketHeader) {
    || ((h.flags.ackReply || h.ackId != 0) && e.inFlight != [] && IsAckCovering(h.ackId, e.inFlight[0].packetId))
    || (h.flags.ackRequest && Accepts(e, h.packetId))
  }

  predicate TouchedBy(e: Endpoint, bytes: Bytes) {
    match DecodePacket(bytes)
    case Err(_) => false
    case Ok(packet) => !packet.header.flags.handshake && Touches(e, packet.header)
  }

  lemma AckMovesIff(e: Endpoint, ackId: u16)
    ensures OnAck(e, ackId) == e <==> !(e.inFlight != [] && IsAckCovering(ackId, e.inFlight[0].packetId))
  {
    hide IsAckCovering;
    if e.inFlight != [] && IsAckCovering(ackId, e.inFlight[0].packetId) {
      DropShrinks(e.inFlight[1..], ackId);
    }
  }

  /** Any datagram, whoever sent it: it leaves the peer as it was if and only if it does not touch it. */
  lemma HarmlessIff(p: Peer, bytes: Bytes)
    ensures Receive(p, bytes) == p <==> !TouchedBy(p.ep, bytes)
  {
    hide DecodePacket, IsAckCovering;
    if DecodePacket(bytes).Ok? {
      var h := DecodePacket(bytes).value.header;
      AckMovesIff(p.ep, h.ackId);
      if h.flags.ackRequest && Accepts(p.ep, h.packetId) && !h.flags.handshake {
        assert Receive(p, bytes).expected == p.expected + 1;
      }
    }
  }

  /** The left peer hears a datagram that the other side never sent. */
  function Overhear(s: Link, bytes: Bytes): Link {
    s.(left := Receive(s.left, bytes), ltr := s.ltr + AsSet(ReceiveReply(s.left, bytes)))
  }

  /** One that does not touch it keeps the invariant; the retransmit request it may be answered with is as good
      as any. */
  lemma OverhearKeeps(s: Link, bytes: Bytes)
    requires Inv(s) && !TouchedBy(s.left.ep, bytes)
    ensures Inv(Overhear(s, bytes)) && Overhear(s, bytes).left == s.left && Overhear(s, bytes).right == s.right
  {
    hide Inv, Receive, ReceiveReply, TouchedBy, Genuine, SendSide, ReceiveSide;
    HarmlessIff(s.left, bytes);
    ReplyGenuine(s.left, bytes, s.left.log, s.left.expected);
    StandsStill(s, AsSet(ReceiveReply(s.left, bytes)));
  }

  lemma StandsStill(s: Link, sent: set<Datagram>)
    requires Inv(s) && Genuine(sent, s.left.log, s.left.expected)
    ensures Inv(s.(ltr := s.ltr + sent))
  {
    hide SendSide, ReceiveSide, Genuine;
    GenuineBoth(s.ltr, sent, s.left.log, s.left.expected);
  }

  // ---------------------------------------------------------------- the inputs

  /** An acknowledgement under any session id that names the front of the window, the front not having arrived:
      the packet leaves the window undelivered, and with it the only copy that would be sent again. */
  lemma StaleAckLoses(s: Link, e: Endpoint)
    requires Inv(s) && s.left.ep.inFlight != [] && Front(s.left) == s.right.expected
    requires e.ack.highestRecv == Some(s.left.ep.inFlight[0].packetId)
    ensures TouchedBy(s.left.ep, AckPacket(e))
    ensures Front(Receive(s.left, AckPacket(e))) > s.right.expected && !Inv(Overhear(s, AckPacket(e)))
  {
    hide DecodePacket, AckPacket, WindowOf, Genuine, ReceiveSide, Deliverable, NonEmpties, IsAckCovering;
    AckPacketCarries(e);
    CoversItself(e.ack.highestRecv.value);
    DropShrinks(s.left.ep.inFlight[1..], e.ack.highestRecv.value);
    WithinLog(s.left);
  }

  lemma CoversItself(id: u16)
    ensures IsAckCovering(id, id)
  {
  }

  lemma WithinLog(p: Peer)
    requires SendSide(p)
    ensures |p.ep.inFlight| <= |p.log|
  {
  }

  /** A data packet under any session id that bears the expected id is handed over. */
  lemma StaleDataAccepted(p: Peer, e: Endpoint, payload: Bytes)
    requires e.nextSendId == p.ep.ack.expectedRecv && payload != [] && |payload| <= MAX_PAYLOAD
    ensures TouchedBy(p.ep, DataPacket(e, payload))
    ensures Receive(p, DataPacket(e, payload)).delivered == p.delivered + [payload]
  {
    hide DecodePacket, DataPacket;
    DataPacketCarries(e, payload);
    NonEmptiesOne(payload);
  }

  lemma NonEmptiesOne(payload: Bytes)
    requires payload != []
    ensures NonEmpties([payload]) == [payload]
  {
    assert [payload][1..] == [];
  }

  // ---------------------------------------------------------------- the upstream loop

  /** The upstream loop applies an acknowledgement even from a handshake packet, and hands over a payload that
      comes without ACK_REQUEST. */
  function UpstreamReceive(p: Peer, bytes: Bytes): Peer {
    match DecodePacket(bytes)
    case Err(_) => p
    case Ok(packet) =>
      var acked := Acknowledge(p, packet.header);
      if packet.header.flags.handshake then acked
      else if packet.header.flags.ackRequest then Deliver(acked, packet)
      else acked.(delivered := acked.delivered + NonEmpties([packet.payload]))
  }

  /** On every datagram that an endpoint of this protocol sends, the two loops agree. */
  lemma UpstreamLoopAgrees(p: Peer, d: Datagram, log: seq<Bytes>, expected: nat)
    requires Proper(d, log, expected)
    ensures UpstreamReceive(p, d.bytes) == Receive(p, d.bytes)
  {
    hide DecodePacket, OnAck, Accept;
    NonEmptiesNone();
  }

  /** On any datagram whatever they agree if and only if it is neither a handshake packet that acknowledges the front of
      the window nor a packet without ACK_REQUEST that has a payload. */
  lemma UpstreamLoopAgreesIff(p: Peer, bytes: Bytes)
    ensures UpstreamReceive(p, bytes) == Receive(p, bytes)
            <==> DecodePacket(bytes).Ok? ==>
                   var h, payload := DecodePacket(bytes).value.header, DecodePacket(bytes).value.payload;
                   if h.flags.handshake then
                     !((h.flags.ackReply || h.ackId != 0) && p.ep.inFlight != []
                       && IsAckCovering(h.ackId, p.ep.inFlight[0].packetId))
                   else h.flags.ackRequest || payload == []
  {
    hide DecodePacket, IsAckCovering, Accept, DropCovered;
    if DecodePacket(bytes).Ok? {
      var h, payload := DecodePacket(bytes).value.header, DecodePacket(bytes).value.payload;
      AckMovesIff(p.ep, h.ackId);
      NonEmptiesNone();
      if payload != [] {
        NonEmptiesOne(payload);
      }
      assert p.delivered + [] == p.delivered;
    }
  }

  lemma NonEmptiesNone()
    ensures NonEmpties<byte>([[]]) == []
  {
    var one: seq<Bytes> := [[]];
    assert one[1..] == [];
  }
}
