/** Two endpoints joined by a network that loses, duplicates and reorders: exactly-once, in-order
    delivery in both directions, over runs of any length and any number of 15-bit wraps.

    Each peer carries history the code does not keep: every payload queued, every payload sent by
    absolute number (the wire id is that number modulo 2^15), how many ids were accepted, and the
    payloads handed to the application. Datagrams in the network carry the absolute number they
    were sent for; the receiving code sees only the bytes. */
module Transport {
  import opened Wire
  import opened Packets
  import opened Reliable

  /** The wire id of an absolute number: wrapped as often as it takes. */
  function WireId(abs: nat): u16 {
    if abs < MAX_PACKET_ID then abs else WireId(abs - MAX_PACKET_ID)
  }

  lemma {:induction false} WireIdIsRemainder(abs: nat)
    ensures WireId(abs) == abs % MAX_PACKET_ID
  {
    if abs >= MAX_PACKET_ID {
      WireIdIsRemainder(abs - MAX_PACKET_ID);
    }
  }

  datatype Datagram =
    | Data(abs: nat, bytes: Bytes)
    | Ack(abs: nat, bytes: Bytes)
    | Request(bytes: Bytes)

  datatype Peer = Peer(ep: Endpoint, queued: seq<Bytes>, log: seq<Bytes>, expected: nat, delivered: seq<Bytes>)

  /** Absolute number of the oldest packet in the window, or of the next one if the window is empty. */
  function Front(p: Peer): nat {
    if |p.ep.inFlight| <= |p.log| then |p.log| - |p.ep.inFlight| else 0
  }

  function ClipAll(payloads: seq<Bytes>): (r: seq<Bytes>)
    ensures |r| == |payloads| && forall i :: 0 <= i < |r| ==> r[i] == Clip(payloads[i])
  {
    seq(|payloads|, i requires 0 <= i < |payloads| => Clip(payloads[i]))
  }

  /** What a receiver should get of a list of queued payloads: the non-empty ones, each as the
      11-bit length field leaves it (unchanged up to `MAX_PAYLOAD` bytes). */
  function Deliverable(payloads: seq<Bytes>): seq<Bytes> {
    NonEmpties(ClipAll(payloads))
  }

  lemma DeliverableAppend(a: seq<Bytes>, b: seq<Bytes>)
    ensures Deliverable(a + b) == Deliverable(a) + Deliverable(b)
  {
    assert ClipAll(a + b) == ClipAll(a) + ClipAll(b);
    NonEmptiesAppend(ClipAll(a), ClipAll(b));
  }

  predicate IsPrefix(a: seq<Bytes>, b: seq<Bytes>) {
    |a| <= |b| && b[..|a|] == a
  }

  // ---------------------------------------------------------------- what datagrams carry

  predicate CarriesData(bytes: Bytes, id: u16, payload: Bytes) {
    && DecodePacket(bytes).Ok?
    && var p := DecodePacket(bytes).value;
    && p.header.flags.ackRequest && !p.header.flags.handshake && !p.header.flags.ackReply
    && p.header.ackId == 0 && p.header.packetId == id && p.payload == payload
  }

  predicate CarriesAck(bytes: Bytes, id: u16) {
    && DecodePacket(bytes).Ok?
    && var p := DecodePacket(bytes).value;
    && !p.header.flags.ackRequest && !p.header.flags.handshake && p.header.flags.ackReply
    && p.header.ackId == id && p.payload == []
  }

  predicate CarriesRequest(bytes: Bytes) {
    && DecodePacket(bytes).Ok?
    && var p := DecodePacket(bytes).value;
    && !p.header.flags.ackRequest && !p.header.flags.handshake && !p.header.flags.ackReply
    && p.header.ackId == 0 && p.payload == []
  }

  lemma DataPacketCarries(e: Endpoint, payload: Bytes)
    ensures CarriesData(DataPacket(e, payload), e.nextSendId, Clip(payload))
  {
    PacketRoundTrip(NewHeader(NO_FLAGS.(ackRequest := true), e.sessionId, (HEADER_LEN + |payload|) % 0x1_0000)
                    .(packetId := e.nextSendId), payload);
  }

  lemma AckPacketCarries(e: Endpoint)
    requires e.ack.highestRecv.Some?
    ensures CarriesAck(AckPacket(e), e.ack.highestRecv.value)
  {
    PacketRoundTrip(NewHeader(NO_FLAGS.(ackReply := true), e.sessionId, HEADER_LEN)
                    .(ackId := e.ack.highestRecv.value), []);
  }

  lemma RequestCarries(e: Endpoint)
    ensures CarriesRequest(RetransmitRequest(e))
  {
    PacketRoundTrip(NewHeader(NO_FLAGS.(retransmitRequest := true), e.sessionId, HEADER_LEN)
                    .(retransmitRequest := e.ack.expectedRecv), []);
  }

  // ---------------------------------------------------------------- peer operations

  function QueueAt(p: Peer, payloads: seq<Bytes>): Peer {
    p.(ep := p.ep.(outbound := p.ep.outbound + payloads), queued := p.queued + payloads)
  }

  function ResendAt(p: Peer, now: nat): Peer {
    p.(ep := Resend(p.ep, now))
  }

  function ResendSent(p: Peer, now: nat): seq<Datagram> {
    var out := ResendOut(p.ep, now);
    seq(|out|, i requires 0 <= i < |out| => Data(Front(p) + i, out[i]))
  }

  function TransmitNextAt(p: Peer, now: nat): Peer
    requires p.ep.outbound != []
  {
    p.(ep := TransmitNext(p.ep, now), log := p.log + [Clip(p.ep.outbound[0])])
  }

  function FillAt(p: Peer, now: nat): Peer
    decreases |p.ep.outbound|
  {
    if CanFill(p.ep) then FillAt(TransmitNextAt(p, now), now) else p
  }

  function FillSent(p: Peer, now: nat): seq<Datagram>
    decreases |p.ep.outbound|
  {
    if CanFill(p.ep) then
      [Data(|p.log|, DataPacket(p.ep, p.ep.outbound[0]))] + FillSent(TransmitNextAt(p, now), now)
    else []
  }

  function AckAt(p: Peer, clock: nat): Peer {
    p.(ep := SendAck(p.ep, clock))
  }

  function AckSentBy(p: Peer, clock: nat): seq<Datagram> {
    if AckDue(p.ep, clock) then [Ack(if p.expected == 0 then 0 else p.expected - 1, AckPacket(p.ep))] else []
  }

  function PingAt(p: Peer, now: nat): Peer {
    if PingDue(p.ep, now) then p.(ep := Ping(p.ep, now), log := p.log + [[]]) else p
  }

  function PingSent(p: Peer, now: nat): seq<Datagram> {
    if PingDue(p.ep, now) then [Data(|p.log|, DataPacket(p.ep, []))] else []
  }

  function PollAt(p: Peer, now: nat, clock: nat): Peer {
    PingAt(AckAt(FillAt(ResendAt(p, now), now), clock), now)
  }

  function PollSent(p: Peer, now: nat, clock: nat): seq<Datagram> {
    var p1 := ResendAt(p, now);
    var p2 := FillAt(p1, now);
    var p3 := AckAt(p2, clock);
    ResendSent(p, now) + FillSent(p1, now) + AckSentBy(p2, clock) + PingSent(p3, now)
  }

  function BytesOf(ds: seq<Datagram>): (r: seq<Bytes>)
    ensures |r| == |ds|
  {
    seq(|ds|, i requires 0 <= i < |ds| => ds[i].bytes)
  }

  lemma {:induction false} FillAtIsFill(p: Peer, now: nat)
    ensures FillAt(p, now).ep == Fill(p.ep, now)
    ensures BytesOf(FillSent(p, now)) == FillOut(p.ep, now)
    decreases |p.ep.outbound|
  {
    if CanFill(p.ep) {
      var next := TransmitNextAt(p, now);
      FillAtIsFill(next, now);
      assert BytesOf(FillSent(p, now))
          == [DataPacket(p.ep, p.ep.outbound[0])] + BytesOf(FillSent(next, now));
    }
  }

  lemma BytesOfAppend(a: seq<Datagram>, b: seq<Datagram>)
    ensures BytesOf(a + b) == BytesOf(a) + BytesOf(b)
  {
  }

  lemma PhasesSendTheBytes(p: Peer, now: nat, clock: nat)
    ensures BytesOf(ResendSent(p, now)) == ResendOut(p.ep, now)
    ensures BytesOf(AckSentBy(p, clock)) == SendAckOut(p.ep, clock)
    ensures BytesOf(PingSent(p, now)) == PingOut(p.ep, now)
  {
    hide AckPacket, DataPacket, ResendOut, AckDue, PingDue;
  }

  /** With the history forgotten, a peer's poll is the endpoint's poll, byte for byte. */
  lemma PollAtIsPoll(p: Peer, now: nat, clock: nat)
    ensures PollAt(p, now, clock).ep == Poll(p.ep, now, clock)
    ensures BytesOf(PollSent(p, now, clock)) == PollOut(p.ep, now, clock)
  {
    var p1 := ResendAt(p, now);
    var p2 := FillAt(p1, now);
    var p3 := AckAt(p2, clock);
    FillAtIsFill(p1, now);
    PhasesSendTheBytes(p, now, clock);
    PhasesSendTheBytes(p2, now, clock);
    PhasesSendTheBytes(p3, now, clock);
    var r, f, a, g := ResendSent(p, now), FillSent(p1, now), AckSentBy(p2, clock), PingSent(p3, now);
    BytesOfAppend(r, f);
    BytesOfAppend(r + f, a);
    BytesOfAppend(r + f + a, g);
    hide BytesOf, ResendSent, FillSent, FillAt, Fill, FillOut, AckSentBy, PingSent, ResendOut, SendAckOut, PingOut;
  }

  /** What the client-side datagram loop does with a datagram once the session exists: apply an
      acknowledgement, then accept a reliable packet in order and hand over its payload. The upstream loop
      differs in ways that no datagram of the two endpoints shows (`Foreign.UpstreamLoopAgrees`). */
  function Receive(p: Peer, bytes: Bytes): Peer {
    match DecodePacket(bytes)
    case Err(_) => p
    case Ok(packet) =>
      if packet.header.flags.handshake then p
      else Deliver(Acknowledge(p, packet.header), packet)
  }

  function Acknowledge(p: Peer, header: PacketHeader): Peer {
    if header.flags.ackReply || header.ackId != 0 then p.(ep := OnAck(p.ep, header.ackId)) else p
  }

  function Deliver(p: Peer, packet: Packet): Peer {
    if packet.header.flags.ackRequest && Accepts(p.ep, packet.header.packetId) then
      p.(ep := Accept(p.ep, packet.header.packetId),
         expected := p.expected + 1,
         delivered := p.delivered + NonEmpties([packet.payload]))
    else p
  }

  /** A reliable packet that is refused is answered with a retransmit request. */
  function ReceiveReply(p: Peer, bytes: Bytes): seq<Datagram> {
    match DecodePacket(bytes)
    case Err(_) => []
    case Ok(packet) =>
      if !packet.header.flags.handshake && packet.header.flags.ackRequest
         && !Accepts(p.ep, packet.header.packetId)
      then [Request(RetransmitRequest(p.ep))]
      else []
  }

  // ---------------------------------------------------------------- the invariant

  predicate IsEntry(entry: InFlightEntry, abs: nat, payload: Bytes) {
    entry.packetId == WireId(abs) && CarriesData(entry.bytes, WireId(abs), payload)
  }

  /** The window holds the last packets of the log, in order, under consecutive wire ids. */
  predicate WindowOf(window: seq<InFlightEntry>, log: seq<Bytes>) {
    && |window| <= |log|
    && forall i :: 0 <= i < |window| ==>
         IsEntry(window[i], |log| - |window| + i, log[|log| - |window| + i])
  }

  /** The sending half: the window ends just before `nextSendId`, is within its bound, and nothing
      queued has been lost, doubled or reordered on its way through the queue into the log. */
  predicate SendSide(p: Peer) {
    && p.ep.config.maxInFlight <= ACK_WINDOW
    && |p.ep.inFlight| <= Max(1, p.ep.config.maxInFlight)
    && p.ep.nextSendId == WireId(|p.log|)
    && WindowOf(p.ep.inFlight, p.log)
    && NonEmpties(p.log) + Deliverable(p.ep.outbound) == Deliverable(p.queued)
  }

  predicate ReceiveSide(p: Peer, log: seq<Bytes>) {
    && p.expected <= |log|
    && p.ep.ack.expectedRecv == WireId(p.expected)
    && (p.ep.ack.highestRecv.Some? ==> p.expected > 0 && p.ep.ack.highestRecv.value == WireId(p.expected - 1))
    && p.delivered == NonEmpties(log[..p.expected])
  }

  /** What a peer may have put into the network, given its log and the number of ids it accepted. */
  predicate Proper(d: Datagram, log: seq<Bytes>, expected: nat) {
    match d
    case Data(abs, bytes) => abs < |log| && CarriesData(bytes, WireId(abs), log[abs])
    case Ack(abs, bytes) => abs < expected && CarriesAck(bytes, WireId(abs))
    case Request(bytes) => CarriesRequest(bytes)
  }

  predicate Genuine(net: set<Datagram>, log: seq<Bytes>, expected: nat) {
    forall d :: d in net ==> Proper(d, log, expected)
  }

  /** Two peers and every datagram sent so far in each direction. */
  datatype Link = Link(left: Peer, right: Peer, ltr: set<Datagram>, rtl: set<Datagram>)

  function Swap(s: Link): Link {
    Link(s.right, s.left, s.rtl, s.ltr)
  }

  /** One peer's half of the invariant; `other` is its counterpart and `net` what it has sent. */
  predicate Sound(p: Peer, other: Peer, net: set<Datagram>) {
    && SendSide(p)
    && ReceiveSide(p, other.log)
    && Front(p) <= other.expected
    && Genuine(net, p.log, p.expected)
  }

  predicate Inv(s: Link) {
    Sound(s.left, s.right, s.ltr) && Sound(s.right, s.left, s.rtl)
  }

  lemma InvSwap(s: Link)
    ensures Inv(Swap(s)) <==> Inv(s)
    ensures Swap(Swap(s)) == s
  {
  }

  // ---------------------------------------------------------------- steps and runs

  datatype Action =
    | QueuePayloads(payloads: seq<Bytes>)
    | SetOpen
    | PollNow(now: nat, clock: nat)
    | DeliverHere(d: Datagram)

  datatype Step = Step(atLeft: bool, action: Action)

  function AsSet(ds: seq<Datagram>): set<Datagram> {
    set d | d in ds
  }

  function ActLeft(s: Link, a: Action): Link {
    match a
    case QueuePayloads(payloads) => s.(left := QueueAt(s.left, payloads))
    case SetOpen => s.(left := s.left.(ep := s.left.ep.(isOpen := true)))
    case PollNow(now, clock) =>
      s.(left := PollAt(s.left, now, clock), ltr := s.ltr + AsSet(PollSent(s.left, now, clock)))
    case DeliverHere(d) =>
      s.(left := Receive(s.left, d.bytes), ltr := s.ltr + AsSet(ReceiveReply(s.left, d.bytes)))
  }

  /** The packet-lifetime assumption: a datagram is delivered only while its number is recent. Data
      may be up to 2^15 - 1 ids behind the sender's next id, an acknowledgement up to 2^15 - 256
      ids behind the front of the window it reaches. Nothing else is asked of the network, which may
      deliver any datagram ever sent, in any order, any number of times or never. */
  predicate InTime(s: Link, d: Datagram) {
    match d
    case Data(abs, _) => |s.right.log| - abs <= MAX_PACKET_ID - 1
    case Ack(abs, _) => Front(s.left) - abs <= MAX_PACKET_ID - ACK_WINDOW
    case Request(_) => true
  }

  predicate CanActLeft(s: Link, a: Action) {
    a.DeliverHere? ==> a.d in s.rtl && InTime(s, a.d)
  }

  function Act(s: Link, step: Step): Link {
    if step.atLeft then ActLeft(s, step.action) else Swap(ActLeft(Swap(s), step.action))
  }

  predicate CanAct(s: Link, step: Step) {
    CanActLeft(if step.atLeft then s else Swap(s), step.action)
  }

  function Run(s: Link, steps: seq<Step>): Link
    decreases |steps|
  {
    if steps == [] then s else Run(Act(s, steps[0]), steps[1..])
  }

  predicate CanRun(s: Link, steps: seq<Step>)
    decreases |steps|
  {
    steps == [] || (CanAct(s, steps[0]) && CanRun(Act(s, steps[0]), steps[1..]))
  }

  /** A peer after the handshake: `start` ids are taken as used up (the HELLO's), nothing is queued,
      and the id expected next is the other side's next id. */
  predicate Fresh(p: Peer, start: nat, otherStart: nat) {
    && p.ep.config.maxInFlight <= ACK_WINDOW
    && p.ep.nextSendId == WireId(start)
    && p.ep.inFlight == [] && p.ep.outbound == [] && p.queued == [] && p.delivered == []
    && p.log == seq(start, _ => [])
    && p.expected == otherStart
    && p.ep.ack.expectedRecv == WireId(otherStart)
    && (p.ep.ack.highestRecv.Some? ==> otherStart > 0 && p.ep.ack.highestRecv.value == WireId(otherStart - 1))
  }

  predicate Init(s: Link, leftStart: nat, rightStart: nat) {
    && Fresh(s.left, leftStart, rightStart) && Fresh(s.right, rightStart, leftStart)
    && s.ltr == {} && s.rtl == {}
  }

  lemma InitInv(s: Link, leftStart: nat, rightStart: nat)
    requires Init(s, leftStart, rightStart)
    ensures Inv(s)
  {
    FreshSound(s.left, s.right, leftStart, rightStart);
    FreshSound(s.right, s.left, rightStart, leftStart);
  }

  lemma FreshSound(p: Peer, other: Peer, start: nat, otherStart: nat)
    requires Fresh(p, start, otherStart) && Fresh(other, otherStart, start)
    ensures Sound(p, other, {})
  {
    NonEmptiesOfEmpties(p.log);
    NonEmptiesOfEmpties(other.log);
    assert other.log[..p.expected] == other.log;
  }

  // ---------------------------------------------------------------- wire ids

  /** Two absolute numbers less than 2^15 apart have the same wire id only if they are equal. */
  lemma WireIdInjective(a: nat, b: nat)
    requires -MAX_PACKET_ID < a - b < MAX_PACKET_ID
    ensures WireId(a) == WireId(b) <==> a == b
  {
    WireIdIsRemainder(a);
    WireIdIsRemainder(b);
  }

  lemma WireIdNext(a: nat)
    ensures NextPacketId(WireId(a)) == WireId(a + 1)
  {
    WireIdIsRemainder(a);
    WireIdIsRemainder(a + 1);
    hide WireId;
  }

  lemma RemainderOfDifference(a: nat, b: nat)
    ensures (a % MAX_PACKET_ID - b % MAX_PACKET_ID) % MAX_PACKET_ID == (a - b) % MAX_PACKET_ID
  {
    var q := a / MAX_PACKET_ID - b / MAX_PACKET_ID;
    assert a - b == a % MAX_PACKET_ID - b % MAX_PACKET_ID + q * MAX_PACKET_ID;
  }

  /** The test of the source, on wire ids, in terms of the absolute numbers behind them. */
  lemma CoveringIff(ack: nat, id: nat)
    ensures IsAckCovering(WireId(ack), WireId(id)) <==> (ack - id) % MAX_PACKET_ID < ACK_WINDOW
  {
    WireIdIsRemainder(ack);
    WireIdIsRemainder(id);
    RemainderOfDifference(ack, id);
    hide WireId;
  }

  /** A window whose wire ids are those of `front`, `front + 1`, ... */
  predicate Consecutive(window: seq<InFlightEntry>, front: nat) {
    forall i :: 0 <= i < |window| ==> window[i].packetId == WireId(front + i)
  }

  /** The wrap-aware acknowledgement does what an acknowledgement of unbounded numbers would do: it
      pops exactly the entries up to the acknowledged one, and nothing when that is behind the
      window by 1 to 2^15 - 256. */
  lemma {:induction false} AckRefinesUnbounded(window: seq<InFlightEntry>, front: nat, ack: nat)
    requires Consecutive(window, front) && |window| <= ACK_WINDOW
    requires ack < front + |window| && front - ack <= MAX_PACKET_ID - ACK_WINDOW
    ensures DropCovered(window, WireId(ack)) == window[Max(0, ack + 1 - front)..]
    decreases |window|
  {
    if window != [] {
      assert window[0].packetId == WireId(front + 0);
      CoversFromFront(ack, front);
      hide WireId, IsAckCovering;
      if ack >= front {
        ConsecutiveRest(window, front);
        AckRefinesUnbounded(window[1..], front + 1, ack);
        DropDrop(window, 1, ack - front);
      }
    }
  }

  lemma ConsecutiveRest(window: seq<InFlightEntry>, front: nat)
    requires Consecutive(window, front) && window != []
    ensures Consecutive(window[1..], front + 1)
  {
    forall i | 0 <= i < |window[1..]|
      ensures window[1..][i].packetId == WireId(front + 1 + i)
    {
      assert window[1..][i] == window[1 + i] && front + (1 + i) == front + 1 + i;
    }
  }

  lemma CoversFromFront(ack: nat, front: nat)
    requires ack - front < ACK_WINDOW && front - ack <= MAX_PACKET_ID - ACK_WINDOW
    ensures IsAckCovering(WireId(ack), WireId(front)) <==> ack >= front
  {
    CoveringIff(ack, front);
  }

  /** The lifetime bound on acknowledgements is exact: one that is behind the window pops nothing if
      and only if its distance behind, modulo 2^15, is 1 to 2^15 - 256. */
  lemma OldAckHarmlessIff(window: seq<InFlightEntry>, front: nat, ack: nat)
    requires Consecutive(window, front) && window != [] && ack < front
    ensures DropCovered(window, WireId(ack)) == window
            <==> 1 <= (front - ack) % MAX_PACKET_ID <= MAX_PACKET_ID - ACK_WINDOW
  {
    assert window[0].packetId == WireId(front + 0);
    CoveringIff(ack, front);
    var behind := (front - ack) % MAX_PACKET_ID;
    assert (ack - front) % MAX_PACKET_ID == (if behind == 0 then 0 else MAX_PACKET_ID - behind) by {
      var q := (front - ack) / MAX_PACKET_ID;
      assert ack - front == -behind - q * MAX_PACKET_ID;
    }
    if IsAckCovering(WireId(ack), window[0].packetId) {
      DropShrinks(window[1..], WireId(ack));
    }
  }

  /** The exact range for data: a datagram whose number is behind the expected one is taken for the next
      exactly when it is a positive multiple of 2^15 behind. */
  lemma OldDataAcceptedIff(p: Peer, log: seq<Bytes>, abs: nat)
    requires ReceiveSide(p, log) && abs < p.expected
    ensures Accepts(p.ep, WireId(abs)) <==> (p.expected - abs) % MAX_PACKET_ID == 0
  {
    WireIdIsRemainder(abs);
    WireIdIsRemainder(p.expected);
    hide WireId, NonEmpties;
    RemainderOfDifference(p.expected, abs);
  }

  lemma {:induction false} DropShrinks(window: seq<InFlightEntry>, ackId: u16)
    ensures |DropCovered(window, ackId)| <= |window|
    decreases |window|
  {
    if window != [] {
      DropShrinks(window[1..], ackId);
    }
  }

  // ---------------------------------------------------------------- every step keeps the invariant

  lemma GenuineLater(net: set<Datagram>, log: seq<Bytes>, log': seq<Bytes>, expected: nat, expected': nat)
    requires Genuine(net, log, expected) && IsPrefix(log, log') && expected <= expected'
    ensures Genuine(net, log', expected')
  {
    forall d | d in net
      ensures Proper(d, log', expected')
    {
      assert Proper(d, log, expected);
      if d.Data? {
        assert log'[d.abs] == log'[..|log|][d.abs];
      }
      hide CarriesData, CarriesAck, CarriesRequest;
    }
  }

  lemma GenuineBoth(a: set<Datagram>, b: set<Datagram>, log: seq<Bytes>, expected: nat)
    requires Genuine(a, log, expected) && Genuine(b, log, expected)
    ensures Genuine(a + b, log, expected)
  {
  }

  lemma ReceiveSideLater(p: Peer, log: seq<Bytes>, log': seq<Bytes>)
    requires ReceiveSide(p, log) && IsPrefix(log, log')
    ensures ReceiveSide(p, log')
  {
    assert log'[..p.expected] == log'[..|log|][..p.expected];
  }

  /** One peer moves: if its own halves stay sound, its log and its expected id only grow, and what
      it sends is genuine, the invariant holds again. */
  lemma LeftMoves(s: Link, p': Peer, sent: set<Datagram>)
    requires Inv(s)
    requires SendSide(p') && ReceiveSide(p', s.right.log)
    requires IsPrefix(s.left.log, p'.log) && s.left.expected <= p'.expected && Front(p') <= s.right.expected
    requires Genuine(sent, p'.log, p'.expected)
    ensures Inv(s.(left := p', ltr := s.ltr + sent))
  {
    GenuineLater(s.ltr, s.left.log, p'.log, s.left.expected, p'.expected);
    GenuineBoth(s.ltr, sent, p'.log, p'.expected);
    ReceiveSideLater(s.right, s.left.log, p'.log);
    assert Front(s.right) <= p'.expected;
    hide SendSide, ReceiveSide, Genuine, IsPrefix, Front;
  }

  lemma QueueKeeps(s: Link, payloads: seq<Bytes>)
    requires Inv(s)
    ensures Inv(ActLeft(s, QueuePayloads(payloads)))
  {
    QueueKeepsSendSide(s.left, payloads);
    LeftMoves(s, QueueAt(s.left, payloads), {});
    assert s.ltr + {} == s.ltr;
    hide Inv;
  }

  lemma QueueKeepsSendSide(p: Peer, payloads: seq<Bytes>)
    requires SendSide(p)
    ensures SendSide(QueueAt(p, payloads))
  {
    DeliverableAppend(p.ep.outbound, payloads);
    DeliverableAppend(p.queued, payloads);
    Associative(NonEmpties(p.log), Deliverable(p.ep.outbound), Deliverable(payloads));
    hide Deliverable, NonEmpties, WindowOf;
  }

  lemma SetOpenKeeps(s: Link)
    requires Inv(s)
    ensures Inv(ActLeft(s, SetOpen))
  {
    hide WindowOf, Genuine, Deliverable;
  }

  /** What a phase of a poll may do to a peer, `sent` being what it sends. */
  predicate Phase(p: Peer, p': Peer, sent: seq<Datagram>) {
    && SendSide(p')
    && IsPrefix(p.log, p'.log) && Front(p') == Front(p)
    && p'.expected == p.expected && p'.delivered == p.delivered
    && p'.ep.ack.expectedRecv == p.ep.ack.expectedRecv && p'.ep.ack.highestRecv == p.ep.ack.highestRecv
    && Genuine(AsSet(sent), p'.log, p'.expected)
  }

  lemma AsSetAppend(a: seq<Datagram>, b: seq<Datagram>)
    ensures AsSet(a + b) == AsSet(a) + AsSet(b)
  {
  }

  lemma PrefixThen(a: seq<Bytes>, b: seq<Bytes>, c: seq<Bytes>)
    requires IsPrefix(a, b) && IsPrefix(b, c)
    ensures IsPrefix(a, c)
  {
    assert c[..|a|] == c[..|b|][..|a|];
  }

  lemma PhaseThen(p: Peer, q: Peer, r: Peer, a: seq<Datagram>, b: seq<Datagram>)
    requires Phase(p, q, a) && Phase(q, r, b)
    ensures Phase(p, r, a + b)
  {
    PrefixThen(p.log, q.log, r.log);
    GenuineLater(AsSet(a), q.log, r.log, q.expected, r.expected);
    GenuineBoth(AsSet(a), AsSet(b), r.log, r.expected);
    AsSetAppend(a, b);
    hide SendSide, Genuine, IsPrefix, Front, AsSet;
  }

  lemma NoPhase(p: Peer)
    requires SendSide(p)
    ensures Phase(p, p, [])
  {
    assert p.log[..|p.log|] == p.log;
    hide SendSide, Front;
  }

  lemma ResendPhase(p: Peer, now: nat)
    requires SendSide(p)
    ensures Phase(p, ResendAt(p, now), ResendSent(p, now))
  {
    ResendKeepsSendSide(p, now);
    ResendSentGenuine(p, now);
    assert p.log[..|p.log|] == p.log;
    hide SendSide, Genuine, ResendSent, Front;
  }

  lemma ResendKeepsSendSide(p: Peer, now: nat)
    requires SendSide(p)
    ensures SendSide(ResendAt(p, now)) && Front(ResendAt(p, now)) == Front(p)
  {
    WindowResent(p.ep.inFlight, p.log, now);
    hide WindowOf, Resent, Deliverable, NonEmpties;
  }

  lemma WindowResent(window: seq<InFlightEntry>, log: seq<Bytes>, now: nat)
    requires WindowOf(window, log)
    ensures WindowOf(Resent(window, now), log)
  {
    forall i | 0 <= i < |window|
      ensures IsEntry(Resent(window, now)[i], |log| - |window| + i, log[|log| - |window| + i])
    {
      assert IsEntry(window[i], |log| - |window| + i, log[|log| - |window| + i]);
      hide CarriesData, WireId;
    }
    hide IsEntry, Resent;
  }

  lemma ResendSentGenuine(p: Peer, now: nat)
    requires SendSide(p)
    ensures Genuine(AsSet(ResendSent(p, now)), p.log, p.expected)
  {
    forall i | 0 <= i < |ResendSent(p, now)|
      ensures Proper(ResendSent(p, now)[i], p.log, p.expected)
    {
      ResentProper(p, now, i);
    }
    hide Proper, ResendSent;
  }

  lemma ResentProper(p: Peer, now: nat, i: nat)
    requires SendSide(p) && i < |ResendSent(p, now)|
    ensures Proper(ResendSent(p, now)[i], p.log, p.expected)
  {
    hide CarriesData, Deliverable, NonEmpties, MarkRetransmit, WireId;
    assert IsEntry(p.ep.inFlight[i], Front(p) + i, p.log[Front(p) + i]);
    MarkedCarries(p.ep.inFlight[i].bytes, WireId(Front(p) + i), p.log[Front(p) + i]);
  }

  lemma MarkedCarries(bytes: Bytes, id: u16, payload: Bytes)
    requires CarriesData(bytes, id, payload)
    ensures CarriesData(MarkRetransmit(bytes), id, payload)
  {
    hide DecodePacket, MarkRetransmit;
    MarkRetransmitDecodes(bytes);
  }

  function TransmitAt(p: Peer, rest: seq<Bytes>, payload: Bytes, now: nat): Peer {
    p.(ep := Transmit(p.ep.(outbound := rest), payload, now), log := p.log + [Clip(payload)])
  }

  lemma WindowGrows(window: seq<InFlightEntry>, log: seq<Bytes>, entry: InFlightEntry, payload: Bytes)
    requires WindowOf(window, log) && IsEntry(entry, |log|, payload)
    ensures WindowOf(window + [entry], log + [payload])
  {
    hide IsEntry;
  }

  lemma TransmitKeepsSendSide(p: Peer, rest: seq<Bytes>, payload: Bytes, now: nat)
    requires SendSide(p)
    requires |p.ep.inFlight| < Max(1, p.ep.config.maxInFlight)
    requires Deliverable(p.ep.outbound) == NonEmpties([Clip(payload)]) + Deliverable(rest)
    ensures SendSide(TransmitAt(p, rest, payload, now))
    ensures Front(TransmitAt(p, rest, payload, now)) == Front(p)
  {
    var e := p.ep.(outbound := rest);
    DataPacketCarries(e, payload);
    WireIdNext(|p.log|);
    WindowGrows(p.ep.inFlight, p.log, InFlightEntry(e.nextSendId, DataPacket(e, payload), now), Clip(payload));
    NonEmptiesAppend(p.log, [Clip(payload)]);
    Associative(NonEmpties(p.log), NonEmpties([Clip(payload)]), Deliverable(rest));
    hide WindowOf, Deliverable, NonEmpties, DataPacket, Clip, WireId;
  }

  /** A packet takes the next number; `payload` is the head of the outbound queue, or a ping's
      empty payload, and `rest` is what stays in the queue. */
  lemma TransmitPhase(p: Peer, rest: seq<Bytes>, payload: Bytes, now: nat)
    requires SendSide(p)
    requires |p.ep.inFlight| < Max(1, p.ep.config.maxInFlight)
    requires Deliverable(p.ep.outbound) == NonEmpties([Clip(payload)]) + Deliverable(rest)
    ensures Phase(p, TransmitAt(p, rest, payload, now), [Data(|p.log|, DataPacket(p.ep, payload))])
  {
    TransmitKeepsSendSide(p, rest, payload, now);
    DataPacketCarries(p.ep, payload);
    SplitOfAppend(p.log, [Clip(payload)]);
    var d := Data(|p.log|, DataPacket(p.ep, payload));
    assert (p.log + [Clip(payload)])[|p.log|] == Clip(payload);
    assert Proper(d, p.log + [Clip(payload)], p.expected);
    hide Proper, SendSide, DataPacket, Clip, Front;
    assert AsSet([d]) == {d};
  }

  lemma TransmitNextPhase(p: Peer, now: nat)
    requires SendSide(p) && CanFill(p.ep)
    ensures Phase(p, TransmitNextAt(p, now), [Data(|p.log|, DataPacket(p.ep, p.ep.outbound[0]))])
  {
    var payload, rest := p.ep.outbound[0], p.ep.outbound[1..];
    assert p.ep.outbound == [payload] + rest;
    DeliverableAppend([payload], rest);
    assert ClipAll([payload]) == [Clip(payload)];
    TransmitPhase(p, rest, payload, now);
    hide Phase, SendSide, NonEmpties, DataPacket;
  }

  lemma {:induction false} FillPhase(p: Peer, now: nat)
    requires SendSide(p)
    ensures Phase(p, FillAt(p, now), FillSent(p, now))
    decreases |p.ep.outbound|
  {
    if CanFill(p.ep) {
      var next := TransmitNextAt(p, now);
      TransmitNextPhase(p, now);
      assert SendSide(next);
      FillPhase(next, now);
      PhaseThen(p, next, FillAt(next, now), [Data(|p.log|, DataPacket(p.ep, p.ep.outbound[0]))], FillSent(next, now));
    } else {
      NoPhase(p);
    }
    hide Phase, SendSide, DataPacket;
  }

  lemma AckPhase(p: Peer, clock: nat, log: seq<Bytes>)
    requires SendSide(p) && ReceiveSide(p, log)
    ensures Phase(p, AckAt(p, clock), AckSentBy(p, clock))
  {
    if AckDue(p.ep, clock) {
      AckPacketCarries(p.ep);
      assert p.log[..|p.log|] == p.log;
      var a := AckSentBy(p, clock)[0];
      assert Proper(a, p.log, p.expected);
      hide Proper, WindowOf, AckPacket, Deliverable, NonEmpties;
      assert AsSet([a]) == {a};
    } else {
      NoPhase(p);
    }
  }

  lemma PingPhase(p: Peer, now: nat)
    requires SendSide(p)
    ensures Phase(p, PingAt(p, now), PingSent(p, now))
  {
    if PingDue(p.ep, now) {
      var q := TransmitAt(p, [], [], now);
      var ping := [Data(|p.log|, DataPacket(p.ep, []))];
      TransmitPhase(p, [], [], now);
      PingStamp(p, q, ping, now);
      assert PingAt(p, now) == q.(ep := q.ep.(lastPingAt := now));
    } else {
      NoPhase(p);
    }
    hide Phase, SendSide, DataPacket;
  }

  lemma PingStamp(p: Peer, q: Peer, sent: seq<Datagram>, now: nat)
    requires Phase(p, q, sent)
    ensures Phase(p, q.(ep := q.ep.(lastPingAt := now)), sent)
  {
    hide WindowOf, Genuine, Deliverable, NonEmpties, IsPrefix;
  }

  lemma PollPhase(p: Peer, log: seq<Bytes>, now: nat, clock: nat)
    requires SendSide(p) && ReceiveSide(p, log)
    ensures Phase(p, PollAt(p, now, clock), PollSent(p, now, clock))
  {
    var p1 := ResendAt(p, now);
    var p2 := FillAt(p1, now);
    var p3 := AckAt(p2, clock);
    var r, f, a, g := ResendSent(p, now), FillSent(p1, now), AckSentBy(p2, clock), PingSent(p3, now);
    ResendPhase(p, now);
    FillPhase(p1, now);
    PhaseThen(p, p1, p2, r, f);
    AckPhase(p2, clock, log);
    PhaseThen(p, p2, p3, r + f, a);
    PingPhase(p3, now);
    PhaseThen(p, p3, PollAt(p, now, clock), r + f + a, g);
    hide SendSide, Genuine, IsPrefix, Front, ResendSent, FillSent, AckSentBy, PingSent;
  }

  lemma PollKeeps(s: Link, now: nat, clock: nat)
    requires Inv(s)
    ensures Inv(ActLeft(s, PollNow(now, clock)))
  {
    var p' := PollAt(s.left, now, clock);
    PollPhase(s.left, s.right.log, now, clock);
    LeftMoves(s, p', AsSet(PollSent(s.left, now, clock)));
    hide Inv, SendSide, Genuine, IsPrefix, Front, PollAt, PollSent;
  }

  lemma WindowIsConsecutive(p: Peer)
    requires SendSide(p)
    ensures Consecutive(p.ep.inFlight, Front(p))
  {
    hide WireId, CarriesData, Deliverable, NonEmpties;
    forall i | 0 <= i < |p.ep.inFlight|
      ensures p.ep.inFlight[i].packetId == WireId(Front(p) + i)
    {
      assert IsEntry(p.ep.inFlight[i], Front(p) + i, p.log[Front(p) + i]);
    }
  }

  lemma ReceiveAckEffect(s: Link, d: Datagram)
    requires Inv(s) && d in s.rtl && d.Ack? && InTime(s, d)
    ensures Receive(s.left, d.bytes)
         == s.left.(ep := s.left.ep.(inFlight := s.left.ep.inFlight[Max(0, d.abs + 1 - Front(s.left))..]))
    ensures ReceiveReply(s.left, d.bytes) == []
  {
    hide DecodePacket, CarriesData, Deliverable, NonEmpties, IsAckCovering, WireId;
    assert Proper(d, s.right.log, s.right.expected);
    WindowIsConsecutive(s.left);
    AckRefinesUnbounded(s.left.ep.inFlight, Front(s.left), d.abs);
  }

  lemma PopKeepsSendSide(p: Peer, n: nat)
    requires SendSide(p) && n <= |p.ep.inFlight|
    ensures var p' := p.(ep := p.ep.(inFlight := p.ep.inFlight[n..]));
            SendSide(p') && Front(p') == Front(p) + n
  {
    assert WindowOf(p.ep.inFlight[n..], p.log) by {
      hide IsEntry;
    }
    hide WindowOf, Deliverable, NonEmpties, WireId;
  }

  lemma ReceiveAckKeeps(s: Link, d: Datagram)
    requires Inv(s) && d in s.rtl && d.Ack? && InTime(s, d)
    ensures Inv(ActLeft(s, DeliverHere(d)))
  {
    hide Receive, ReceiveReply, DecodePacket, Deliverable, NonEmpties;
    ReceiveAckEffect(s, d);
    assert Proper(d, s.right.log, s.right.expected);
    PopKeepsSendSide(s.left, Max(0, d.abs + 1 - Front(s.left)));
    assert IsPrefix(s.left.log, s.left.log);
    var p' := Receive(s.left, d.bytes);
    assert ReceiveSide(p', s.right.log);
    hide Inv, SendSide, ReceiveSide, Genuine, Proper, Front, IsPrefix;
    assert Genuine({}, p'.log, p'.expected);
    LeftMoves(s, p', {});
    assert s.ltr + AsSet([]) == s.ltr + {};
  }

  /** A data packet is accepted exactly when its absolute number is the expected one. */
  lemma ReceiveDataEffect(s: Link, d: Datagram)
    requires Inv(s) && d in s.rtl && d.Data? && InTime(s, d)
    ensures var p' := Receive(s.left, d.bytes);
            if d.abs == s.left.expected then
              && p' == s.left.(ep := Accept(s.left.ep, WireId(d.abs)), expected := d.abs + 1,
                               delivered := s.left.delivered + NonEmpties([s.right.log[d.abs]]))
              && ReceiveReply(s.left, d.bytes) == []
            else p' == s.left && ReceiveReply(s.left, d.bytes) == [Request(RetransmitRequest(s.left.ep))]
  {
    assert Proper(d, s.right.log, s.right.expected);
    WireIdInjective(d.abs, s.left.expected);
    hide DecodePacket, Deliverable, NonEmpties, WireId, Accept, RetransmitRequest;
  }

  lemma AcceptKeepsReceiveSide(p: Peer, log: seq<Bytes>)
    requires ReceiveSide(p, log) && p.expected < |log|
    ensures ReceiveSide(p.(ep := Accept(p.ep, WireId(p.expected)), expected := p.expected + 1,
                           delivered := p.delivered + NonEmpties([log[p.expected]])), log)
  {
    WireIdNext(p.expected);
    assert log[..p.expected + 1] == log[..p.expected] + [log[p.expected]];
    NonEmptiesAppend(log[..p.expected], [log[p.expected]]);
    hide NonEmpties, WireId;
  }

  lemma AckStateOutsideSendSide(p: Peer, ack: AckState, expected: nat, delivered: seq<Bytes>)
    requires SendSide(p)
    ensures var p' := p.(ep := p.ep.(ack := ack), expected := expected, delivered := delivered);
            SendSide(p') && Front(p') == Front(p)
  {
    hide WindowOf, Deliverable, NonEmpties, WireId;
  }

  lemma ReplyGenuine(p: Peer, bytes: Bytes, log: seq<Bytes>, expected: nat)
    ensures Genuine(AsSet(ReceiveReply(p, bytes)), log, expected)
  {
    RequestCarries(p.ep);
    assert Proper(Request(RetransmitRequest(p.ep)), log, expected);
    hide DecodePacket, RetransmitRequest, Proper;
  }

  lemma ReceiveDataKeeps(s: Link, d: Datagram)
    requires Inv(s) && d in s.rtl && d.Data? && InTime(s, d)
    ensures Inv(ActLeft(s, DeliverHere(d)))
  {
    hide Receive, ReceiveReply, DecodePacket, Deliverable, NonEmpties;
    var p' := Receive(s.left, d.bytes);
    ReceiveDataEffect(s, d);
    ReplyGenuine(s.left, d.bytes, p'.log, p'.expected);
    assert IsPrefix(s.left.log, s.left.log);
    assert Proper(d, s.right.log, s.right.expected);
    if d.abs == s.left.expected {
      AcceptKeepsReceiveSide(s.left, s.right.log);
      AckStateOutsideSendSide(s.left, p'.ep.ack, p'.expected, p'.delivered);
    }
    hide Inv, SendSide, ReceiveSide, Genuine, IsPrefix;
    LeftMoves(s, p', AsSet(ReceiveReply(s.left, d.bytes)));
  }

  lemma ReceiveRequestKeeps(s: Link, d: Datagram)
    requires Inv(s) && d in s.rtl && d.Request?
    ensures ActLeft(s, DeliverHere(d)) == s
  {
    hide DecodePacket, SendSide, ReceiveSide;
    assert Proper(d, s.right.log, s.right.expected);
    assert s.ltr + AsSet([]) == s.ltr;
  }

  lemma StepKeeps(s: Link, step: Step)
    requires Inv(s) && CanAct(s, step)
    ensures Inv(Act(s, step))
  {
    var t := if step.atLeft then s else Swap(s);
    InvSwap(s);
    match step.action {
      case QueuePayloads(payloads) => QueueKeeps(t, payloads);
      case SetOpen => SetOpenKeeps(t);
      case PollNow(now, clock) => PollKeeps(t, now, clock);
      case DeliverHere(d) =>
        match d
        case Data(_, _) => ReceiveDataKeeps(t, d);
        case Ack(_, _) => ReceiveAckKeeps(t, d);
        case Request(_) => ReceiveRequestKeeps(t, d);
    }
    InvSwap(ActLeft(t, step.action));
    hide Inv, ActLeft;
  }

  lemma {:induction false} RunKeeps(s: Link, steps: seq<Step>)
    requires Inv(s) && CanRun(s, steps)
    ensures Inv(Run(s, steps))
    decreases |steps|
  {
    if steps != [] {
      StepKeeps(s, steps[0]);
      RunKeeps(Act(s, steps[0]), steps[1..]);
    }
  }

  lemma DeliveredPrefix(snd: Peer, rcv: Peer)
    requires SendSide(snd) && ReceiveSide(rcv, snd.log)
    ensures IsPrefix(rcv.delivered, Deliverable(snd.queued))
    ensures rcv.expected == |snd.log| && snd.ep.outbound == [] ==> rcv.delivered == Deliverable(snd.queued)
  {
    var got, missing := snd.log[..rcv.expected], snd.log[rcv.expected..];
    assert snd.log == got + missing;
    NonEmptiesAppend(got, missing);
    Associative(NonEmpties(got), NonEmpties(missing), Deliverable(snd.ep.outbound));
    var rest := NonEmpties(missing) + Deliverable(snd.ep.outbound);
    assert Deliverable(snd.queued) == rcv.delivered + rest;
    SplitOfAppend(rcv.delivered, rest);
    if rcv.expected == |snd.log| && snd.ep.outbound == [] {
      assert missing == [] && rest == [];
      assert rcv.delivered + [] == rcv.delivered;
    }
    hide WindowOf, Deliverable, NonEmpties, WireId;
  }

  /** Exactly-once, in-order delivery, both ways at once: after any run from the handshake, what each
      peer has handed over is a prefix of what the other queued, and all of it once the sender has
      nothing left to send and nothing it sent is missing. */
  lemma ExactlyOnceInOrder(s: Link, steps: seq<Step>, leftStart: nat, rightStart: nat)
    requires Init(s, leftStart, rightStart) && CanRun(s, steps)
    ensures var t := Run(s, steps);
            && IsPrefix(t.right.delivered, Deliverable(t.left.queued))
            && IsPrefix(t.left.delivered, Deliverable(t.right.queued))
            && (t.left.ep.outbound == [] && t.right.expected == |t.left.log| ==>
                  t.right.delivered == Deliverable(t.left.queued))
  {
    InitInv(s, leftStart, rightStart);
    RunKeeps(s, steps);
    var t := Run(s, steps);
    DeliveredPrefix(t.left, t.right);
    DeliveredPrefix(t.right, t.left);
  }
}
