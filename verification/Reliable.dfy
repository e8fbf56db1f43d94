/** One side of the reliable transport (atem-protocol/src/reliable.rs). The class works in place, as
    the source does; each method is specified by a function on `Endpoint` values, and the other
    modules prove what the protocol promises about those functions. Time is a natural number. */
module Reliable {
  import opened Wire
  import opened Packets

  const MAX_PACKET_ID := 0x8000
  const ACK_WINDOW := 256

  datatype ReliableConfig = ReliableConfig(
    maxInFlight: nat, retransmitAfter: nat, ackCoalesceCount: u16, ackCoalesceAfter: nat, pingInterval: nat)

  /** The id after this one, with the wrap written out for every u16. */
  function NextPacketId(current: u16): u16 {
    if current < MAX_PACKET_ID - 1 then current + 1
    else if current < 2 * MAX_PACKET_ID - 1 then current + 1 - MAX_PACKET_ID
    else 0
  }

  /** It is the successor modulo 2^15. */
  lemma NextPacketIdWraps(current: u16)
    ensures NextPacketId(current) == (current + 1) % MAX_PACKET_ID == (current + 1) % 0x8000
  {
  }

  /** How far the acked id is ahead of the packet's, modulo 2^15 and truncating toward zero as `%` on `i32`
      does, written out for every pair of u16s. */
  function AckDistance(ackId: u16, packetId: u16): int {
    var x := ackId - packetId + MAX_PACKET_ID;
    if x >= 2 * MAX_PACKET_ID then x - 2 * MAX_PACKET_ID
    else if x >= MAX_PACKET_ID then x - MAX_PACKET_ID
    else x
  }

  function TruncRem(x: int, m: int): int
    requires m > 0
  {
    if x >= 0 then x % m else -(-x % m)
  }

  lemma AckDistanceIsRemainder(ackId: u16, packetId: u16)
    ensures AckDistance(ackId, packetId) == TruncRem(ackId - packetId + MAX_PACKET_ID, MAX_PACKET_ID)
  {
  }

  predicate IsAckCovering(ackId: u16, packetId: u16) {
    ackId == packetId || AckDistance(ackId, packetId) < ACK_WINDOW
  }

  /** Between ids of the 15-bit space, an acknowledgement covers its own id and the 255 before it, across the wrap. */
  lemma CoversBackwards(ackId: u16, packetId: u16)
    requires ackId < 0x8000 && packetId < 0x8000
    ensures IsAckCovering(ackId, packetId) <==> (ackId - packetId) % 0x8000 <= 255
  {
  }

  datatype InFlightEntry = InFlightEntry(packetId: u16, bytes: Bytes, sentAt: nat)

  datatype AckState = AckState(
    highestRecv: Option<u16>, expectedRecv: u16, lastAckSentAt: Option<nat>, packetsSinceAck: u16)

  datatype Endpoint = Endpoint(
    sessionId: u16, nextSendId: u16, config: ReliableConfig, inFlight: seq<InFlightEntry>, outbound: seq<Bytes>,
    ack: AckState, lastPingAt: nat, isOpen: bool)

  /** `now.duration_since(since)`, which is zero when `since` is later. */
  function Elapsed(now: nat, since: nat): nat {
    if now >= since then now - since else 0
  }

  // ---------------------------------------------------------------- packing

  /** What `queue_commands_packed` appends to the outbound queue, `current` being the packet it has
      started. */
  function PackFrom(current: Bytes, commands: seq<Bytes>): seq<Bytes>
    decreases |commands|
  {
    if commands == [] then
      if current == [] then [] else [current]
    else
      var cmd := commands[0];
      var flush := HEADER_LEN + |current| + |cmd| > MAX_PACKET_LEN && current != [];
      var flushed := if flush then [current] else [];
      var kept := if flush then [] else current;
      if HEADER_LEN + |cmd| > MAX_PACKET_LEN then flushed + [cmd] + PackFrom(kept, commands[1..])
      else flushed + PackFrom(kept + cmd, commands[1..])
  }

  function Pack(commands: seq<Bytes>): seq<Bytes> {
    PackFrom([], commands)
  }

  // ---------------------------------------------------------------- acknowledgements

  /** The window after the covered entries at its front are popped. */
  function DropCovered(window: seq<InFlightEntry>, ackId: u16): seq<InFlightEntry> {
    if window != [] && IsAckCovering(ackId, window[0].packetId) then DropCovered(window[1..], ackId) else window
  }

  function OnAck(e: Endpoint, ackId: u16): Endpoint {
    e.(inFlight := DropCovered(e.inFlight, ackId))
  }

  predicate Accepts(e: Endpoint, packetId: u16) {
    packetId == e.ack.expectedRecv
  }

  function Accept(e: Endpoint, packetId: u16): Endpoint {
    if Accepts(e, packetId) then
      e.(ack := e.ack.(expectedRecv := NextPacketId(packetId),
                       highestRecv := Some(packetId),
                       packetsSinceAck := Min(e.ack.packetsSinceAck + 1, 0xFFFF)))
    else e
  }

  predicate AckDue(e: Endpoint, clock: nat) {
    && e.ack.highestRecv.Some?
    && (|| e.ack.packetsSinceAck >= e.config.ackCoalesceCount
        || (&& e.ack.packetsSinceAck > 0
            && (e.ack.lastAckSentAt.Some? ==>
                  Elapsed(clock, e.ack.lastAckSentAt.value) >= e.config.ackCoalesceAfter)))
  }

  function AckPacket(e: Endpoint): Bytes
    requires e.ack.highestRecv.Some?
  {
    PacketBytes(NewHeader(NO_FLAGS.(ackReply := true), e.sessionId, HEADER_LEN).(ackId := e.ack.highestRecv.value), [])
  }

  function AckSent(e: Endpoint, clock: nat): Endpoint {
    e.(ack := e.ack.(packetsSinceAck := 0, lastAckSentAt := Some(clock)))
  }

  function RetransmitRequest(e: Endpoint): Bytes {
    PacketBytes(NewHeader(NO_FLAGS.(retransmitRequest := true), e.sessionId, HEADER_LEN)
                .(retransmitRequest := e.ack.expectedRecv), [])
  }

  // ---------------------------------------------------------------- polling

  predicate WindowStale(e: Endpoint, now: nat) {
    e.inFlight != [] && Elapsed(now, e.inFlight[0].sentAt) >= e.config.retransmitAfter
  }

  function Resent(window: seq<InFlightEntry>, now: nat): (r: seq<InFlightEntry>)
    ensures |r| == |window|
  {
    seq(|window|, i requires 0 <= i < |window| => window[i].(sentAt := now))
  }

  function ResentBytes(window: seq<InFlightEntry>): (r: seq<Bytes>)
    ensures |r| == |window|
  {
    seq(|window|, i requires 0 <= i < |window| => MarkRetransmit(window[i].bytes))
  }

  function Resend(e: Endpoint, now: nat): Endpoint {
    if WindowStale(e, now) then e.(inFlight := Resent(e.inFlight, now)) else e
  }

  function ResendOut(e: Endpoint, now: nat): seq<Bytes> {
    if WindowStale(e, now) then ResentBytes(e.inFlight) else []
  }

  function DataPacket(e: Endpoint, payload: Bytes): Bytes {
    PacketBytes(NewHeader(NO_FLAGS.(ackRequest := true), e.sessionId, (HEADER_LEN + |payload|) % 0x1_0000)
                .(packetId := e.nextSendId), payload)
  }

  /** A new reliable packet takes the next id and joins the back of the window. */
  function Transmit(e: Endpoint, payload: Bytes, now: nat): Endpoint {
    e.(nextSendId := NextPacketId(e.nextSendId),
       inFlight := e.inFlight + [InFlightEntry(e.nextSendId, DataPacket(e, payload), now)])
  }

  predicate CanFill(e: Endpoint) {
    |e.inFlight| < e.config.maxInFlight && e.outbound != []
  }

  function TransmitNext(e: Endpoint, now: nat): Endpoint
    requires e.outbound != []
  {
    Transmit(e.(outbound := e.outbound[1..]), e.outbound[0], now)
  }

  function Fill(e: Endpoint, now: nat): Endpoint
    decreases |e.outbound|
  {
    if CanFill(e) then Fill(TransmitNext(e, now), now) else e
  }

  function FillOut(e: Endpoint, now: nat): seq<Bytes>
    decreases |e.outbound|
  {
    if CanFill(e) then [DataPacket(e, e.outbound[0])] + FillOut(TransmitNext(e, now), now) else []
  }

  function SendAck(e: Endpoint, clock: nat): Endpoint {
    if AckDue(e, clock) then AckSent(e, clock) else e
  }

  function SendAckOut(e: Endpoint, clock: nat): seq<Bytes> {
    if AckDue(e, clock) then [AckPacket(e)] else []
  }

  predicate PingDue(e: Endpoint, now: nat) {
    e.isOpen && e.inFlight == [] && e.outbound == [] && Elapsed(now, e.lastPingAt) >= e.config.pingInterval
  }

  function Ping(e: Endpoint, now: nat): Endpoint {
    if PingDue(e, now) then Transmit(e, [], now).(lastPingAt := now) else e
  }

  function PingOut(e: Endpoint, now: nat): seq<Bytes> {
    if PingDue(e, now) then [DataPacket(e, [])] else []
  }

  /** One poll: resend a stale window, fill the window, acknowledge, keep alive. `now` is the caller's
      time and `clock` the time that the acknowledgement code reads for itself. */
  function Poll(e: Endpoint, now: nat, clock: nat): Endpoint {
    Ping(SendAck(Fill(Resend(e, now), now), clock), now)
  }

  function PollOut(e: Endpoint, now: nat, clock: nat): seq<Bytes> {
    var e1 := Resend(e, now);
    var e2 := Fill(e1, now);
    var e3 := SendAck(e2, clock);
    ResendOut(e, now) + FillOut(e1, now) + SendAckOut(e2, clock) + PingOut(e3, now)
  }

  // ---------------------------------------------------------------- the endpoint object

  class ReliableEndpoint {
    var sessionId: u16
    var nextSendId: u16
    var config: ReliableConfig
    var inFlight: seq<InFlightEntry>
    var outbound: seq<Bytes>
    var ack: AckState
    var lastRecvAt: nat
    var lastPingAt: nat
    var isOpen: bool

    ghost function State(): Endpoint
      reads this
    {
      Endpoint(sessionId, nextSendId, config, inFlight, outbound, ack, lastPingAt, isOpen)
    }

    constructor (sessionId: u16, config: ReliableConfig, now: nat)
      ensures State() == Endpoint(sessionId, 0, config, [], [], AckState(None, 0, None, 0), now, false)
      ensures lastRecvAt == now
    {
      this.sessionId, this.nextSendId, this.config := sessionId, 0, config;
      inFlight, outbound := [], [];
      ack := AckState(None, 0, None, 0);
      lastRecvAt, lastPingAt, isOpen := now, now, false;
    }

    method QueuePayload(payload: Bytes)
      modifies `outbound
      ensures State() == old(State()).(outbound := old(outbound) + [payload])
    {
      outbound := outbound + [payload];
    }

    method QueueCommandsPacked(commands: seq<Bytes>)
      modifies `outbound
      ensures State() == old(State()).(outbound := old(outbound) + Pack(commands))
    {
      var current: Bytes := [];
      assert commands[0..] == commands;
      for k := 0 to |commands|
        invariant outbound + PackFrom(current, commands[k..]) == old(outbound) + Pack(commands)
      {
        var cmd := commands[k];
        assert commands[k..][0] == cmd && commands[k..][1..] == commands[k + 1..];
        if HEADER_LEN + |current| + |cmd| > MAX_PACKET_LEN && current != [] {
          outbound := outbound + [current];
          current := [];
        }
        if HEADER_LEN + |cmd| > MAX_PACKET_LEN {
          outbound := outbound + [cmd];
        } else {
          current := current + cmd;
        }
      }
      if current != [] {
        outbound := outbound + [current];
      }
    }

    method OnAckId(ackId: u16)
      modifies `inFlight
      ensures State() == OnAck(old(State()), ackId)
    {
      while inFlight != [] && IsAckCovering(ackId, inFlight[0].packetId)
        invariant DropCovered(inFlight, ackId) == DropCovered(old(inFlight), ackId)
        decreases |inFlight|
      {
        inFlight := inFlight[1..];
      }
    }

    method AcceptReliable(packetId: u16, isRetransmit: bool) returns (accepted: bool)
      modifies `ack
      ensures accepted == Accepts(old(State()), packetId)
      ensures State() == Accept(old(State()), packetId)
    {
      if packetId == ack.expectedRecv {
        ack := ack.(expectedRecv := NextPacketId(ack.expectedRecv));
        ack := ack.(highestRecv := Some(packetId));
        ack := ack.(packetsSinceAck := Min(ack.packetsSinceAck + 1, 0xFFFF));
        return true;
      } else if isRetransmit && IsAckCovering((ack.expectedRecv + 0xFFFF) % 0x1_0000 % MAX_PACKET_ID, packetId) {
        return false;
      } else {
        return false;
      }
    }

    method ShouldSendAck(clock: nat) returns (due: bool)
      ensures due == AckDue(State(), clock)
    {
      if ack.highestRecv.None? {
        return false;
      }
      if ack.packetsSinceAck >= config.ackCoalesceCount {
        return true;
      }
      match ack.lastAckSentAt
      case None => return ack.packetsSinceAck > 0;
      case Some(t) => return ack.packetsSinceAck > 0 && Elapsed(clock, t) >= config.ackCoalesceAfter;
    }

    method BuildAckPacket(clock: nat) returns (packet: Option<Bytes>)
      modifies `ack
      ensures old(ack).highestRecv.None? ==> packet == None && ack == old(ack)
      ensures old(ack).highestRecv.Some? ==>
                packet == Some(AckPacket(old(State()))) && State() == AckSent(old(State()), clock)
    {
      if ack.highestRecv.None? {
        return None;
      }
      var header := NewHeader(NO_FLAGS.(ackReply := true), sessionId, HEADER_LEN);
      header := header.(ackId := ack.highestRecv.value);
      ack := ack.(packetsSinceAck := 0);
      ack := ack.(lastAckSentAt := Some(clock));
      var bytes := EncodePacket(header, []);
      return Some(bytes);
    }

    method BuildRetransmitRequest() returns (bytes: Bytes)
      ensures bytes == RetransmitRequest(State())
    {
      var header := NewHeader(NO_FLAGS.(retransmitRequest := true), sessionId, HEADER_LEN);
      header := header.(retransmitRequest := ack.expectedRecv);
      bytes := EncodePacket(header, []);
    }

    /** The retransmission part of a poll: every entry of a stale window, in place. */
    method ResendWindow(now: nat) returns (out: seq<Bytes>)
      modifies `inFlight
      ensures State() == Resend(old(State()), now)
      ensures out == ResendOut(old(State()), now)
    {
      out := [];
      if inFlight != [] && Elapsed(now, inFlight[0].sentAt) >= config.retransmitAfter {
        for k := 0 to |inFlight|
          invariant |inFlight| == |old(inFlight)| && |out| == k
          invariant forall i :: 0 <= i < k ==>
                      inFlight[i] == Resent(old(inFlight), now)[i] && out[i] == ResentBytes(old(inFlight))[i]
          invariant forall i :: k <= i < |inFlight| ==> inFlight[i] == old(inFlight)[i]
        {
          var bytes := MarkRetransmit(inFlight[k].bytes);
          inFlight := inFlight[k := inFlight[k].(sentAt := now)];
          out := out + [bytes];
        }
        assert inFlight == Resent(old(inFlight), now);
        assert out == ResentBytes(old(inFlight));
      }
    }

    /** Takes the next id for `payload` and puts the packet in the window. */
    method Launch(payload: Bytes, now: nat) returns (bytes: Bytes)
      modifies `nextSendId, `inFlight
      ensures State() == Transmit(old(State()), payload, now)
      ensures bytes == DataPacket(old(State()), payload)
    {
      var packetId := nextSendId;
      nextSendId := NextPacketId(nextSendId);
      var header := NewHeader(NO_FLAGS.(ackRequest := true), sessionId, (HEADER_LEN + |payload|) % 0x1_0000);
      header := header.(packetId := packetId);
      bytes := EncodePacket(header, payload);
      inFlight := inFlight + [InFlightEntry(packetId, bytes, now)];
    }

    /** The new-packets part of a poll: the outbound queue moves into the free places of the window. */
    method FillWindow(now: nat) returns (out: seq<Bytes>)
      modifies `inFlight, `outbound, `nextSendId
      ensures State() == Fill(old(State()), now)
      ensures out == FillOut(old(State()), now)
    {
      out := [];
      ghost var e := State();
      while |inFlight| < config.maxInFlight && outbound != []
        invariant Fill(State(), now) == Fill(e, now)
        invariant out + FillOut(State(), now) == FillOut(e, now)
        decreases |outbound|
      {
        ghost var before := State();
        var payload := outbound[0];
        outbound := outbound[1..];
        var bytes := Launch(payload, now);
        assert State() == TransmitNext(before, now);
        assert out + ([bytes] + FillOut(State(), now)) == (out + [bytes]) + FillOut(State(), now);
        out := out + [bytes];
      }
    }

    /** The acknowledgement part of a poll. */
    method AckIfDue(clock: nat) returns (out: seq<Bytes>)
      modifies `ack
      ensures State() == SendAck(old(State()), clock)
      ensures out == SendAckOut(old(State()), clock)
    {
      out := [];
      var due := ShouldSendAck(clock);
      if due {
        var packet := BuildAckPacket(clock);
        out := [packet.value];
      }
    }

    method PollOutbound(now: nat, clock: nat) returns (out: seq<Bytes>)
      modifies `inFlight, `outbound, `nextSendId, `ack, `lastPingAt
      ensures State() == Poll(old(State()), now, clock)
      ensures out == PollOut(old(State()), now, clock)
    {
      out := ResendWindow(now);
      var filled := FillWindow(now);
      out := out + filled;
      var acks := AckIfDue(clock);
      out := out + acks;
      if isOpen && inFlight == [] && outbound == [] && Elapsed(now, lastPingAt) >= config.pingInterval {
        var bytes := Launch([], now);
        lastPingAt := now;
        out := out + [bytes];
      }
    }
  }
}
