/** The wire format by its byte values: what the other modules say with encode and decode, said once more with
    the numbers that stand in a datagram. */
module Layout {
  import opened Wire
  import opened Packets
  import opened Commands
  import opened Reliable
  import opened Upstream

  function Bit(on: bool, value: int): int {
    if on then value else 0
  }

  /** The number that two bytes stand for, the high one first. */
  function Word(hi: int, lo: int): int {
    hi * 0x100 + lo
  }

  /** The flags are the five high bits of the first byte, the length the eleven bits below them, and five
      big-endian numbers follow. With `HeaderReencode` this is also how a header is read. */
  lemma HeaderLayout(h: PacketHeader)
    ensures var b := HeaderBytes(h);
            && b[0] == Bit(h.flags.ackReply, 0x80) + Bit(h.flags.retransmitRequest, 0x40)
                       + Bit(h.flags.isRetransmit, 0x20) + Bit(h.flags.handshake, 0x10)
                       + Bit(h.flags.ackRequest, 0x08) + h.length % 0x800 / 0x100
            && b[1] == h.length % 0x100
            && Word(b[2], b[3]) == h.sessionId && Word(b[4], b[5]) == h.ackId
            && Word(b[6], b[7]) == h.retransmitRequest && Word(b[8], b[9]) == h.unknown
            && Word(b[10], b[11]) == h.packetId
  {
    FirstWord(h.flags.Bits(), h.length % 0x800);
    assert h.length % 0x800 % 0x100 == h.length % 0x100;
    WordBytes(h.sessionId);
    WordBytes(h.ackId);
    WordBytes(h.retransmitRequest);
    WordBytes(h.unknown);
    WordBytes(h.packetId);
    hide Hi, Lo;
  }

  lemma FirstWord(bits: int, length: int)
    requires 0 <= bits < 32 && 0 <= length < 0x800
    ensures Hi(bits * 0x800 + length) == 8 * bits + length / 0x100
    ensures Lo(bits * 0x800 + length) == length % 0x100
  {
  }

  lemma WordBytes(x: u16)
    ensures Hi(x) * 0x100 + Lo(x) == x
  {
  }

  /** The length that a datagram declares, in the eleven bits below its flags. */
  function DeclaredLength(buf: Bytes): int
    requires |buf| >= 12
  {
    Word(buf[0], buf[1]) % 0x800
  }

  /** A datagram decodes if and only if it declares a length between 12 and its own; what it carries is the bytes from
      the 12th up to there, and any after that are ignored. */
  lemma DecodesIff(buf: Bytes)
    ensures |buf| < 12 ==> DecodePacket(buf) == Err(TooShort(|buf|))
    ensures |buf| >= 12 ==>
              var length := DeclaredLength(buf);
              if 12 <= length <= |buf| then DecodePacket(buf).Ok? && DecodePacket(buf).value.payload == buf[12..length]
              else DecodePacket(buf) == Err(LengthMismatch(length, |buf|))
  {
    if |buf| >= 12 {
      HeaderWords(buf);
      PartsAreShiftAndMask(FromBe16(buf[0], buf[1]));
      hide FlagsPart, LengthPart, Words;
    }
  }

  // ---------------------------------------------------------------- the datagrams an endpoint builds

  const ONLY_ACK_REQUEST := PacketFlags(true, false, false, false, false)
  const ONLY_HANDSHAKE := PacketFlags(false, true, false, false, false)
  const ONLY_RETRANSMIT_REQUEST := PacketFlags(false, false, false, true, false)
  const ONLY_ACK_REPLY := PacketFlags(false, false, false, false, true)

  /** A payload travels whole up to 2035 bytes; of a longer one the first 2035. */
  lemma ClippedAt2035(payload: Bytes)
    ensures Clip(payload) == if |payload| <= 2035 then payload else payload[..2035]
  {
  }

  /** A reliable packet: ACK_REQUEST alone, the session's id, the next packet id, no other number. */
  lemma DataDatagram(e: Endpoint, payload: Bytes)
    ensures DecodePacket(DataPacket(e, payload))
         == Ok(Packet(PacketHeader(ONLY_ACK_REQUEST, 12 + |Clip(payload)|, e.sessionId, 0, 0, 0, e.nextSendId),
                      Clip(payload)))
  {
    PacketRoundTrip(NewHeader(NO_FLAGS.(ackRequest := true), e.sessionId, (HEADER_LEN + |payload|) % 0x1_0000)
                    .(packetId := e.nextSendId), payload);
    hide DecodePacket, PacketBytes;
  }

  /** An acknowledgement names the last packet that was accepted. */
  lemma AckDatagram(e: Endpoint)
    requires e.ack.highestRecv.Some?
    ensures DecodePacket(AckPacket(e))
         == Ok(Packet(PacketHeader(ONLY_ACK_REPLY, 12, e.sessionId, e.ack.highestRecv.value, 0, 0, 0), []))
  {
    PacketRoundTrip(NewHeader(NO_FLAGS.(ackReply := true), e.sessionId, HEADER_LEN)
                    .(ackId := e.ack.highestRecv.value), []);
    hide DecodePacket, PacketBytes;
  }

  /** A retransmit request names the packet that is expected. */
  lemma RequestDatagram(e: Endpoint)
    ensures DecodePacket(RetransmitRequest(e))
         == Ok(Packet(PacketHeader(ONLY_RETRANSMIT_REQUEST, 12, e.sessionId, 0, e.ack.expectedRecv, 0, 0), []))
  {
    PacketRoundTrip(NewHeader(NO_FLAGS.(retransmitRequest := true), e.sessionId, HEADER_LEN)
                    .(retransmitRequest := e.ack.expectedRecv), []);
    hide DecodePacket, PacketBytes;
  }

  /** The acknowledgement of the init dump: the last packet accepted, or 0, and 0x61 in the unnamed field. */
  lemma InitCompleteDatagram(e: Endpoint)
    ensures var ackId := match e.ack.highestRecv { case None => 0 case Some(id) => id };
            DecodePacket(InitCompleteAck(e))
            == Ok(Packet(PacketHeader(ONLY_ACK_REPLY, 12, e.sessionId, ackId, 0, 0x61, 0), []))
  {
    var ackId := if e.ack.highestRecv.Some? then e.ack.highestRecv.value else 0;
    PacketRoundTrip(NewHeader(NO_FLAGS.(ackReply := true), e.sessionId, HEADER_LEN)
                    .(ackId := ackId, unknown := INIT_ACK_REMOTE_SEQ), []);
    hide DecodePacket, PacketBytes;
  }

  // ---------------------------------------------------------------- the commands the proxy builds

  /** A command on the wire: its length, two zero bytes, its name, its body. */
  lemma CommandLayout(name: CommandName, body: Bytes)
    requires 8 + |body| < 0x1_0000
    ensures var b := Serialize(name, body);
            && |b| == 8 + |body| && Word(b[0], b[1]) == 8 + |body| && b[2] == 0 && b[3] == 0
            && b[4] == name.b0 && b[5] == name.b1 && b[6] == name.b2 && b[7] == name.b3 && b[8..] == body
  {
    assert (8 + |body|) % 0x1_0000 == 8 + |body|;
    FramedLayout(8 + |body|, name, body);
    assert Serialize(name, body) == CommandBytes(8 + |body|, name, body);
    hide CommandBytes, Serialize, Word;
  }

  /** The pieces of a command, with any length in front. */
  function CommandBytes(length: u16, name: CommandName, body: Bytes): Bytes {
    Be16(length) + [0, 0] + [name.b0, name.b1, name.b2, name.b3] + body
  }

  lemma FramedLayout(length: u16, name: CommandName, body: Bytes)
    ensures var b := CommandBytes(length, name, body);
            && |b| == 8 + |body| && Word(b[0], b[1]) == length && b[2] == 0 && b[3] == 0
            && b[4] == name.b0 && b[5] == name.b1 && b[6] == name.b2 && b[7] == name.b3 && b[8..] == body
  {
    WordBytes(length);
    hide Hi, Lo;
    SplitOfAppend(Be16(length) + [0, 0] + [name.b0, name.b1, name.b2, name.b3], body);
  }

  /** The `InCm` that ends a dump, byte by byte. */
  lemma SyntheticIncmBytes()
    ensures SYNTHETIC_INCM == [0, 12, 0, 0, 0x49, 0x6E, 0x43, 0x6D, 1, 0, 0, 0]
  {
  }

  /** The unlock of a store, byte by byte. */
  lemma UnlockBytes(store: u16)
    ensures SynthesizeUnlock(store)
         == [0, 12, 0, 0, 0x4C, 0x4F, 0x43, 0x4B, store / 0x100, store % 0x100, 0, 0]
  {
  }

  /** The version is two big-endian numbers at the start of the body. */
  lemma VersionLayout(major: u16, minor: u16, rest: Bytes)
    ensures ParseVersion(Be16(major) + Be16(minor) + rest) == Some((major, minor))
  {
    var body := Be16(major) + Be16(minor) + rest;
    Be16RoundTrip(major);
    Be16RoundTrip(minor);
    hide Hi, Lo, FromBe16;
    assert body[0] == Hi(major) && body[1] == Lo(major) && body[2] == Hi(minor) && body[3] == Lo(minor);
  }
}
