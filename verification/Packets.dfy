/** The 12-byte header and the datagram codec (atem-protocol/src/packet.rs). */
module Packets {
  import opened Wire

  const HEADER_LEN := 12
  const MAX_PACKET_LEN := 1400
  /** Largest value of the 11-bit length field. */
  const MAX_LENGTH := 0x07FF
  /** Largest payload that `PacketBytes` carries without cutting it. */
  const MAX_PAYLOAD := MAX_LENGTH - HEADER_LEN

  /** The five flag bits, lowest first: 1, 2, 4, 8, 16. */
  datatype PacketFlags = PacketFlags(
    ackRequest: bool, handshake: bool, isRetransmit: bool, retransmitRequest: bool, ackReply: bool)
  {
    function Bits(): (b: int)
      ensures 0 <= b < 32
    {
      (if ackRequest then 1 else 0) + (if handshake then 2 else 0) + (if isRetransmit then 4 else 0)
      + (if retransmitRequest then 8 else 0) + (if ackReply then 16 else 0)
    }
  }

  const NO_FLAGS := PacketFlags(false, false, false, false, false)

  /** What is left of a number below `2 * mask` when the bit `mask` is cleared. */
  function Below(x: int, mask: int): int {
    if x >= mask then x - mask else x
  }

  /** The five bits at the top of the first header word, the highest first. */
  const FLAG_MASKS: seq<int> := [0x8000, 0x4000, 0x2000, 0x1000, 0x800]

  function TestBits(word: int, masks: seq<int>): (bits: seq<bool>)
    ensures |bits| == |masks|
    decreases |masks|
  {
    if masks == [] then [] else [word >= masks[0]] + TestBits(Below(word, masks[0]), masks[1..])
  }

  function ClearBits(word: int, masks: seq<int>): int
    decreases |masks|
  {
    if masks == [] then word else ClearBits(Below(word, masks[0]), masks[1..])
  }

  /** Both loops, one mask after the other. */
  lemma BitByBit(word: int)
    ensures var low4 := Below(word, 0x8000); var low3 := Below(low4, 0x4000);
            var low2 := Below(low3, 0x2000); var low1 := Below(low2, 0x1000);
            && TestBits(word, FLAG_MASKS)
               == [word >= 0x8000, low4 >= 0x4000, low3 >= 0x2000, low2 >= 0x1000, low1 >= 0x800]
            && ClearBits(word, FLAG_MASKS) == Below(low1, 0x800)
  {
    hide Below, TestBits, ClearBits;
    var low4 := Below(word, 0x8000);
    var low3 := Below(low4, 0x4000);
    var low2 := Below(low3, 0x2000);
    var low1 := Below(low2, 0x1000);
    TestNone(Below(low1, 0x800));
    assert [0x800] + [] == [0x800];
    assert [0x1000] + [0x800] == [0x1000, 0x800];
    assert [0x2000] + [0x1000, 0x800] == [0x2000, 0x1000, 0x800];
    assert [0x4000] + [0x2000, 0x1000, 0x800] == [0x4000, 0x2000, 0x1000, 0x800];
    assert [0x8000] + [0x4000, 0x2000, 0x1000, 0x800] == FLAG_MASKS;
    TestOneMore(low1, 0x800, []);
    TestOneMore(low2, 0x1000, [0x800]);
    TestOneMore(low3, 0x2000, [0x1000, 0x800]);
    TestOneMore(low4, 0x4000, [0x2000, 0x1000, 0x800]);
    TestOneMore(word, 0x8000, [0x4000, 0x2000, 0x1000, 0x800]);
  }

  lemma TestNone(word: int)
    ensures TestBits(word, []) == [] && ClearBits(word, []) == word
  {
  }

  lemma TestOneMore(word: int, mask: int, masks: seq<int>)
    ensures TestBits(word, [mask] + masks) == [word >= mask] + TestBits(Below(word, mask), masks)
    ensures ClearBits(word, [mask] + masks) == ClearBits(Below(word, mask), masks)
  {
    assert ([mask] + masks)[1..] == masks;
  }

  function FlagsPart(word: u16): PacketFlags {
    var bits := TestBits(word, FLAG_MASKS);
    PacketFlags(bits[4], bits[3], bits[2], bits[1], bits[0])
  }

  /** The eleven bits below the flags. */
  function LengthPart(word: u16): (n: int)
    ensures 0 <= n <= MAX_LENGTH
  {
    BitByBit(word);
    ClearBits(word, FLAG_MASKS)
  }

  /** The two parts are the word shifted right by 11 and the word masked with 0x7FF. */
  lemma PartsAreShiftAndMask(word: u16)
    ensures FlagsPart(word).Bits() == word / 0x800 && LengthPart(word) == word % 0x800
  {
    BitByBit(word);
    hide TestBits, ClearBits;
  }

  lemma PartsOf(flags: PacketFlags, length: int)
    requires 0 <= length < 0x800
    ensures 0 <= flags.Bits() * 0x800 + length < 0x1_0000
    ensures FlagsPart(flags.Bits() * 0x800 + length) == flags && LengthPart(flags.Bits() * 0x800 + length) == length
  {
    BitByBit(flags.Bits() * 0x800 + length);
    hide TestBits, ClearBits;
  }

  datatype PacketHeader = PacketHeader(
    flags: PacketFlags, length: u16, sessionId: u16, ackId: u16, retransmitRequest: u16, unknown: u16, packetId: u16)

  function NewHeader(flags: PacketFlags, sessionId: u16, length: u16): PacketHeader {
    PacketHeader(flags, length, sessionId, 0, 0, 0, 0)
  }

  function FlagsLength(h: PacketHeader): u16 {
    h.flags.Bits() * 0x800 + h.length % 0x800
  }

  function HeaderBytes(h: PacketHeader): (b: Bytes)
    ensures |b| == HEADER_LEN
  {
    [Hi(FlagsLength(h)), Lo(FlagsLength(h)), Hi(h.sessionId), Lo(h.sessionId), Hi(h.ackId), Lo(h.ackId),
     Hi(h.retransmitRequest), Lo(h.retransmitRequest), Hi(h.unknown), Lo(h.unknown), Hi(h.packetId), Lo(h.packetId)]
  }

  /** The first `n` big-endian words of a buffer. */
  function Words(buf: Bytes, n: nat): (words: seq<u16>)
    requires |buf| >= 2 * n
    ensures |words| == n
  {
    if n == 0 then [] else [FromBe16(buf[0], buf[1])] + Words(buf[2..], n - 1)
  }

  lemma {:induction false} WordAt(buf: Bytes, n: nat, i: nat)
    requires |buf| >= 2 * n && i < n
    ensures Words(buf, n)[i] == FromBe16(buf[2 * i], buf[2 * i + 1])
  {
    if i > 0 {
      WordAt(buf[2..], n - 1, i - 1);
    }
  }

  function DecodeHeader(buf: Bytes): Result<PacketHeader> {
    if |buf| < HEADER_LEN then Err(TooShort(|buf|))
    else
      var words := Words(buf, 6);
      Ok(PacketHeader(FlagsPart(words[0]), LengthPart(words[0]), words[1], words[2], words[3], words[4], words[5]))
  }

  lemma HeaderWords(buf: Bytes)
    requires |buf| >= HEADER_LEN
    ensures Words(buf, 6) == [FromBe16(buf[0], buf[1]), FromBe16(buf[2], buf[3]), FromBe16(buf[4], buf[5]),
                              FromBe16(buf[6], buf[7]), FromBe16(buf[8], buf[9]), FromBe16(buf[10], buf[11])]
  {
    hide FromBe16, Words;
    WordAt(buf, 6, 0);
    WordAt(buf, 6, 1);
    WordAt(buf, 6, 2);
    WordAt(buf, 6, 3);
    WordAt(buf, 6, 4);
    WordAt(buf, 6, 5);
  }

  /** A decoded datagram: the header and the payload slice. */
  datatype Packet = Packet(header: PacketHeader, payload: Bytes)

  function DecodePacket(buf: Bytes): (r: Result<Packet>)
    ensures r.Ok? ==> |r.value.payload| <= MAX_PAYLOAD && HEADER_LEN + |r.value.payload| <= |buf|
  {
    match DecodeHeader(buf)
    case Err(e) => Err(e)
    case Ok(header) =>
      if header.length < HEADER_LEN then Err(LengthMismatch(header.length, |buf|))
      else if |buf| < header.length then Err(LengthMismatch(header.length, |buf|))
      else Ok(Packet(header, buf[HEADER_LEN..header.length]))
  }

  /** What the 11-bit length field leaves of a payload. */
  function Clip(payload: Bytes): (c: Bytes)
    ensures |c| <= MAX_PAYLOAD && (c == payload <==> |payload| <= MAX_PAYLOAD)
    ensures c == [] <==> payload == []
  {
    payload[..Min(|payload|, MAX_PAYLOAD)]
  }

  function PacketBytes(h: PacketHeader, payload: Bytes): Bytes {
    HeaderBytes(h.(length := HEADER_LEN + |Clip(payload)|)) + Clip(payload)
  }

  method Encode(h: PacketHeader, out: array<byte>)
    requires out.Length == HEADER_LEN
    modifies out
    ensures out[..] == HeaderBytes(h)
  {
    var flagsLength := FlagsLength(h);
    out[0], out[1] := Hi(flagsLength), Lo(flagsLength);
    out[2], out[3] := Hi(h.sessionId), Lo(h.sessionId);
    out[4], out[5] := Hi(h.ackId), Lo(h.ackId);
    out[6], out[7] := Hi(h.retransmitRequest), Lo(h.retransmitRequest);
    out[8], out[9] := Hi(h.unknown), Lo(h.unknown);
    out[10], out[11] := Hi(h.packetId), Lo(h.packetId);
  }

  method EncodePacket(header: PacketHeader, payload: Bytes) returns (bytes: Bytes)
    ensures bytes == PacketBytes(header, payload)
  {
    var total := Min(HEADER_LEN + |payload|, MAX_LENGTH);
    var h := header.(length := total);
    var kept := payload[..total - HEADER_LEN];
    var hdr := new byte[HEADER_LEN];
    Encode(h, hdr);
    var out := new byte[total];
    forall i | 0 <= i < HEADER_LEN {
      out[i] := hdr[i];
    }
    forall i | 0 <= i < |kept| {
      out[HEADER_LEN + i] := kept[i];
    }
    bytes := out[..];
    assert bytes[..HEADER_LEN] == hdr[..];
    assert bytes[HEADER_LEN..] == kept;
    assert bytes == bytes[..HEADER_LEN] + bytes[HEADER_LEN..];
  }

  lemma FlagsLengthParts(h: PacketHeader)
    requires h.length < 0x800
    ensures FlagsPart(FlagsLength(h)) == h.flags && LengthPart(FlagsLength(h)) == h.length
  {
    hide FlagsPart, LengthPart, PacketFlags.Bits;
    PartsOf(h.flags, h.length);
  }

  /** Decoding an encoded header (and anything after it) gives it back. */
  lemma HeaderRoundTrip(h: PacketHeader, rest: Bytes)
    requires h.length < 0x800
    ensures DecodeHeader(HeaderBytes(h) + rest) == Ok(h)
  {
    hide Hi, Lo, FromBe16, FlagsLength, FlagsPart, LengthPart, PacketFlags.Bits, Words;
    HeaderWords(HeaderBytes(h) + rest);
    Be16RoundTrip(FlagsLength(h));
    Be16RoundTrip(h.sessionId);
    Be16RoundTrip(h.ackId);
    Be16RoundTrip(h.retransmitRequest);
    Be16RoundTrip(h.unknown);
    Be16RoundTrip(h.packetId);
    FlagsLengthParts(h);
    var b := HeaderBytes(h) + rest;
    assert b[..HEADER_LEN] == HeaderBytes(h);
    assert forall i :: 0 <= i < HEADER_LEN ==> b[i] == HeaderBytes(h)[i];
  }

  /** Encoding a decoded header restores the same 12 bytes, so the header codec is a bijection. */
  lemma HeaderReencode(buf: Bytes)
    requires |buf| >= HEADER_LEN
    ensures HeaderBytes(DecodeHeader(buf).value) == buf[..HEADER_LEN]
  {
    hide Hi, Lo, FromBe16, FlagsPart, LengthPart, PacketFlags.Bits, Words;
    HeaderWords(buf);
    PartsAreShiftAndMask(FromBe16(buf[0], buf[1]));
    assert FlagsLength(DecodeHeader(buf).value) == FromBe16(buf[0], buf[1]);
    FromBe16RoundTrip(buf[0], buf[1]);
    FromBe16RoundTrip(buf[2], buf[3]);
    FromBe16RoundTrip(buf[4], buf[5]);
    FromBe16RoundTrip(buf[6], buf[7]);
    FromBe16RoundTrip(buf[8], buf[9]);
    FromBe16RoundTrip(buf[10], buf[11]);
  }

  lemma PacketDecodes(header: PacketHeader, payload: Bytes)
    requires header.length == HEADER_LEN + |payload| < 0x800
    ensures DecodePacket(HeaderBytes(header) + payload) == Ok(Packet(header, payload))
  {
    HeaderRoundTrip(header, payload);
    hide DecodeHeader, HeaderBytes;
    SplitOfAppend(HeaderBytes(header), payload);
    var bytes := HeaderBytes(header) + payload;
    assert bytes[HEADER_LEN..header.length] == bytes[HEADER_LEN..];
  }

  /** A datagram decodes to the header it was built from and to the clipped payload: to the payload
      itself exactly when that is at most `MAX_PAYLOAD` bytes. */
  lemma PacketRoundTrip(h: PacketHeader, payload: Bytes)
    ensures DecodePacket(PacketBytes(h, payload))
         == Ok(Packet(h.(length := HEADER_LEN + |Clip(payload)|), Clip(payload)))
    ensures DecodePacket(PacketBytes(h, payload)).value.payload == payload <==> |payload| <= MAX_PAYLOAD
  {
    PacketDecodes(h.(length := HEADER_LEN + |Clip(payload)|), Clip(payload));
    hide DecodePacket, HeaderBytes, Clip;
  }

  /** A header word with the `IS_RETRANSMIT` flag set. */
  function WithRetransmit(word: u16): u16 {
    FlagsPart(word).(isRetransmit := true).Bits() * 0x800 + LengthPart(word)
  }

  /** The in-place patch that `poll_outbound` makes to a datagram it sends again: it rewrites the
      first two bytes with the flag set. */
  function MarkRetransmit(bytes: Bytes): (r: Bytes)
    ensures |r| == |bytes|
  {
    if |bytes| >= 2 then Be16(WithRetransmit(FromBe16(bytes[0], bytes[1]))) + bytes[2..] else bytes
  }

  function AsRetransmit(p: Packet): Packet {
    p.(header := p.header.(flags := p.header.flags.(isRetransmit := true)))
  }

  /** The patch changes the `isRetransmit` flag and nothing else that a receiver decodes. */
  lemma MarkRetransmitDecodes(bytes: Bytes)
    requires DecodePacket(bytes).Ok?
    ensures DecodePacket(MarkRetransmit(bytes)) == Ok(AsRetransmit(DecodePacket(bytes).value))
  {
    hide Hi, Lo, FromBe16, FlagsPart, LengthPart, PacketFlags.Bits, WithRetransmit, Words;
    var r, word := MarkRetransmit(bytes), FromBe16(bytes[0], bytes[1]);
    RetransmitParts(word);
    Be16RoundTrip(WithRetransmit(word));
    HeaderWords(bytes);
    HeaderWords(r);
    assert forall i :: 2 <= i < |bytes| ==> r[i] == bytes[i];
    var length := LengthPart(word);
    assert r[HEADER_LEN..length] == bytes[HEADER_LEN..length];
  }

  lemma RetransmitParts(word: u16)
    ensures FlagsPart(WithRetransmit(word)) == FlagsPart(word).(isRetransmit := true)
    ensures LengthPart(WithRetransmit(word)) == LengthPart(word)
  {
    hide FlagsPart, LengthPart, PacketFlags.Bits;
    PartsOf(FlagsPart(word).(isRetransmit := true), LengthPart(word));
  }
}
