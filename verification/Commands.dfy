/** Command framing, identities and classifiers (atem-protocol/src/command.rs). */
module Commands {
  import opened Wire

  /** The four name bytes of a command. */
  datatype CommandName = CommandName(b0: byte, b1: byte, b2: byte, b3: byte)

  function Name(a: char, b: char, c: char, d: char): CommandName
    requires a < 128 as char && b < 128 as char && c < 128 as char && d < 128 as char
  {
    CommandName(a as int, b as int, c as int, d as int)
  }

  const INIT_COMPLETE := Name('I', 'n', 'C', 'm')
  const VERSION := Name('_', 'v', 'e', 'r')
  const LOCK := Name('L', 'O', 'C', 'K')

  /** A framed command: 2 length bytes, 2 reserved bytes, 4 name bytes, the body. */
  datatype Command = Command(name: CommandName, raw: Bytes, body: Bytes)

  function NameOf(raw: Bytes): CommandName
    requires |raw| >= 8
  {
    CommandName(raw[4], raw[5], raw[6], raw[7])
  }

  /** A command whose fields are those of its own bytes. */
  predicate Framed(c: Command) {
    && 8 <= |c.raw| < 0x1_0000
    && FromBe16(c.raw[0], c.raw[1]) == |c.raw|
    && c.name == NameOf(c.raw)
    && c.body == c.raw[8..]
  }

  predicate AllFramed(cmds: seq<Command>) {
    forall i :: 0 <= i < |cmds| ==> Framed(cmds[i])
  }

  function Raws(cmds: seq<Command>): (r: seq<Bytes>)
    ensures |r| == |cmds| && forall i :: 0 <= i < |cmds| ==> r[i] == cmds[i].raw
  {
    seq(|cmds|, i requires 0 <= i < |cmds| => cmds[i].raw)
  }

  /** The bytes of a list of commands sent one after the other. */
  function Joined(cmds: seq<Command>): Bytes {
    Concat(Raws(cmds))
  }

  lemma JoinedAppend(a: seq<Command>, b: seq<Command>)
    ensures Joined(a + b) == Joined(a) + Joined(b)
  {
    assert Raws(a + b) == Raws(a) + Raws(b);
    ConcatAppend(Raws(a), Raws(b));
  }

  lemma JoinedCons(c: Command, rest: seq<Command>)
    ensures Joined([c] + rest) == c.raw + Joined(rest)
  {
    assert Raws([c] + rest)[1..] == Raws(rest);
  }

  lemma JoinedSingle(c: Command)
    ensures Joined([c]) == c.raw
  {
    JoinedCons(c, []);
    assert [c] + [] == [c];
  }

  // ---------------------------------------------------------------- parsing

  /** The length field of `rest` names a whole command inside it. */
  predicate HeadFits(rest: Bytes)
    requires |rest| >= 8
  {
    8 <= FromBe16(rest[0], rest[1]) <= |rest|
  }

  function HeadCommand(rest: Bytes): (c: Command)
    requires |rest| >= 8 && HeadFits(rest)
    ensures 8 <= |c.raw| <= |rest|
  {
    var len := FromBe16(rest[0], rest[1]);
    Command(NameOf(rest), rest[..len], rest[..len][8..])
  }

  lemma HeadIsFramed(rest: Bytes)
    requires |rest| >= 8 && HeadFits(rest)
    ensures Framed(HeadCommand(rest)) && rest == HeadCommand(rest).raw + rest[|HeadCommand(rest).raw|..]
  {
  }

  lemma HeadOfAppend(a: Bytes, b: Bytes)
    requires |a| >= 8 && HeadFits(a)
    ensures HeadFits(a + b) && HeadCommand(a + b) == HeadCommand(a)
  {
    var len := FromBe16(a[0], a[1]);
    assert (a + b)[..len] == a[..len];
  }

  /** The commands at the front of `rest`, which starts `offset` bytes into the payload. */
  function ParseAt(rest: Bytes, offset: nat): Result<seq<Command>>
    decreases |rest|
  {
    if |rest| >= 8 then
      if !HeadFits(rest) then Err(BadCommand(offset))
      else
        var c := HeadCommand(rest);
        Prepend([c], ParseAt(rest[|c.raw|..], offset + |c.raw|))
    else if rest != [] then Err(BadCommand(offset))
    else Ok([])
  }

  function Prepend(cmds: seq<Command>, r: Result<seq<Command>>): Result<seq<Command>> {
    match r
    case Err(e) => Err(e)
    case Ok(rest) => Ok(cmds + rest)
  }

  function Parse(payload: Bytes): Result<seq<Command>> {
    ParseAt(payload, 0)
  }

  method ParseCommands(payload: Bytes) returns (r: Result<seq<Command>>)
    ensures r == Parse(payload)
  {
    var out: seq<Command> := [];
    var offset := 0;
    ParseStart(payload);
    hide *;
    while offset + 8 <= |payload|
      invariant offset <= |payload|
      invariant Parse(payload) == Prepend(out, ParseAt(payload[offset..], offset))
    {
      var len := FromBe16(payload[offset], payload[offset + 1]);
      HeadFitsAt(payload, offset);
      if len < 8 || offset + len > |payload| {
        ParseBad(payload, offset, out);
        return Err(BadCommand(offset));
      }
      var name := CommandName(payload[offset + 4], payload[offset + 5], payload[offset + 6], payload[offset + 7]);
      var raw := payload[offset..offset + len];
      var body := payload[offset + 8..offset + len];
      HeadAt(payload, offset);
      ParseGood(payload, offset, out);
      out := out + [Command(name, raw, body)];
      offset := offset + len;
    }
    ParseEnd(payload, offset, out);
    if offset != |payload| {
      return Err(BadCommand(offset));
    }
    return Ok(out);
  }

  lemma ParseStart(payload: Bytes)
    ensures Parse(payload) == Prepend([], ParseAt(payload[0..], 0))
  {
    PrependNothing(ParseAt(payload, 0));
    assert payload[0..] == payload;
    hide ParseAt, Prepend;
  }

  lemma HeadFitsAt(payload: Bytes, offset: nat)
    requires offset + 8 <= |payload|
    ensures HeadFits(payload[offset..])
            <==> 8 <= FromBe16(payload[offset], payload[offset + 1]) <= |payload| - offset
  {
  }

  /** The command at an offset, in terms of the payload's own indices. */
  lemma HeadAt(payload: Bytes, offset: nat)
    requires offset + 8 <= |payload| && HeadFits(payload[offset..])
    ensures var len := FromBe16(payload[offset], payload[offset + 1]);
            && 8 <= len <= |payload| - offset
            && HeadCommand(payload[offset..])
            == Command(CommandName(payload[offset + 4], payload[offset + 5], payload[offset + 6], payload[offset + 7]),
                       payload[offset..offset + len], payload[offset + 8..offset + len])
  {
    var rest, len := payload[offset..], FromBe16(payload[offset], payload[offset + 1]);
    TakeOfDrop(payload, offset, len);
    assert rest[..len][8..] == payload[offset + 8..offset + len];
  }

  lemma ParseBad(payload: Bytes, offset: nat, out: seq<Command>)
    requires offset + 8 <= |payload| && Parse(payload) == Prepend(out, ParseAt(payload[offset..], offset))
    requires !HeadFits(payload[offset..])
    ensures Parse(payload) == Err(BadCommand(offset))
  {
    hide HeadFits, Parse;
  }

  lemma ParseGood(payload: Bytes, offset: nat, out: seq<Command>)
    requires offset + 8 <= |payload| && Parse(payload) == Prepend(out, ParseAt(payload[offset..], offset))
    requires HeadFits(payload[offset..])
    ensures var c := HeadCommand(payload[offset..]);
            && offset + |c.raw| <= |payload|
            && Parse(payload) == Prepend(out + [c], ParseAt(payload[offset + |c.raw|..], offset + |c.raw|))
  {
    hide *;
    var rest := payload[offset..];
    var c := HeadCommand(rest);
    ParseAtHead(rest, offset);
    DropDrop(payload, offset, |c.raw|);
    PrependTwice(out, [c], ParseAt(rest[|c.raw|..], offset + |c.raw|));
  }

  lemma ParseEnd(payload: Bytes, offset: nat, out: seq<Command>)
    requires |payload| - 8 < offset <= |payload|
    requires Parse(payload) == Prepend(out, ParseAt(payload[offset..], offset))
    ensures Parse(payload) == if offset != |payload| then Err(BadCommand(offset)) else Ok(out)
  {
    hide Parse;
    assert out + [] == out;
  }

  lemma PrependTwice(a: seq<Command>, b: seq<Command>, r: Result<seq<Command>>)
    ensures Prepend(a, Prepend(b, r)) == Prepend(a + b, r)
  {
    if r.Ok? {
      assert a + (b + r.value) == a + b + r.value;
    }
  }

  lemma ParseAtHead(rest: Bytes, offset: nat)
    requires |rest| >= 8 && HeadFits(rest)
    ensures var c := HeadCommand(rest);
            ParseAt(rest, offset) == Prepend([c], ParseAt(rest[|c.raw|..], offset + |c.raw|))
  {
  }

  lemma {:induction false} ParseAtSound(rest: Bytes, offset: nat)
    ensures match ParseAt(rest, offset)
            case Ok(cmds) => AllFramed(cmds) && Joined(cmds) == rest
            case Err(e) => e.BadCommand? && offset <= e.offset < offset + |rest|
    decreases |rest|
  {
    if |rest| >= 8 && HeadFits(rest) {
      var c := HeadCommand(rest);
      var tail := rest[|c.raw|..];
      ParseAtHead(rest, offset);
      HeadIsFramed(rest);
      ParseAtSound(tail, offset + |c.raw|);
      hide ParseAt, Framed, Joined, FromBe16, NameOf, HeadFits, HeadCommand;
      if ParseAt(tail, offset + |c.raw|).Ok? {
        JoinedCons(c, ParseAt(tail, offset + |c.raw|).value);
      }
    }
  }

  lemma ParseAtHeadOfAppend(a: Bytes, b: Bytes, offset: nat)
    requires |a| >= 8 && HeadFits(a)
    ensures var n := |HeadCommand(a).raw|;
            ParseAt(a + b, offset) == Prepend([HeadCommand(a)], ParseAt(a[n..] + b, offset + n))
  {
    HeadOfAppend(a, b);
    hide *;
    ParseAtHead(a + b, offset);
    DropOfAppend(a, b, |HeadCommand(a).raw|);
  }

  lemma ParseAtOk(a: Bytes, offset: nat)
    requires |a| >= 8 && ParseAt(a, offset).Ok?
    ensures HeadFits(a)
    ensures var n := |HeadCommand(a).raw|;
            ParseAt(a[n..], offset + n).Ok?
            && ParseAt(a, offset).value == [HeadCommand(a)] + ParseAt(a[n..], offset + n).value
  {
    hide HeadCommand, HeadFits;
  }

  lemma ParseAtEnd(a: Bytes, b: Bytes, offset: nat)
    requires |a| < 8 && ParseAt(a, offset).Ok?
    ensures ParseAt(a + b, offset) == Prepend(ParseAt(a, offset).value, ParseAt(b, offset + |a|))
  {
    assert a == [] && ParseAt(a, offset).value == [];
    hide ParseAt;
    assert a + b == b;
    PrependNothing(ParseAt(b, offset));
  }

  lemma {:induction false} ParseAtAppend(a: Bytes, b: Bytes, offset: nat)
    requires ParseAt(a, offset).Ok?
    ensures ParseAt(a + b, offset) == Prepend(ParseAt(a, offset).value, ParseAt(b, offset + |a|))
    decreases |a|
  {
    hide *;
    if |a| < 8 {
      ParseAtEnd(a, b, offset);
    } else {
      ParseAtOk(a, offset);
      var c := HeadCommand(a);
      var tail, next := a[|c.raw|..], offset + |c.raw|;
      ParseAtHeadOfAppend(a, b, offset);
      ParseAtAppend(tail, b, next);
      PrependTwice([c], ParseAt(tail, next).value, ParseAt(b, offset + |a|));
    }
  }

  lemma PrependNothing(r: Result<seq<Command>>)
    ensures Prepend([], r) == r
  {
    if r.Ok? {
      assert [] + r.value == r.value;
    }
  }

  lemma {:induction false} ParseAtComplete(cmds: seq<Command>, offset: nat)
    requires AllFramed(cmds)
    ensures ParseAt(Joined(cmds), offset) == Ok(cmds)
  {
    if cmds != [] {
      var c := cmds[0];
      var rest := Joined(cmds[1..]);
      assert cmds == [c] + cmds[1..];
      JoinedCons(c, cmds[1..]);
      ParseAtComplete(cmds[1..], offset + |c.raw|);
      assert (c.raw + rest)[..|c.raw|] == c.raw && (c.raw + rest)[|c.raw|..] == rest;
    }
  }

  /** Parsing is the inverse of framing, on every payload: `cmds` is what parsing returns exactly when
      every command in it is well framed and their bytes, one after the other, are the payload. */
  lemma ParseIffFraming(payload: Bytes, cmds: seq<Command>)
    ensures Parse(payload) == Ok(cmds) <==> AllFramed(cmds) && Joined(cmds) == payload
  {
    ParseAtSound(payload, 0);
    if AllFramed(cmds) {
      ParseAtComplete(cmds, 0);
    }
  }

  /** The well-framed commands at the front of any bytes, up to the first framing error. */
  function Leading(bytes: Bytes): seq<Command>
    decreases |bytes|
  {
    if |bytes| >= 8 && HeadFits(bytes) then [HeadCommand(bytes)] + Leading(bytes[|HeadCommand(bytes).raw|..])
    else []
  }

  lemma {:induction false} LeadingOfParsed(bytes: Bytes, offset: nat)
    requires ParseAt(bytes, offset).Ok?
    ensures Leading(bytes) == ParseAt(bytes, offset).value
    decreases |bytes|
  {
    hide HeadCommand, HeadFits;
    if |bytes| >= 8 {
      ParseAtOk(bytes, offset);
      LeadingOfParsed(bytes[|HeadCommand(bytes).raw|..], offset + |HeadCommand(bytes).raw|);
    }
  }

  lemma LeadingOfCommand(c: Command, rest: Bytes)
    requires Framed(c)
    ensures Leading(c.raw + rest) == [c] + Leading(rest)
    ensures Leading(c.raw) == [c]
  {
    assert (c.raw + rest)[..|c.raw|] == c.raw && (c.raw + rest)[|c.raw|..] == rest;
    assert c.raw[..|c.raw|] == c.raw && c.raw[|c.raw|..] == [];
    assert Leading([]) == [];
  }

  /** A refused payload is refused at an offset inside it, and no list of well-framed commands has
      those bytes. */
  lemma ParseErrIff(payload: Bytes)
    ensures Parse(payload).Err? <==> forall cmds :: AllFramed(cmds) ==> Joined(cmds) != payload
    ensures Parse(payload).Err? ==> Parse(payload).error.BadCommand? && Parse(payload).error.offset < |payload|
  {
    ParseAtSound(payload, 0);
    if Parse(payload).Err? {
      forall cmds | AllFramed(cmds)
        ensures Joined(cmds) != payload
      {
        ParseIffFraming(payload, cmds);
      }
    } else {
      ParseIffFraming(payload, Parse(payload).value);
    }
  }

  /** After a prefix that parses, the rest of the payload decides: the result is the two lists joined,
      and a bad byte is reported at its offset in the whole. */
  lemma ParseAppend(a: Bytes, b: Bytes)
    requires Parse(a).Ok?
    ensures match Parse(b)
            case Ok(cmds) => Parse(a + b) == Ok(Parse(a).value + cmds)
            case Err(e) => e.BadCommand? && Parse(a + b) == Err(BadCommand(|a| + e.offset))
  {
    ParseAtAppend(a, b, 0);
    ParseAtShift(b, |a|, 0);
  }

  lemma {:induction false} ParseAtShift(rest: Bytes, shift: nat, offset: nat)
    ensures match ParseAt(rest, offset)
            case Ok(cmds) => ParseAt(rest, shift + offset) == Ok(cmds)
            case Err(e) => e.BadCommand? && ParseAt(rest, shift + offset) == Err(BadCommand(shift + e.offset))
    decreases |rest|
  {
    if |rest| >= 8 && HeadFits(rest) {
      var n := |HeadCommand(rest).raw|;
      ParseAtShift(rest[n..], shift, offset + n);
    }
  }

  // ---------------------------------------------------------------- serializing

  /** The wire form of a command; the length is cut to 16 bits as `len as u16` cuts it. */
  function Serialize(name: CommandName, body: Bytes): Bytes {
    Be16((8 + |body|) % 0x1_0000) + [0, 0] + [name.b0, name.b1, name.b2, name.b3] + body
  }

  method SerializeCommand(name: CommandName, body: Bytes) returns (out: Bytes)
    ensures out == Serialize(name, body)
  {
    var len := 8 + |body|;
    out := [];
    out := out + Be16(len % 0x1_0000);
    out := out + Be16(0);
    out := out + [name.b0, name.b1, name.b2, name.b3];
    out := out + body;
  }

  lemma SerializedShape(name: CommandName, body: Bytes)
    ensures var raw, len := Serialize(name, body), (8 + |body|) % 0x1_0000;
            && |raw| == 8 + |body| && raw[0] == Hi(len) && raw[1] == Lo(len) && NameOf(raw) == name && raw[8..] == body
  {
    hide Hi, Lo;
    var head := Be16((8 + |body|) % 0x1_0000) + [0, 0] + [name.b0, name.b1, name.b2, name.b3];
    SplitOfAppend(head, body);
  }

  lemma SerializedFramedIff(name: CommandName, body: Bytes)
    ensures Framed(Command(name, Serialize(name, body), body)) <==> 8 + |body| < 0x1_0000
  {
    hide Hi, Lo, FromBe16, Serialize, NameOf;
    SerializedShape(name, body);
    Be16RoundTrip((8 + |body|) % 0x1_0000);
  }

  /** A serialized command parses back to its name and body exactly when its length fits a u16. */
  lemma SerializeRoundTrip(name: CommandName, body: Bytes)
    ensures Parse(Serialize(name, body)) == Ok([Command(name, Serialize(name, body), body)])
            <==> 8 + |body| < 0x1_0000
  {
    hide Serialize, Parse, Framed, Joined;
    var c := Command(name, Serialize(name, body), body);
    SerializedFramedIff(name, body);
    JoinedSingle(c);
    ParseIffFraming(c.raw, [c]);
    assert AllFramed([c]) <==> Framed([c][0]);
  }

  // ---------------------------------------------------------------- classifiers

  const PROGRAM_KEYED: set<CommandName> := {
    Name('P', 'r', 'g', 'I'), Name('P', 'r', 'v', 'I'), Name('T', 'r', 'S', 'S'), Name('T', 'r', 'P', 's'),
    Name('T', 'r', 'P', 'r'), Name('F', 't', 'b', 'S'), Name('F', 't', 'b', 'P') }

  const INDEX_KEYED: set<CommandName> := {
    Name('K', 'e', 'O', 'n'), Name('K', 'e', 'B', 'P'), Name('D', 's', 'k', 'B'), Name('D', 's', 'k', 'S'),
    Name('D', 's', 'k', 'P'), Name('C', 'o', 'l', 'V'), Name('A', 'u', 'x', 'S'), Name('M', 'P', 'C', 'E'),
    Name('M', 'P', 'r', 'p'), Name('C', 'v', 'l', 'I'), Name('I', 'n', 'P', 'r'), Name('I', 'n', 'P', 'X') }

  /** The part of the body that tells apart two cached commands of one name. */
  function CommandIdentity(name: CommandName, body: Bytes): Bytes {
    if name in PROGRAM_KEYED then body[..Min(1, |body|)]
    else if name in INDEX_KEYED then body[..Min(4, |body|)]
    else []
  }

  predicate IsEphemeralCommand(n: CommandName) {
    || n == Name('A', 'M', 'L', 'v') || n == Name('A', 'M', 'm', 'O') || n == Name('F', 'A', 'S', 'P')
    || n == Name('F', 'M', 'L', 'v') || n == Name('F', 'A', 't', 'l') || n == Name('F', 'A', 's', 'p')
    || n == Name('T', 'i', 'm', 'e') || n == Name('T', 'i', 'm', 'C') || n == Name('T', 'C', 'C', 'c')
  }

  /** A four-byte name starts with "Lock" only if it is "Lock". */
  predicate IsLockCommand(n: CommandName) {
    IsLockRequest(n) || IsLockStatus(n) || n == Name('L', 'o', 'c', 'k')
  }

  predicate IsLockRequest(n: CommandName) {
    n == LOCK || n == Name('P', 'L', 'C', 'K')
  }

  predicate IsLockStatus(n: CommandName) {
    n == Name('L', 'K', 'S', 'T') || n == Name('L', 'K', 'O', 'B')
  }

  /** Two bytes that are UTF-8 by themselves: two ASCII bytes or one two-byte character. */
  predicate Utf8Pair(c: byte, d: byte) {
    (c < 0x80 && d < 0x80) || (0xC2 <= c <= 0xDF && 0x80 <= d <= 0xBF)
  }

  /** Every name the source lists starts with "FT"; "Data" fills all four bytes. The prefix test is
      made on the name as text, so it fails on a name that is not UTF-8. */
  predicate IsTransferCommand(n: CommandName) {
    || (n.b0 == 'F' as int && n.b1 == 'T' as int && Utf8Pair(n.b2, n.b3))
    || n == Name('D', 'a', 't', 'a')
  }

  /** The source also looks for "SendLevels" and "Levels" in the name; four bytes cannot hold them. */
  predicate IsAudioLevelsSubscribe(n: CommandName) {
    n == Name('S', 'A', 'L', 'N') || n == Name('F', 'A', 'S', 'P') || n == Name('S', 'A', 'f', 'f')
  }

  /** The classes do not overlap, but for FASP: both a level report and a subscription. */
  lemma ClassesDisjoint(n: CommandName)
    ensures n == INIT_COMPLETE ==> !IsTransferCommand(n) && !IsLockCommand(n) && !IsEphemeralCommand(n)
    ensures IsTransferCommand(n) ==> !IsLockCommand(n) && !IsEphemeralCommand(n) && !IsAudioLevelsSubscribe(n)
    ensures IsLockCommand(n) ==> !IsEphemeralCommand(n) && !IsAudioLevelsSubscribe(n)
    ensures IsLockRequest(n) ==> !IsLockStatus(n)
    ensures IsEphemeralCommand(n) && IsAudioLevelsSubscribe(n) <==> n == Name('F', 'A', 'S', 'P')
  {
  }

  function LockStoreId(body: Bytes): Option<u16> {
    if |body| < 2 then None else Some(FromBe16(body[0], body[1]))
  }

  function LockRequestEnabled(body: Bytes): bool {
    if |body| >= 3 then body[2] != 0
    else |body| > 0 && body[|body| - 1] != 0
  }

  /** The unlock request for a store: LOCK, store, state 0. */
  function SynthesizeUnlock(store: u16): Bytes {
    Serialize(LOCK, Be16(store) + [0, 0])
  }

  /** The synthesized command parses to one lock request that names the store and asks for unlocked. */
  lemma SynthesizedUnlockParses(store: u16)
    ensures var raw := SynthesizeUnlock(store); |raw| == 12 && Parse(raw) == Ok([Command(LOCK, raw, raw[8..])])
    ensures IsLockRequest(LOCK)
    ensures LockStoreId(SynthesizeUnlock(store)[8..]) == Some(store)
    ensures !LockRequestEnabled(SynthesizeUnlock(store)[8..])
  {
    var body := Be16(store) + [0, 0];
    SerializeRoundTrip(LOCK, body);
    Be16RoundTrip(store);
    assert SynthesizeUnlock(store)[8..] == body;
    hide Parse, Hi, Lo, FromBe16;
  }

  /** The `InCm` that ends a dump: 12 bytes, body 01 00 00 00. */
  const SYNTHETIC_INCM: Bytes := Serialize(INIT_COMPLETE, [1, 0, 0, 0])

  const INCM_COMMAND := Command(INIT_COMPLETE, SYNTHETIC_INCM, [1, 0, 0, 0])

  lemma SyntheticIncmParses()
    ensures |SYNTHETIC_INCM| == 12 && Framed(INCM_COMMAND)
    ensures Parse(SYNTHETIC_INCM) == Ok([INCM_COMMAND])
  {
    SerializeRoundTrip(INIT_COMPLETE, [1, 0, 0, 0]);
    ParseIffFraming(SYNTHETIC_INCM, [INCM_COMMAND]);
    assert Framed([INCM_COMMAND][0]);
  }

  function ParseVersion(body: Bytes): Option<(u16, u16)> {
    if |body| < 4 then None else Some((FromBe16(body[0], body[1]), FromBe16(body[2], body[3])))
  }
}
