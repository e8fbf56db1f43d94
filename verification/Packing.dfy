/** Packing commands into payloads (`queue_commands_packed`) and getting them back from the wire. */
module Packing {
  import opened Wire
  import opened Packets
  import opened Commands
  import opened Reliable

  /** `packets` are `cmds` cut into consecutive groups: no command is split, lost or moved; a packet
      is within the size limit unless it is one command by itself; and a packet ends only where the
      next command would not have fitted. */
  predicate Grouped(packets: seq<Bytes>, cmds: seq<Command>, groups: seq<seq<Command>>) {
    && |groups| == |packets|
    && Concat(groups) == cmds
    && (forall i :: 0 <= i < |groups| ==> IsGroup(packets[i], groups[i]))
    && (forall i :: 0 < i < |groups| ==> Overflows(packets[i - 1], groups[i]))
  }

  predicate IsGroup(packet: Bytes, group: seq<Command>) {
    && group != [] && packet == Joined(group)
    && (HEADER_LEN + |packet| <= MAX_PACKET_LEN || |group| == 1)
  }

  predicate Overflows(packet: Bytes, next: seq<Command>) {
    next != [] && HEADER_LEN + |packet| + |next[0].raw| > MAX_PACKET_LEN
  }

  /** The packet under construction holds the bytes of the group `open`. */
  predicate Started(current: Bytes, open: seq<Command>) {
    && current == Joined(open) && AllFramed(open)
    && HEADER_LEN + |current| <= MAX_PACKET_LEN
  }

  lemma JoinedEmptyIff(cmds: seq<Command>)
    requires AllFramed(cmds)
    ensures Joined(cmds) == [] <==> cmds == []
  {
    if cmds != [] {
      assert cmds == [cmds[0]] + cmds[1..];
      JoinedCons(cmds[0], cmds[1..]);
    }
  }

  lemma GroupedCons(packet: Bytes, group: seq<Command>, packets: seq<Bytes>, cmds: seq<Command>, groups: seq<seq<Command>>)
    requires IsGroup(packet, group) && Grouped(packets, cmds, groups)
    requires groups != [] ==> Overflows(packet, groups[0])
    ensures Grouped([packet] + packets, group + cmds, [group] + groups)
  {
    var packets', groups' := [packet] + packets, [group] + groups;
    assert groups'[1..] == groups;
    hide IsGroup, Overflows;
    forall i | 0 <= i < |groups'|
      ensures IsGroup(packets'[i], groups'[i])
    {
      if i > 0 {
        assert packets'[i] == packets[i - 1] && groups'[i] == groups[i - 1];
      }
    }
    forall i | 0 < i < |groups'|
      ensures Overflows(packets'[i - 1], groups'[i])
    {
      assert groups'[i] == groups[i - 1];
      if i > 1 {
        assert packets'[i - 1] == packets[i - 2];
      }
    }
  }

  /** The groups that packing makes of `open` (already in the packet under construction) and `cmds`.
      The first group begins with the first command there is. */
  lemma {:induction false} PackFromGroups(current: Bytes, open: seq<Command>, cmds: seq<Command>)
      returns (groups: seq<seq<Command>>)
    requires Started(current, open) && AllFramed(cmds)
    ensures Grouped(PackFrom(current, Raws(cmds)), open + cmds, groups)
    ensures open + cmds != [] ==> groups != [] && groups[0] != [] && groups[0][0] == (open + cmds)[0]
    decreases |cmds|
  {
    JoinedEmptyIff(open);
    if cmds == [] {
      groups := LastGroup(current, open);
    } else {
      var c, rest := cmds[0], cmds[1..];
      assert Raws(cmds)[1..] == Raws(rest);
      if HEADER_LEN + |current| + |c.raw| > MAX_PACKET_LEN && current != [] {
        groups := PackAfterFlush(current, open, cmds);
      } else if HEADER_LEN + |c.raw| > MAX_PACKET_LEN {
        assert open == [] && current == [];
        groups := PackOversized(cmds);
      } else {
        JoinedAppend(open, [c]);
        JoinedSingle(c);
        assert open + cmds == (open + [c]) + rest;
        groups := PackFromGroups(current + c.raw, open + [c], rest);
      }
    }
  }

  lemma LastGroup(current: Bytes, open: seq<Command>) returns (groups: seq<seq<Command>>)
    requires Started(current, open)
    ensures Grouped(PackFrom(current, Raws([])), open + [], groups)
    ensures open != [] ==> groups == [open]
  {
    JoinedEmptyIff(open);
    groups := if open == [] then [] else [open];
    ConcatSingle(open);
    assert open + [] == open;
  }

  /** A command that exceeds a packet by itself is sent alone. */
  lemma PackOversized(cmds: seq<Command>) returns (groups: seq<seq<Command>>)
    requires AllFramed(cmds) && cmds != [] && HEADER_LEN + |cmds[0].raw| > MAX_PACKET_LEN
    ensures Grouped(PackFrom([], Raws(cmds)), [] + cmds, groups)
    ensures groups != [] && groups[0] == [cmds[0]]
    decreases |cmds|, 0
  {
    var c, rest := cmds[0], cmds[1..];
    var tail := PackFromGroups([], [], rest);
    JoinedSingle(c);
    assert Raws(cmds)[1..] == Raws(rest);
    assert [] + rest == rest && [c] + rest == [] + cmds;
    assert IsGroup(c.raw, [c]);
    GroupedCons(c.raw, [c], PackFrom([], Raws(rest)), rest, tail);
    groups := [[c]] + tail;
    OversizedFirst(Raws(cmds));
    hide PackFrom, Grouped, Raws;
  }

  lemma OversizedFirst(raws: seq<Bytes>)
    requires raws != [] && HEADER_LEN + |raws[0]| > MAX_PACKET_LEN
    ensures PackFrom([], raws) == [raws[0]] + PackFrom([], raws[1..])
  {
    assert [] + [raws[0]] == [raws[0]];
  }

  /** The packet under construction is closed before a command that does not fit. */
  lemma PackAfterFlush(current: Bytes, open: seq<Command>, cmds: seq<Command>) returns (groups: seq<seq<Command>>)
    requires Started(current, open) && AllFramed(cmds) && cmds != [] && current != []
    requires HEADER_LEN + |current| + |cmds[0].raw| > MAX_PACKET_LEN
    ensures Grouped(PackFrom(current, Raws(cmds)), open + cmds, groups)
    ensures groups != [] && groups[0] == open && open != []
    decreases |cmds|, 2
  {
    JoinedEmptyIff(open);
    var tail := PackFresh(cmds);
    assert [] + cmds == cmds;
    GroupedCons(current, open, PackFrom([], Raws(cmds)), cmds, tail);
    groups := [open] + tail;
    FlushFirst(current, Raws(cmds));
  }

  lemma PackFresh(cmds: seq<Command>) returns (groups: seq<seq<Command>>)
    requires AllFramed(cmds) && cmds != []
    ensures Grouped(PackFrom([], Raws(cmds)), cmds, groups)
    ensures groups != [] && groups[0] != [] && groups[0][0] == cmds[0]
    decreases |cmds|, 1
  {
    var c, rest := cmds[0], cmds[1..];
    assert Raws(cmds)[1..] == Raws(rest);
    if HEADER_LEN + |c.raw| > MAX_PACKET_LEN {
      groups := PackOversized(cmds);
      assert [] + cmds == cmds;
    } else {
      JoinedSingle(c);
      assert [c] + rest == cmds && [] + c.raw == c.raw;
      groups := PackFromGroups(c.raw, [c], rest);
    }
  }

  lemma FlushFirst(current: Bytes, raws: seq<Bytes>)
    requires raws != [] && current != [] && HEADER_LEN + |current| + |raws[0]| > MAX_PACKET_LEN
    ensures PackFrom(current, raws) == [current] + PackFrom([], raws)
  {
  }

  /** Packing well-framed commands cuts them into full, ordered groups. */
  lemma PackGroups(cmds: seq<Command>) returns (groups: seq<seq<Command>>)
    requires AllFramed(cmds)
    ensures Grouped(Pack(Raws(cmds)), cmds, groups)
  {
    groups := PackFromGroups([], [], cmds);
    assert [] + cmds == cmds;
  }

  /** In numbers: a datagram of at most 1400 bytes or one command alone, and none ended early. */
  lemma PackedWithinLimit(cmds: seq<Command>) returns (groups: seq<seq<Command>>)
    requires AllFramed(cmds)
    ensures var packets := Pack(Raws(cmds));
            && |groups| == |packets| && Concat(groups) == cmds
            && (forall i :: 0 <= i < |packets| ==>
                  && groups[i] != [] && packets[i] == Joined(groups[i])
                  && (12 + |packets[i]| <= 1400 || |groups[i]| == 1))
            && (forall i :: 0 < i < |packets| ==> 12 + |packets[i - 1]| + |groups[i][0].raw| > 1400)
  {
    groups := PackGroups(cmds);
    var packets := Pack(Raws(cmds));
    hide Pack, Joined, Concat;
    assert forall i :: 0 <= i < |packets| ==> IsGroup(packets[i], groups[i]);
    assert forall i :: 0 < i < |packets| ==> Overflows(packets[i - 1], groups[i]);
  }

  // ---------------------------------------------------------------- through the wire

  /** The commands of a list of payloads, each parsed by itself. */
  function ParseAll(payloads: seq<Bytes>): Result<seq<Command>> {
    if payloads == [] then Ok([])
    else
      match Parse(payloads[0])
      case Err(e) => Err(e)
      case Ok(cmds) => Prepend(cmds, ParseAll(payloads[1..]))
  }

  /** What a receiver decodes from the datagrams that carry `payloads` under the given headers. */
  function OverTheWire(headers: seq<PacketHeader>, payloads: seq<Bytes>): (r: seq<Bytes>)
    requires |headers| == |payloads|
    ensures |r| == |payloads|
  {
    seq(|payloads|, i requires 0 <= i < |payloads| =>
      match DecodePacket(PacketBytes(headers[i], payloads[i]))
      case Ok(p) => p.payload
      case Err(_) => [])
  }

  lemma {:induction false} ParseAllGroups(packets: seq<Bytes>, groups: seq<seq<Command>>)
    requires |groups| == |packets|
    requires forall i :: 0 <= i < |groups| ==> packets[i] == Joined(groups[i]) && AllFramed(groups[i])
    ensures ParseAll(packets) == Ok(Concat(groups))
  {
    if packets != [] {
      ParseIffFraming(packets[0], groups[0]);
      ParseAllGroups(packets[1..], groups[1..]);
    }
  }

  lemma {:induction false} GroupsFramed(groups: seq<seq<Command>>)
    requires AllFramed(Concat(groups))
    ensures forall i :: 0 <= i < |groups| ==> AllFramed(groups[i])
  {
    if groups != [] {
      SplitOfAppend(groups[0], Concat(groups[1..]));
      assert AllFramed(groups[0]) by {
        forall k | 0 <= k < |groups[0]|
          ensures Framed(groups[0][k])
        {
          assert Concat(groups)[k] == groups[0][k];
        }
      }
      assert AllFramed(Concat(groups[1..])) by {
        forall k | 0 <= k < |Concat(groups[1..])|
          ensures Framed(Concat(groups[1..])[k])
        {
          assert Concat(groups)[|groups[0]| + k] == Concat(groups[1..])[k];
        }
      }
      GroupsFramed(groups[1..]);
      hide AllFramed;
      forall i | 0 <= i < |groups|
        ensures AllFramed(groups[i])
      {
        if i > 0 {
          assert groups[i] == groups[1..][i - 1];
        }
      }
    }
  }

  /** No packet made of commands of at most `MAX_PAYLOAD` bytes exceeds that. */
  lemma PackedFits(packets: seq<Bytes>, cmds: seq<Command>, groups: seq<seq<Command>>)
    requires Grouped(packets, cmds, groups)
    requires forall c :: c in cmds ==> |c.raw| <= MAX_PAYLOAD
    ensures forall i :: 0 <= i < |packets| ==> |packets[i]| <= MAX_PAYLOAD
  {
    forall i | 0 <= i < |packets|
      ensures |packets[i]| <= MAX_PAYLOAD
    {
      assert IsGroup(packets[i], groups[i]);
      if |groups[i]| == 1 {
        var c := groups[i][0];
        assert groups[i] == [c];
        JoinedSingle(c);
        MemberOfConcat(groups, i, c);
      }
    }
  }

  lemma {:induction false} MemberOfConcat<T>(xs: seq<seq<T>>, i: nat, x: T)
    requires i < |xs| && x in xs[i]
    ensures x in Concat(xs)
  {
    if i > 0 {
      MemberOfConcat(xs[1..], i - 1, x);
    }
  }

  lemma PackedParses(cmds: seq<Command>)
    requires AllFramed(cmds)
    ensures ParseAll(Pack(Raws(cmds))) == Ok(cmds)
  {
    var packets := Pack(Raws(cmds));
    var groups := PackGroups(cmds);
    GroupsFramed(groups);
    hide AllFramed;
    forall i | 0 <= i < |groups|
      ensures packets[i] == Joined(groups[i])
    {
      assert IsGroup(packets[i], groups[i]);
    }
    ParseAllGroups(packets, groups);
  }

  lemma {:induction false} PacketHoldsCommand(group: seq<Command>, c: Command)
    requires c in group
    ensures |c.raw| <= |Joined(group)|
  {
    var rest := group[1..];
    assert group == [group[0]] + rest;
    JoinedCons(group[0], rest);
    if c in rest {
      PacketHoldsCommand(rest, c);
    }
    hide Joined;
  }

  lemma {:induction false} GroupWith<T>(xs: seq<seq<T>>, x: T) returns (i: nat)
    requires x in Concat(xs)
    ensures i < |xs| && x in xs[i]
  {
    if x in xs[0] {
      i := 0;
    } else {
      i := GroupWith(xs[1..], x);
      i := i + 1;
    }
  }

  lemma FitsIffCommandsFit(packets: seq<Bytes>, cmds: seq<Command>, groups: seq<seq<Command>>)
    requires Grouped(packets, cmds, groups)
    ensures (forall i :: 0 <= i < |packets| ==> |packets[i]| <= MAX_PAYLOAD)
            <==> forall c :: c in cmds ==> |c.raw| <= MAX_PAYLOAD
  {
    if forall c :: c in cmds ==> |c.raw| <= MAX_PAYLOAD {
      PackedFits(packets, cmds, groups);
    } else {
      var c :| c in cmds && |c.raw| > MAX_PAYLOAD;
      var i := GroupWith(groups, c);
      PacketHoldsCommand(groups[i], c);
      assert IsGroup(packets[i], groups[i]);
    }
    hide Joined, Overflows;
  }

  lemma OverTheWireIff(headers: seq<PacketHeader>, packets: seq<Bytes>)
    requires |headers| == |packets|
    ensures OverTheWire(headers, packets) == packets <==> forall i :: 0 <= i < |packets| ==> |packets[i]| <= MAX_PAYLOAD
  {
    forall i | 0 <= i < |packets|
      ensures OverTheWire(headers, packets)[i] == packets[i] <==> |packets[i]| <= MAX_PAYLOAD
    {
      PacketRoundTrip(headers[i], packets[i]);
    }
    hide OverTheWire;
  }

  /** Commands survive packing and the wire exactly when none is longer than `MAX_PAYLOAD`: packed, encoded
      under any headers, decoded and parsed packet by packet, they then come back as they were, in order. */
  lemma PackedCommandsSurviveWireIff(cmds: seq<Command>, headers: seq<PacketHeader>)
    requires AllFramed(cmds) && |headers| == |Pack(Raws(cmds))|
    ensures OverTheWire(headers, Pack(Raws(cmds))) == Pack(Raws(cmds))
            <==> forall c :: c in cmds ==> |c.raw| <= MAX_PAYLOAD
    ensures (forall c :: c in cmds ==> |c.raw| <= MAX_PAYLOAD) ==>
              ParseAll(OverTheWire(headers, Pack(Raws(cmds)))) == Ok(cmds)
  {
    hide Pack, OverTheWire, Grouped, AllFramed, ParseAll;
    var groups := PackGroups(cmds);
    FitsIffCommandsFit(Pack(Raws(cmds)), cmds, groups);
    OverTheWireIff(headers, Pack(Raws(cmds)));
    PackedParses(cmds);
  }

  /** Of any byte strings, framed or not, packing keeps every byte in its place. */
  lemma {:induction false} PackConserves(current: Bytes, raws: seq<Bytes>)
    ensures Concat(PackFrom(current, raws)) == current + Concat(raws)
    decreases |raws|
  {
    if raws == [] {
      ConcatSingle(current);
      assert current + [] == current;
    } else {
      var cmd, rest := raws[0], raws[1..];
      var flush := HEADER_LEN + |current| + |cmd| > MAX_PACKET_LEN && current != [];
      var flushed, kept := if flush then [current] else [], if flush then [] else current;
      ConcatSingle(current);
      ConcatSingle(cmd);
      if HEADER_LEN + |cmd| > MAX_PACKET_LEN {
        PackConserves(kept, rest);
        ConcatAppend(flushed + [cmd], PackFrom(kept, rest));
        ConcatAppend(flushed, [cmd]);
        assert kept == [];
        assert [] + Concat(rest) == Concat(rest);
        Associative(Concat(flushed), cmd, Concat(rest));
      } else {
        PackConserves(kept + cmd, rest);
        ConcatAppend(flushed, PackFrom(kept + cmd, rest));
        Associative(kept, cmd, Concat(rest));
      }
    }
  }
}
