/** No truncation anywhere: a payload that was decoded has at most `MAX_PAYLOAD` bytes, and everything the
    proxy makes of it, towards the clients and towards the switcher, is encoded without reaching the clamp
    of the 11-bit length field. */
module Truncation {
  import opened Wire
  import opened Packets
  import opened Commands
  import opened Reliable
  import opened Packing
  import opened Locks
  import opened Filter
  import opened FanIn
  import FanOut
  import Convergence

  predicate AllWithin(payloads: seq<Bytes>) {
    forall i :: 0 <= i < |payloads| ==> |payloads[i]| <= MAX_PAYLOAD
  }

  /** Packing adds nothing to what is too long already. */
  lemma {:induction false} PackKeepsWithin(current: Bytes, raws: seq<Bytes>)
    requires HEADER_LEN + |current| <= MAX_PACKET_LEN && AllWithin(raws)
    ensures AllWithin(PackFrom(current, raws))
    decreases |raws|
  {
    if raws != [] {
      var cmd, rest := raws[0], raws[1..];
      PackKeepsWithin(current, rest);
      PackKeepsWithin([], rest);
      if HEADER_LEN + |cmd| <= MAX_PACKET_LEN {
        PackKeepsWithin(cmd, rest);
        if HEADER_LEN + |current| + |cmd| <= MAX_PACKET_LEN {
          PackKeepsWithin(current + cmd, rest);
        }
        assert [] + cmd == cmd;
      }
    }
  }

  predicate EnableFits(s: FilterState) {
    s.lastEnable.Some? ==> |s.lastEnable.value| <= MAX_PAYLOAD
  }

  predicate EventFits(e: Event) {
    (e.FromClient? ==> |e.c.raw| <= MAX_PAYLOAD) && (e.Raw? ==> |e.payload| <= MAX_PAYLOAD)
  }

  predicate CommandsFit(run: seq<Event>) {
    forall i :: 0 <= i < |run| ==> EventFits(run[i])
  }

  lemma CleanupFits(s: FilterState, addr: Addr, out: seq<Bytes>)
    requires EnableFits(s) && CleansUp(out, s, addr)
    ensures AllWithin(out)
  {
    hide HeldStores;
    var unlocks :| out == AudioOff(s, addr) + unlocks && UnlocksExactly(unlocks, HeldStores(s.stores, addr));
    forall u | u in unlocks
      ensures |u| <= MAX_PAYLOAD
    {
      var store :| store in HeldStores(s.stores, addr) && u == SynthesizeUnlock(store);
      SynthesizedUnlockParses(store);
    }
    hide SynthesizeUnlock, UnlocksExactly;
  }

  lemma StepFits(p: Policy, s: FilterState, e: Event, out: seq<Bytes>)
    requires EnableFits(s) && EventFits(e)
    ensures EnableFits(FanIn.After(p, s, e))
    ensures SentBy(p, s, e, out) ==> AllWithin(out)
  {
    hide IsTransferCommand, CleansUp;
    if e.Gone? && CleansUp(out, s, e.addr) {
      CleanupFits(s, e.addr, out);
    }
  }

  lemma {:induction false} RunFits(p: Policy, run: seq<Event>, n: nat)
    requires CommandsFit(run) && n <= |run|
    ensures EnableFits(StateAt(p, FRESH, run, n))
    decreases n
  {
    hide FanIn.After;
    if n > 0 {
      RunFits(p, run, n - 1);
      StepFits(p, StateAt(p, FRESH, run, n - 1), run[n - 1], []);
    }
  }

  /** Some event of the run sends these bytes. */
  ghost predicate SentInRun(p: Policy, run: seq<Event>, raw: Bytes) {
    exists n, out :: 0 <= n < |run| && SentBy(p, StateAt(p, FRESH, run, n), run[n], out) && raw in out
  }

  lemma SentFits(p: Policy, run: seq<Event>, raw: Bytes)
    requires CommandsFit(run) && SentInRun(p, run, raw)
    ensures |raw| <= MAX_PAYLOAD
  {
    hide SentBy, StateAt, FanIn.After;
    var n, out :| 0 <= n < |run| && SentBy(p, StateAt(p, FRESH, run, n), run[n], out) && raw in out;
    RunFits(p, run, n);
    StepFits(p, StateAt(p, FRESH, run, n), run[n], out);
  }

  /** Towards the switcher: the upstream task packs whatever has gathered in the channel. However the
      commands of many events and clients are batched, raw payloads among them, the packets are decoded
      uncut. */
  lemma NothingIsCutUpstream(p: Policy, run: seq<Event>, batch: seq<Bytes>, headers: seq<PacketHeader>)
    requires CommandsFit(run) && forall i :: 0 <= i < |batch| ==> SentInRun(p, run, batch[i])
    requires |headers| == |Pack(batch)|
    ensures OverTheWire(headers, Pack(batch)) == Pack(batch)
  {
    hide SentInRun, Pack, OverTheWire;
    forall i | 0 <= i < |batch|
      ensures |batch[i]| <= MAX_PAYLOAD
    {
      SentFits(p, run, batch[i]);
    }
    PackKept(batch);
    OverTheWireIff(headers, Pack(batch));
  }

  lemma PackKept(raws: seq<Bytes>)
    requires AllWithin(raws)
    ensures AllWithin(Pack(raws))
  {
    PackKeepsWithin([], raws);
  }

  /** What a decoded datagram carries fits, so client payloads make runs as above. */
  lemma DecodedEventsFit(datagram: Bytes, from: Addr)
    requires DecodePacket(datagram).Ok?
    ensures CommandsFit(PayloadEvents(from, DecodePacket(datagram).value.payload))
  {
    hide DecodePacket;
    var payload := DecodePacket(datagram).value.payload;
    if Parse(payload).Ok? {
      var cmds := Parse(payload).value;
      ParseIffFraming(payload, cmds);
      FanOut.RawsWithin(cmds);
      hide Parse, Joined;
      forall i | 0 <= i < |cmds|
        ensures |cmds[i].raw| <= MAX_PAYLOAD
      {
        assert cmds[i] in cmds;
      }
    }
  }

  /** Towards the clients: in every reachable state of the fan-out, everything a session was given is
      decoded uncut. */
  lemma NothingIsCutDownstream(steps: seq<FanOut.Step>, addr: Addr, headers: seq<PacketHeader>)
    requires addr in Convergence.Reached(steps).sessions
    requires |headers| == |Convergence.Reached(steps).sessions[addr].queued|
    ensures var queued := Convergence.Reached(steps).sessions[addr].queued;
            OverTheWire(headers, queued) == queued
  {
    hide OverTheWire, Convergence.Reached, FanOut.View, FanOut.CacheInv, FanOut.Coming, FanOut.AllWholesome,
      FanOut.TaskWholesome, FanOut.TaskUpdate;
    var queued := Convergence.Reached(steps).sessions[addr].queued;
    assert FanOut.AllFit(queued);
    forall i | 0 <= i < |queued|
      ensures |queued[i]| <= MAX_PAYLOAD
    {
      assert queued[i] in queued;
    }
    OverTheWireIff(headers, queued);
  }
}
