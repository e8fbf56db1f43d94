/** Everything put together, from the switcher to one client: the transport brings the switcher's payloads to the
    hub, the fan-out gives a late joiner the right payloads, and the transport brings them to it, so the client's
    own copy of the state ends up equal to the proxy's cache and to the last-wins view of what the switcher sent. */
module EndToEnd {
  import opened Wire
  import opened Packets
  import opened Cache
  import opened Locks
  import opened Upstream
  import opened FanOut
  import opened Convergence
  import opened Foreign
  import Reliable
  import Transport
  import Progress

  /** Payloads that fit the wire are delivered uncut. */
  lemma FittingArriveUncut(payloads: seq<Bytes>)
    requires AllFit(payloads)
    ensures Transport.Deliverable(payloads) == NonEmpties(payloads)
  {
    forall i | 0 <= i < |payloads|
      ensures Clip(payloads[i]) == payloads[i]
    {
      assert payloads[i] in payloads;
    }
    assert Transport.ClipAll(payloads) == payloads;
  }

  /** An empty payload, such as a ping's, means nothing to the state. */
  lemma {:induction false} EmptyPayloadsMeanNothing(s: CacheState, payloads: seq<Bytes>)
    ensures IngestAll(s, NonEmpties(payloads)) == IngestAll(s, payloads)
    decreases |payloads|
  {
    hide Ingested;
    if payloads != [] {
      var first, rest := payloads[0], payloads[1..];
      assert payloads == [first] + rest;
      IngestAllAppend(s, [first], rest);
      IngestAllAppend(s, IfNonEmpty(first), NonEmpties(rest));
      IngestOne(s, first);
      IngestEmpty(s);
      IngestNothing(s);
      EmptyPayloadsMeanNothing(Ingested(s, first), rest);
      hide IngestAll;
    }
  }

  lemma IngestEmpty(s: CacheState)
    ensures Ingested(s, []) == s
  {
    assert Commands.Parse([]) == Ok([]);
  }

  lemma DeliveredCatchesUp(payloads: seq<Bytes>, c: CacheState)
    requires CaughtUp(payloads, c)
    ensures CaughtUp(NonEmpties(payloads), c)
  {
    EmptyPayloadsMeanNothing(EMPTY, payloads);
    hide IngestAll, NonEmpties;
  }

  lemma SessionsFit(h: Hub, addr: Addr)
    requires HubInv(h) && addr in h.sessions
    ensures AllFit(h.sessions[addr].queued)
  {
    hide AllFit, View, CacheInv, Coming, AllWholesome, TaskWholesome, TaskUpdate;
  }

  // ---------------------------------------------------------------- the whole proxy, for one client

  /** The link to the switcher (its endpoint left, the proxy's right), the hub, and the link between one client's
      session (left) and that client (right). */
  datatype World = World(up: Transport.Link, hub: Hub, link: Transport.Link)

  /** The endpoints and the network of either link act; the hub makes a step of its own; the client says HELLO,
      which starts the endpoints `anew`; or a datagram that is not the current link's reaches the session
      (`atSession`) or the client. */
  datatype Move =
    | UpMove(action: Transport.Step)
    | HubMove(step: Step)
    | Hello(anew: Transport.Link)
    | NetMove(action: Transport.Step)
    | ForeignMove(atSession: bool, bytes: Bytes)

  /** What a step of the switcher's link hands to the upstream task. */
  function Handed(up: Transport.Link, step: Transport.Step): seq<Bytes> {
    if step.atLeft || !step.action.DeliverHere? then []
    else
      match DecodePacket(step.action.d.bytes)
      case Err(_) => []
      case Ok(packet) =>
        if !packet.header.flags.handshake && packet.header.flags.ackRequest
           && Reliable.Accepts(up.right.ep, packet.header.packetId)
        then NonEmpties([packet.payload])
        else []
  }

  /** The upstream task takes a payload only when it is done with the one before. The hub ingests through the
      switcher's link alone, and a session queues only what the hub gives it. A foreign datagram must not touch
      the endpoint it reaches: `Foreign.HarmlessIff` says which do. */
  ghost predicate CanMove(w: World, addr: Addr, m: Move) {
    match m
    case UpMove(step) => Transport.CanAct(w.up, step) && (Handed(w.up, step) != [] ==> UpstreamIdle(w.hub))
    case HubMove(step) => !step.Ingest? && step != Handshake(addr)
    case Hello(anew) => Transport.Init(anew, 1, 1)
    case NetMove(step) =>
      addr in w.hub.sessions && Transport.CanAct(w.link, step) && !(step.atLeft && step.action.QueuePayloads?)
    case ForeignMove(atSession, bytes) =>
      addr in w.hub.sessions && !TouchedBy(if atSession then w.link.left.ep else w.link.right.ep, bytes)
  }

  predicate UpstreamIdle(h: Hub) {
    h.unpublished == [] && !h.finishing
  }

  /** What a step gives to the client's session. */
  function Given(before: Hub, after: Hub, addr: Addr): seq<Bytes> {
    if addr in before.sessions && addr in after.sessions
       && |before.sessions[addr].queued| <= |after.sessions[addr].queued|
    then after.sessions[addr].queued[|before.sessions[addr].queued|..]
    else []
  }

  function QueueGiven(link: Transport.Link, payloads: seq<Bytes>): Transport.Link {
    Transport.Act(link, Transport.Step(true, Transport.QueuePayloads(payloads)))
  }

  /** A payload that the switcher's link hands over is ingested at once; every payload that a hub step gives to
      the session is queued on the session's endpoint in the same step. */
  ghost function MoveAfter(w: World, addr: Addr, m: Move): World
    requires Valid(w.hub.cache)
  {
    match m
    case UpMove(step) =>
      World(Transport.Act(w.up, step),
            if Handed(w.up, step) != [] then After(w.hub, Ingest(step.action.d.bytes)) else w.hub, w.link)
    case HubMove(step) =>
      var hub := After(w.hub, step);
      World(w.up, hub, QueueGiven(w.link, Given(w.hub, hub, addr)))
    case Hello(anew) =>
      World(w.up, After(w.hub, Handshake(addr)), if w.hub.connected && w.hub.cache.ready then anew else w.link)
    case NetMove(step) => w.(link := Transport.Act(w.link, step))
    case ForeignMove(atSession, bytes) =>
      w.(link := if atSession then Overhear(w.link, bytes) else Transport.Swap(Overhear(Transport.Swap(w.link), bytes)))
  }

  /** The cache is what ingesting everything the switcher's link handed over gives, and the client's link, if it
      has a session, has been queued what the session was given. */
  ghost predicate WorldInv(w: World, addr: Addr) {
    && HubInv(w.hub) && Transport.Inv(w.up)
    && Settled(w.hub) == IngestAll(EMPTY, w.up.right.delivered)
    && (addr in w.hub.sessions ==> LinkServes(w.link, w.hub.sessions[addr]))
  }

  ghost predicate LinkServes(link: Transport.Link, s: Session) {
    Transport.Inv(link) && link.left.queued == s.queued
  }

  lemma SessionAppends(s: Session, addr: Addr, e: UpstreamEvent, owner: Option<Addr>, dump: seq<Bytes>)
    ensures s.queued <= GivenEvent(s, addr, e, owner).queued
    ensures s.queued <= GivenDump(s, dump).queued && s.queued <= Opened(s, dump).queued
  {
    hide Receives, Reliable.Pack;
  }

  /** A living session's payloads only grow. */
  lemma StepAppends(h: Hub, step: Step, addr: Addr)
    requires Valid(h.cache) && addr in h.sessions && step != Handshake(addr) && step != TimedOut(addr)
    ensures var h' := After(h, step);
            addr in h'.sessions && h'.sessions[addr].queued == h.sessions[addr].queued + Given(h, h', addr)
  {
    hide Valid, Dump, GivenEvent, GivenDump, Opened, Ingested, StateChunk, EventsOf, SawReady, DecodePacket;
    var s, h' := h.sessions[addr], After(h, step);
    match step
    case Deliver(owner) =>
      if h.task.Holding? {
        SessionAppends(s, addr, h.task.event, owner, []);
      } else if h.task.Resync? {
        SessionAppends(s, addr, Connected, owner, h.task.dump);
      }
    case Acked(a) => SessionAppends(s, addr, Connected, None, Dump(h.cache));
    case Handshake(a) => assert a != addr;
    case TimedOut(a) => assert a != addr;
    case _ =>
  }

  lemma QueueingKeeps(link: Transport.Link, payloads: seq<Bytes>)
    requires Transport.Inv(link)
    ensures var t := Transport.Act(link, Transport.Step(true, Transport.QueuePayloads(payloads)));
            Transport.Inv(t) && t.left.queued == link.left.queued + payloads
  {
    Transport.StepKeeps(link, Transport.Step(true, Transport.QueuePayloads(payloads)));
    hide Transport.Inv;
  }

  lemma OthersQueueNothing(link: Transport.Link, step: Transport.Step)
    requires Transport.Inv(link) && Transport.CanAct(link, step) && !(step.atLeft && step.action.QueuePayloads?)
    ensures Transport.Inv(Transport.Act(link, step)) && Transport.Act(link, step).left.queued == link.left.queued
  {
    hide Transport.Inv, Transport.PollSent, Transport.PollAt, Transport.Receive, Transport.ReceiveReply,
      Transport.QueueAt, Transport.CanAct;
    Transport.StepKeeps(link, step);
    if step.atLeft && step.action.PollNow? {
      QueuedOutsidePoll(link.left, step.action.now, step.action.clock);
    } else if step.atLeft && step.action.DeliverHere? {
      QueuedOutsideReceive(link.left, step.action.d.bytes);
    }
  }

  lemma QueuedOutsideReceive(p: Transport.Peer, bytes: Bytes)
    ensures Transport.Receive(p, bytes).queued == p.queued
  {
    hide DecodePacket;
  }

  lemma QueuedOutsidePoll(p: Transport.Peer, now: nat, clock: nat)
    ensures Transport.PollAt(p, now, clock).queued == p.queued
  {
    hide Reliable.DataPacket;
    Progress.FillEffect(Transport.ResendAt(p, now), now);
  }

  // ---------------------------------------------------------------- every move keeps the invariant

  lemma HandsOver(up: Transport.Link, step: Transport.Step)
    requires Transport.Inv(up) && Transport.CanAct(up, step)
    ensures Transport.Inv(Transport.Act(up, step))
    ensures Transport.Act(up, step).right.delivered == up.right.delivered + Handed(up, step)
  {
    hide Transport.Inv, Transport.PollSent, Transport.PollAt, Transport.Receive, Transport.ReceiveReply, Handed;
    Transport.StepKeeps(up, step);
    HandedNothing(up, step);
    if !step.atLeft && step.action.PollNow? {
      DeliveredOutsidePoll(up.right, step.action.now, step.action.clock);
    } else if !step.atLeft && step.action.DeliverHere? {
      DeliveredByReceive(up, step);
    }
    assert up.right.delivered + [] == up.right.delivered;
  }

  lemma HandedNothing(up: Transport.Link, step: Transport.Step)
    ensures step.atLeft || !step.action.DeliverHere? ==> Handed(up, step) == []
  {
  }

  lemma DeliveredOutsidePoll(p: Transport.Peer, now: nat, clock: nat)
    ensures Transport.PollAt(p, now, clock).delivered == p.delivered
  {
    hide Reliable.DataPacket;
    FillKeepsDelivered(Transport.ResendAt(p, now), now);
  }

  lemma {:induction false} FillKeepsDelivered(p: Transport.Peer, now: nat)
    ensures Transport.FillAt(p, now).delivered == p.delivered
    decreases |p.ep.outbound|
  {
    hide Reliable.DataPacket;
    if Reliable.CanFill(p.ep) {
      FillKeepsDelivered(Transport.TransmitNextAt(p, now), now);
    }
  }

  lemma DeliveredByReceive(up: Transport.Link, step: Transport.Step)
    requires !step.atLeft && step.action.DeliverHere?
    ensures Transport.Receive(up.right, step.action.d.bytes).delivered == up.right.delivered + Handed(up, step)
  {
    hide DecodePacket, NonEmpties, Reliable.DropCovered;
    assert up.right.delivered + [] == up.right.delivered;
  }

  /** A payload that is handed over is the one that the hub ingests. */
  lemma HandedIsLogged(w: World, step: Transport.Step)
    requires Handed(w.up, step) != [] && UpstreamIdle(w.hub)
    ensures Handed(w.up, step) == LoggedBy(w.hub, Ingest(step.action.d.bytes))
  {
    hide DecodePacket;
    var payload := DecodePacket(step.action.d.bytes).value.payload;
    NonEmptiesOf(payload);
  }

  lemma NonEmptiesOf(payload: Bytes)
    ensures NonEmpties([payload]) == if payload == [] then [] else [payload]
  {
    assert [payload][1..] == [];
  }

  lemma UpKeeps(w: World, addr: Addr, step: Transport.Step)
    requires WorldInv(w, addr) && CanMove(w, addr, UpMove(step))
    ensures Valid(w.hub.cache) && WorldInv(MoveAfter(w, addr, UpMove(step)), addr)
  {
    hide HubInv, After, Transport.Inv, Transport.Act, Transport.CanAct, Valid, Settled, IngestAll, Handed, LoggedBy,
      LinkServes, UpstreamIdle;
    InvIsValid(w.hub);
    HandsOver(w.up, step);
    HandedNothing(w.up, step);
    if Handed(w.up, step) == [] {
      assert w.up.right.delivered + [] == w.up.right.delivered;
    } else {
      var ingest := Ingest(step.action.d.bytes);
      HandedIsLogged(w, step);
      StepKeeps(w.hub, ingest);
      StepSettles(w.hub, ingest);
      IngestAllAppend(EMPTY, w.up.right.delivered, Handed(w.up, step));
      IngestGivesNothing(w.hub, step.action.d.bytes);
    }
  }

  lemma IngestGivesNothing(h: Hub, datagram: Bytes)
    requires Valid(h.cache)
    ensures After(h, Ingest(datagram)).sessions == h.sessions
  {
    hide Valid, DecodePacket, Ingested, StateChunk, EventsOf, SawReady;
  }

  /** Other steps leave the log alone. */
  lemma OnlyIngestLogs(h: Hub, step: Step)
    requires Valid(h.cache) && !step.Ingest?
    ensures Settled(After(h, step)) == Settled(h)
  {
    hide Valid, After, Settled;
    StepSettles(h, step);
    IngestNothing(Settled(h));
  }

  lemma StaysAway(h: Hub, step: Step, addr: Addr)
    requires Valid(h.cache) && step != Handshake(addr)
    ensures addr in After(h, step).sessions ==> addr in h.sessions && step != TimedOut(addr)
  {
    hide Valid, Dump, GivenEvent, GivenDump, Opened, Ingested, StateChunk, EventsOf, SawReady, DecodePacket;
    match step
    case Handshake(a) => assert a != addr;
    case TimedOut(a) => assert a == addr ==> addr !in After(h, step).sessions;
    case _ =>
  }

  lemma HubKeeps(w: World, addr: Addr, step: Step)
    requires WorldInv(w, addr) && CanMove(w, addr, HubMove(step))
    ensures Valid(w.hub.cache) && WorldInv(MoveAfter(w, addr, HubMove(step)), addr)
  {
    hide HubInv, After, Transport.Inv, Transport.Act, Given, Valid, Settled, IngestAll;
    InvIsValid(w.hub);
    StepKeeps(w.hub, step);
    OnlyIngestLogs(w.hub, step);
    StaysAway(w.hub, step, addr);
    if addr in After(w.hub, step).sessions {
      StepAppends(w.hub, step, addr);
      QueueingKeeps(w.link, Given(w.hub, After(w.hub, step), addr));
    }
  }

  lemma HelloKeeps(w: World, addr: Addr, anew: Transport.Link)
    requires WorldInv(w, addr) && Transport.Init(anew, 1, 1)
    ensures Valid(w.hub.cache) && WorldInv(MoveAfter(w, addr, Hello(anew)), addr)
  {
    hide HubInv, Transport.Inv, Valid, Settled, IngestAll;
    InvIsValid(w.hub);
    StepKeeps(w.hub, Handshake(addr));
    OnlyIngestLogs(w.hub, Handshake(addr));
    Transport.InitInv(anew, 1, 1);
  }

  lemma LinkKeeps(link: Transport.Link, s: Session, step: Transport.Step)
    requires LinkServes(link, s) && Transport.CanAct(link, step) && !(step.atLeft && step.action.QueuePayloads?)
    ensures LinkServes(Transport.Act(link, step), s)
  {
    hide Transport.Inv, Transport.Act, Transport.CanAct;
    OthersQueueNothing(link, step);
  }

  lemma ForeignKeeps(link: Transport.Link, s: Session, atSession: bool, bytes: Bytes)
    requires LinkServes(link, s) && !TouchedBy(if atSession then link.left.ep else link.right.ep, bytes)
    ensures LinkServes(if atSession then Overhear(link, bytes)
                       else Transport.Swap(Overhear(Transport.Swap(link), bytes)), s)
  {
    hide Transport.Inv, TouchedBy, Overhear;
    if atSession {
      OverhearKeeps(link, bytes);
    } else {
      Transport.InvSwap(link);
      OverhearKeeps(Transport.Swap(link), bytes);
      Transport.InvSwap(Overhear(Transport.Swap(link), bytes));
    }
  }

  lemma MoveKeeps(w: World, addr: Addr, m: Move)
    requires WorldInv(w, addr) && CanMove(w, addr, m)
    ensures Valid(w.hub.cache) && WorldInv(MoveAfter(w, addr, m), addr)
  {
    hide HubInv, After, Transport.Inv, Transport.Act, Transport.CanAct, Given, Valid, Settled, IngestAll, Handed,
      LinkServes, Overhear, TouchedBy, Transport.Init, UpstreamIdle;
    InvIsValid(w.hub);
    match m
    case UpMove(step) => UpKeeps(w, addr, step);
    case HubMove(step) => HubKeeps(w, addr, step);
    case Hello(anew) => HelloKeeps(w, addr, anew);
    case NetMove(step) => LinkKeeps(w.link, w.hub.sessions[addr], step);
    case ForeignMove(atSession, bytes) => ForeignKeeps(w.link, w.hub.sessions[addr], atSession, bytes);
  }

  ghost predicate CanMoveAll(w: World, addr: Addr, moves: seq<Move>)
    requires WorldInv(w, addr)
    decreases |moves|
  {
    hide WorldInv, CanMove, MoveAfter;
    moves == [] ||
    (CanMove(w, addr, moves[0]) &&
     (MoveKeeps(w, addr, moves[0]);
      CanMoveAll(MoveAfter(w, addr, moves[0]), addr, moves[1..])))
  }

  /** Any interleaving of all moves. */
  ghost function MoveAll(w: World, addr: Addr, moves: seq<Move>): (t: World)
    requires WorldInv(w, addr) && CanMoveAll(w, addr, moves)
    ensures WorldInv(t, addr)
    decreases |moves|
  {
    hide WorldInv, CanMove, MoveAfter;
    if moves == [] then w
    else
      MoveKeeps(w, addr, moves[0]);
      MoveAll(MoveAfter(w, addr, moves[0]), addr, moves[1..])
  }

  /** The proxy has just connected to the switcher: the hub is empty and nobody has a session. */
  ghost predicate Begins(w: World, leftStart: nat, rightStart: nat) {
    w.hub == START && Transport.Init(w.up, leftStart, rightStart)
  }

  lemma BeginInv(w: World, addr: Addr, leftStart: nat, rightStart: nat)
    requires Begins(w, leftStart, rightStart)
    ensures WorldInv(w, addr)
  {
    hide HubInv, Transport.Inv;
    StartInv();
    Transport.InitInv(w.up, leftStart, rightStart);
    IngestNothing(EMPTY);
  }

  /** `t` is reached from a beginning by these moves. */
  ghost predicate Leads(w: World, leftStart: nat, rightStart: nat, addr: Addr, moves: seq<Move>, t: World) {
    Begins(w, leftStart, rightStart) &&
    (BeginInv(w, addr, leftStart, rightStart);
     CanMoveAll(w, addr, moves) && MoveAll(w, addr, moves) == t)
  }

  lemma LeadsInv(w: World, leftStart: nat, rightStart: nat, addr: Addr, moves: seq<Move>, t: World)
    requires Leads(w, leftStart, rightStart, addr, moves, t)
    ensures WorldInv(t, addr)
  {
    hide WorldInv, Begins;
    BeginInv(w, addr, leftStart, rightStart);
  }

  // ---------------------------------------------------------------- the theorems

  lemma UncutPrefix(w: World, addr: Addr)
    requires WorldInv(w, addr) && addr in w.hub.sessions
    ensures Transport.IsPrefix(w.link.right.delivered, NonEmpties(w.hub.sessions[addr].queued))
    ensures w.link.left.ep.outbound == [] && w.link.right.expected == |w.link.left.log| ==>
              w.link.right.delivered == NonEmpties(w.hub.sessions[addr].queued)
  {
    hide HubInv, AllFit, NonEmpties, Transport.IsPrefix, Transport.Deliverable, Transport.SendSide,
      Transport.ReceiveSide, Transport.Genuine, IngestAll, Settled;
    SessionsFit(w.hub, addr);
    FittingArriveUncut(w.hub.sessions[addr].queued);
    Transport.DeliveredPrefix(w.link.left, w.link.right);
  }

  /** The copy is the cache, and under each key it holds the last cacheable command that the switcher's link handed
      over with that key, and nothing else. */
  ghost predicate HoldsTheLog(payloads: seq<Bytes>, w: World) {
    && CaughtUp(payloads, w.hub.cache)
    && forall key :: Lookup(IngestAll(EMPTY, payloads).slots, key) == LastRaw(LogOf(w.up.right.delivered), key)
  }

  lemma CaughtUpHoldsTheLog(w: World, addr: Addr, payloads: seq<Bytes>)
    requires WorldInv(w, addr) && CaughtUp(payloads, w.hub.cache)
    ensures HoldsTheLog(payloads, w)
  {
    hide HubInv, Transport.Inv, IngestAll, LastRaw, LogOf, FirstSeenOrder, Valid, Lookup, Distinct, LinkServes;
    CacheRefinesPayloads(w.up.right.delivered);
    assert Settled(w.hub).slots == w.hub.cache.slots;
  }

  /** From the switcher to the client, everything running together from the start, with any losses, duplicates and
      reorderings on both links, any number of HELLOs and timeouts, overflows of the channel, and foreign datagrams
      that do not touch: what was ingested is a prefix of what the switcher queued; a client with a session has been
      handed, once and in order, a prefix of the non-empty payloads it was given, none of them cut; and when the hub
      is quiet and nothing is missing, the client's copy is the cache and holds the log. */
  lemma LateJoinerCatchesUp(w: World, leftStart: nat, rightStart: nat, addr: Addr, moves: seq<Move>, t: World)
    requires Leads(w, leftStart, rightStart, addr, moves, t)
    ensures Transport.IsPrefix(t.up.right.delivered, Transport.Deliverable(t.up.left.queued))
    ensures addr in t.hub.sessions ==>
              && Transport.IsPrefix(t.link.right.delivered, NonEmpties(t.hub.sessions[addr].queued))
              && (Quiet(t.hub) && t.hub.sessions[addr].isOpen
                  && t.link.left.ep.outbound == [] && t.link.right.expected == |t.link.left.log| ==>
                    HoldsTheLog(t.link.right.delivered, t))
  {
    hide HubInv, Quiet, CaughtUp, HoldsTheLog, Transport.SendSide, Transport.ReceiveSide, Transport.Genuine,
      Transport.IsPrefix, Transport.Deliverable, NonEmpties, Leads, IngestAll, Settled, LinkServes;
    LeadsInv(w, leftStart, rightStart, addr, moves, t);
    Transport.DeliveredPrefix(t.up.left, t.up.right);
    if addr in t.hub.sessions {
      UncutPrefix(t, addr);
      if Quiet(t.hub) && t.hub.sessions[addr].isOpen {
        QuietCaughtUp(t.hub, addr);
        DeliveredCatchesUp(t.hub.sessions[addr].queued, t.hub.cache);
        CaughtUpHoldsTheLog(t, addr, NonEmpties(t.hub.sessions[addr].queued));
      }
    }
  }

  /** And with nothing lost from some moment on it gets there in bounded time: whatever was lost before, once
      the hub is quiet, 1 + ceil(n / maxInFlight) lossless rounds make the client's copy the cache, unless the
      link is silent with something queued. */
  lemma LateJoinerCatchesUpInRounds(w: World, addr: Addr, times: seq<Progress.RoundTime>)
    requires WorldInv(w, addr) && Quiet(w.hub) && IsOpenAt(w.hub, addr)
    requires !(Progress.Silent(w.link) && w.link.left.ep.outbound != [])
    requires w.link.left.ep.config.maxInFlight >= 1 && times != []
    requires Progress.Ready(w.link.left, times[0].leftNow) && Progress.AckReady(w.link.right, times[0].rightClock)
    requires Progress.Spaced(times, w.link.right.ep.config.ackCoalesceAfter)
    requires w.link.left.ep.config.maxInFlight * (|times| - 1) >= |w.link.left.ep.outbound|
    ensures HoldsTheLog(Progress.Rounds(w.link, times).right.delivered, w)
  {
    hide HubInv, IsOpenAt, Quiet, CaughtUp, AllFit, Transport.Inv, Transport.Deliverable, NonEmpties, Progress.Rounds,
      Progress.AckReady, Progress.Spaced, Progress.Silent, Progress.Ready, IngestAll, Settled, HoldsTheLog;
    OpenIsThere(w.hub, addr);
    SessionsFit(w.hub, addr);
    FittingArriveUncut(w.hub.sessions[addr].queued);
    Progress.DeliversEventuallyIff(w.link, times);
    Progress.DrainsInRounds(w.link, times);
    QuietCaughtUp(w.hub, addr);
    DeliveredCatchesUp(w.hub.sessions[addr].queued, w.hub.cache);
    CaughtUpHoldsTheLog(w, addr, NonEmpties(w.hub.sessions[addr].queued));
  }

  lemma OpenIsThere(h: Hub, addr: Addr)
    requires IsOpenAt(h, addr)
    ensures addr in h.sessions
  {
  }
}
