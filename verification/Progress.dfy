/** What the transport does get done when the network lets it: staleness, resynchronisation after
    loss, and draining of a queue in lossless rounds. */
module Progress {
  import opened Wire
  import opened Packets
  import opened Reliable
  import opened Transport

  // ---------------------------------------------------------------- staleness

  /** Send times never decrease along the window, and none is later than `t`. */
  predicate TimesOrdered(window: seq<InFlightEntry>, t: nat) {
    && (forall i, j :: 0 <= i < j < |window| ==> window[i].sentAt <= window[j].sentAt)
    && (forall i :: 0 <= i < |window| ==> window[i].sentAt <= t)
  }

  /** Testing only the front entry misses no stale entry, and a stale window is resent whole. */
  lemma FrontTestIsEnough(e: Endpoint, t: nat, now: nat, clock: nat)
    requires TimesOrdered(e.inFlight, t)
    ensures WindowStale(e, now) <==>
            exists i :: 0 <= i < |e.inFlight| && Elapsed(now, e.inFlight[i].sentAt) >= e.config.retransmitAfter
    ensures WindowStale(e, now) ==>
              |PollOut(e, now, clock)| >= |e.inFlight|
              && PollOut(e, now, clock)[..|e.inFlight|] == ResentBytes(e.inFlight)
  {
    if WindowStale(e, now) {
      assert Elapsed(now, e.inFlight[0].sentAt) >= e.config.retransmitAfter;
    }
  }

  lemma {:induction false} DropKeepsTimes(window: seq<InFlightEntry>, ackId: u16, t: nat)
    requires TimesOrdered(window, t)
    ensures TimesOrdered(DropCovered(window, ackId), t)
    decreases |window|
  {
    if window != [] {
      DropKeepsTimes(window[1..], ackId, t);
    }
  }

  lemma {:induction false} FillKeepsTimes(e: Endpoint, t: nat, now: nat)
    requires TimesOrdered(e.inFlight, t) && t <= now
    ensures TimesOrdered(Fill(e, now).inFlight, now)
    decreases |e.outbound|
  {
    if CanFill(e) {
      FillKeepsTimes(TransmitNext(e, now), now, now);
    }
  }

  lemma PollKeepsTimes(e: Endpoint, t: nat, now: nat, clock: nat)
    requires TimesOrdered(e.inFlight, t) && t <= now
    ensures TimesOrdered(Poll(e, now, clock).inFlight, now)
  {
    FillKeepsTimes(Resend(e, now), now, now);
  }

  /** The time of the last poll on one side, `t` being the time before the run. */
  function LastPoll(steps: seq<Step>, atLeft: bool, t: nat): nat
    decreases |steps|
  {
    if steps == [] then t
    else
      var s := steps[0];
      LastPoll(steps[1..], atLeft, if s.atLeft == atLeft && s.action.PollNow? then s.action.now else t)
  }

  /** Each side's poll times do not decrease along the run. */
  predicate MonotoneTime(steps: seq<Step>, left: nat, right: nat)
    decreases |steps|
  {
    steps == []
    || (var s := steps[0];
        && (s.action.PollNow? ==> s.action.now >= if s.atLeft then left else right)
        && MonotoneTime(steps[1..], if s.atLeft && s.action.PollNow? then s.action.now else left,
                        if !s.atLeft && s.action.PollNow? then s.action.now else right))
  }

  lemma StepKeepsTimes(s: Link, step: Step, left: nat, right: nat)
    requires TimesOrdered(s.left.ep.inFlight, left) && TimesOrdered(s.right.ep.inFlight, right)
    requires step.action.PollNow? ==> step.action.now >= if step.atLeft then left else right
    ensures var t := Act(s, step);
            && TimesOrdered(t.left.ep.inFlight,
                            if step.atLeft && step.action.PollNow? then step.action.now else left)
            && TimesOrdered(t.right.ep.inFlight,
                            if !step.atLeft && step.action.PollNow? then step.action.now else right)
  {
    hide Poll, PollAt, PollSent, DropCovered, DecodePacket, ReceiveReply;
    var mine, time := if step.atLeft then s.left else s.right, if step.atLeft then left else right;
    match step.action
    case PollNow(now, clock) =>
      PollAtIsPoll(mine, now, clock);
      PollKeepsTimes(mine.ep, time, now, clock);
    case DeliverHere(d) =>
      if DecodePacket(d.bytes).Ok? {
        DropKeepsTimes(mine.ep.inFlight, DecodePacket(d.bytes).value.header.ackId, time);
      }
    case _ =>
  }

  /** Under monotone time, no run puts the windows out of order. */
  lemma {:induction false} RunKeepsTimes(s: Link, steps: seq<Step>, left: nat, right: nat)
    requires TimesOrdered(s.left.ep.inFlight, left) && TimesOrdered(s.right.ep.inFlight, right)
    requires MonotoneTime(steps, left, right)
    ensures TimesOrdered(Run(s, steps).left.ep.inFlight, LastPoll(steps, true, left))
    ensures TimesOrdered(Run(s, steps).right.ep.inFlight, LastPoll(steps, false, right))
    decreases |steps|
  {
    if steps != [] {
      var step := steps[0];
      StepKeepsTimes(s, step, left, right);
      RunKeepsTimes(Act(s, step), steps[1..],
                    if step.atLeft && step.action.PollNow? then step.action.now else left,
                    if !step.atLeft && step.action.PollNow? then step.action.now else right);
    }
  }

  /** Over any run from the handshake under monotone time: a later poll resends the window, all of it,
      exactly when some entry of it is stale. */
  lemma RunResendsWhatIsStale(s: Link, steps: seq<Step>, leftStart: nat, rightStart: nat, now: nat)
    requires Init(s, leftStart, rightStart) && MonotoneTime(steps, 0, 0)
    requires now >= LastPoll(steps, true, 0)
    ensures var e := Run(s, steps).left.ep;
            && ResendOut(e, now)
               == (if exists i :: 0 <= i < |e.inFlight| && Elapsed(now, e.inFlight[i].sentAt) >= e.config.retransmitAfter
                   then ResentBytes(e.inFlight) else [])
            && TimesOrdered(Poll(e, now, 0).inFlight, now)
  {
    hide Run, Poll, PollOut, ResentBytes, MonotoneTime, LastPoll;
    RunKeepsTimes(s, steps, 0, 0);
    var e := Run(s, steps).left.ep;
    FrontTestIsEnough(e, LastPoll(steps, true, 0), now, 0);
    PollKeepsTimes(e, LastPoll(steps, true, 0), now, 0);
  }

  // ---------------------------------------------------------------- delivering a whole poll

  /** Every datagram of `ds` reaches the left peer once, in order. */
  function DeliverAll(s: Link, ds: seq<Datagram>): Link
    decreases |ds|
  {
    if ds == [] then s else DeliverAll(ActLeft(s, DeliverHere(ds[0])), ds[1..])
  }

  /** The number expected after receiving `ds`, from `e`. */
  function Advance(ds: seq<Datagram>, e: nat): nat
    decreases |ds|
  {
    if ds == [] then e else Advance(ds[1..], AdvanceOne(ds[0], e))
  }

  function AdvanceOne(d: Datagram, e: nat): (r: nat)
    ensures r >= e
  {
    if d.Data? && d.abs == e then e + 1 else e
  }

  /** The front of the window after the acknowledgements in `ds`, from `f`. */
  function AckAdvance(ds: seq<Datagram>, f: nat): nat
    decreases |ds|
  {
    if ds == [] then f else AckAdvance(ds[1..], AckAdvanceOne(ds[0], f))
  }

  function AckAdvanceOne(d: Datagram, f: nat): (r: nat)
    ensures r >= f
  {
    if d.Ack? && d.abs >= f then d.abs + 1 else f
  }

  lemma {:induction false} AdvanceAppend(a: seq<Datagram>, b: seq<Datagram>, e: nat)
    ensures Advance(a + b, e) == Advance(b, Advance(a, e))
    decreases |a|
  {
    if a == [] {
      assert a + b == b;
    } else {
      assert (a + b)[1..] == a[1..] + b;
      AdvanceAppend(a[1..], b, AdvanceOne(a[0], e));
    }
  }

  lemma {:induction false} AckAdvanceAtLeast(ds: seq<Datagram>, f: nat)
    ensures AckAdvance(ds, f) >= f
    ensures forall d :: d in ds && d.Ack? ==> AckAdvance(ds, f) > d.abs
    decreases |ds|
  {
    if ds != [] {
      AckAdvanceAtLeast(ds[1..], AckAdvanceOne(ds[0], f));
    }
  }

  /** `ds` is data numbered `from`, `from + 1`, ... */
  predicate Numbered(ds: seq<Datagram>, from: nat) {
    forall i :: 0 <= i < |ds| ==> ds[i].Data? && ds[i].abs == from + i
  }

  lemma {:induction false} AdvanceNumbered(ds: seq<Datagram>, from: nat, e: nat)
    requires Numbered(ds, from) && from <= e <= from + |ds|
    ensures Advance(ds, e) == from + |ds|
    decreases |ds|
  {
    if ds != [] {
      assert ds[0].abs == from + 0;
      assert Numbered(ds[1..], from + 1) by {
        forall i | 0 <= i < |ds[1..]|
          ensures ds[1..][i].Data? && ds[1..][i].abs == from + 1 + i
        {
          assert ds[1..][i] == ds[i + 1];
        }
      }
      AdvanceNumbered(ds[1..], from + 1, AdvanceOne(ds[0], e));
    }
  }

  /** Recent datagrams that the right peer has sent. */
  predicate Recent(s: Link, ds: seq<Datagram>) {
    forall d :: d in ds ==>
      && d in s.rtl
      && (d.Data? ==> |s.right.log| - d.abs <= MAX_PACKET_ID - 1)
      && (d.Ack? ==> |s.left.log| - d.abs <= MAX_PACKET_ID - ACK_WINDOW)
  }

  /** From `s` to `t` the left peer only received: what it sent and queued is as before, it now
      expects `expected`, its window starts at `front`, and accepting data made an ack pending. */
  predicate Received(s: Link, t: Link, expected: nat, front: nat) {
    && Inv(t)
    && t.right == s.right && t.rtl == s.rtl
    && t.left.log == s.left.log && t.left.queued == s.left.queued
    && t.left.ep.outbound == s.left.ep.outbound && t.left.ep.config == s.left.ep.config
    && t.left.expected == expected >= s.left.expected && Front(t.left) == front
    && t.left.ep.ack.lastAckSentAt == s.left.ep.ack.lastAckSentAt
    && (if expected > s.left.expected then t.left.ep.ack.packetsSinceAck > 0 && t.left.ep.ack.highestRecv.Some?
        else t.left.ep.ack == s.left.ep.ack)
  }

  lemma ReceivedData(s: Link, d: Datagram)
    requires Inv(s) && d in s.rtl && d.Data? && InTime(s, d)
    ensures Received(s, ActLeft(s, DeliverHere(d)), AdvanceOne(d, s.left.expected), Front(s.left))
  {
    hide Inv, Receive, ReceiveReply, InTime;
    ReceiveDataKeeps(s, d);
    DataReceivedAt(s, d);
  }

  lemma DataReceivedAt(s: Link, d: Datagram)
    requires Inv(s) && d in s.rtl && d.Data? && InTime(s, d)
    ensures var p, p' := s.left, Receive(s.left, d.bytes);
            && p'.log == p.log && p'.queued == p.queued && p'.ep.inFlight == p.ep.inFlight
            && p'.ep.outbound == p.ep.outbound && p'.ep.config == p.ep.config
            && p'.expected == AdvanceOne(d, p.expected)
            && p'.ep.ack.lastAckSentAt == p.ep.ack.lastAckSentAt
            && (if p'.expected > p.expected then p'.ep.ack.packetsSinceAck > 0 && p'.ep.ack.highestRecv.Some?
                else p'.ep.ack == p.ep.ack)
  {
    hide Receive, ReceiveReply, NonEmpties, RetransmitRequest, WireId, InTime, SendSide, Genuine;
    ReceiveDataEffect(s, d);
  }

  lemma AckReceivedAt(s: Link, d: Datagram)
    requires Inv(s) && d in s.rtl && d.Ack? && InTime(s, d)
    ensures var p, p' := s.left, Receive(s.left, d.bytes);
            && p' == p.(ep := p.ep.(inFlight := p'.ep.inFlight))
            && Front(p') == AckAdvanceOne(d, Front(p))
  {
    ReceiveAckEffect(s, d);
    assert Proper(d, s.right.log, s.right.expected) && SendSide(s.left);
    hide Inv, Receive, ReceiveReply, Proper, SendSide;
  }

  lemma ReceivedAck(s: Link, d: Datagram)
    requires Inv(s) && d in s.rtl && d.Ack? && InTime(s, d)
    ensures Received(s, ActLeft(s, DeliverHere(d)), s.left.expected, AckAdvanceOne(d, Front(s.left)))
  {
    hide Inv, Receive, ReceiveReply, Front, InTime, AckAdvanceOne;
    ReceiveAckKeeps(s, d);
    AckReceivedAt(s, d);
  }

  lemma ReceivedRequest(s: Link, d: Datagram)
    requires Inv(s) && d in s.rtl && d.Request?
    ensures Received(s, ActLeft(s, DeliverHere(d)), s.left.expected, Front(s.left))
  {
    ReceiveRequestKeeps(s, d);
    assert CarriesRequest(d.bytes);
  }

  lemma ReceivedNext(s: Link, d: Datagram)
    requires Inv(s) && Recent(s, [d])
    ensures CanActLeft(s, DeliverHere(d))
    ensures Received(s, ActLeft(s, DeliverHere(d)), AdvanceOne(d, s.left.expected),
                     AckAdvanceOne(d, Front(s.left)))
  {
    assert d in [d];
    match d
    case Data(_, _) => ReceivedData(s, d);
    case Ack(_, _) => ReceivedAck(s, d);
    case Request(_) => ReceivedRequest(s, d);
  }

  lemma RecentAfter(s: Link, t: Link, ds: seq<Datagram>)
    requires ds != [] && Recent(s, ds)
    requires t.right == s.right && t.rtl == s.rtl && t.left.log == s.left.log
    ensures Recent(t, ds[1..])
  {
  }

  lemma ReceivedThen(s: Link, t: Link, u: Link, e1: nat, f1: nat, e2: nat, f2: nat)
    requires Received(s, t, e1, f1) && Received(t, u, e2, f2)
    ensures Received(s, u, e2, f2)
  {
  }

  lemma ReceivedNothing(s: Link)
    requires Inv(s)
    ensures Received(s, s, s.left.expected, Front(s.left))
  {
  }

  /** Receiving a list of datagrams has the effect of its numbers, whatever the bytes. */
  lemma {:induction false} ReceivedAll(s: Link, ds: seq<Datagram>)
    requires Inv(s) && Recent(s, ds)
    ensures Received(s, DeliverAll(s, ds), Advance(ds, s.left.expected), AckAdvance(ds, Front(s.left)))
    decreases |ds|
  {
    if ds == [] {
      ReceivedNothing(s);
    } else {
      ReceivedNext(s, ds[0]);
      var next := ActLeft(s, DeliverHere(ds[0]));
      RecentAfter(s, next, ds);
      ReceivedAll(next, ds[1..]);
      ReceivedThen(s, next, DeliverAll(next, ds[1..]), next.left.expected, Front(next.left),
                   Advance(ds[1..], next.left.expected), AckAdvance(ds[1..], Front(next.left)));
    }
  }

  // ---------------------------------------------------------------- what a poll sends

  lemma {:induction false} FillEffect(p: Peer, now: nat)
    ensures var k := Max(0, Min(p.ep.config.maxInFlight - |p.ep.inFlight|, |p.ep.outbound|));
            var q := FillAt(p, now);
            && |q.log| == |p.log| + k && |q.ep.inFlight| == |p.ep.inFlight| + k
            && q.ep.outbound == p.ep.outbound[k..]
            && |FillSent(p, now)| == k && Numbered(FillSent(p, now), |p.log|)
            && q.ep.ack == p.ep.ack && q.expected == p.expected && q.ep.config == p.ep.config
            && q.queued == p.queued
    decreases |p.ep.outbound|
  {
    if CanFill(p.ep) {
      FillEffect(TransmitNextAt(p, now), now);
    }
  }

  lemma {:induction false} AdvanceWithoutData(ds: seq<Datagram>, e: nat)
    requires forall d :: d in ds ==> !d.Data?
    ensures Advance(ds, e) == e
    decreases |ds|
  {
    if ds != [] {
      AdvanceWithoutData(ds[1..], e);
    }
  }

  /** The four parts of a poll, by number: resent data from the front of the window if it is stale,
      new data, an acknowledgement of the last id accepted, a ping. */
  lemma PollParts(p: Peer, now: nat, clock: nat)
    requires |p.ep.inFlight| <= |p.log|
    ensures var p1 := ResendAt(p, now); var p2 := FillAt(p1, now); var p3 := AckAt(p2, clock);
            && Numbered(ResendSent(p, now), Front(p))
            && |ResendSent(p, now)| == (if WindowStale(p.ep, now) then |p.ep.inFlight| else 0)
            && Numbered(FillSent(p1, now), |p.log|)
            && |p.log| + |FillSent(p1, now)| == |p2.log| == |p3.log|
            && Numbered(PingSent(p3, now), |p2.log|)
            && |p2.log| + |PingSent(p3, now)| == |PollAt(p, now, clock).log|
            && |PollAt(p, now, clock).ep.inFlight| - |p.ep.inFlight| == |PollAt(p, now, clock).log| - |p.log|
            && forall d :: d in AckSentBy(p2, clock) ==> d.Ack? && d.abs + 1 >= p.expected
  {
    FillEffect(ResendAt(p, now), now);
    hide DataPacket, AckPacket, FillSent, FillAt;
  }

  /** The data of one poll, from a window that is empty or stale, is numbered from the front of the
      window to the last id in use after the poll. */
  lemma PollAdvances(p: Peer, now: nat, clock: nat, e: nat)
    requires |p.ep.inFlight| <= |p.log| && (p.ep.inFlight == [] || WindowStale(p.ep, now))
    requires Front(p) <= e <= |p.log|
    ensures Advance(PollSent(p, now, clock), e) == |PollAt(p, now, clock).log|
  {
    var p1 := ResendAt(p, now);
    var p2 := FillAt(p1, now);
    var p3 := AckAt(p2, clock);
    var r, f, a, g := ResendSent(p, now), FillSent(p1, now), AckSentBy(p2, clock), PingSent(p3, now);
    PollParts(p, now, clock);
    assert Front(p) + |r| == |p.log|;
    hide FillAt, FillSent, DataPacket, AckPacket;
    assert PollSent(p, now, clock) == r + f + a + g;
    hide Front, PollAt, PollSent, ResendSent, FillSent, AckSentBy, PingSent, Numbered, Advance;
    AdvanceNumbered(r, Front(p), e);
    AdvanceNumbered(f, |p.log|, |p.log|);
    AdvanceWithoutData(a, |p2.log|);
    AdvanceNumbered(g, |p2.log|, |p2.log|);
    AdvanceAppend(r, f, e);
    AdvanceAppend(r + f, a, e);
    AdvanceAppend(r + f + a, g, e);
  }

  lemma NumberedFrom(ds: seq<Datagram>, from: nat)
    requires Numbered(ds, from)
    ensures forall d :: d in ds ==> d.Data? && d.abs >= from
  {
  }

  /** A poll sends data from the front of the window on, and acknowledges the last id accepted. */
  lemma PollNumbers(p: Peer, now: nat, clock: nat)
    requires |p.ep.inFlight| <= |p.log|
    ensures Front(PollAt(p, now, clock)) == Front(p)
    ensures forall d :: d in PollSent(p, now, clock) ==>
              (d.Data? ==> d.abs >= Front(p)) && (d.Ack? ==> d.abs + 1 >= p.expected)
  {
    var p1 := ResendAt(p, now);
    var p2 := FillAt(p1, now);
    var p3 := AckAt(p2, clock);
    var r, f, a, g := ResendSent(p, now), FillSent(p1, now), AckSentBy(p2, clock), PingSent(p3, now);
    PollParts(p, now, clock);
    NumberedFrom(r, Front(p));
    NumberedFrom(f, |p.log|);
    NumberedFrom(g, |p2.log|);
    assert PollSent(p, now, clock) == r + f + a + g;
    hide PollAt, PollSent, ResendSent, FillSent, AckSentBy, PingSent, Numbered;
  }

  /** What a poll sends is recent for the peer it is sent to. */
  lemma PollIsRecent(s: Link, now: nat, clock: nat)
    requires Inv(s)
    ensures Recent(Swap(ActLeft(s, PollNow(now, clock))), PollSent(s.left, now, clock))
  {
    hide PollAt, PollSent, ReceiveSide, Genuine, IsEntry, Deliverable, NonEmpties, WireId;
    PollKeeps(s, now, clock);
    PollNumbers(s.left, now, clock);
    assert SendSide(PollAt(s.left, now, clock)) && SendSide(s.right);
  }

  // ---------------------------------------------------------------- resynchronisation

  /** The left peer polls and every datagram of the poll reaches the right peer, in order. */
  function PollAcross(s: Link, now: nat, clock: nat): Link {
    Swap(DeliverAll(Swap(ActLeft(s, PollNow(now, clock))), PollSent(s.left, now, clock)))
  }

  lemma PollAcrossEffect(s: Link, now: nat, clock: nat)
    requires Inv(s)
    ensures var sent := PollSent(s.left, now, clock);
            Received(Swap(ActLeft(s, PollNow(now, clock))), Swap(PollAcross(s, now, clock)),
                     Advance(sent, s.right.expected), AckAdvance(sent, Front(s.right)))
  {
    PollKeeps(s, now, clock);
    PollIsRecent(s, now, clock);
    ReceivedAll(Swap(ActLeft(s, PollNow(now, clock))), PollSent(s.left, now, clock));
  }

  /** After any loss, one fully delivered poll of a stale window brings the receiver level with the
      sender: it expects the sender's next id, and has been handed everything sent so far. */
  lemma Resynchronises(s: Link, now: nat, clock: nat)
    requires Inv(s) && (s.left.ep.inFlight == [] || WindowStale(s.left.ep, now))
    ensures var t := PollAcross(s, now, clock);
            && Inv(t)
            && t.left == PollAt(s.left, now, clock)
            && t.right.expected == |t.left.log|
            && t.right.ep.ack.expectedRecv == t.left.ep.nextSendId
            && (t.left.ep.outbound == [] ==> t.right.delivered == Deliverable(t.left.queued))
  {
    PollAcrossEffect(s, now, clock);
    PollAdvances(s.left, now, clock, s.right.expected);
    var t := PollAcross(s, now, clock);
    DeliveredPrefix(t.left, t.right);
  }

  // ---------------------------------------------------------------- draining a queue

  datatype RoundTime = RoundTime(leftNow: nat, leftClock: nat, rightNow: nat, rightClock: nat)

  /** A lossless round: the left peer polls and all of it arrives, then the right peer does. */
  function Round(s: Link, t: RoundTime): Link {
    Swap(PollAcross(Swap(PollAcross(s, t.leftNow, t.leftClock)), t.rightNow, t.rightClock))
  }

  /** By `clock` the coalescing delay since the last acknowledgement has passed. */
  predicate AckReady(p: Peer, clock: nat) {
    p.ep.ack.lastAckSentAt.Some? ==> p.ep.ack.lastAckSentAt.value + p.ep.config.ackCoalesceAfter <= clock
  }

  /** An acknowledgement will be sent as soon as the coalescing delay has passed. */
  predicate AckPending(p: Peer) {
    p.ep.ack.highestRecv.Some? && (p.ep.ack.packetsSinceAck > 0 || p.ep.config.ackCoalesceCount == 0)
  }

  /** Nothing is outstanding, or what is outstanding is about to be sent again. */
  predicate Ready(p: Peer, now: nat) {
    p.ep.inFlight == [] || WindowStale(p.ep, now)
  }

  /** The acknowledgement of everything in the left window has been sent and lost: all of it is accepted,
      no acknowledgement is pending, and there is no place or nothing left to send. Since a duplicate that
      is refused does not make an acknowledgement pending again, resending changes nothing. */
  predicate Silent(s: Link) {
    && s.left.ep.inFlight != [] && !CanFill(s.left.ep)
    && s.right.expected == |s.left.log| && !AckPending(s.right)
  }

  /** How many queued payloads the next poll sends. */
  function Room(e: Endpoint): nat {
    Max(0, Min(e.config.maxInFlight - |e.inFlight|, |e.outbound|))
  }

  /** What the next poll leaves in the queue. */
  function LeftQueued(e: Endpoint): (rest: seq<Bytes>)
    ensures |rest| == |e.outbound| - Room(e)
  {
    e.outbound[Room(e)..]
  }

  lemma PollFills(p: Peer, now: nat, clock: nat)
    requires |p.ep.inFlight| <= |p.log|
    ensures var q := PollAt(p, now, clock);
            && q.ep.outbound == LeftQueued(p.ep)
            && q.ep.config == p.ep.config && q.queued == p.queued
            && |q.log| >= |p.log| + Room(p.ep)
            && |q.ep.inFlight| - |p.ep.inFlight| == |q.log| - |p.log|
            && (p.ep.inFlight != [] ==> |q.log| == |p.log| + Room(p.ep))
  {
    PollParts(p, now, clock);
    FillEffect(ResendAt(p, now), now);
    hide FillAt, FillSent, DataPacket, AckPacket;
  }

  predicate HasAck(ds: seq<Datagram>, abs: nat) {
    exists d :: d in ds && d.Ack? && d.abs == abs
  }

  /** What a poll does to the receiving half: it acknowledges the last accepted id if that is due. */
  lemma PollAcknowledges(p: Peer, now: nat, clock: nat)
    requires AckReady(p, clock)
    ensures AckReady(PollAt(p, now, clock), clock + p.ep.config.ackCoalesceAfter)
    ensures PollAt(p, now, clock).expected == p.expected && PollAt(p, now, clock).ep.config == p.ep.config
    ensures AckPending(p) && p.expected > 0 ==> HasAck(PollSent(p, now, clock), p.expected - 1)
    ensures p.ep.config.ackCoalesceCount > 0 ==> !AckPending(PollAt(p, now, clock))
  {
    var p1 := ResendAt(p, now);
    FillEffect(p1, now);
    hide FillAt, FillSent, ResendSent, PingSent, DataPacket, AckPacket;
    var p2 := FillAt(p1, now);
    if AckPending(p) && p.expected > 0 {
      var a := Ack(p.expected - 1, AckPacket(p2.ep));
      assert AckSentBy(p2, clock) == [a];
      assert a in PollSent(p, now, clock);
    }
  }

  /** Half a round on: everything sent has been accepted, and if anything is still in the window an
      acknowledgement is pending. */
  predicate Midway(s: Link, clock: nat) {
    && Inv(s)
    && s.right.expected == |s.left.log|
    && AckReady(s.right, clock)
    && (s.left.ep.inFlight != [] ==> AckPending(s.right))
  }

  lemma FirstHalf(s: Link, now: nat, clock: nat, ackClock: nat)
    requires Inv(s) && Ready(s.left, now) && !Silent(s)
    requires AckReady(s.right, ackClock)
    ensures Midway(PollAcross(s, now, clock), ackClock)
    ensures var t := PollAcross(s, now, clock);
            && t.left == PollAt(s.left, now, clock) && t.right.ep.config == s.right.ep.config
  {
    hide PollAcross, PollAt, PollSent, Advance, AckAdvance, SendSide, Genuine, WindowStale;
    Resynchronises(s, now, clock);
    PollAcrossEffect(s, now, clock);
    SendsWithinLog(s.left, s.right, s.ltr);
    PollFills(s.left, now, clock);
  }

  lemma SendsWithinLog(p: Peer, other: Peer, net: set<Datagram>)
    requires Sound(p, other, net)
    ensures |p.ep.inFlight| <= |p.log|
  {
  }

  lemma SecondHalf(s: Link, now: nat, clock: nat)
    requires Midway(s, clock)
    ensures var t := Swap(PollAcross(Swap(s), now, clock));
            && Inv(t) && t.left.ep.inFlight == []
            && t.left.ep.outbound == s.left.ep.outbound && t.left.queued == s.left.queued
            && t.left.ep.config == s.left.ep.config && t.right.ep.config == s.right.ep.config
            && AckReady(t.right, clock + s.right.ep.config.ackCoalesceAfter)
  {
    PollAcrossEffect(Swap(s), now, clock);
    PollAcknowledges(s.right, now, clock);
    AckAdvanceAtLeast(PollSent(s.right, now, clock), Front(s.left));
    var t := Swap(PollAcross(Swap(s), now, clock));
    assert Front(t.left) >= |t.left.log|;
  }

  /** Unless the link is silent, one lossless round empties the window, whatever was lost before it, and
      takes as much of the queue across as the window had places for. */
  lemma RoundDrains(s: Link, t: RoundTime)
    requires Inv(s) && Ready(s.left, t.leftNow) && !Silent(s)
    requires AckReady(s.right, t.rightClock)
    ensures var u := Round(s, t);
            && Inv(u) && u.left.ep.inFlight == []
            && u.left.ep.outbound == LeftQueued(s.left.ep)
            && u.left.ep.config == s.left.ep.config && u.left.queued == s.left.queued
            && u.right.ep.config == s.right.ep.config
            && AckReady(u.right, t.rightClock + s.right.ep.config.ackCoalesceAfter)
  {
    hide PollAcross, PollAt, Silent, SendSide, Genuine, ReceiveSide, WindowStale, AckReady, Midway;
    FirstHalf(s, t.leftNow, t.leftClock, t.rightClock);
    SendsWithinLog(s.left, s.right, s.ltr);
    PollFills(s.left, t.leftNow, t.leftClock);
    SecondHalf(PollAcross(s, t.leftNow, t.leftClock), t.rightNow, t.rightClock);
  }

  // ---------------------------------------------------------------- silence

  lemma {:induction false} AdvanceBelow(ds: seq<Datagram>, e: nat)
    requires forall d :: d in ds && d.Data? ==> d.abs < e
    ensures Advance(ds, e) == e
    decreases |ds|
  {
    if ds != [] {
      assert ds[0] in ds;
      AdvanceBelow(ds[1..], e);
    }
  }

  lemma {:induction false} AckAdvanceWithoutAck(ds: seq<Datagram>, f: nat)
    requires forall d :: d in ds ==> !d.Ack?
    ensures AckAdvance(ds, f) == f
    decreases |ds|
  {
    if ds != [] {
      assert ds[0] in ds;
      AckAdvanceWithoutAck(ds[1..], f);
    }
  }

  /** With no acknowledgement pending a poll sends none and leaves it so. */
  lemma PollStaysSilent(p: Peer, now: nat, clock: nat)
    requires |p.ep.inFlight| <= |p.log| && !AckPending(p)
    ensures PollAt(p, now, clock).ep.ack == p.ep.ack && PollAt(p, now, clock).ep.config == p.ep.config
    ensures PollAt(p, now, clock).expected == p.expected
    ensures forall d :: d in PollSent(p, now, clock) ==> !d.Ack?
  {
    var p1 := ResendAt(p, now);
    var p2 := FillAt(p1, now);
    var p3 := AckAt(p2, clock);
    FillEffect(p1, now);
    PollParts(p, now, clock);
    var r, f, a, g := ResendSent(p, now), FillSent(p1, now), AckSentBy(p2, clock), PingSent(p3, now);
    hide FillAt, FillSent, ResendSent, PingSent, DataPacket, AckPacket;
    NumberedFrom(r, Front(p));
    NumberedFrom(f, |p.log|);
    NumberedFrom(g, |p2.log|);
    assert a == [];
    assert PollSent(p, now, clock) == r + f + a + g;
  }

  lemma SentBelowLog(s: Link, now: nat, clock: nat)
    requires Inv(s)
    ensures forall d :: d in PollSent(s.left, now, clock) && d.Data? ==> d.abs < |PollAt(s.left, now, clock).log|
  {
    hide PollAt, PollSent, SendSide, ReceiveSide, CarriesData, CarriesAck, CarriesRequest;
    PollKeeps(s, now, clock);
    forall d | d in PollSent(s.left, now, clock) && d.Data?
      ensures d.abs < |PollAt(s.left, now, clock).log|
    {
      assert d in ActLeft(s, PollNow(now, clock)).ltr;
    }
  }

  lemma PollKeepsLog(s: Link, now: nat, clock: nat)
    requires Inv(s) && |PollAt(s.left, now, clock).log| == |s.left.log|
    ensures PollAt(s.left, now, clock).log == s.left.log
  {
    hide PollAt, PollSent, SendSide, ReceiveSide, Genuine;
    PollPhase(s.left, s.right.log, now, clock);
    var log, log' := s.left.log, PollAt(s.left, now, clock).log;
    assert log'[..|log|] == log';
  }

  lemma SameDelivered(s: Link, t: Link)
    requires Inv(s) && Inv(t) && s.left.log == t.left.log && s.right.expected == t.right.expected
    ensures s.right.delivered == t.right.delivered
  {
  }

  /** The left half of a silent round: it resends at most, and nothing changes on the right. */
  lemma SilentFirstHalf(s: Link, now: nat, clock: nat)
    requires Inv(s) && Silent(s)
    ensures var t := PollAcross(s, now, clock);
            && Inv(t) && Silent(t) && t.left.log == s.left.log && t.left.queued == s.left.queued
            && t.left.ep.outbound == s.left.ep.outbound && t.left.ep.inFlight != [] && t.right.ep.ack == s.right.ep.ack
            && t.left.ep.config == s.left.ep.config && t.right.ep.config == s.right.ep.config
            && t.right.delivered == s.right.delivered
  {
    hide PollAcross, PollAt, PollSent, Advance, AckAdvance, SendSide, Genuine, ReceiveSide, NonEmpties, WireId;
    PollAcrossEffect(s, now, clock);
    SendsWithinLog(s.left, s.right, s.ltr);
    PollFills(s.left, now, clock);
    SentBelowLog(s, now, clock);
    PollKeepsLog(s, now, clock);
    AdvanceBelow(PollSent(s.left, now, clock), s.right.expected);
    var t := PollAcross(s, now, clock);
    SameDelivered(s, t);
  }

  /** The right half: no acknowledgement comes back. */
  lemma SilentSecondHalf(s: Link, now: nat, clock: nat)
    requires Inv(s) && Silent(s)
    ensures var t := Swap(PollAcross(Swap(s), now, clock));
            && Inv(t) && Silent(t) && t.left.log == s.left.log && t.left.queued == s.left.queued
            && t.left.ep.outbound == s.left.ep.outbound && t.right.delivered == s.right.delivered
            && t.left.ep.config == s.left.ep.config && t.right.ep.config == s.right.ep.config
  {
    hide PollAcross, PollAt, PollSent, Advance, AckAdvance, SendSide, Genuine, ReceiveSide, NonEmpties, WireId;
    PollAcrossEffect(Swap(s), now, clock);
    SendsWithinLog(s.left, s.right, s.ltr);
    SendsWithinLog(s.right, s.left, s.rtl);
    PollStaysSilent(s.right, now, clock);
    AckAdvanceWithoutAck(PollSent(s.right, now, clock), Front(s.left));
    var t := Swap(PollAcross(Swap(s), now, clock));
    SendsWithinLog(t.left, t.right, t.ltr);
    SameDelivered(s, t);
  }

  /** A silent link stays silent: however the two sides poll, with nothing lost, its queue stays. */
  lemma SilentRound(s: Link, t: RoundTime)
    requires Inv(s) && Silent(s)
    ensures var u := Round(s, t);
            && Inv(u) && Silent(u) && u.left.ep.outbound == s.left.ep.outbound && u.left.queued == s.left.queued
            && u.left.log == s.left.log && u.right.delivered == s.right.delivered
  {
    hide PollAcross, Silent;
    SilentFirstHalf(s, t.leftNow, t.leftClock);
    SilentSecondHalf(PollAcross(s, t.leftNow, t.leftClock), t.rightNow, t.rightClock);
  }

  /** So one lossless round empties the window exactly when the link is not silent. */
  lemma RoundEmptiesWindowIff(s: Link, t: RoundTime)
    requires Inv(s) && Ready(s.left, t.leftNow) && AckReady(s.right, t.rightClock)
    ensures Round(s, t).left.ep.inFlight == [] <==> !Silent(s)
  {
    hide Round, Inv, Ready, AckReady;
    if Silent(s) {
      SilentRound(s, t);
    } else {
      RoundDrains(s, t);
    }
  }

  lemma {:induction false} SilenceLasts(s: Link, times: seq<RoundTime>)
    requires Inv(s) && Silent(s)
    ensures var u := Rounds(s, times);
            && Inv(u) && Silent(u) && u.left.ep.outbound == s.left.ep.outbound && u.left.queued == s.left.queued
            && u.right.delivered == s.right.delivered
    decreases |times|
  {
    hide Round, Inv, Silent;
    if times != [] {
      SilentRound(s, times[0]);
      SilenceLasts(Round(s, times[0]), times[1..]);
    }
  }

  /** And silence happens: a full window arrives, more is queued, and the one acknowledgement is lost. */
  lemma SilenceReached(s: Link, now: nat, clock: nat, rightNow: nat, rightClock: nat)
    requires Inv(s) && s.left.ep.inFlight == [] && 1 <= s.left.ep.config.maxInFlight < |s.left.ep.outbound|
    requires s.right.ep.config.ackCoalesceCount > 0 && AckReady(s.right, rightClock)
    ensures var t := Swap(ActLeft(Swap(PollAcross(s, now, clock)), PollNow(rightNow, rightClock)));
            Inv(t) && Silent(t) && t.left.ep.outbound != []
  {
    hide PollAcross, PollAt, PollSent, SendSide, Genuine, ReceiveSide, AckReady, WindowStale;
    FirstHalf(s, now, clock, rightClock);
    SendsWithinLog(s.left, s.right, s.ltr);
    PollFills(s.left, now, clock);
    var m := PollAcross(s, now, clock);
    PollKeeps(Swap(m), rightNow, rightClock);
    PollAcknowledges(m.right, rightNow, rightClock);
  }

  // ---------------------------------------------------------------- rounds

  function Rounds(s: Link, times: seq<RoundTime>): Link
    decreases |times|
  {
    if times == [] then s else Rounds(Round(s, times[0]), times[1..])
  }

  /** Acknowledgements are due in every round: the first at once, each later one a coalescing delay
      after the one before. */
  predicate Spaced(times: seq<RoundTime>, gap: nat) {
    forall i :: 0 < i < |times| ==> times[i - 1].rightClock + gap <= times[i].rightClock
  }

  lemma SpacedRest(times: seq<RoundTime>, gap: nat)
    requires times != [] && Spaced(times, gap)
    ensures Spaced(times[1..], gap)
    ensures times[1..] != [] ==> times[0].rightClock + gap <= times[1..][0].rightClock
  {
    var rest := times[1..];
    forall i | 0 < i < |rest|
      ensures rest[i - 1].rightClock + gap <= rest[i].rightClock
    {
      assert rest[i - 1] == times[i] && rest[i] == times[i + 1];
    }
  }

  /** What `k` rounds of at most `w` payloads leave of `n`. */
  function Remaining(n: nat, w: nat, k: nat): nat {
    if k == 0 then n else Remaining(n - Min(w, n), w, k - 1)
  }

  lemma {:induction false} RemainingIs(n: nat, w: nat, k: nat)
    ensures Remaining(n, w, k) == Max(0, n - w * k)
    decreases k
  {
    if k > 0 {
      RemainingIs(n - Min(w, n), w, k - 1);
      assert w * k == w + w * (k - 1);
    }
  }

  lemma NextRound(s: Link, times: seq<RoundTime>)
    requires Inv(s) && times != [] && Ready(s.left, times[0].leftNow) && !Silent(s)
    requires AckReady(s.right, times[0].rightClock)
    requires Spaced(times, s.right.ep.config.ackCoalesceAfter)
    ensures var next, rest := Round(s, times[0]), times[1..];
            && Inv(next) && next.left.ep.inFlight == [] && next.left.queued == s.left.queued
            && next.left.ep.config == s.left.ep.config
            && next.left.ep.outbound == LeftQueued(s.left.ep)
            && (rest != [] ==> AckReady(next.right, rest[0].rightClock))
            && Spaced(rest, next.right.ep.config.ackCoalesceAfter)
  {
    hide Inv, Round, Spaced, Silent, Ready, Room;
    RoundDrains(s, times[0]);
    SpacedRest(times, s.right.ep.config.ackCoalesceAfter);
  }

  lemma {:induction false} RoundsDrain(s: Link, times: seq<RoundTime>)
    requires Inv(s) && s.left.ep.inFlight == [] && s.left.ep.config.maxInFlight >= 1
    requires times != [] ==> AckReady(s.right, times[0].rightClock)
    requires Spaced(times, s.right.ep.config.ackCoalesceAfter)
    ensures var u := Rounds(s, times);
            && Inv(u) && u.left.ep.inFlight == [] && u.left.queued == s.left.queued
            && |u.left.ep.outbound| == Remaining(|s.left.ep.outbound|, s.left.ep.config.maxInFlight, |times|)
    decreases |times|
  {
    hide Inv, Round, Spaced, AckReady;
    if times != [] {
      NextRound(s, times);
      RoundsDrain(Round(s, times[0]), times[1..]);
    }
  }

  lemma AllAccepted(s: Link)
    requires Inv(s) && s.left.ep.outbound == [] && (s.left.ep.inFlight == [] || Silent(s))
    ensures s.right.delivered == Deliverable(s.left.queued)
  {
    assert s.right.expected == |s.left.log|;
    DeliveredPrefix(s.left, s.right);
  }

  /** From any link that is about to send what is outstanding again, whatever was lost before, and with
      nothing lost from now on: the first round sends what the window has room for and every later one a
      full window, until the queue is empty; unless the link is silent, when the queue stays for ever. So
      everything queued is handed over within 1 + ceil(n / maxInFlight) rounds if and only if it is not
      silent with something queued. */
  lemma DrainsInRounds(s: Link, times: seq<RoundTime>)
    requires Inv(s) && s.left.ep.config.maxInFlight >= 1
    requires times != [] && Ready(s.left, times[0].leftNow) && AckReady(s.right, times[0].rightClock)
    requires Spaced(times, s.right.ep.config.ackCoalesceAfter)
    ensures var u, n, w := Rounds(s, times), |s.left.ep.outbound|, s.left.ep.config.maxInFlight;
            && (Silent(s) ==> u.left.ep.outbound == s.left.ep.outbound && u.right.delivered == s.right.delivered)
            && (!Silent(s) ==> (u.left.ep.outbound == [] <==> w * (|times| - 1) >= n - Room(s.left.ep)))
            && (u.left.ep.outbound == [] ==> u.right.delivered == Deliverable(s.left.queued))
  {
    hide Inv, Round, Ready, Spaced, AckReady, Silent;
    var u, w := Rounds(s, times), s.left.ep.config.maxInFlight;
    if Silent(s) {
      SilenceLasts(s, times);
    } else {
      NextRound(s, times);
      RoundsDrain(Round(s, times[0]), times[1..]);
      RemainingIs(|s.left.ep.outbound| - Room(s.left.ep), w, |times| - 1);
    }
    if u.left.ep.outbound == [] {
      AllAccepted(u);
    }
  }

  /** The same for some number of rounds, as many as one likes: everything queued can be delivered without
      a loss exactly when the link is not silent with something queued. */
  lemma DeliversEventuallyIff(s: Link, times: seq<RoundTime>)
    requires Inv(s) && s.left.ep.config.maxInFlight >= 1
    requires times != [] && Ready(s.left, times[0].leftNow) && AckReady(s.right, times[0].rightClock)
    requires Spaced(times, s.right.ep.config.ackCoalesceAfter)
    requires s.left.ep.config.maxInFlight * (|times| - 1) >= |s.left.ep.outbound|
    ensures Rounds(s, times).left.ep.outbound == [] <==> !(Silent(s) && s.left.ep.outbound != [])
    ensures Silent(s) && s.left.ep.outbound != [] ==> forall more :: Rounds(s, more).left.ep.outbound != []
  {
    hide Inv, Round, Rounds, Ready, Spaced, AckReady, Silent;
    DrainsInRounds(s, times);
    if Silent(s) {
      forall more
        ensures Rounds(s, more).left.ep.outbound == s.left.ep.outbound
      {
        SilenceLasts(s, more);
      }
    }
  }
}
