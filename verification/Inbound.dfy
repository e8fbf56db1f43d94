/** From a client to the switcher: the transport hands the client's payloads over once and in order, the filter lets
    its ordinary commands pass, so the switcher is sent each of them once and in order. */
module Inbound {
  import opened Wire
  import opened Commands
  import opened Cache
  import opened Locks
  import opened Filter
  import opened FanIn
  import opened Passing
  import Streams
  import Transport

  /** The filter's events for a list of payloads of one client. */
  function EventsOfPayloads(from: Addr, payloads: seq<Bytes>): seq<Event> {
    if payloads == [] then []
    else EventsOfPayloads(from, payloads[..|payloads| - 1]) + PayloadEvents(from, payloads[|payloads| - 1])
  }

  lemma {:induction false} CommandsOfEvents(a: seq<Event>, b: seq<Event>, n: nat)
    requires n <= |b|
    ensures ClientCommands(a + b, |a| + n) == ClientCommands(a, |a|) + ClientCommands(b, n)
    decreases n
  {
    if n == 0 {
      SameCommands(a + b, a, |a|);
      assert ClientCommands(a, |a|) + [] == ClientCommands(a, |a|);
    } else {
      CommandsOfEvents(a, b, n - 1);
      assert (a + b)[|a| + n - 1] == b[n - 1];
    }
  }

  lemma {:induction false} SameCommands(a: seq<Event>, b: seq<Event>, n: nat)
    requires n <= |a| && n <= |b| && a[..n] == b[..n]
    ensures ClientCommands(a, n) == ClientCommands(b, n)
    decreases n
  {
    if n > 0 {
      assert a[..n][n - 1] == b[..n][n - 1];
      assert a[..n - 1] == a[..n][..n - 1] && b[..n - 1] == b[..n][..n - 1];
      SameCommands(a, b, n - 1);
    }
  }

  lemma {:induction false} CommandsOfClient(from: Addr, cmds: seq<Command>, n: nat)
    requires n <= |cmds|
    ensures ClientCommands(ClientEvents(from, cmds), n) == cmds[..n]
    decreases n
  {
    if n > 0 {
      CommandsOfClient(from, cmds, n - 1);
      assert cmds[..n] == cmds[..n - 1] + [cmds[n - 1]];
    }
  }

  lemma CommandsOfPayload(from: Addr, payload: Bytes)
    ensures var run := PayloadEvents(from, payload);
            ClientCommands(run, |run|) == ParsedOrNone(payload) && WellFramed(run)
  {
    hide Parse, ClientEvents, Framed;
    if Parse(payload).Ok? {
      var cmds := Parse(payload).value;
      ParseIffFraming(payload, cmds);
      ParsedIsRun(Policy(Deny, Transfer.MediaConfig(false)), FRESH, from, cmds);
      CommandsOfClient(from, cmds, |cmds|);
      assert cmds[..|cmds|] == cmds;
    } else {
      assert ClientCommands([Raw(from, payload)], 0) == [];
    }
  }

  /** The commands of those events are the commands of the payloads, those that do not parse having none. */
  lemma {:induction false} EventsAreLog(from: Addr, payloads: seq<Bytes>)
    ensures var run := EventsOfPayloads(from, payloads);
            ClientCommands(run, |run|) == LogOf(payloads) && WellFramed(run)
    decreases |payloads|
  {
    hide PayloadEvents, ParsedOrNone, ClientCommands, WellFramed;
    if payloads == [] {
      NoEvents();
    } else {
      var rest, last := payloads[..|payloads| - 1], payloads[|payloads| - 1];
      EventsAreLog(from, rest);
      CommandsOfPayload(from, last);
      CommandsOfEvents(EventsOfPayloads(from, rest), PayloadEvents(from, last), |PayloadEvents(from, last)|);
      FramedTogether(EventsOfPayloads(from, rest), PayloadEvents(from, last));
    }
  }

  lemma NoEvents()
    ensures ClientCommands([], 0) == [] && WellFramed([])
  {
  }

  lemma FramedTogether(a: seq<Event>, b: seq<Event>)
    requires WellFramed(a) && WellFramed(b)
    ensures WellFramed(a + b)
  {
    hide Framed, Parse;
  }

  lemma {:induction false} EmptiesSayNothing(payloads: seq<Bytes>)
    ensures LogOf(NonEmpties(payloads)) == LogOf(payloads)
    decreases |payloads|
  {
    hide ParsedOrNone, Parse;
    if payloads != [] {
      var first, rest := payloads[0], payloads[1..];
      assert payloads == [first] + rest;
      Streams.LogAppend([first], rest);
      Streams.LogAppend(IfNonEmpty(first), NonEmpties(rest));
      EmptiesSayNothing(rest);
      LogOfFirst(first);
    }
  }

  lemma LogOfFirst(payload: Bytes)
    ensures LogOf(IfNonEmpty(payload)) == LogOf([payload])
  {
    Streams.LogOfOne(payload);
    assert Parse([]) == Ok([]);
    hide LogOf;
  }

  lemma HandedOver(t: Transport.Link)
    requires Transport.Inv(t)
    ensures Transport.IsPrefix(t.left.delivered, Transport.Deliverable(t.right.queued))
    ensures t.right.ep.outbound == [] && t.left.expected == |t.right.log| ==>
              t.left.delivered == Transport.Deliverable(t.right.queued)
  {
    Transport.DeliveredPrefix(t.right, t.left);
    hide Transport.Inv;
  }

  /** After any run of a client's link (the proxy left, the client right), with any loss, duplication and reordering, and
      whatever the policy and the state of the filter: of what the proxy sends upstream for the payloads that were handed
      over, the switcher reads exactly their ordinary commands, each once and in order; those payloads are a prefix of
      what the client queued, and once nothing is missing the commands are all that the client queued, if it queued
      nothing that is too long. */
  lemma OrdinaryCommandsArriveOnce(p: Policy, s: FilterState, addr: Addr, link: Transport.Link, steps: seq<Transport.Step>)
    requires Transport.Init(link, 1, 1) && Transport.CanRun(link, steps)
    ensures var t := Transport.Run(link, steps); var run := EventsOfPayloads(addr, t.left.delivered);
            && Read(SentUpTo(p, s, run, |run|)) == OrdinaryOf(LogOf(t.left.delivered))
            && Transport.IsPrefix(t.left.delivered, Transport.Deliverable(t.right.queued))
            && (t.right.ep.outbound == [] && t.left.expected == |t.right.log|
                && (forall i :: 0 <= i < |t.right.queued| ==> |t.right.queued[i]| <= 2035) ==>
                  Read(SentUpTo(p, s, run, |run|)) == OrdinaryOf(LogOf(t.right.queued)))
  {
    hide Transport.Run, Transport.Inv, Read, OrdinaryOf, SentUpTo, EventsOfPayloads, LogOf, WellFramed, ClientCommands;
    Transport.InitInv(link, 1, 1);
    Transport.RunKeeps(link, steps);
    var t := Transport.Run(link, steps);
    HandedOver(t);
    var run := EventsOfPayloads(addr, t.left.delivered);
    EventsAreLog(addr, t.left.delivered);
    OrdinaryConserved(p, s, run, |run|);
    if forall i :: 0 <= i < |t.right.queued| ==> |t.right.queued[i]| <= 2035 {
      assert Transport.ClipAll(t.right.queued) == t.right.queued;
      EmptiesSayNothing(t.right.queued);
    }
  }
}
