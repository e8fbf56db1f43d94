/** Whole-trace properties of the fan-in: locks, the transfer lane, deny mode and audio edges over
    runs of any length, any number of clients, and any starting state unless said otherwise. */
module FanIn {
  import opened Wire
  import opened Commands
  import opened Locks
  import opened Transfer
  import opened Filter

  /** One change of the arbitration state, taken as indivisible. A client payload is a list of `FromClient`
      events, or one `Raw` event if it does not parse; an upstream state payload is a list of `FromUpstream`
      events. */
  datatype Event =
    | FromClient(from: Addr, c: Command)
    | Raw(from: Addr, payload: Bytes)
    | FromUpstream(c: Command)
    | Gone(addr: Addr)
    | LocksCleared
    | LaneCleared

  function After(p: Policy, s: FilterState, e: Event): FilterState {
    match e
    case FromClient(from, c) => AfterCommand(p, s, from, c)
    case Raw(_, _) => s
    case FromUpstream(c) => s.(stores := AfterStatusCommand(s.stores, c))
    case Gone(addr) => AfterGone(s, addr)
    case LocksCleared => s.(stores := map[])
    case LaneCleared => s.(lane := None)
  }

  /** The state before event `n` of a run. */
  function StateAt(p: Policy, s: FilterState, run: seq<Event>, n: nat): FilterState
    requires n <= |run|
  {
    if n == 0 then s else After(p, StateAt(p, s, run, n - 1), run[n - 1])
  }

  lemma StateNext(p: Policy, s: FilterState, run: seq<Event>, n: nat)
    requires n < |run|
    ensures StateAt(p, s, run, n + 1) == After(p, StateAt(p, s, run, n), run[n])
  {
  }

  function ClientEvents(from: Addr, cmds: seq<Command>): (r: seq<Event>)
    ensures |r| == |cmds|
  {
    seq(|cmds|, i requires 0 <= i < |cmds| => FromClient(from, cmds[i]))
  }

  /** Processing a payload is running its commands as events, one after the other, and the actions are
      those of the events. */
  lemma {:induction false} PayloadIsRun(p: Policy, s: FilterState, from: Addr, cmds: seq<Command>, n: nat)
    requires n <= |cmds|
    ensures AfterCommands(p, s, from, cmds[..n]) == StateAt(p, s, ClientEvents(from, cmds), n)
    ensures |ActionsOf(p, s, from, cmds[..n])| == n
    ensures forall i :: 0 <= i < n ==>
              ActionsOf(p, s, from, cmds[..n])[i] == ActionOf(p, StateAt(p, s, ClientEvents(from, cmds), i), from, cmds[i])
    decreases n
  {
    hide AfterCommand, ActionOf;
    if n > 0 {
      PayloadIsRun(p, s, from, cmds, n - 1);
      assert cmds[..n][..n - 1] == cmds[..n - 1];
    }
  }

  /** What one event sends upstream; the unlocks of a disconnect come in any order. */
  ghost predicate SentBy(p: Policy, s: FilterState, e: Event, out: seq<Bytes>) {
    match e
    case FromClient(from, c) => out == ForwardOf(ActionOf(p, s, from, c))
    case Raw(_, payload) => out == [payload]
    case Gone(addr) => CleansUp(out, s, addr)
    case _ => out == []
  }

  /** The events of any client payload, parsed or not. */
  function PayloadEvents(from: Addr, payload: Bytes): seq<Event> {
    match Parse(payload)
    case Ok(cmds) => ClientEvents(from, cmds)
    case Err(_) => [Raw(from, payload)]
  }

  /** Everything that a run of client events sends, in order. */
  function SentUpTo(p: Policy, s: FilterState, run: seq<Event>, n: nat): seq<Bytes>
    requires n <= |run|
  {
    if n == 0 then [] else SentUpTo(p, s, run, n - 1) + SentByClient(p, StateAt(p, s, run, n - 1), run[n - 1])
  }

  function SentByClient(p: Policy, s: FilterState, e: Event): seq<Bytes> {
    match e
    case FromClient(from, c) => ForwardOf(ActionOf(p, s, from, c))
    case Raw(_, payload) => [payload]
    case _ => []
  }

  lemma {:induction false} ForwardsAreSent(p: Policy, s: FilterState, from: Addr, cmds: seq<Command>, n: nat)
    requires n <= |cmds|
    ensures Forwards(ActionsOf(p, s, from, cmds[..n])) == SentUpTo(p, s, ClientEvents(from, cmds), n)
    decreases n
  {
    hide AfterCommand, ActionOf, ForwardOf, Forwards, ActionsOf, AfterCommands, StateAt;
    if n == 0 {
      NothingSent(p, s, from);
    } else {
      ForwardsAreSent(p, s, from, cmds, n - 1);
      PayloadIsRun(p, s, from, cmds, n - 1);
      assert cmds[..n] == cmds[..n - 1] + [cmds[n - 1]];
      SentNext(p, s, from, cmds[..n - 1], cmds[n - 1]);
    }
  }

  lemma ParsedIsRun(p: Policy, s: FilterState, from: Addr, cmds: seq<Command>)
    requires AllFramed(cmds)
    ensures var run := ClientEvents(from, cmds);
            && WellFramed(run)
            && AfterCommands(p, s, from, cmds) == StateAt(p, s, run, |run|)
            && Forwards(ActionsOf(p, s, from, cmds)) == SentUpTo(p, s, run, |run|)
  {
    hide Framed, AfterCommands, ActionsOf, StateAt, SentUpTo, Forwards;
    PayloadIsRun(p, s, from, cmds, |cmds|);
    ForwardsAreSent(p, s, from, cmds, |cmds|);
    assert cmds[..|cmds|] == cmds;
  }

  /** Whatever a client sends, the filter's state and what goes upstream are those of its events. */
  lemma AnyPayloadIsRun(p: Policy, s: FilterState, from: Addr, payload: Bytes)
    ensures var run := PayloadEvents(from, payload);
            && WellFramed(run)
            && AfterPayload(p, s, from, payload) == StateAt(p, s, run, |run|)
            && Forwards(PayloadActions(p, s, from, payload)) == SentUpTo(p, s, run, |run|)
  {
    hide Parse, AfterCommands, ActionsOf, StateAt, SentUpTo, Forwards, Framed;
    if Parse(payload).Ok? {
      var cmds := Parse(payload).value;
      ParseIffFraming(payload, cmds);
      ParsedIsRun(p, s, from, cmds);
    } else {
      RawIsRun(p, s, from, payload);
    }
  }

  lemma RawIsRun(p: Policy, s: FilterState, from: Addr, payload: Bytes)
    ensures StateAt(p, s, [Raw(from, payload)], 1) == s
    ensures SentUpTo(p, s, [Raw(from, payload)], 1) == [payload] == Forwards([Forward(payload)])
  {
    var actions := [Forward(payload)];
    assert actions[..0] == [];
    assert Forwards(actions) == Forwards([]) + [payload];
    assert SentUpTo(p, s, [Raw(from, payload)], 0) == [];
  }

  /** The commands of a run are well framed, as parsed ones are, and its raw payloads do not parse. */
  predicate WellFramed(run: seq<Event>) {
    forall i :: 0 <= i < |run| ==>
      (run[i].FromClient? ==> Framed(run[i].c)) && (run[i].Raw? ==> Parse(run[i].payload).Err?)
  }

  // ---------------------------------------------------------------- lock exclusion

  /** The event is a lock request for the store, and it is forwarded. */
  predicate LocksStore(p: Policy, s: FilterState, e: Event, client: Addr, store: u16) {
    && e.FromClient? && e.from == client && IsLockRequest(e.c.name)
    && LockStoreId(e.c.body) == Some(store) && LockRequestEnabled(e.c.body)
    && ActionOf(p, s, client, e.c) == Forward(e.c.raw)
  }

  /** The event takes the store away from `owner`: its own forwarded unlock, an unlocked status from
      upstream, its disconnect, or the clearing of all locks. */
  predicate ReleasesStore(p: Policy, s: FilterState, e: Event, owner: Addr, store: u16) {
    match e
    case FromClient(from, c) =>
      && from == owner && IsLockRequest(c.name) && LockStoreId(c.body) == Some(store)
      && !LockRequestEnabled(c.body) && ActionOf(p, s, from, c) == Forward(c.raw)
    case Raw(_, _) => false
    case FromUpstream(c) => IsLockStatus(c.name) && LockStoreId(c.body) == Some(store) && !LockRequestEnabled(c.body)
    case Gone(addr) => addr == owner
    case LocksCleared => true
    case LaneCleared => false
  }

  lemma LockTakesStore(p: Policy, s: FilterState, e: Event, client: Addr, store: u16)
    requires LocksStore(p, s, e, client, store)
    ensures OwnerOf(After(p, s, e).stores, store) == Some(client)
    ensures OwnerOf(s.stores, store) == None || OwnerOf(s.stores, store) == Some(client)
  {
  }

  lemma OwnerStays(p: Policy, s: FilterState, e: Event, owner: Addr, store: u16)
    requires OwnerOf(s.stores, store) == Some(owner) && !ReleasesStore(p, s, e, owner, store)
    ensures OwnerOf(After(p, s, e).stores, store) == Some(owner)
  {
  }

  lemma {:induction false} OwnedUntilReleased(p: Policy, s: FilterState, run: seq<Event>, i: nat, j: nat,
                                               owner: Addr, store: u16)
    requires i <= j <= |run| && OwnerOf(StateAt(p, s, run, i).stores, store) == Some(owner)
    requires forall k :: i <= k < j ==> !ReleasesStore(p, StateAt(p, s, run, k), run[k], owner, store)
    ensures OwnerOf(StateAt(p, s, run, j).stores, store) == Some(owner)
    decreases j
  {
    if i < j {
      OwnedUntilReleased(p, s, run, i, j - 1, owner, store);
      OwnerStays(p, StateAt(p, s, run, j - 1), run[j - 1], owner, store);
    }
  }

  /** Between forwarded lock requests of two different clients for one store there is a release of the
      first client's ownership. */
  lemma LockExclusion(p: Policy, s: FilterState, run: seq<Event>, i: nat, j: nat, a: Addr, b: Addr, store: u16)
    requires i < j < |run| && a != b
    requires LocksStore(p, StateAt(p, s, run, i), run[i], a, store)
    requires LocksStore(p, StateAt(p, s, run, j), run[j], b, store)
    ensures exists k :: i < k < j && ReleasesStore(p, StateAt(p, s, run, k), run[k], a, store)
  {
    hide LocksStore, ReleasesStore, After, StateAt, OwnerOf;
    StateNext(p, s, run, i);
    LockTakesStore(p, StateAt(p, s, run, i), run[i], a, store);
    LockTakesStore(p, StateAt(p, s, run, j), run[j], b, store);
    if forall k :: i < k < j ==> !ReleasesStore(p, StateAt(p, s, run, k), run[k], a, store) {
      OwnedUntilReleased(p, s, run, i + 1, j, a, store);
      assert false;
    }
  }

  /** When a client goes, its stores are free and every other owner keeps its own. */
  lemma GoneFrees(s: FilterState, addr: Addr, store: u16)
    ensures OwnerOf(AfterGone(s, addr).stores, store)
         == if OwnerOf(s.stores, store) == Some(addr) then None else OwnerOf(s.stores, store)
    ensures !IsOwner(AfterGone(s, addr).stores, addr)
  {
  }

  // ---------------------------------------------------------------- the transfer lane

  predicate ForwardsTransfer(p: Policy, s: FilterState, e: Event, client: Addr) {
    && e.FromClient? && e.from == client && IsTransferCommand(e.c.name)
    && ActionOf(p, s, client, e.c) == Forward(e.c.raw)
  }

  /** The lane is `owner`'s before the event and nobody's after it. */
  predicate ClosesLaneOf(p: Policy, s: FilterState, e: Event, owner: Addr) {
    LaneIs(s, owner) && After(p, s, e).lane.None?
  }

  predicate LaneIs(s: FilterState, owner: Addr) {
    s.lane.Some? && s.lane.value.owner == owner
  }

  /** What can close a lane: its owner's FTDC or FTDE, its owner's disconnect, or a reset. */
  lemma WhatClosesLane(p: Policy, s: FilterState, e: Event, owner: Addr)
    requires LaneIs(s, owner)
    ensures ClosesLaneOf(p, s, e, owner)
            <==> || (ForwardsTransfer(p, s, e, owner) && ClosesLane(e.c.name))
                 || (e.Gone? && e.addr == owner)
                 || e.LaneCleared?
    ensures !ClosesLaneOf(p, s, e, owner) ==> LaneIs(After(p, s, e), owner)
  {
    if e.FromClient? {
      ClassesDisjoint(e.c.name);
      hide IsTransferCommand;
    }
  }

  /** A forwarded transfer command comes from a client that owns a store at that moment, with media
      enabled; the lane is then its own, or closed by this very command. */
  lemma ForwardedTransferIsOwned(p: Policy, s: FilterState, e: Event, client: Addr)
    requires ForwardsTransfer(p, s, e, client)
    ensures p.media.enabled && IsOwner(s.stores, client)
    ensures s.lane.None? || LaneIs(s, client)
    ensures LaneIs(After(p, s, e), client) || ClosesLaneOf(p, s, e, client)
  {
    ClassesDisjoint(e.c.name);
    hide IsTransferCommand;
  }

  lemma {:induction false} LaneUntilClosed(p: Policy, s: FilterState, run: seq<Event>, i: nat, j: nat, owner: Addr)
    requires i <= j <= |run| && LaneIs(StateAt(p, s, run, i), owner)
    requires forall k :: i <= k < j ==> !ClosesLaneOf(p, StateAt(p, s, run, k), run[k], owner)
    ensures LaneIs(StateAt(p, s, run, j), owner)
    decreases j
  {
    if i < j {
      LaneUntilClosed(p, s, run, i, j - 1, owner);
      WhatClosesLane(p, StateAt(p, s, run, j - 1), run[j - 1], owner);
    }
  }

  /** Two forwarded transfer commands of different clients are separated by a close of the first
      client's lane (which may be the first command itself). */
  lemma TransferExclusion(p: Policy, s: FilterState, run: seq<Event>, i: nat, j: nat, a: Addr, b: Addr)
    requires i < j < |run| && a != b
    requires ForwardsTransfer(p, StateAt(p, s, run, i), run[i], a)
    requires ForwardsTransfer(p, StateAt(p, s, run, j), run[j], b)
    ensures exists k :: i <= k < j && ClosesLaneOf(p, StateAt(p, s, run, k), run[k], a)
  {
    hide ForwardsTransfer, ClosesLaneOf, After, StateAt, IsOwner;
    StateNext(p, s, run, i);
    ForwardedTransferIsOwned(p, StateAt(p, s, run, i), run[i], a);
    ForwardedTransferIsOwned(p, StateAt(p, s, run, j), run[j], b);
    if forall k :: i <= k < j ==> !ClosesLaneOf(p, StateAt(p, s, run, k), run[k], a) {
      assert LaneIs(StateAt(p, s, run, i + 1), a);
      LaneUntilClosed(p, s, run, i + 1, j, a);
      assert false;
    }
  }

  // ---------------------------------------------------------------- deny mode

  predicate Unowned(s: FilterState) {
    s.lane.None? && forall store :: store in s.stores ==> s.stores[store].owner == None
  }

  lemma DenyStep(p: Policy, s: FilterState, e: Event)
    requires p.lockMode.Deny? && Unowned(s)
    ensures Unowned(After(p, s, e))
    ensures e.FromClient? && (IsLockRequest(e.c.name) || IsTransferCommand(e.c.name)) ==>
              ActionOf(p, s, e.from, e.c).Dropped?
  {
    if e.FromClient? {
      ClassesDisjoint(e.c.name);
      hide IsTransferCommand;
    }
  }

  /** With locks denied, from a fresh start nothing is ever owned, no lane opens, and every lock request and
      transfer command that the filter recognises is dropped, even with media enabled. */
  lemma {:induction false} DenyForever(p: Policy, run: seq<Event>, n: nat)
    requires p.lockMode.Deny? && n <= |run|
    ensures Unowned(StateAt(p, FRESH, run, n))
    ensures n < |run| && run[n].FromClient? && (IsLockRequest(run[n].c.name) || IsTransferCommand(run[n].c.name)) ==>
              ActionOf(p, StateAt(p, FRESH, run, n), run[n].from, run[n].c).Dropped?
    decreases n
  {
    hide After, ActionOf, IsTransferCommand;
    if n > 0 {
      DenyForever(p, run, n - 1);
      DenyStep(p, StateAt(p, FRESH, run, n - 1), run[n - 1]);
    }
    if n < |run| {
      DenyStep(p, StateAt(p, FRESH, run, n), run[n]);
    }
  }

  // ---------------------------------------------------------------- audio edges

  /** The bytes that an event sends upstream on behalf of audio subscriptions. */
  function AudioSent(p: Policy, s: FilterState, e: Event): seq<Bytes> {
    match e
    case FromClient(from, c) =>
      var action := ActionOf(p, s, from, c);
      if action.AudioSubscribe? && action.forward.Some? then [action.forward.value] else []
    case Gone(addr) => AudioOff(s, addr)
    case _ => []
  }

  /** What the switcher reads in those bytes: an audio subscription and its flag, or nothing. */
  function AudioMeaning(raw: Bytes): Option<bool> {
    match Parse(raw)
    case Err(_) => None
    case Ok(cmds) =>
      if |cmds| == 1 && IsAudioLevelsSubscribe(cmds[0].name) then Some(EnableFlag(cmds[0].body)) else None
  }

  lemma AudioMeaningOf(c: Command)
    requires Framed(c) && IsAudioLevelsSubscribe(c.name)
    ensures AudioMeaning(c.raw) == Some(EnableFlag(c.body))
  {
    JoinedSingle(c);
    ParseIffFraming(c.raw, [c]);
    assert AllFramed([c]);
    hide Parse;
  }

  /** The disable made of a subscription is a disable exactly when the subscription has a body: without
      one, the byte that is zeroed is the last one of the command's name. */
  lemma DisableIffBody(c: Command)
    requires Framed(c) && IsAudioLevelsSubscribe(c.name)
    ensures AudioMeaning(SynthesizeAudioDisable(c.raw)) == Some(false) <==> c.body != []
  {
    var raw := SynthesizeAudioDisable(c.raw);
    var d := Command(NameOf(raw), raw, raw[8..]);
    assert Framed(d);
    JoinedSingle(d);
    ParseIffFraming(raw, [d]);
    assert AllFramed([d]);
    hide Parse;
    if c.body != [] {
      assert NameOf(raw) == c.name;
      assert d.body[|d.body| - 1] == 0;
    } else {
      assert d.name.b3 == 0;
    }
  }

  /** The failure is reachable: one subscription without a body, then the client goes, and what is
      sent is not an audio command at all. */
  lemma BodilessSubscriptionNeverStops(p: Policy, addr: Addr)
    ensures var c := Command(Name('S', 'A', 'L', 'N'), Serialize(Name('S', 'A', 'L', 'N'), []), []);
            var s := After(p, FRESH, FromClient(addr, c));
            && AudioSent(p, FRESH, FromClient(addr, c)) == [c.raw]
            && |AudioSent(p, s, Gone(addr))| == 1
            && AudioMeaning(AudioSent(p, s, Gone(addr))[0]) != Some(false)
  {
    var c := Command(Name('S', 'A', 'L', 'N'), Serialize(Name('S', 'A', 'L', 'N'), []), []);
    SerializeRoundTrip(c.name, []);
    ParseIffFraming(c.raw, [c]);
    assert Framed([c][0]);
    DisableIffBody(c);
    hide Parse, AudioMeaning;
  }

  /** Everything sent for audio up to event `n`. */
  function AudioTrace(p: Policy, s: FilterState, run: seq<Event>, n: nat): seq<Bytes>
    requires n <= |run|
  {
    if n == 0 then []
    else AudioTrace(p, s, run, n - 1) + AudioSent(p, StateAt(p, s, run, n - 1), run[n - 1])
  }

  /** Enable, disable, enable, ... */
  predicate Alternates(trace: seq<Bytes>) {
    forall i :: 0 <= i < |trace| ==> AudioMeaning(trace[i]) == Some(i % 2 == 0)
  }

  /** The last subscriber disconnects, and the last enable that any client sent had no body. */
  predicate BodilessExit(s: FilterState, e: Event) {
    e.Gone? && s.clients == {e.addr} && s.lastEnable.Some? && |s.lastEnable.value| == 8
  }

  /** While anyone subscribes, the enable that is kept is a well-framed audio subscription. */
  predicate KeptEnable(s: FilterState) {
    s.clients != {} ==>
      && s.lastEnable.Some? && |s.lastEnable.value| >= 8
      && var raw := s.lastEnable.value; var c := Command(NameOf(raw), raw, raw[8..]);
      Framed(c) && IsAudioLevelsSubscribe(c.name)
  }

  lemma ExitStep(p: Policy, s: FilterState, addr: Addr)
    requires KeptEnable(s)
    ensures KeptEnable(AfterGone(s, addr))
    ensures s.clients == {addr} ==>
              |AudioOff(s, addr)| == 1
              && (AudioMeaning(AudioOff(s, addr)[0]) == Some(false) <==> !BodilessExit(s, Gone(addr)))
    ensures s.clients != {addr} ==> AudioOff(s, addr) == []
  {
    if s.clients == {addr} {
      var raw := s.lastEnable.value;
      DisableIffBody(Command(NameOf(raw), raw, raw[8..]));
    }
    hide AudioMeaning, SynthesizeAudioDisable, Framed;
  }

  /** Every edge of the subscriber set sends one command, and it means what it should unless the edge is
      a bodiless exit. */
  lemma AudioStep(p: Policy, s: FilterState, e: Event)
    requires (e.FromClient? ==> Framed(e.c)) && KeptEnable(s)
    ensures KeptEnable(After(p, s, e))
    ensures var sent := AudioSent(p, s, e); var on := After(p, s, e).clients != {};
            if on == (s.clients != {}) then sent == [] && !BodilessExit(s, e)
            else |sent| == 1 && (AudioMeaning(sent[0]) == Some(on) <==> !BodilessExit(s, e))
  {
    hide AudioMeaning, SynthesizeAudioDisable, Framed, IsTransferCommand, KeptEnable;
    if e.FromClient? && IsAudioLevelsSubscribe(e.c.name) {
      AudioMeaningOf(e.c);
      DisableIffBody(e.c);
      ClassesDisjoint(e.c.name);
      SubscriptionKept(p, s, e);
    } else if e.Gone? {
      ExitStep(p, s, e.addr);
    } else {
      OthersKeepAudio(p, s, e);
    }
  }

  lemma SubscriptionKept(p: Policy, s: FilterState, e: Event)
    requires e.FromClient? && IsAudioLevelsSubscribe(e.c.name) && Framed(e.c) && KeptEnable(s)
    ensures KeptEnable(AfterAudio(s, e.from, e.c))
  {
    assert e.c == Command(NameOf(e.c.raw), e.c.raw, e.c.raw[8..]);
  }

  lemma OthersKeepAudio(p: Policy, s: FilterState, e: Event)
    requires !e.Gone? && (e.FromClient? ==> !IsAudioLevelsSubscribe(e.c.name))
    ensures After(p, s, e).clients == s.clients && AudioSent(p, s, e) == []
    ensures KeptEnable(s) ==> KeptEnable(After(p, s, e))
  {
    hide IsTransferCommand, Framed;
  }

  lemma {:induction false} AlternatesNext(trace: seq<Bytes>, on: bool, sent: Bytes)
    requires on <==> |trace| % 2 == 1
    ensures Alternates(trace + [sent]) <==> Alternates(trace) && AudioMeaning(sent) == Some(!on)
  {
    hide AudioMeaning;
    assert (trace + [sent])[|trace|] == sent;
    assert forall i :: 0 <= i < |trace| ==> (trace + [sent])[i] == trace[i];
  }

  /** Over any run of subscribes, unsubscribes and disconnects, one audio command goes upstream for each
      edge of the subscriber set: their number is odd exactly when someone subscribes. They alternate
      enable, disable, enable, ..., so that the last is an enable exactly when someone subscribes, if and
      only if no bodiless exit happened. */
  lemma {:induction false} AudioAlternatesIff(p: Policy, run: seq<Event>, n: nat)
    requires WellFramed(run) && n <= |run|
    ensures StateAt(p, FRESH, run, n).clients != {} <==> |AudioTrace(p, FRESH, run, n)| % 2 == 1
    ensures Alternates(AudioTrace(p, FRESH, run, n))
            <==> forall i :: 0 <= i < n ==> !BodilessExit(StateAt(p, FRESH, run, i), run[i])
    ensures KeptEnable(StateAt(p, FRESH, run, n))
    decreases n
  {
    hide After, AudioSent, AudioMeaning, KeptEnable, Alternates, BodilessExit;
    if n == 0 {
      FreshKeepsNothing();
    } else {
      var s, e, trace := StateAt(p, FRESH, run, n - 1), run[n - 1], AudioTrace(p, FRESH, run, n - 1);
      AudioAlternatesIff(p, run, n - 1);
      AudioStep(p, s, e);
      var sent := AudioSent(p, s, e);
      if sent == [] {
        assert trace + [] == trace;
      } else {
        AlternatesNext(trace, s.clients != {}, sent[0]);
        assert sent == [sent[0]];
      }
    }
  }

  lemma FreshKeepsNothing()
    ensures KeptEnable(FRESH) && Alternates([])
  {
  }

  // ---------------------------------------------------------------- deny mode, by what goes upstream

  predicate Barred(n: CommandName) {
    IsLockRequest(n) || IsTransferCommand(n)
  }

  /** Among the well-framed commands at the front of these bytes is a lock request or a transfer command. */
  predicate LeadsToBarred(bytes: Bytes) {
    exists i :: 0 <= i < |Leading(bytes)| && Barred(Leading(bytes)[i].name)
  }

  lemma CommandLeadsTo(c: Command)
    requires Framed(c)
    ensures LeadsToBarred(c.raw) <==> Barred(c.name)
  {
    LeadingOfCommand(c, []);
    hide Leading, Framed, Barred;
    assert Barred(c.name) ==> Barred([c][0].name);
  }

  /** A synthesized disable, even one that is no audio command any more, is never a barred one. */
  lemma DisableIsNotBarred(c: Command)
    requires Framed(c) && IsAudioLevelsSubscribe(c.name)
    ensures !LeadsToBarred(SynthesizeAudioDisable(c.raw)) && !LeadsToBarred(c.raw)
  {
    var raw := SynthesizeAudioDisable(c.raw);
    var d := Command(NameOf(raw), raw, raw[8..]);
    assert Framed(d);
    ClassesDisjoint(c.name);
    CommandLeadsTo(c);
    CommandLeadsTo(d);
    assert !Barred(d.name) by {
      if c.body != [] {
        assert d.name == c.name;
      } else {
        assert d.name == c.name.(b3 := 0);
      }
    }
  }

  lemma DenyClientSends(p: Policy, s: FilterState, from: Addr, c: Command)
    requires p.lockMode.Deny? && Unowned(s) && Framed(c)
    ensures forall raw :: raw in ForwardOf(ActionOf(p, s, from, c)) ==> !LeadsToBarred(raw)
  {
    DenyStep(p, s, FromClient(from, c));
    CommandLeadsTo(c);
    if IsAudioLevelsSubscribe(c.name) {
      DisableIsNotBarred(c);
      ClassesDisjoint(c.name);
    }
    hide LeadsToBarred, SynthesizeAudioDisable, IsTransferCommand, Framed;
  }

  lemma DenyGoneSends(s: FilterState, addr: Addr, out: seq<Bytes>)
    requires Unowned(s) && KeptEnable(s) && CleansUp(out, s, addr)
    ensures forall raw :: raw in out ==> !LeadsToBarred(raw)
  {
    assert HeldStores(s.stores, addr) == {};
    if s.clients == {addr} {
      var raw := s.lastEnable.value;
      DisableIsNotBarred(Command(NameOf(raw), raw, raw[8..]));
    }
    hide LeadsToBarred, SynthesizeAudioDisable, Framed, HeldStores;
  }

  /** Deny mode, by what goes upstream. From a fresh start nothing is ever owned and no lane opens; and a lock
      request or transfer command stands at the front of what an event sends if and only if the event is a
      payload that does not parse and has one at its own front: that is forwarded as it is. */
  lemma DenyLeaksIff(p: Policy, run: seq<Event>, n: nat, out: seq<Bytes>)
    requires p.lockMode.Deny? && WellFramed(run) && n < |run|
    requires SentBy(p, StateAt(p, FRESH, run, n), run[n], out)
    ensures Unowned(StateAt(p, FRESH, run, n))
    ensures (exists raw :: raw in out && LeadsToBarred(raw)) <==> run[n].Raw? && LeadsToBarred(run[n].payload)
  {
    hide LeadsToBarred, Unowned, KeptEnable, StateAt, ActionOf, ForwardOf, CleansUp, Framed;
    DenyForever(p, run, n);
    AudioAlternatesIff(p, run, n);
    match run[n]
    case FromClient(from, c) => DenyClientSends(p, StateAt(p, FRESH, run, n), from, c);
    case Gone(addr) => DenyGoneSends(StateAt(p, FRESH, run, n), addr, out);
    case Raw(_, payload) => assert payload in out;
    case _ =>
  }

  /** The input: a lock request followed by one stray byte does not parse, and goes upstream from any state. */
  lemma DenyLeaks(media: MediaConfig, s: FilterState, from: Addr, c: Command)
    requires Framed(c) && IsLockRequest(c.name)
    ensures var payload := c.raw + [0];
            && Forwards(PayloadActions(Policy(Deny, media), s, from, payload)) == [payload]
            && LeadsToBarred(payload)
  {
    LeadingOfCommand(c, [0]);
    JoinedSingle(c);
    ParseIffFraming(c.raw, [c]);
    assert AllFramed([c]);
    ParseAppend(c.raw, [0]);
    assert Parse([0]).Err?;
    RawIsRun(Policy(Deny, media), s, from, c.raw + [0]);
    assert Leading(c.raw + [0])[0] == c;
    hide Leading, Parse;
  }
}
