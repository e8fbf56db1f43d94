/** What the fan-in lets pass and what it does with it, told by names and body bytes: ordinary commands, locks,
    transfers and audio subscriptions. */
module Passing {
  import opened Wire
  import opened Commands
  import opened Spelling
  import opened Cache
  import opened Locks
  import opened Transfer
  import opened Filter
  import opened FanIn
  import opened Layout
  import FanOut
  import Packets
  import Reliable
  import Server

  // ---------------------------------------------------------------- ordinary commands

  /** A command that no policy is about. */
  ghost predicate Ordinary(n: CommandName) {
    !LockRequestName(n) && !TransferName(n) && !SubscriptionName(n)
  }

  ghost predicate AllOrdinary(cmds: seq<Command>) {
    forall c :: c in cmds ==> Ordinary(c.name)
  }

  lemma OrdinaryPasses(p: Policy, s: FilterState, from: Addr, c: Command)
    requires Ordinary(c.name)
    ensures ActionOf(p, s, from, c) == Forward(c.raw) && AfterCommand(p, s, from, c) == s
  {
    ClassesBySpelling(c.name);
    hide IsTransferCommand, TransferName;
  }

  /** Whatever the policy and the state, a list of ordinary commands is forwarded whole and in order, and changes
      nothing. */
  lemma {:induction false} OrdinaryCommandsPass(p: Policy, s: FilterState, from: Addr, cmds: seq<Command>)
    requires AllOrdinary(cmds)
    ensures Forwards(ActionsOf(p, s, from, cmds)) == Raws(cmds) && AfterCommands(p, s, from, cmds) == s
  {
    hide Ordinary, ActionOf, AfterCommand, ForwardOf, Forwards, ActionsOf, AfterCommands, Raws;
    if cmds == [] {
      NothingSent(p, s, from);
      RawsNothing();
    } else {
      var rest, last := cmds[..|cmds| - 1], cmds[|cmds| - 1];
      assert cmds == rest + [last] && last in cmds;
      OrdinaryCommandsPass(p, s, from, rest);
      OrdinaryPasses(p, s, from, last);
      SentNext(p, s, from, rest, last);
      ActionsNext(p, s, from, rest, last);
      ForwardOfForward(last.raw);
      RawsNext(rest, last);
    }
  }

  lemma RawsNext(rest: seq<Command>, c: Command)
    ensures Raws(rest + [c]) == Raws(rest) + [c.raw]
  {
  }

  lemma RawsNothing()
    ensures Raws([]) == []
  {
  }

  lemma ForwardOfForward(raw: Bytes)
    ensures ForwardOf(Forward(raw)) == [raw]
  {
  }

  /** Such a payload leaves byte for byte, and so does one that does not parse. */
  lemma OrdinaryPayloadPasses(p: Policy, s: FilterState, from: Addr, payload: Bytes)
    requires AllOrdinary(ParsedOrNone(payload))
    ensures Concat(Forwards(PayloadActions(p, s, from, payload))) == payload
    ensures AfterPayload(p, s, from, payload) == s
  {
    if Parse(payload).Ok? {
      var cmds := Parse(payload).value;
      ParseIffFraming(payload, cmds);
      OrdinaryCommandsPass(p, s, from, cmds);
      hide Parse, Forwards, ActionsOf, AfterCommands, AllOrdinary, Framed;
    } else {
      RawIsRun(p, s, from, payload);
      ConcatSingle(payload);
      hide Parse, Forwards, SentUpTo, StateAt;
    }
  }

  /** The ordinary commands of a list, in order. */
  ghost function OrdinaryOf(cmds: seq<Command>): seq<Command> {
    if cmds == [] then []
    else
      var last := cmds[|cmds| - 1];
      OrdinaryOf(cmds[..|cmds| - 1]) + if Ordinary(last.name) then [last] else []
  }

  lemma {:induction false} OrdinaryAppend(a: seq<Command>, b: seq<Command>)
    ensures OrdinaryOf(a + b) == OrdinaryOf(a) + OrdinaryOf(b)
    decreases |b|
  {
    hide Ordinary;
    if b == [] {
      assert a + b == a;
    } else {
      assert (a + b)[..|a + b| - 1] == a + b[..|b| - 1];
      OrdinaryAppend(a, b[..|b| - 1]);
    }
  }

  lemma OrdinaryOne(c: Command)
    ensures OrdinaryOf([c]) == (if Ordinary(c.name) then [c] else []) && OrdinaryOf([]) == []
  {
    assert [c][..0] == [];
    assert OrdinaryOf([c]) == OrdinaryOf([]) + if Ordinary(c.name) then [c] else [];
    hide Ordinary;
  }

  /** What the switcher reads in a list of payloads that the proxy sends. */
  ghost function Read(sent: seq<Bytes>): seq<Command> {
    OrdinaryOf(LogOf(sent))
  }

  lemma {:induction false} ReadAppend(a: seq<Bytes>, b: seq<Bytes>)
    ensures Read(a + b) == Read(a) + Read(b)
    decreases |b|
  {
    hide ParsedOrNone, OrdinaryOf;
    if b == [] {
      assert a + b == a;
      OrdinaryOne(Command(LOCK, [], []));
    } else {
      var rest, last := b[..|b| - 1], b[|b| - 1];
      assert (a + b)[..|a + b| - 1] == a + rest;
      ReadAppend(a, rest);
      OrdinaryAppend(LogOf(a + rest), ParsedOrNone(last));
      OrdinaryAppend(LogOf(rest), ParsedOrNone(last));
    }
  }

  lemma ReadOne(payload: Bytes)
    ensures Read([payload]) == OrdinaryOf(ParsedOrNone(payload)) && Read([]) == []
  {
    assert [payload][..0] == [];
    assert LogOf([payload]) == [] + ParsedOrNone(payload);
    assert [] + ParsedOrNone(payload) == ParsedOrNone(payload);
    OrdinaryOne(Command(LOCK, [], []));
    hide ParsedOrNone, OrdinaryOf;
  }

  lemma ReadCommand(c: Command)
    requires Framed(c)
    ensures Read([c.raw]) == OrdinaryOf([c])
  {
    ReadOne(c.raw);
    JoinedSingle(c);
    ParseIffFraming(c.raw, [c]);
    assert Framed([c][0]);
    hide Parse, OrdinaryOf, Read;
  }

  /** A subscription that takes a client off the list has a body, so the disable that is made of it still is one. */
  lemma AudioSendsAudio(s: FilterState, from: Addr, c: Command)
    requires Framed(c) && IsAudioLevelsSubscribe(c.name)
    ensures Read(ForwardOf(AudioAction(s, from, c))) == []
  {
    ClassesBySpelling(c.name);
    ReadOne([]);
    ReadCommand(c);
    OrdinaryOne(c);
    if c.body != [] {
      var raw := SynthesizeAudioDisable(c.raw);
      var d := Command(NameOf(raw), raw, raw[8..]);
      assert d.name == c.name && Framed(d);
      ReadCommand(d);
      OrdinaryOne(d);
    }
    hide Read, OrdinaryOf, Framed, TransferName, IsTransferCommand;
  }

  /** One command: what goes upstream is read as the command itself if it is ordinary, else as none. */
  lemma CommandRead(p: Policy, s: FilterState, from: Addr, c: Command)
    requires Framed(c)
    ensures Read(ForwardOf(ActionOf(p, s, from, c))) == OrdinaryOf([c])
  {
    ReadOne([]);
    ReadCommand(c);
    OrdinaryOne(c);
    ClassesBySpelling(c.name);
    if Ordinary(c.name) {
      OrdinaryPasses(p, s, from, c);
    } else if IsAudioLevelsSubscribe(c.name) {
      ClassesDisjoint(c.name);
      AudioSendsAudio(s, from, c);
    }
    hide Read, OrdinaryOf, Framed, TransferName, IsTransferCommand, LockForwarded, TransferForwarded, AudioAction;
  }

  /** The commands of the clients' payloads in a run, in order; a payload that does not parse has none. */
  ghost function ClientCommands(run: seq<Event>, n: nat): seq<Command>
    requires n <= |run|
  {
    if n == 0 then []
    else ClientCommands(run, n - 1) + if run[n - 1].FromClient? then [run[n - 1].c] else []
  }

  /** Over any run of any clients, in any mode: of what goes upstream for the clients' payloads, the switcher reads
      exactly their ordinary commands, each once and in their order. */
  lemma {:induction false} OrdinaryConserved(p: Policy, s: FilterState, run: seq<Event>, n: nat)
    requires WellFramed(run) && n <= |run|
    ensures Read(SentUpTo(p, s, run, n)) == OrdinaryOf(ClientCommands(run, n))
    decreases n
  {
    hide Read, OrdinaryOf, Framed, Parse, ActionOf, ForwardOf, FanIn.After;
    ReadOne([]);
    OrdinaryOne(Command(LOCK, [], []));
    if n > 0 {
      OrdinaryConserved(p, s, run, n - 1);
      var before, e := StateAt(p, s, run, n - 1), run[n - 1];
      ReadAppend(SentUpTo(p, s, run, n - 1), SentByClient(p, before, e));
      OrdinaryAppend(ClientCommands(run, n - 1), if e.FromClient? then [e.c] else []);
      if e.FromClient? {
        CommandRead(p, before, e.from, e.c);
      } else if e.Raw? {
        ReadOne(e.payload);
      }
    }
  }

  /** In a payload with other commands around it, an ordinary one leaves where it stands, unchanged. */
  lemma OrdinaryStaysInPlace(p: Policy, s: FilterState, from: Addr, before: seq<Command>, c: Command)
    requires Ordinary(c.name)
    ensures Forwards(ActionsOf(p, s, from, before + [c])) == Forwards(ActionsOf(p, s, from, before)) + [c.raw]
    ensures AfterCommands(p, s, from, before + [c]) == AfterCommands(p, s, from, before)
  {
    hide Forwards, ActionsOf, AfterCommands, ActionOf, AfterCommand, Ordinary;
    SentNext(p, s, from, before, c);
    ActionsNext(p, s, from, before, c);
    OrdinaryPasses(p, AfterCommands(p, s, from, before), from, c);
  }

  // ---------------------------------------------------------------- locks, by the bytes of a body

  /** The body starts with the number of this store. */
  predicate NamesStore(body: Bytes, store: u16) {
    |body| >= 2 && Word(body[0], body[1]) == store
  }

  /** The third byte is the state; in a body of two bytes it is the second. */
  predicate StateOn(body: Bytes)
    requires |body| >= 2
  {
    if |body| >= 3 then body[2] != 0 else body[1] != 0
  }

  lemma BodyBytes(body: Bytes, store: u16)
    ensures LockStoreId(body) == Some(store) <==> NamesStore(body, store)
    ensures |body| >= 2 ==> LockRequestEnabled(body) == StateOn(body)
  {
  }

  /** A request for a store that is free, whatever follows the state byte: it is taken if the byte is not zero. */
  lemma LockBody(stores: Stores, from: Addr, store: u16, state: byte, rest: Bytes)
    requires OwnerOf(stores, store) == None
    ensures LockForwarded(stores, from, Be16(store) + [state] + rest)
    ensures OwnerOf(AfterLockRequest(stores, from, Be16(store) + [state] + rest), store)
         == if state != 0 then Some(from) else None
  {
    Be16RoundTrip(store);
    hide Hi, Lo, FromBe16;
  }

  /** A body of two bytes has its state in the store's low byte. */
  lemma ShortLockBody(stores: Stores, from: Addr, store: u16)
    requires OwnerOf(stores, store) == None
    ensures OwnerOf(AfterLockRequest(stores, from, Be16(store)), store)
         == if store % 0x100 != 0 then Some(from) else None
  {
    Be16RoundTrip(store);
  }

  /** What a lock request does where locks are arbitrated: it passes if the store is free or its own, and then takes or
      frees it; otherwise it is dropped. Nothing else changes. */
  lemma LockRequestDoes(p: Policy, s: FilterState, from: Addr, c: Command, store: u16)
    requires p.lockMode.SingleOwner? && LockRequestName(c.name) && NamesStore(c.body, store)
    ensures var owner, s' := OwnerOf(s.stores, store), AfterCommand(p, s, from, c);
            && (if owner == None || owner == Some(from) then
                  && ActionOf(p, s, from, c) == Forward(c.raw)
                  && OwnerOf(s'.stores, store) == (if StateOn(c.body) then Some(from) else None)
                else ActionOf(p, s, from, c) == Dropped(c.name, StoreBusy) && OwnerOf(s'.stores, store) == owner)
            && EntryOf(s'.stores, store).upstreamLocked == EntryOf(s.stores, store).upstreamLocked
            && (forall other :: other != store ==> EntryOf(s'.stores, other) == EntryOf(s.stores, other))
            && s' == s.(stores := s'.stores)
  {
    ClassesBySpelling(c.name);
    BodyBytes(c.body, store);
    assert |c.body| >= 2;
    hide LockStoreId, LockRequestEnabled, NamesStore, StateOn, IsTransferCommand, TransferName;
  }

  /** One that names no store, or comes where locks are denied, is dropped and changes nothing. */
  lemma LockRequestRefused(p: Policy, s: FilterState, from: Addr, c: Command)
    requires LockRequestName(c.name) && (p.lockMode.Deny? || |c.body| < 2)
    ensures ActionOf(p, s, from, c) == Dropped(c.name, if p.lockMode.Deny? then LocksDenied else StoreBusy)
    ensures AfterCommand(p, s, from, c) == s
  {
    ClassesBySpelling(c.name);
    hide IsTransferCommand, TransferName;
  }

  /** What a status from upstream does to the store it names; other commands do nothing. */
  lemma StatusDoes(stores: Stores, c: Command, store: u16)
    ensures var now := AfterStatusCommand(stores, c);
            EntryOf(now, store)
            == if LockStatusName(c.name) && NamesStore(c.body, store) then
                 StoreLock(if StateOn(c.body) then OwnerOf(stores, store) else None, StateOn(c.body))
               else EntryOf(stores, store)
  {
    ClassesBySpelling(c.name);
    BodyBytes(c.body, store);
    hide LockRequestEnabled, NamesStore, StateOn;
  }

  /** The last status that names the store decides whether it is locked upstream. */
  ghost function LastStatus(cmds: seq<Command>, store: u16, before: bool): bool {
    if cmds == [] then before
    else
      var last := cmds[|cmds| - 1];
      if LockStatusName(last.name) && NamesStore(last.body, store) then StateOn(last.body)
      else LastStatus(cmds[..|cmds| - 1], store, before)
  }

  lemma {:induction false} StatusesDo(stores: Stores, cmds: seq<Command>, store: u16)
    ensures EntryOf(AfterStatus(stores, cmds), store).upstreamLocked
         == LastStatus(cmds, store, EntryOf(stores, store).upstreamLocked)
  {
    hide AfterStatusCommand, NamesStore, StateOn, LockStatusName, EntryOf;
    if cmds != [] {
      StatusesDo(stores, cmds[..|cmds| - 1], store);
      StatusDoes(AfterStatus(stores, cmds[..|cmds| - 1]), cmds[|cmds| - 1], store);
    }
  }

  /** The event is a lock request of this client for this store, to lock or to unlock. */
  predicate Asks(e: Event, client: Addr, store: u16, on: bool) {
    && e.FromClient? && e.from == client && LockRequestName(e.c.name)
    && NamesStore(e.c.body, store) && StateOn(e.c.body) == on
  }

  /** The event's command goes upstream. */
  predicate GoesUp(p: Policy, s: FilterState, e: Event) {
    e.FromClient? && SentByClient(p, s, e) == [e.c.raw]
  }

  /** What frees a store of this owner: its own unlock request that goes upstream, an unlocked status from upstream,
      its disconnect, or the clearing of all locks. */
  predicate Frees(p: Policy, s: FilterState, e: Event, owner: Addr, store: u16) {
    || (Asks(e, owner, store, false) && GoesUp(p, s, e))
    || (e.FromUpstream? && LockStatusName(e.c.name) && NamesStore(e.c.body, store) && !StateOn(e.c.body))
    || e == Gone(owner)
    || e == LocksCleared
  }

  lemma LocksByBytes(p: Policy, s: FilterState, e: Event, client: Addr, store: u16)
    ensures LocksStore(p, s, e, client, store) <==> Asks(e, client, store, true) && GoesUp(p, s, e)
    ensures ReleasesStore(p, s, e, client, store) <==> Frees(p, s, e, client, store)
  {
    if e.FromClient? || e.FromUpstream? {
      ClassesBySpelling(e.c.name);
      BodyBytes(e.c.body, store);
    }
    hide LockStoreId, LockRequestEnabled, NamesStore, StateOn, IsTransferCommand, TransferName, LockForwarded;
  }

  /** Lock exclusion on the bytes: between two lock requests for one store that went upstream for different clients,
      something freed the store of the first. */
  lemma LockExclusionByBytes(p: Policy, s: FilterState, run: seq<Event>, i: nat, j: nat, a: Addr, b: Addr, store: u16)
    requires i < j < |run| && a != b
    requires Asks(run[i], a, store, true) && GoesUp(p, StateAt(p, s, run, i), run[i])
    requires Asks(run[j], b, store, true) && GoesUp(p, StateAt(p, s, run, j), run[j])
    ensures exists k :: i < k < j && Frees(p, StateAt(p, s, run, k), run[k], a, store)
  {
    hide Asks, GoesUp, Frees, LocksStore, ReleasesStore, StateAt;
    LocksByBytes(p, StateAt(p, s, run, i), run[i], a, store);
    LocksByBytes(p, StateAt(p, s, run, j), run[j], b, store);
    LockExclusion(p, s, run, i, j, a, b, store);
    var k :| i < k < j && ReleasesStore(p, StateAt(p, s, run, k), run[k], a, store);
    LocksByBytes(p, StateAt(p, s, run, k), run[k], a, store);
  }

  // ---------------------------------------------------------------- transfers

  predicate OwnsSome(stores: Stores, addr: Addr) {
    exists store :: OwnerOf(stores, store) == Some(addr)
  }

  /** The client may transfer: media is enabled, it owns a store, and no other client has the lane. */
  predicate MayTransfer(p: Policy, s: FilterState, from: Addr) {
    p.media.enabled && OwnsSome(s.stores, from) && (s.lane == None || s.lane.value.owner == from)
  }

  lemma OwnsIff(stores: Stores, addr: Addr)
    ensures OwnsSome(stores, addr) <==> IsOwner(stores, addr)
  {
    if IsOwner(stores, addr) {
      var s :| s in stores && stores[s].owner == Some(addr);
      assert OwnerOf(stores, s) == Some(addr);
    }
  }

  ghost predicate AllTransfers(cmds: seq<Command>) {
    forall c :: c in cmds ==> TransferName(c.name)
  }

  lemma TransferDecided(p: Policy, s: FilterState, from: Addr, c: Command)
    requires TransferName(c.name)
    ensures if MayTransfer(p, s, from) then
              ActionOf(p, s, from, c) == Forward(c.raw) && MayTransfer(p, AfterCommand(p, s, from, c), from)
            else
              && ActionOf(p, s, from, c) == Dropped(c.name, if p.media.enabled then NotLockOwner else MediaDisabled)
              && AfterCommand(p, s, from, c) == s
    ensures AfterCommand(p, s, from, c) == s.(lane := AfterCommand(p, s, from, c).lane)
  {
    ClassesBySpelling(c.name);
    ClassesDisjoint(c.name);
    OwnsIff(s.stores, from);
    hide TransferName, IsTransferCommand, IsOwner, OwnsSome;
  }

  /** All or nothing: the transfer commands of a client that may transfer go upstream whole and in order, those of any
      other not at all, and the locks and subscribers stay as they are. */
  lemma {:induction false} TransfersAllOrNone(p: Policy, s: FilterState, from: Addr, cmds: seq<Command>)
    requires AllTransfers(cmds)
    ensures var s' := AfterCommands(p, s, from, cmds);
            && Forwards(ActionsOf(p, s, from, cmds)) == (if MayTransfer(p, s, from) then Raws(cmds) else [])
            && (if MayTransfer(p, s, from) then MayTransfer(p, s', from) else s' == s)
            && s' == s.(lane := s'.lane)
  {
    hide TransferName, ActionOf, AfterCommand, ForwardOf, MayTransfer, Forwards, ActionsOf, AfterCommands, Raws;
    if cmds == [] {
      NothingSent(p, s, from);
      RawsNothing();
    } else {
      var rest, last := cmds[..|cmds| - 1], cmds[|cmds| - 1];
      assert cmds == rest + [last] && last in cmds;
      TransfersAllOrNone(p, s, from, rest);
      TransferDecided(p, AfterCommands(p, s, from, rest), from, last);
      SentNext(p, s, from, rest, last);
      ActionsNext(p, s, from, rest, last);
      ForwardOfForward(last.raw);
      DroppedSendsNothing(ActionOf(p, AfterCommands(p, s, from, rest), from, last));
      RawsNext(rest, last);
    }
  }

  lemma DroppedSendsNothing(action: FilterAction)
    ensures action.Dropped? ==> ForwardOf(action) == []
  {
  }

  predicate IsChunk(c: Command) {
    Reads(c.name, 'F', 'T', 'D', 'a')
  }

  /** The bytes of these chunks, in all. */
  function ChunkBytes(chunks: seq<Command>): nat {
    if chunks == [] then 0 else ChunkBytes(chunks[..|chunks| - 1]) + |chunks[|chunks| - 1].body|
  }

  /** A transfer under way: after the command that opened the lane and any chunks, the lane is the client's, for the
      store that the first command named, with the bytes counted up to the largest 64-bit number. */
  lemma {:induction false} ChunksCounted(p: Policy, s: FilterState, from: Addr, first: Command, chunks: seq<Command>)
    requires MayTransfer(p, s, from) && s.lane == None && TransferName(first.name)
    requires forall c :: c in chunks ==> IsChunk(c)
    ensures AfterCommands(p, s, from, [first] + chunks).lane
         == Some(ActiveTransfer(from, LockStoreId(first.body), Min(ChunkBytes(chunks), 0xFFFF_FFFF_FFFF_FFFF)))
    ensures AfterCommands(p, s, from, [first] + chunks).stores == s.stores
    decreases |chunks|
  {
    OwnsIff(s.stores, from);
    if chunks == [] {
      OpensLane(p, s, from, first);
      assert [first] + [] == [] + [first];
      ActionsNext(p, s, from, [], first);
      hide AfterCommand, TransferName, LockStoreId;
    } else {
      var rest, last := chunks[..|chunks| - 1], chunks[|chunks| - 1];
      assert [first] + chunks == ([first] + rest) + [last] && last in chunks;
      ChunksCounted(p, s, from, first, rest);
      ActionsNext(p, s, from, [first] + rest, last);
      ChunkCounts(p, AfterCommands(p, s, from, [first] + rest), from, last);
      hide AfterCommand, AfterCommands, TransferName, LockStoreId, MayTransfer;
    }
  }

  lemma OpensLane(p: Policy, s: FilterState, from: Addr, c: Command)
    requires MayTransfer(p, s, from) && s.lane == None && TransferName(c.name)
    ensures AfterCommand(p, s, from, c) == s.(lane := Some(ActiveTransfer(from, LockStoreId(c.body), 0)))
  {
    ClassesBySpelling(c.name);
    ClassesDisjoint(c.name);
    OwnsIff(s.stores, from);
    hide TransferName, IsTransferCommand, IsOwner, OwnsSome;
  }

  lemma ChunkCounts(p: Policy, s: FilterState, from: Addr, c: Command)
    requires p.media.enabled && IsOwner(s.stores, from) && s.lane.Some? && s.lane.value.owner == from && IsChunk(c)
    ensures AfterCommand(p, s, from, c)
         == s.(lane := Some(s.lane.value.(bytesForwarded :=
                              Min(s.lane.value.bytesForwarded + |c.body|, 0xFFFF_FFFF_FFFF_FFFF))))
  {
    hide IsOwner;
  }

  /** A whole transfer: a start, any chunks, and an end, sent by a client that may transfer and finds the lane free. All
      of it goes upstream, and at the end the lane is free again and nothing else has changed. */
  lemma WholeTransferPasses(p: Policy, s: FilterState, from: Addr, first: Command, chunks: seq<Command>, last: Command)
    requires MayTransfer(p, s, from) && s.lane == None
    requires Reads(first.name, 'F', 'T', 'S', 'D') || Reads(first.name, 'F', 'T', 'S', 'U')
    requires forall c :: c in chunks ==> IsChunk(c)
    requires Reads(last.name, 'F', 'T', 'D', 'C') || Reads(last.name, 'F', 'T', 'D', 'E')
    ensures var cmds := [first] + chunks + [last];
            && Forwards(ActionsOf(p, s, from, cmds)) == Raws(cmds)
            && AfterCommands(p, s, from, cmds) == s
  {
    var under := [first] + chunks;
    forall c | c in under + [last]
      ensures TransferName(c.name)
    {
    }
    hide TransferName, ActionOf, AfterCommand, MayTransfer, LockStoreId;
    OwnsIff(s.stores, from);
    TransfersAllOrNone(p, s, from, under + [last]);
    ChunksCounted(p, s, from, first, chunks);
    ActionsNext(p, s, from, under, last);
    EndCloses(p, AfterCommands(p, s, from, under), from, last);
    MayMeans(p, s, from);
  }

  lemma MayMeans(p: Policy, s: FilterState, from: Addr)
    ensures MayTransfer(p, s, from) ==> p.media.enabled && IsOwner(s.stores, from)
  {
    OwnsIff(s.stores, from);
  }

  lemma EndCloses(p: Policy, s: FilterState, from: Addr, c: Command)
    requires Reads(c.name, 'F', 'T', 'D', 'C') || Reads(c.name, 'F', 'T', 'D', 'E')
    ensures p.media.enabled && IsOwner(s.stores, from) && s.lane.Some? && s.lane.value.owner == from ==>
              AfterCommand(p, s, from, c) == s.(lane := None)
  {
    hide IsOwner;
  }

  /** A start command within a transfer of its own begins the count anew, for the store that it names if it names one. */
  lemma RestartCounts(p: Policy, s: FilterState, from: Addr, c: Command)
    requires MayTransfer(p, s, from) && s.lane.Some?
    requires Reads(c.name, 'F', 'T', 'S', 'D') || Reads(c.name, 'F', 'T', 'S', 'U')
    ensures AfterCommand(p, s, from, c).lane
         == Some(ActiveTransfer(from, if |c.body| >= 2 then Some(Word(c.body[0], c.body[1])) else s.lane.value.store, 0))
  {
    OwnsIff(s.stores, from);
    hide IsOwner, OwnsSome;
  }

  /** Who gets upstream transfer traffic: the lane's owner, else the owner of store 0, else the owner of store 255, and
      nobody while media is disabled. */
  lemma FanoutOrder(cfg: MediaConfig, stores: Stores, lane: Lane, addr: Addr)
    ensures FanoutOwner(cfg, stores, lane) == Some(addr)
            <==> && cfg.enabled
                 && match lane
                    case Some(active) => active.owner == addr
                    case None => OwnerOf(stores, 0) == Some(addr)
                                 || (OwnerOf(stores, 0) == None && OwnerOf(stores, 255) == Some(addr))
  {
  }

  // ---------------------------------------------------------------- clients that go

  /** When any clients go, in whatever order: exactly their stores are freed, a lane of theirs is closed, they subscribe no
      more, and nobody else loses anything. */
  lemma {:induction false} AllGoneFree(s: FilterState, gone: seq<Addr>, store: u16, client: Addr)
    ensures var s' := AfterAllGone(s, gone); var owner := OwnerOf(s.stores, store);
            && OwnerOf(s'.stores, store) == (if owner.Some? && owner.value in gone then None else owner)
            && EntryOf(s'.stores, store).upstreamLocked == EntryOf(s.stores, store).upstreamLocked
            && (client in s'.clients <==> client in s.clients && client !in gone)
            && s'.lane == (if s.lane.Some? && s.lane.value.owner in gone then None else s.lane)
    decreases |gone|
  {
    if gone != [] {
      var rest, last := gone[..|gone| - 1], gone[|gone| - 1];
      assert gone == rest + [last];
      AllGoneFree(s, rest, store, client);
    }
  }

  // ---------------------------------------------------------------- audio subscriptions

  /** The flag that the last subscription of the list asks for: on without a body, else as its last byte says. */
  ghost function LastFlag(cmds: seq<Command>, before: bool): bool {
    if cmds == [] then before
    else
      var last := cmds[|cmds| - 1];
      if SubscriptionName(last.name) then last.body == [] || last.body[|last.body| - 1] != 0
      else LastFlag(cmds[..|cmds| - 1], before)
  }

  lemma SubscriptionSets(p: Policy, s: FilterState, from: Addr, c: Command)
    ensures var flag := c.body == [] || c.body[|c.body| - 1] != 0; var s' := AfterCommand(p, s, from, c);
            if SubscriptionName(c.name) then
              && ActionOf(p, s, from, c).AudioSubscribe? && ActionOf(p, s, from, c).enable == flag
              && s'.clients == if flag then s.clients + {from} else s.clients - {from}
            else !ActionOf(p, s, from, c).AudioSubscribe? && s'.clients == s.clients
  {
    ClassesBySpelling(c.name);
    ClassesDisjoint(c.name);
    hide TransferName, IsTransferCommand, LockForwarded, TransferForwarded, SynthesizeAudioDisable;
  }

  /** A subscription goes upstream as it is when its client becomes the first subscriber, with its last byte zeroed when it
      was the last one, and not at all otherwise. */
  lemma AudioEdges(p: Policy, s: FilterState, from: Addr, c: Command)
    requires SubscriptionName(c.name) && c.raw != []
    ensures var on, onAfter := s.clients != {}, AfterCommand(p, s, from, c).clients != {};
            && SentByClient(p, s, FromClient(from, c))
               == (if !on && onAfter then [c.raw]
                   else if on && !onAfter then [c.raw[|c.raw| - 1 := 0]]
                   else [])
            && SentByClient(p, s, FromClient(from, c)) == AudioSent(p, s, FromClient(from, c))
  {
    ClassesBySpelling(c.name);
    ClassesDisjoint(c.name);
    hide TransferName, IsTransferCommand, LockForwarded, TransferForwarded;
  }

  lemma AudioAfterNext(actions: seq<FilterAction>, action: FilterAction, audio: bool)
    ensures AudioAfter(actions + [action], audio)
         == if action.AudioSubscribe? then action.enable else AudioAfter(actions, audio)
  {
    assert (actions + [action])[..|actions|] == actions;
  }

  /** After a client's commands its session's audio flag is what its last subscription asked for, and so is its place
      among the subscribers; no other client's place changes. */
  lemma {:induction false} FlagFollowsSubscription(p: Policy, s: FilterState, from: Addr, cmds: seq<Command>, audio: bool)
    ensures AudioAfter(ActionsOf(p, s, from, cmds), audio) == LastFlag(cmds, audio)
    ensures from in AfterCommands(p, s, from, cmds).clients <==> LastFlag(cmds, from in s.clients)
    ensures AfterCommands(p, s, from, cmds).clients - {from} == s.clients - {from}
  {
    hide ActionOf, AfterCommand, SubscriptionName, TransferName;
    if cmds != [] {
      var rest, last := cmds[..|cmds| - 1], cmds[|cmds| - 1];
      assert cmds == rest + [last];
      FlagFollowsSubscription(p, s, from, rest, audio);
      var before := AfterCommands(p, s, from, rest);
      SubscriptionSets(p, before, from, last);
      ActionsNext(p, s, from, rest, last);
      AudioAfterNext(ActionsOf(p, s, from, rest), ActionOf(p, before, from, last), audio);
      hide AudioAfter, ActionsOf, AfterCommands;
    }
  }

  /** So a packet whose last subscription is on makes its session receive audio levels once it is open. */
  lemma SubscriberIsMarked(p: Policy, s: FilterState, session: FanOut.Session, addr: Addr, e: Reliable.Endpoint,
                           packet: Packets.Packet, dump: seq<Bytes>)
    requires Server.Taken(e, packet) && Parse(packet.payload).Ok?
    ensures Server.AfterPacket(session, e, packet, dump, PayloadActions(p, s, addr, packet.payload)).audio
         == LastFlag(Parse(packet.payload).value, session.audio)
  {
    FlagFollowsSubscription(p, s, addr, Parse(packet.payload).value, session.audio);
    hide Parse, AudioAfter, ActionsOf, LastFlag, FanOut.Opened;
  }
}
