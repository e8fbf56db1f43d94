/** Two things one might expect of locks and the transfer lane together, and exactly when they fail: the lane's
    owner owns a store, and a store that upstream reports locked has an owner. */
module Ownership {
  import opened Wire
  import opened Commands
  import opened Locks
  import opened Transfer
  import opened Filter
  import opened FanIn

  // ---------------------------------------------------------------- the lane's owner

  /** The client owns this store and no other. */
  predicate OwnsOnly(stores: Stores, addr: Addr, store: u16) {
    && OwnerOf(stores, store) == Some(addr)
    && forall t :: t in stores && stores[t].owner == Some(addr) ==> t == store
  }

  /** The lane's owner owns some store. */
  predicate LaneHeld(s: FilterState) {
    s.lane.Some? ==> IsOwner(s.stores, s.lane.value.owner)
  }

  /** The event takes the last store of the lane's owner and leaves it the lane: its own unlock, an unlocked
      status, or the clearing of all locks. */
  predicate OrphansLane(p: Policy, s: FilterState, e: Event) {
    && s.lane.Some?
    && var a := s.lane.value.owner;
    match e
    case FromClient(from, c) =>
      && from == a && IsLockRequest(c.name) && p.lockMode.SingleOwner? && LockStoreId(c.body).Some?
      && !LockRequestEnabled(c.body) && OwnsOnly(s.stores, a, LockStoreId(c.body).value)
    case FromUpstream(c) =>
      && IsLockStatus(c.name) && LockStoreId(c.body).Some?
      && !LockRequestEnabled(c.body) && OwnsOnly(s.stores, a, LockStoreId(c.body).value)
    case LocksCleared => true
    case _ => false
  }

  /** Freeing one store leaves a client without any exactly when it was its only one. */
  lemma FreeingIff(stores: Stores, store: u16, entry: StoreLock, addr: Addr)
    requires IsOwner(stores, addr) && entry.owner == None
    ensures IsOwner(stores[store := entry], addr) <==> !OwnsOnly(stores, addr, store)
  {
    var after := stores[store := entry];
    var s :| s in stores && stores[s].owner == Some(addr);
    if !OwnsOnly(stores, addr, store) {
      if s != store {
        assert s in after && after[s].owner == Some(addr);
      } else {
        var t :| t in stores && stores[t].owner == Some(addr) && t != store;
        assert t in after && after[t].owner == Some(addr);
      }
    }
  }

  /** Writing one store's entry with its old owner, or with this client, takes nothing from the client. */
  lemma KeepingOwners(stores: Stores, store: u16, entry: StoreLock, addr: Addr)
    requires IsOwner(stores, addr)
    requires entry.owner == OwnerOf(stores, store) || entry.owner == Some(addr)
    ensures IsOwner(stores[store := entry], addr)
  {
    var s :| s in stores && stores[s].owner == Some(addr);
    assert s in stores[store := entry] && stores[store := entry][s].owner == Some(addr);
  }

  lemma RequestKeepsOwnerIff(stores: Stores, from: Addr, body: Bytes, addr: Addr)
    requires IsOwner(stores, addr)
    ensures IsOwner(AfterLockRequest(stores, from, body), addr)
            <==> !(from == addr && LockStoreId(body).Some? && !LockRequestEnabled(body)
                   && OwnsOnly(stores, addr, LockStoreId(body).value))
  {
    hide IsOwner, LockStoreId, LockRequestEnabled;
    if LockStoreId(body).Some? {
      var store := LockStoreId(body).value;
      var entry := EntryOf(stores, store);
      KeepingOwners(stores, store, entry, addr);
      if LockForwarded(stores, from, body) && !LockRequestEnabled(body) {
        FreeingIff(stores, store, entry.(owner := None), addr);
        OwnsOnlyIsOwner(stores, addr, store);
      } else if LockForwarded(stores, from, body) && from == addr {
        KeepingOwners(stores, store, entry.(owner := Some(from)), addr);
      } else if LockForwarded(stores, from, body) {
        TakingFree(stores, store, entry.(owner := Some(from)), addr);
      }
    }
  }

  lemma OwnsOnlyIsOwner(stores: Stores, addr: Addr, store: u16)
    ensures OwnsOnly(stores, addr, store) ==> OwnerOf(stores, store) == Some(addr)
  {
  }

  /** Someone else taking a store that this client does not own takes nothing from it. */
  lemma TakingFree(stores: Stores, store: u16, entry: StoreLock, addr: Addr)
    requires IsOwner(stores, addr) && OwnerOf(stores, store) != Some(addr)
    ensures IsOwner(stores[store := entry], addr)
  {
    var s :| s in stores && stores[s].owner == Some(addr);
    assert s in stores[store := entry] && stores[store := entry][s].owner == Some(addr);
  }

  lemma StatusKeepsOwnerIff(stores: Stores, c: Command, addr: Addr)
    requires IsOwner(stores, addr)
    ensures IsOwner(AfterStatusCommand(stores, c), addr)
            <==> !(IsLockStatus(c.name) && LockStoreId(c.body).Some? && !LockRequestEnabled(c.body)
                   && OwnsOnly(stores, addr, LockStoreId(c.body).value))
  {
    hide IsOwner, LockStoreId, LockRequestEnabled, IsLockStatus, OwnsOnly;
    if IsLockStatus(c.name) && LockStoreId(c.body).Some? {
      var store := LockStoreId(c.body).value;
      var entry := EntryOf(stores, store);
      if LockRequestEnabled(c.body) {
        KeepingOwners(stores, store, entry.(upstreamLocked := true), addr);
      } else {
        FreeingIff(stores, store, FREE, addr);
      }
    }
  }

  lemma GoneKeepsOthers(stores: Stores, gone: Addr, addr: Addr)
    requires IsOwner(stores, addr) && gone != addr
    ensures IsOwner(AfterDisconnect(stores, gone), addr)
  {
    var s :| s in stores && stores[s].owner == Some(addr);
    assert s in AfterDisconnect(stores, gone) && AfterDisconnect(stores, gone)[s].owner == Some(addr);
  }

  /** One event at a time: the lane's owner is left without a store exactly by the events above. */
  lemma LaneHeldStep(p: Policy, s: FilterState, e: Event)
    requires LaneHeld(s)
    ensures LaneHeld(After(p, s, e)) <==> !OrphansLane(p, s, e)
  {
    hide IsOwner, OwnsOnly, IsLockRequest, IsTransferCommand, IsLockStatus, LockStoreId, LockRequestEnabled,
      AfterLockRequest, AfterStatusCommand, AfterDisconnect;
    if s.lane.Some? {
      var a := s.lane.value.owner;
      match e
      case FromClient(from, c) =>
        RequestKeepsOwnerIff(s.stores, from, c.body, a);
        LockIsNotTransfer(c.name);
      case FromUpstream(c) => StatusKeepsOwnerIff(s.stores, c, a);
      case Gone(addr) =>
        if addr != a {
          GoneKeepsOthers(s.stores, addr, a);
        }
      case LocksCleared => NobodyOwns(a);
      case _ =>
    }
  }

  lemma LockIsNotTransfer(n: CommandName)
    ensures IsLockRequest(n) ==> !IsTransferCommand(n)
  {
    ClassesDisjoint(n);
    hide IsTransferCommand;
  }

  lemma NobodyOwns(addr: Addr)
    ensures !IsOwner(map[], addr)
  {
  }

  /** Over any run from a fresh start: the lane's owner owns some store all along if and only if no event took
      its last one and left it the lane. */
  lemma {:induction false} LaneHeldIff(p: Policy, run: seq<Event>, n: nat)
    requires n <= |run|
    ensures (forall i :: 0 <= i <= n ==> LaneHeld(StateAt(p, FRESH, run, i)))
            <==> forall i :: 0 <= i < n ==> !OrphansLane(p, StateAt(p, FRESH, run, i), run[i])
    decreases n
  {
    hide LaneHeld, OrphansLane, After;
    if n == 0 {
      FreshIsOrderly();
    } else {
      LaneHeldIff(p, run, n - 1);
      StateNext(p, FRESH, run, n - 1);
      if LaneHeld(StateAt(p, FRESH, run, n - 1)) {
        LaneHeldStep(p, StateAt(p, FRESH, run, n - 1), run[n - 1]);
      }
    }
  }

  // ---------------------------------------------------------------- locked stores

  /** Every store that upstream reports locked has an owner. */
  predicate LockedOwned(stores: Stores) {
    forall t :: t in stores && stores[t].upstreamLocked ==> stores[t].owner.Some?
  }

  /** The event leaves a locked store without an owner: its owner's unlock, which upstream has not confirmed
      yet, a locked status for a store that nobody here owns, or the disconnect of a client that holds one. */
  predicate UnownsLocked(p: Policy, s: FilterState, e: Event) {
    match e
    case FromClient(from, c) =>
      && IsLockRequest(c.name) && p.lockMode.SingleOwner? && LockForwarded(s.stores, from, c.body)
      && !LockRequestEnabled(c.body) && EntryOf(s.stores, LockStoreId(c.body).value).upstreamLocked
    case FromUpstream(c) =>
      && IsLockStatus(c.name) && LockStoreId(c.body).Some? && LockRequestEnabled(c.body)
      && OwnerOf(s.stores, LockStoreId(c.body).value) == None
    case Gone(addr) => HeldStores(s.stores, addr) != {}
    case _ => false
  }

  lemma WritingKeepsIff(stores: Stores, store: u16, entry: StoreLock)
    requires LockedOwned(stores)
    ensures LockedOwned(stores[store := entry]) <==> (entry.upstreamLocked ==> entry.owner.Some?)
  {
    assert stores[store := entry][store] == entry;
  }

  lemma LockedEntry(stores: Stores, store: u16)
    requires LockedOwned(stores)
    ensures EntryOf(stores, store).upstreamLocked ==> EntryOf(stores, store).owner.Some?
  {
  }

  lemma LockedOwnedGone(stores: Stores, addr: Addr)
    requires LockedOwned(stores)
    ensures LockedOwned(AfterDisconnect(stores, addr)) <==> HeldStores(stores, addr) == {}
  {
    var after := AfterDisconnect(stores, addr);
    if HeldStores(stores, addr) != {} {
      var t :| t in HeldStores(stores, addr);
      assert after[t].upstreamLocked && after[t].owner == None;
    }
    forall t | HeldStores(stores, addr) == {} && t in after && after[t].upstreamLocked
      ensures after[t].owner.Some?
    {
      assert t !in HeldStores(stores, addr);
    }
  }

  lemma LockedOwnedStep(p: Policy, s: FilterState, e: Event)
    requires LockedOwned(s.stores)
    ensures LockedOwned(After(p, s, e).stores) <==> !UnownsLocked(p, s, e)
  {
    hide LockedOwned, IsLockRequest, IsTransferCommand, IsLockStatus, LockStoreId, LockRequestEnabled, HeldStores,
      AfterDisconnect, IsOwner, AfterTransfer;
    match e
    case FromClient(from, c) =>
      if IsLockRequest(c.name) && LockStoreId(c.body).Some? {
        var store := LockStoreId(c.body).value;
        var entry := EntryOf(s.stores, store);
        LockedEntry(s.stores, store);
        WritingKeepsIff(s.stores, store, entry);
        WritingKeepsIff(s.stores, store, entry.(owner := Some(from)));
        WritingKeepsIff(s.stores, store, entry.(owner := None));
      }
    case FromUpstream(c) =>
      if LockStoreId(c.body).Some? {
        var store := LockStoreId(c.body).value;
        WritingKeepsIff(s.stores, store, EntryOf(s.stores, store).(upstreamLocked := true));
        WritingKeepsIff(s.stores, store, FREE);
      }
    case Gone(addr) => LockedOwnedGone(s.stores, addr);
    case LocksCleared => NothingLocked();
    case _ =>
  }

  lemma NothingLocked()
    ensures LockedOwned(map[])
  {
  }

  lemma FreshIsOrderly()
    ensures LaneHeld(FRESH) && LockedOwned(FRESH.stores)
  {
  }

  /** Over any run from a fresh start: every store that upstream reports locked has an owner all along if and
      only if no event left one without. */
  lemma {:induction false} LockedOwnedIff(p: Policy, run: seq<Event>, n: nat)
    requires n <= |run|
    ensures (forall i :: 0 <= i <= n ==> LockedOwned(StateAt(p, FRESH, run, i).stores))
            <==> forall i :: 0 <= i < n ==> !UnownsLocked(p, StateAt(p, FRESH, run, i), run[i])
    decreases n
  {
    hide LockedOwned, UnownsLocked, After;
    if n == 0 {
      FreshIsOrderly();
    } else {
      LockedOwnedIff(p, run, n - 1);
      StateNext(p, FRESH, run, n - 1);
      if LockedOwned(StateAt(p, FRESH, run, n - 1).stores) {
        LockedOwnedStep(p, StateAt(p, FRESH, run, n - 1), run[n - 1]);
      }
    }
  }

  // ---------------------------------------------------------------- the inputs

  /** A command of three body bytes, for store 0 and this state. */
  function StoreCommand(name: CommandName, state: byte): Command {
    Command(name, Serialize(name, [0, 0, state]), [0, 0, state])
  }

  const TRANSFER_START := Name('F', 'T', 'S', 'D')
  const LOCK_STATUS := Name('L', 'K', 'S', 'T')

  /** Lock on, start a transfer, lock off: the lane is left with an owner that owns no store. */
  lemma LaneOutlivesLock(a: Addr)
    ensures var p := Policy(SingleOwner, MediaConfig(true));
            var run := [FromClient(a, StoreCommand(LOCK, 1)), FromClient(a, StoreCommand(TRANSFER_START, 0)),
                        FromClient(a, StoreCommand(LOCK, 0))];
            LaneIs(StateAt(p, FRESH, run, 3), a) && !IsOwner(StateAt(p, FRESH, run, 3).stores, a)
  {
    hide Serialize;
    var p := Policy(SingleOwner, MediaConfig(true));
    var e1, e2, e3 := FromClient(a, StoreCommand(LOCK, 1)), FromClient(a, StoreCommand(TRANSFER_START, 0)),
      FromClient(a, StoreCommand(LOCK, 0));
    var run := [e1, e2, e3];
    var s1 := After(p, FRESH, e1);
    assert s1.stores == map[0 := StoreLock(Some(a), false)] && s1.lane == None;
    assert s1.stores[0].owner == Some(a);
    var s2 := After(p, s1, e2);
    assert LaneIs(s2, a) && s2.stores == s1.stores;
    var s3 := After(p, s2, e3);
    assert s3.stores == map[0 := FREE] && LaneIs(s3, a);
    assert StateAt(p, FRESH, run, 1) == s1;
    assert StateAt(p, FRESH, run, 2) == s2;
    assert StateAt(p, FRESH, run, 3) == s3;
  }

  /** Lock on, disconnect, and only then the switcher's confirmation: a locked store without an owner. */
  lemma LockOutlivesOwner(a: Addr)
    ensures var p := Policy(SingleOwner, MediaConfig(true));
            var run := [FromClient(a, StoreCommand(LOCK, 1)), Gone(a), FromUpstream(StoreCommand(LOCK_STATUS, 1))];
            !LockedOwned(StateAt(p, FRESH, run, 3).stores)
  {
    hide Serialize;
    var p := Policy(SingleOwner, MediaConfig(true));
    var e1, e2, e3 := FromClient(a, StoreCommand(LOCK, 1)), Gone(a), FromUpstream(StoreCommand(LOCK_STATUS, 1));
    var run := [e1, e2, e3];
    var s1 := After(p, FRESH, e1);
    assert s1.stores == map[0 := StoreLock(Some(a), false)];
    var s2 := After(p, s1, e2);
    assert s2.stores == map[0 := FREE];
    var s3 := After(p, s2, e3);
    assert s3.stores[0] == StoreLock(None, true);
    assert StateAt(p, FRESH, run, 1) == s1;
    assert StateAt(p, FRESH, run, 2) == s2;
    assert StateAt(p, FRESH, run, 3) == s3;
  }
}
