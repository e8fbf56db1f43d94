/** Single-owner lock arbitration (atem-proxy/src/locks.rs). */
module Locks {
  import opened Wire
  import opened Commands

  /** A client's socket address. */
  type Addr = nat

  datatype StoreLock = StoreLock(owner: Option<Addr>, upstreamLocked: bool)

  type Stores = map<u16, StoreLock>

  const FREE := StoreLock(None, false)

  function EntryOf(stores: Stores, store: u16): StoreLock {
    if store in stores then stores[store] else FREE
  }

  function OwnerOf(stores: Stores, store: u16): Option<Addr> {
    EntryOf(stores, store).owner
  }

  predicate IsOwner(stores: Stores, addr: Addr) {
    exists s :: s in stores && stores[s].owner == Some(addr)
  }

  // ---------------------------------------------------------------- the decisions

  /** A request is forwarded when it names a store that no other client owns. */
  predicate LockForwarded(stores: Stores, from: Addr, body: Bytes) {
    && LockStoreId(body).Some?
    && var owner := OwnerOf(stores, LockStoreId(body).value);
    owner == None || owner == Some(from)
  }

  /** A forwarded request takes or frees the store; a refused one leaves the owners alone. */
  function AfterLockRequest(stores: Stores, from: Addr, body: Bytes): Stores {
    match LockStoreId(body)
    case None => stores
    case Some(store) =>
      var entry := EntryOf(stores, store);
      if LockForwarded(stores, from, body) then
        stores[store := entry.(owner := if LockRequestEnabled(body) then Some(from) else None)]
      else stores[store := entry]
  }

  function AfterStatusCommand(stores: Stores, c: Command): Stores {
    if !IsLockStatus(c.name) || LockStoreId(c.body).None? then stores
    else
      var store := LockStoreId(c.body).value;
      var entry := EntryOf(stores, store);
      if LockRequestEnabled(c.body) then stores[store := entry.(upstreamLocked := true)]
      else stores[store := FREE]
  }

  function AfterStatus(stores: Stores, cmds: seq<Command>): Stores {
    if cmds == [] then stores
    else AfterStatusCommand(AfterStatus(stores, cmds[..|cmds| - 1]), cmds[|cmds| - 1])
  }

  function AfterStatusPayload(stores: Stores, payload: Bytes): Stores {
    match Parse(payload)
    case Ok(cmds) => AfterStatus(stores, cmds)
    case Err(_) => stores
  }

  function Freed(entry: StoreLock, addr: Addr): StoreLock {
    if entry.owner == Some(addr) then entry.(owner := None) else entry
  }

  function AfterDisconnect(stores: Stores, addr: Addr): Stores {
    map s | s in stores :: Freed(stores[s], addr)
  }

  /** The stores that a disconnecting client owned and upstream reported locked. */
  function HeldStores(stores: Stores, addr: Addr): set<u16> {
    set s | s in stores && stores[s].owner == Some(addr) && stores[s].upstreamLocked
  }

  /** One unlock command for each of the stores, and no other command. */
  ghost predicate UnlocksExactly(unlocks: seq<Bytes>, stores: set<u16>) {
    && |unlocks| == |stores|
    && (forall s :: s in stores ==> SynthesizeUnlock(s) in unlocks)
    && (forall u :: u in unlocks ==> exists s :: s in stores && u == SynthesizeUnlock(s))
  }

  /** Different stores get different unlock commands, so `UnlocksExactly` sends each command once. */
  lemma UnlockNamesStore(s: u16, t: u16)
    ensures SynthesizeUnlock(s) == SynthesizeUnlock(t) <==> s == t
  {
    SynthesizedUnlockParses(s);
    SynthesizedUnlockParses(t);
    hide *;
  }

  lemma UnlocksAreDistinct(unlocks: seq<Bytes>, stores: set<u16>)
    requires UnlocksExactly(unlocks, stores)
    ensures multiset(unlocks) == multiset(set s | s in stores :: SynthesizeUnlock(s))
  {
    var wanted := set s | s in stores :: SynthesizeUnlock(s);
    ImageSize(stores);
    assert forall u :: u in unlocks <==> u in wanted;
    hide SynthesizeUnlock;
    NoSpareMembers(unlocks, wanted);
  }

  lemma {:induction false} ImageSize(stores: set<u16>)
    ensures |set s | s in stores :: SynthesizeUnlock(s)| == |stores|
  {
    var image := set s | s in stores :: SynthesizeUnlock(s);
    if stores == {} {
      assert image == {};
    } else {
      var s :| s in stores;
      ImageSize(stores - {s});
      forall t | t in stores - {s}
        ensures SynthesizeUnlock(t) != SynthesizeUnlock(s)
      {
        UnlockNamesStore(s, t);
      }
      var rest := set t | t in stores - {s} :: SynthesizeUnlock(t);
      hide SynthesizeUnlock;
      assert image == rest + {SynthesizeUnlock(s)};
    }
  }

  /** A sequence with the members of a set and no more entries than the set has repeats nothing. */
  lemma {:induction false} NoSpareMembers<T>(xs: seq<T>, members: set<T>)
    requires |xs| == |members| && forall x :: x in xs <==> x in members
    ensures multiset(xs) == multiset(members)
    decreases |xs|
  {
    if xs == [] {
      assert members == {};
    } else {
      var x, rest := xs[0], xs[1..];
      if x in rest {
        SeqBound(rest, members);
        assert false;
      }
      assert xs == [x] + rest;
      NoSpareMembers(rest, members - {x});
      assert multiset(members) == multiset{x} + multiset(members - {x});
    }
  }

  lemma {:induction false} SeqBound<T>(xs: seq<T>, members: set<T>)
    requires forall x :: x in members ==> x in xs
    ensures |members| <= |xs|
    decreases |xs|
  {
    if xs == [] {
      assert members == {};
    } else {
      forall x | x in members - {xs[0]}
        ensures x in xs[1..]
      {
        assert x in xs;
      }
      SeqBound(xs[1..], members - {xs[0]});
    }
  }

  // ---------------------------------------------------------------- the broker object

  class LockBroker {
    var stores: Stores

    constructor ()
      ensures stores == map[]
    {
      stores := map[];
    }

    method Clear()
      modifies this
      ensures stores == map[]
    {
      stores := map[];
    }

    /** The decision on a LOCK or PLCK from a client; other commands are none of its business. */
    method ClientLockRequest(from: Addr, name: CommandName, body: Bytes) returns (forward: bool)
      modifies this
      ensures !IsLockRequest(name) ==> forward && stores == old(stores)
      ensures IsLockRequest(name) ==>
                forward == LockForwarded(old(stores), from, body) && stores == AfterLockRequest(old(stores), from, body)
    {
      if !IsLockRequest(name) {
        return true;
      }
      var id := LockStoreId(body);
      if id.None? {
        return false;
      }
      var store := id.value;
      var wantLock := LockRequestEnabled(body);
      var entry := EntryOf(stores, store);
      if wantLock {
        match entry.owner
        case None =>
          stores := stores[store := entry.(owner := Some(from))];
          return true;
        case Some(owner) =>
          stores := stores[store := entry];
          return owner == from;
      } else {
        if entry.owner == Some(from) || entry.owner == None {
          stores := stores[store := entry.(owner := None)];
          return true;
        } else {
          stores := stores[store := entry];
          return false;
        }
      }
    }

    method OnUpstreamLockStatus(payload: Bytes)
      modifies this
      ensures stores == AfterStatusPayload(old(stores), payload)
    {
      var parsed := ParseCommands(payload);
      if parsed.Err? {
        return;
      }
      var cmds := parsed.value;
      for k := 0 to |cmds|
        invariant stores == AfterStatus(old(stores), cmds[..k])
      {
        assert cmds[..k + 1][..k] == cmds[..k];
        var c := cmds[k];
        if !IsLockStatus(c.name) {
          continue;
        }
        var id := LockStoreId(c.body);
        if id.None? {
          continue;
        }
        var locked := LockRequestEnabled(c.body);
        var entry := EntryOf(stores, id.value);
        entry := entry.(upstreamLocked := locked);
        if !locked {
          entry := entry.(owner := None);
        }
        stores := stores[id.value := entry];
      }
      assert cmds[..|cmds|] == cmds;
    }

    /** Frees what the client owned; the unlock commands come in the map's own order. */
    method ClientDisconnected(addr: Addr) returns (unlocks: seq<Bytes>)
      modifies this
      ensures stores == AfterDisconnect(old(stores), addr)
      ensures UnlocksExactly(unlocks, HeldStores(old(stores), addr))
    {
      unlocks := [];
      var todo := stores.Keys;
      ghost var before := stores;
      NothingFreed(before, addr);
      while todo != {}
        invariant todo <= before.Keys
        invariant stores == PartlyFreed(before, todo, addr)
        invariant UnlocksExactly(unlocks, HeldStores(before, addr) - todo)
      {
        hide UnlocksExactly, SynthesizeUnlock, PartlyFreed, HeldStores;
        var s :| s in todo;
        FreeOne(before, todo, addr, s);
        var entry := stores[s];
        if entry.owner == Some(addr) {
          stores := stores[s := entry.(owner := None)];
          if entry.upstreamLocked {
            OneMoreUnlock(unlocks, HeldStores(before, addr) - todo, s);
            unlocks := unlocks + [SynthesizeUnlock(s)];
          }
        }
        todo := todo - {s};
      }
      AllFreed(before, addr);
    }
  }

  /** The map while a disconnect still has to look at the stores in `todo`. */
  ghost function PartlyFreed(before: Stores, todo: set<u16>, addr: Addr): Stores {
    map s | s in before :: if s in todo then before[s] else Freed(before[s], addr)
  }

  lemma NothingFreed(before: Stores, addr: Addr)
    ensures PartlyFreed(before, before.Keys, addr) == before
    ensures HeldStores(before, addr) - before.Keys == {}
    ensures UnlocksExactly([], {})
  {
  }

  lemma AllFreed(before: Stores, addr: Addr)
    ensures PartlyFreed(before, {}, addr) == AfterDisconnect(before, addr)
    ensures HeldStores(before, addr) - {} == HeldStores(before, addr)
  {
  }

  lemma FreeOne(before: Stores, todo: set<u16>, addr: Addr, s: u16)
    requires s in todo && todo <= before.Keys
    ensures var part := PartlyFreed(before, todo, addr); var next := PartlyFreed(before, todo - {s}, addr);
            && s in part && part[s] == before[s]
            && next == (if part[s].owner == Some(addr) then part[s := part[s].(owner := None)] else part)
    ensures var held := HeldStores(before, addr);
            && s !in held - todo
            && held - (todo - {s}) ==
               (if before[s].owner == Some(addr) && before[s].upstreamLocked then held - todo + {s} else held - todo)
  {
  }

  lemma OneMoreUnlock(unlocks: seq<Bytes>, stores: set<u16>, s: u16)
    requires UnlocksExactly(unlocks, stores) && s !in stores
    ensures UnlocksExactly(unlocks + [SynthesizeUnlock(s)], stores + {s})
  {
    hide SynthesizeUnlock;
  }
}
