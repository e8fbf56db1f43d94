/** The exclusive media transfer lane (atem-proxy/src/transfer.rs). */
module Transfer {
  import opened Wire
  import opened Commands
  import opened Locks

  datatype MediaConfig = MediaConfig(enabled: bool)

  datatype ActiveTransfer = ActiveTransfer(owner: Addr, store: Option<u16>, bytesForwarded: nat)

  type Lane = Option<ActiveTransfer>

  const MAX_U64 := 0xFFFF_FFFF_FFFF_FFFF

  predicate StartsTransfer(n: CommandName) {
    n == Name('F', 'T', 'S', 'D') || n == Name('F', 'T', 'S', 'U')
  }

  predicate CarriesChunk(n: CommandName) {
    n == Name('F', 'T', 'D', 'a')
  }

  predicate ClosesLane(n: CommandName) {
    n == Name('F', 'T', 'D', 'C') || n == Name('F', 'T', 'D', 'E')
  }

  /** A transfer command passes when media is enabled, its client owns some store at this moment, and
      no other client has the lane. */
  predicate TransferForwarded(cfg: MediaConfig, stores: Stores, lane: Lane, from: Addr) {
    cfg.enabled && IsOwner(stores, from) && (lane.None? || lane.value.owner == from)
  }

  function Continue(active: ActiveTransfer, name: CommandName, body: Bytes): ActiveTransfer {
    if StartsTransfer(name) then
      var store := LockStoreId(body);
      active.(store := if store.Some? then store else active.store, bytesForwarded := 0)
    else if CarriesChunk(name) then
      active.(bytesForwarded := Min(active.bytesForwarded + |body|, MAX_U64))
    else active
  }

  /** A command that is refused leaves the lane alone. The first one forwarded opens it, whatever its
      name; later ones continue it, and FTDC or FTDE close it. */
  function AfterTransfer(cfg: MediaConfig, stores: Stores, lane: Lane, from: Addr, name: CommandName, body: Bytes): Lane {
    if !TransferForwarded(cfg, stores, lane, from) then lane
    else if lane.None? then Some(ActiveTransfer(from, LockStoreId(body), 0))
    else if ClosesLane(name) then None
    else Some(Continue(lane.value, name, body))
  }

  function AfterLeave(lane: Lane, addr: Addr): Lane {
    if lane.Some? && lane.value.owner == addr then None else lane
  }

  /** The one client that receives upstream transfer traffic: the lane's owner, or else the owner of
      store 0, or else of store 255. */
  function FanoutOwner(cfg: MediaConfig, stores: Stores, lane: Lane): Option<Addr> {
    if !cfg.enabled then None
    else if lane.Some? then Some(lane.value.owner)
    else if OwnerOf(stores, 0).Some? then OwnerOf(stores, 0)
    else OwnerOf(stores, 255)
  }

  class TransferLane {
    const cfg: MediaConfig
    const locks: LockBroker
    var active: Lane

    constructor (cfg: MediaConfig, locks: LockBroker)
      ensures this.cfg == cfg && this.locks == locks && active == None
    {
      this.cfg, this.locks, this.active := cfg, locks, None;
    }

    method Clear()
      modifies this
      ensures active == None
    {
      active := None;
    }

    method ClientTransfer(from: Addr, name: CommandName, body: Bytes) returns (forward: bool)
      modifies this
      ensures cfg.enabled && !IsTransferCommand(name) ==> forward && active == old(active)
      ensures !cfg.enabled || IsTransferCommand(name) ==>
                && forward == TransferForwarded(cfg, locks.stores, old(active), from)
                && active == AfterTransfer(cfg, locks.stores, old(active), from, name, body)
    {
      if !cfg.enabled {
        return false;
      }
      if !IsTransferCommand(name) {
        return true;
      }
      if !IsOwner(locks.stores, from) {
        return false;
      }
      var store := LockStoreId(body);
      match active
      case None =>
        active := Some(ActiveTransfer(from, store, 0));
        return true;
      case Some(current) =>
        if current.owner != from {
          return false;
        }
        var next := current;
        if StartsTransfer(name) {
          next := next.(store := if store.Some? then store else next.store);
          next := next.(bytesForwarded := 0);
        }
        if CarriesChunk(name) {
          next := next.(bytesForwarded := Min(next.bytesForwarded + |body|, MAX_U64));
        }
        active := Some(next);
        if ClosesLane(name) {
          active := None;
        }
        return true;
    }

    method FanoutTo() returns (owner: Option<Addr>)
      ensures owner == FanoutOwner(cfg, locks.stores, active)
    {
      if !cfg.enabled {
        return None;
      }
      if active.Some? {
        return Some(active.value.owner);
      }
      owner := OwnerOf(locks.stores, 0);
      if owner.None? {
        owner := OwnerOf(locks.stores, 255);
      }
    }

    method ClientDisconnected(addr: Addr)
      modifies this
      ensures active == AfterLeave(old(active), addr)
    {
      if active.Some? && active.value.owner == addr {
        active := None;
      }
    }
  }
}
