/** The fan-in filter (atem-proxy/src/filter.rs): what clients may send upstream. */
module Filter {
  import opened Wire
  import opened Commands
  import opened Locks
  import opened Transfer

  datatype LockMode = Deny | SingleOwner

  datatype Policy = Policy(lockMode: LockMode, media: MediaConfig)

  datatype DropReason = LocksDenied | StoreBusy | MediaDisabled | NotLockOwner

  datatype FilterAction =
    | Forward(raw: Bytes)
    | Dropped(name: CommandName, reason: DropReason)
    | AudioSubscribe(enable: bool, forward: Option<Bytes>)

  /** Everything the filter's decisions depend on: the locks, the lane and the audio subscribers. */
  datatype FilterState = FilterState(stores: Stores, lane: Lane, clients: set<Addr>, lastEnable: Option<Bytes>)

  const FRESH := FilterState(map[], None, {}, None)

  /** The flag of an audio subscription is its last body byte; without a body it means enable. */
  function EnableFlag(body: Bytes): bool {
    body == [] || body[|body| - 1] != 0
  }

  function SynthesizeAudioDisable(enableCmd: Bytes): Bytes {
    if enableCmd == [] then [] else enableCmd[|enableCmd| - 1 := 0]
  }

  // ---------------------------------------------------------------- one command

  function AfterAudio(s: FilterState, from: Addr, c: Command): FilterState {
    if EnableFlag(c.body) then s.(clients := s.clients + {from}, lastEnable := Some(c.raw))
    else s.(clients := s.clients - {from})
  }

  /** The subscriber set becoming non-empty forwards the enable, becoming empty a disable. */
  function AudioAction(s: FilterState, from: Addr, c: Command): FilterAction {
    var after := AfterAudio(s, from, c).clients;
    if s.clients == {} && after != {} then AudioSubscribe(true, Some(c.raw))
    else if s.clients != {} && after == {} then AudioSubscribe(false, Some(SynthesizeAudioDisable(c.raw)))
    else AudioSubscribe(EnableFlag(c.body), None)
  }

  function AfterCommand(p: Policy, s: FilterState, from: Addr, c: Command): FilterState {
    if IsLockRequest(c.name) then
      if p.lockMode.Deny? then s else s.(stores := AfterLockRequest(s.stores, from, c.body))
    else if IsTransferCommand(c.name) then
      s.(lane := AfterTransfer(p.media, s.stores, s.lane, from, c.name, c.body))
    else if IsAudioLevelsSubscribe(c.name) then AfterAudio(s, from, c)
    else s
  }

  function ActionOf(p: Policy, s: FilterState, from: Addr, c: Command): FilterAction {
    if IsLockRequest(c.name) then
      if p.lockMode.Deny? then Dropped(c.name, LocksDenied)
      else if LockForwarded(s.stores, from, c.body) then Forward(c.raw)
      else Dropped(c.name, StoreBusy)
    else if IsTransferCommand(c.name) then
      if !p.media.enabled then Dropped(c.name, MediaDisabled)
      else if TransferForwarded(p.media, s.stores, s.lane, from) then Forward(c.raw)
      else Dropped(c.name, NotLockOwner)
    else if IsAudioLevelsSubscribe(c.name) then AudioAction(s, from, c)
    else Forward(c.raw)
  }

  // ---------------------------------------------------------------- payloads and disconnects

  function AfterCommands(p: Policy, s: FilterState, from: Addr, cmds: seq<Command>): FilterState {
    if cmds == [] then s
    else AfterCommand(p, AfterCommands(p, s, from, cmds[..|cmds| - 1]), from, cmds[|cmds| - 1])
  }

  function ActionsOf(p: Policy, s: FilterState, from: Addr, cmds: seq<Command>): seq<FilterAction> {
    if cmds == [] then []
    else
      var rest := cmds[..|cmds| - 1];
      ActionsOf(p, s, from, rest) + [ActionOf(p, AfterCommands(p, s, from, rest), from, cmds[|cmds| - 1])]
  }

  /** A payload that does not parse is forwarded as it is. */
  function AfterPayload(p: Policy, s: FilterState, from: Addr, payload: Bytes): FilterState {
    match Parse(payload)
    case Ok(cmds) => AfterCommands(p, s, from, cmds)
    case Err(_) => s
  }

  function PayloadActions(p: Policy, s: FilterState, from: Addr, payload: Bytes): seq<FilterAction> {
    match Parse(payload)
    case Ok(cmds) => ActionsOf(p, s, from, cmds)
    case Err(_) => [Forward(payload)]
  }

  /** The commands that the filter's actions send upstream, in order. */
  function Forwards(actions: seq<FilterAction>): seq<Bytes> {
    if actions == [] then [] else Forwards(actions[..|actions| - 1]) + ForwardOf(actions[|actions| - 1])
  }

  function ForwardOf(action: FilterAction): seq<Bytes> {
    match action
    case Forward(raw) => [raw]
    case Dropped(_, _) => []
    case AudioSubscribe(_, forward) => if forward.Some? then [forward.value] else []
  }

  /** The session's audio flag is that of the last subscription. */
  function AudioAfter(actions: seq<FilterAction>, audio: bool): bool {
    if actions == [] then audio
    else
      match actions[|actions| - 1]
      case AudioSubscribe(enable, _) => enable
      case _ => AudioAfter(actions[..|actions| - 1], audio)
  }

  function AfterGone(s: FilterState, addr: Addr): FilterState {
    FilterState(AfterDisconnect(s.stores, addr), AfterLeave(s.lane, addr), s.clients - {addr}, s.lastEnable)
  }

  /** The audio command that a disconnect sends: a disable made of the last enable, if the client was
      the last subscriber. */
  function AudioOff(s: FilterState, addr: Addr): seq<Bytes> {
    if s.clients == {addr} && s.lastEnable.Some? then [SynthesizeAudioDisable(s.lastEnable.value)] else []
  }

  /** What goes upstream when a client goes: audio off, then one unlock for each store it held. */
  ghost predicate CleansUp(out: seq<Bytes>, s: FilterState, addr: Addr) {
    exists unlocks :: out == AudioOff(s, addr) + unlocks && UnlocksExactly(unlocks, HeldStores(s.stores, addr))
  }

  function AfterAllGone(s: FilterState, gone: seq<Addr>): FilterState {
    if gone == [] then s else AfterGone(AfterAllGone(s, gone[..|gone| - 1]), gone[|gone| - 1])
  }

  // ---------------------------------------------------------------- one command more

  lemma ForwardsNext(actions: seq<FilterAction>, action: FilterAction)
    ensures Forwards(actions + [action]) == Forwards(actions) + ForwardOf(action)
  {
    assert (actions + [action])[..|actions|] == actions;
    hide ForwardOf;
  }

  lemma ActionsNext(p: Policy, s: FilterState, from: Addr, cmds: seq<Command>, c: Command)
    ensures ActionsOf(p, s, from, cmds + [c])
         == ActionsOf(p, s, from, cmds) + [ActionOf(p, AfterCommands(p, s, from, cmds), from, c)]
    ensures AfterCommands(p, s, from, cmds + [c]) == AfterCommand(p, AfterCommands(p, s, from, cmds), from, c)
  {
    assert (cmds + [c])[..|cmds|] == cmds;
    hide ActionOf, AfterCommand;
  }

  lemma SentNext(p: Policy, s: FilterState, from: Addr, cmds: seq<Command>, c: Command)
    ensures Forwards(ActionsOf(p, s, from, cmds + [c]))
         == Forwards(ActionsOf(p, s, from, cmds)) + ForwardOf(ActionOf(p, AfterCommands(p, s, from, cmds), from, c))
  {
    hide *;
    ActionsNext(p, s, from, cmds, c);
    ForwardsNext(ActionsOf(p, s, from, cmds), ActionOf(p, AfterCommands(p, s, from, cmds), from, c));
  }

  lemma NothingSent(p: Policy, s: FilterState, from: Addr)
    ensures Forwards(ActionsOf(p, s, from, [])) == [] && AfterCommands(p, s, from, []) == s
  {
  }

  // ---------------------------------------------------------------- the filter object

  class CommandFilter {
    const lockMode: LockMode
    const locks: LockBroker
    const transfer: TransferLane
    var clients: set<Addr>
    var lastEnable: Option<Bytes>

    ghost function Config(): Policy {
      Policy(lockMode, transfer.cfg)
    }

    ghost function State(): FilterState
      reads this, locks, transfer
    {
      FilterState(locks.stores, transfer.active, clients, lastEnable)
    }

    /** The filter and the lane share one broker. */
    constructor (lockMode: LockMode, locks: LockBroker, transfer: TransferLane)
      requires transfer.locks == locks
      ensures this.lockMode == lockMode && this.locks == locks && this.transfer == transfer
      ensures clients == {} && lastEnable == None
    {
      this.lockMode, this.locks, this.transfer := lockMode, locks, transfer;
      clients, lastEnable := {}, None;
    }

    method SubscribeAudio(from: Addr, c: Command) returns (action: FilterAction)
      requires IsAudioLevelsSubscribe(c.name)
      modifies this
      ensures State() == AfterAudio(old(State()), from, c)
      ensures action == AudioAction(old(State()), from, c)
    {
      var enable := EnableFlag(c.body);
      var before := |clients|;
      if enable {
        clients := clients + {from};
        lastEnable := Some(c.raw);
      } else {
        clients := clients - {from};
      }
      var after := |clients|;
      if before == 0 && after > 0 {
        action := AudioSubscribe(true, Some(c.raw));
      } else if before > 0 && after == 0 {
        action := AudioSubscribe(false, Some(SynthesizeAudioDisable(c.raw)));
      } else {
        action := AudioSubscribe(enable, None);
      }
    }

    method ProcessCommand(from: Addr, c: Command) returns (action: FilterAction)
      requires transfer.locks == locks
      modifies this, locks, transfer
      ensures State() == AfterCommand(Config(), old(State()), from, c)
      ensures action == ActionOf(Config(), old(State()), from, c)
    {
      if IsLockRequest(c.name) {
        match lockMode
        case Deny => return Dropped(c.name, LocksDenied);
        case SingleOwner =>
          var forward := locks.ClientLockRequest(from, c.name, c.body);
          return if forward then Forward(c.raw) else Dropped(c.name, StoreBusy);
      }
      if IsTransferCommand(c.name) {
        if !transfer.cfg.enabled {
          return Dropped(c.name, MediaDisabled);
        }
        var forward := transfer.ClientTransfer(from, c.name, c.body);
        return if forward then Forward(c.raw) else Dropped(c.name, NotLockOwner);
      }
      if IsAudioLevelsSubscribe(c.name) {
        action := SubscribeAudio(from, c);
        return;
      }
      return Forward(c.raw);
    }

    method ProcessPayload(from: Addr, payload: Bytes) returns (actions: seq<FilterAction>)
      requires transfer.locks == locks
      modifies this, locks, transfer
      ensures State() == AfterPayload(Config(), old(State()), from, payload)
      ensures actions == PayloadActions(Config(), old(State()), from, payload)
    {
      hide AfterCommand, ActionOf;
      var parsed := ParseCommands(payload);
      if parsed.Err? {
        return [Forward(payload)];
      }
      var cmds := parsed.value;
      actions := [];
      for k := 0 to |cmds|
        invariant State() == AfterCommands(Config(), old(State()), from, cmds[..k])
        invariant actions == ActionsOf(Config(), old(State()), from, cmds[..k])
      {
        assert cmds[..k + 1][..k] == cmds[..k];
        var action := ProcessCommand(from, cmds[k]);
        actions := actions + [action];
      }
      assert cmds[..|cmds|] == cmds;
    }

    /** The commands to send upstream when a client goes: audio off first, then its unlocks. */
    method ClientDisconnected(addr: Addr) returns (out: seq<Bytes>)
      requires transfer.locks == locks
      modifies this, locks, transfer
      ensures State() == AfterGone(old(State()), addr)
      ensures CleansUp(out, old(State()), addr)
    {
      hide UnlocksExactly, HeldStores, AfterDisconnect;
      out := [];
      if addr in clients {
        clients := clients - {addr};
        if clients == {} && lastEnable.Some? {
          out := [SynthesizeAudioDisable(lastEnable.value)];
        }
      }
      transfer.ClientDisconnected(addr);
      var unlocks := locks.ClientDisconnected(addr);
      out := out + unlocks;
    }
  }
}
