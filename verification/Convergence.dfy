/** What the fan-out promises over whole runs, from an empty hub and for every interleaving: a late
    joiner catches up with the cache, also after the broadcast channel overflowed. */
module Convergence {
  import opened Wire
  import opened Packets
  import opened Commands
  import opened Cache
  import opened Locks
  import opened Reliable
  import opened Upstream
  import opened FanOut

  lemma EmptyCacheInv()
    ensures CacheInv(EMPTY)
  {
  }

  lemma StartInv()
    ensures HubInv(START)
  {
    hide CacheInv, Wholesome;
    EmptyCacheInv();
    NothingNow(map[]);
    assert ToCome(START) == map[];
  }

  lemma InvIsValid(h: Hub)
    requires HubInv(h)
    ensures Valid(h.cache)
  {
    hide Valid, Coming, AllWholesome, SessionsInv;
  }

  /** Any interleaving of steps. */
  ghost function Run(h: Hub, steps: seq<Step>): (r: Hub)
    requires HubInv(h)
    ensures HubInv(r)
    decreases |steps|
  {
    hide HubInv, After;
    if steps == [] then h
    else
      InvIsValid(h);
      StepKeeps(h, steps[0]);
      Run(After(h, steps[0]), steps[1..])
  }

  /** The hub after these steps. */
  ghost function Reached(steps: seq<Step>): Hub
    ensures HubInv(Reached(steps))
  {
    hide HubInv;
    StartInv();
    Run(START, steps)
  }

  // ---------------------------------------------------------------- catching up

  predicate IsOpenAt(h: Hub, addr: Addr) {
    addr in h.sessions && h.sessions[addr].isOpen
  }

  /** At every moment at which no overflow waits for its dump, whatever was ingested, published, fanned out
      or opened in between: applying the events that are still to come to the view of an opened client gives
      exactly the cache. The dump it opened with may be followed by events that the dump already holds. */
  lemma LateJoinConvergence(steps: seq<Step>, addr: Addr)
    requires IsOpenAt(Reached(steps), addr) && Steady(Reached(steps))
    ensures var h := Reached(steps);
            View(h.sessions[addr].queued) + (TaskUpdate(h.task) + ToCome(h)) == h.cache.slots
  {
    hide View, TaskUpdate, ToCome, Reached, CacheInv, Coming;
  }

  /** Nothing is on its way to the clients. */
  predicate Quiet(h: Hub) {
    h.task.Idle? && !h.lagged && h.queue == [] && h.unpublished == [] && !h.finishing
  }

  /** The client's own last-wins copy is the cache: the same entries under the same keys, the same
      version, and ready. */
  ghost predicate CaughtUp(payloads: seq<Bytes>, c: CacheState) {
    var copy := IngestAll(EMPTY, payloads);
    && copy.slots == c.slots && copy.version == c.version && copy.ready
    && Distinct(copy.keys) && (forall k :: k in copy.keys <==> k in c.keys)
  }

  lemma QuietView(h: Hub, addr: Addr)
    requires HubInv(h) && Quiet(h) && IsOpenAt(h, addr)
    ensures IngestAll(EMPTY, h.sessions[addr].queued).ready && Valid(h.cache)
    ensures View(h.sessions[addr].queued) == h.cache.slots
  {
    hide IngestAll, Valid, AllFit, AllWholesome, Coming;
    assert h.queue + h.unpublished == [];
    NothingNow(map[]);
    var view := View(h.sessions[addr].queued);
    assert view + map[] == view;
  }

  lemma QuietCaughtUp(h: Hub, addr: Addr)
    requires HubInv(h) && Quiet(h) && IsOpenAt(h, addr)
    ensures CaughtUp(h.sessions[addr].queued, h.cache)
  {
    hide HubInv, Quiet, IngestAll, ViewOf, StoredUnder, VersionIn;
    QuietView(h, addr);
    CacheRefinesPayloads(h.sessions[addr].queued);
  }

  // ---------------------------------------------------------------- every schedule converges

  /** The steps that the upstream task and the fan-out task still have to make. */
  predicate Enabled(h: Hub, step: Step) {
    match step
    case Publish => h.unpublished != [] || h.finishing
    case Receive => h.task.Idle? && (h.lagged || h.queue != [])
    case TakeDump => h.task.LagSeen?
    case Deliver(_) => h.task.Holding? || h.task.Resync?
    case _ => false
  }

  function TaskWork(t: Task): nat {
    match t
    case Idle => 0
    case Holding(_) => 1
    case LagSeen => 2
    case Resync(_) => 1
  }

  /** An upper bound on the steps left. */
  function Work(h: Hub): nat {
    4 * |h.unpublished| + (if h.finishing then 4 else 0) + 2 * |h.queue| + (if h.lagged then 3 else 0)
    + TaskWork(h.task)
  }

  lemma QuietIff(h: Hub)
    ensures Quiet(h) <==> forall step :: !Enabled(h, step)
  {
    if forall step :: !Enabled(h, step) {
      assert !Enabled(h, Publish) && !Enabled(h, Receive) && !Enabled(h, TakeDump) && !Enabled(h, Deliver(None));
    }
  }

  /** Two hubs with the same cache contents and the same clients open. */
  ghost predicate SameClients(h: Hub, h': Hub) {
    && h'.cache.keys == h.cache.keys && h'.cache.slots == h.cache.slots && h'.cache.version == h.cache.version
    && (forall a :: IsOpenAt(h', a) <==> IsOpenAt(h, a))
  }

  lemma FanOutKeepsOpen(h: Hub, e: UpstreamEvent, owner: Option<Addr>, dump: seq<Bytes>)
    ensures SameClients(h, h.(task := Idle, sessions := FannedOut(h.sessions, e, owner)))
    ensures SameClients(h, h.(task := Idle, sessions := Resynced(h.sessions, dump)))
  {
    hide Receives, Pack;
  }

  lemma EnabledStepWorks(h: Hub, step: Step)
    requires Valid(h.cache) && Enabled(h, step)
    ensures Work(After(h, step)) < Work(h) && SameClients(h, After(h, step))
  {
    hide Valid, FannedOut, Resynced, Dump, IsOpenAt;
    if step.Deliver? {
      var e, dump := if h.task.Holding? then h.task.event else Connected, if h.task.Resync? then h.task.dump else [];
      FanOutKeepsOpen(h, e, step.owner, dump);
      hide SameClients;
    } else {
      var h' := After(h, step);
      assert h'.sessions == h.sessions;
      assert forall a :: IsOpenAt(h', a) <==> IsOpenAt(h, a) by {
        OpenBySessions(h, h');
      }
    }
  }

  lemma OpenBySessions(h: Hub, h': Hub)
    requires h'.sessions == h.sessions
    ensures forall a :: IsOpenAt(h', a) <==> IsOpenAt(h, a)
  {
  }

  /** Steps that are all enabled when they are taken. */
  ghost predicate Schedule(h: Hub, steps: seq<Step>)
    requires HubInv(h)
    decreases |steps|
  {
    hide HubInv;
    steps == [] ||
    (InvIsValid(h);
     StepKeeps(h, steps[0]);
     Enabled(h, steps[0]) && Schedule(After(h, steps[0]), steps[1..]))
  }

  lemma {:induction false} ScheduleEnds(h: Hub, steps: seq<Step>)
    requires HubInv(h) && Schedule(h, steps)
    ensures |steps| + Work(Run(h, steps)) <= Work(h) && SameClients(h, Run(h, steps))
    decreases |steps|
  {
    hide HubInv, After, Enabled, Work, Valid, IsOpenAt;
    if steps != [] {
      InvIsValid(h);
      StepKeeps(h, steps[0]);
      EnabledStepWorks(h, steps[0]);
      ScheduleEnds(After(h, steps[0]), steps[1..]);
    }
  }

  /** Convergence. Take any run, with any number of overflows of the channel, and let the two tasks go on
      in any order while nothing else happens: they stop within `Work` steps, and when no step is left to
      make every client that was open holds exactly the cache that the run ended with. */
  lemma EveryScheduleConverges(steps: seq<Step>, schedule: seq<Step>)
    requires Schedule(Reached(steps), schedule)
    ensures |schedule| <= Work(Reached(steps))
    ensures var h, h' := Reached(steps), Run(Reached(steps), schedule);
            (forall step :: !Enabled(h', step)) ==>
              (forall a :: IsOpenAt(h, a) ==> a in h'.sessions && CaughtUp(h'.sessions[a].queued, h.cache))
  {
    var h, h' := Reached(steps), Run(Reached(steps), schedule);
    ScheduleEnds(h, schedule);
    QuietIff(h');
    hide HubInv, Work, Quiet, Enabled, Schedule, Run, Reached;
    if Quiet(h') {
      forall a | IsOpenAt(h, a)
        ensures a in h'.sessions && CaughtUp(h'.sessions[a].queued, h.cache)
      {
        assert IsOpenAt(h', a);
        QuietCaughtUp(h', a);
      }
    }
  }

  /** A schedule that leaves no step to make exists from every reachable hub, so the above is not empty. */
  lemma {:induction false} SomeScheduleEnds(h: Hub) returns (schedule: seq<Step>)
    requires HubInv(h)
    ensures Schedule(h, schedule) && Quiet(Run(h, schedule))
    decreases Work(h)
  {
    hide HubInv, After;
    QuietIff(h);
    if Quiet(h) {
      schedule := [];
    } else {
      var step :| Enabled(h, step);
      InvIsValid(h);
      StepKeeps(h, step);
      EnabledStepWorks(h, step);
      var rest := SomeScheduleEnds(After(h, step));
      schedule := [step] + rest;
      assert schedule[1..] == rest;
    }
  }

  // ---------------------------------------------------------------- the log

  /** What a step adds to the log of upstream payloads. */
  function LoggedBy(h: Hub, step: Step): seq<Bytes> {
    if step.Ingest? && h.unpublished == [] && !h.finishing && DecodePacket(step.datagram).Ok?
    then [DecodePacket(step.datagram).value.payload]
    else []
  }

  /** The log of a run: every payload that upstream sent, whole. */
  ghost function Log(h: Hub, steps: seq<Step>): seq<Bytes>
    requires HubInv(h)
    decreases |steps|
  {
    hide HubInv, After;
    if steps == [] then []
    else
      InvIsValid(h);
      StepKeeps(h, steps[0]);
      LoggedBy(h, steps[0]) + Log(After(h, steps[0]), steps[1..])
  }

  ghost function FullLog(steps: seq<Step>): seq<Bytes> {
    hide HubInv;
    StartInv();
    Log(START, steps)
  }

  /** The cache as it is once the payload at hand is dealt with. */
  function Settled(h: Hub): CacheState {
    h.cache.(ready := h.cache.ready || h.finishing)
  }

  lemma StateChunkIsWhole(c: CacheState, payload: Bytes)
    ensures Ingested(c, payload)
         == if SawReady(payload) then Ingested(c, StateChunk(payload)).(ready := true)
            else Ingested(c, StateChunk(payload))
  {
    if Parse(payload).Ok? {
      SplitKeepsState(c, map[], payload);
    }
    hide Parse, Routed, Joined, IngestCommands;
  }

  lemma StepSettles(h: Hub, step: Step)
    requires Valid(h.cache)
    ensures Settled(After(h, step)) == IngestAll(Settled(h), LoggedBy(h, step))
  {
    hide Ingested, StateChunk, SawReady, DecodePacket, Valid, IngestAll, EventsOf, Dump, Pack;
    IngestNothing(Settled(h));
    if LoggedBy(h, step) != [] {
      var payload := DecodePacket(step.datagram).value.payload;
      StateChunkIsWhole(h.cache, payload);
      IngestOne(h.cache, payload);
    }
  }

  lemma {:induction false} CacheIsLog(h: Hub, steps: seq<Step>)
    requires HubInv(h)
    ensures Settled(Run(h, steps)) == IngestAll(Settled(h), Log(h, steps))
    decreases |steps|
  {
    hide HubInv, After, Settled, LoggedBy, IngestAll;
    if steps == [] {
      IngestNothing(Settled(h));
    } else {
      InvIsValid(h);
      StepKeeps(h, steps[0]);
      StepSettles(h, steps[0]);
      CacheIsLog(After(h, steps[0]), steps[1..]);
      IngestAllAppend(Settled(h), LoggedBy(h, steps[0]), Log(After(h, steps[0]), steps[1..]));
    }
  }

  /** However the steps interleaved, once nothing is on its way every opened client holds, under each key,
      the last cacheable command that upstream sent with that key since the session began, and nothing
      else: a dump and the live events stand in for the full command log. */
  lemma ClientHoldsTheLog(steps: seq<Step>, addr: Addr, key: CacheKey)
    requires Quiet(Reached(steps)) && IsOpenAt(Reached(steps), addr)
    ensures Lookup(IngestAll(EMPTY, Reached(steps).sessions[addr].queued).slots, key)
         == LastRaw(LogOf(FullLog(steps)), key)
  {
    hide HubInv, IngestAll, LastRaw, Run, Log, FirstSeenOrder, Valid;
    QuietCaughtUp(Reached(steps), addr);
    StartInv();
    CacheIsLog(START, steps);
    CacheRefinesPayloads(FullLog(steps));
  }
}
