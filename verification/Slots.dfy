/** What the cache keeps, said of the commands themselves: when two commands share a slot by their names and first
    bytes, and which commands of a log a dump holds. */
module Slots {
  import opened Wire
  import opened Commands
  import opened Spelling
  import opened Cache
  import opened Locks
  import opened FanOut
  import Reliable
  import opened Convergence

  /** The commands whose first byte, a mix effect, tells the slots of one name apart. */
  predicate ByMixEffect(n: CommandName) {
    || Reads(n, 'P', 'r', 'g', 'I') || Reads(n, 'P', 'r', 'v', 'I') || Reads(n, 'T', 'r', 'S', 'S')
    || Reads(n, 'T', 'r', 'P', 's') || Reads(n, 'T', 'r', 'P', 'r') || Reads(n, 'F', 't', 'b', 'S')
    || Reads(n, 'F', 't', 'b', 'P')
  }

  /** Those whose first four bytes do: inputs, keyers, aux outputs and the like. */
  predicate ByIndex(n: CommandName) {
    || Reads(n, 'K', 'e', 'O', 'n') || Reads(n, 'K', 'e', 'B', 'P') || Reads(n, 'D', 's', 'k', 'B')
    || Reads(n, 'D', 's', 'k', 'S') || Reads(n, 'D', 's', 'k', 'P') || Reads(n, 'C', 'o', 'l', 'V')
    || Reads(n, 'A', 'u', 'x', 'S') || Reads(n, 'M', 'P', 'C', 'E') || Reads(n, 'M', 'P', 'r', 'p')
    || Reads(n, 'C', 'v', 'l', 'I') || Reads(n, 'I', 'n', 'P', 'r') || Reads(n, 'I', 'n', 'P', 'X')
  }

  /** The first `n` bytes are the same, as far as there are any. */
  predicate Agree(a: Bytes, b: Bytes, n: nat) {
    Min(|a|, n) == Min(|b|, n) && forall i :: 0 <= i < n && i < |a| && i < |b| ==> a[i] == b[i]
  }

  predicate SameSlot(c: Command, d: Command) {
    && c.name == d.name
    && (ByMixEffect(c.name) ==> Agree(c.body, d.body, 1))
    && (ByIndex(c.name) ==> Agree(c.body, d.body, 4))
  }

  lemma AgreeIff(a: Bytes, b: Bytes, n: nat)
    ensures Agree(a, b, n) <==> a[..Min(|a|, n)] == b[..Min(|b|, n)]
  {
    var x, y := a[..Min(|a|, n)], b[..Min(|b|, n)];
    if x == y {
      assert |x| == |y|;
      forall i | 0 <= i < n && i < |a| && i < |b|
        ensures a[i] == b[i]
      {
        assert x[i] == y[i];
      }
    }
  }

  lemma KeyedBySpelling(n: CommandName)
    ensures n in PROGRAM_KEYED <==> ByMixEffect(n)
    ensures n in INDEX_KEYED <==> ByIndex(n)
    ensures !(ByMixEffect(n) && ByIndex(n))
  {
  }

  /** Two commands have one key if and only if they share a slot: equal names and, for the seven names told apart by
      mix effect, the same first byte, for the twelve told apart by index, the same first four. */
  lemma SlotIff(c: Command, d: Command)
    ensures KeyOf(c) == KeyOf(d) <==> SameSlot(c, d)
  {
    KeyedBySpelling(c.name);
    AgreeIff(c.body, d.body, 1);
    AgreeIff(c.body, d.body, 4);
    assert Min(1, |c.body|) == Min(|c.body|, 1) && Min(4, |c.body|) == Min(|c.body|, 4);
    assert Min(1, |d.body|) == Min(|d.body|, 1) && Min(4, |d.body|) == Min(|d.body|, 4);
    hide Agree, ByMixEffect, ByIndex, Min;
  }

  // ---------------------------------------------------------------- what a dump holds

  /** State: no audio levels, locks, transfers, clocks, and no `InCm`. */
  ghost predicate IsState(c: Command) {
    && !LevelsName(c.name) && !LockRequestName(c.name) && !LockStatusName(c.name) && !Reads(c.name, 'L', 'o', 'c', 'k')
    && !TransferName(c.name) && !ReadyName(c.name)
  }

  lemma CacheableIff(c: Command)
    ensures Cacheable(c) <==> IsState(c)
  {
    ClassesBySpelling(c.name);
    hide LevelsName, LockRequestName, LockStatusName, TransferName, ReadyName, IsEphemeralCommand, IsLockCommand,
      IsTransferCommand;
  }

  /** The command at `i` is state, and no later state command shares its slot. */
  ghost predicate LastOfItsSlot(log: seq<Command>, i: int) {
    0 <= i < |log| && IsState(log[i]) && forall j :: i < j < |log| && IsState(log[j]) ==> !SameSlot(log[i], log[j])
  }

  /** These are the bytes of such a command. */
  ghost predicate Latest(log: seq<Command>, raw: Bytes) {
    exists i :: LastOfItsSlot(log, i) && log[i].raw == raw
  }

  /** The index of the first state command of the log that shares `c`'s slot, or the log's length. */
  ghost function FirstOfSlot(log: seq<Command>, c: Command): nat {
    if log == [] || (IsState(log[0]) && SameSlot(log[0], c)) then 0 else 1 + FirstOfSlot(log[1..], c)
  }

  lemma {:induction false} FirstIndexIsFirst(log: seq<Command>, c: Command)
    ensures FirstIndex(log, KeyOf(c)) == FirstOfSlot(log, c)
  {
    hide KeyOf, SameSlot, IsState, Cacheable;
    if log != [] {
      SlotIff(log[0], c);
      CacheableIff(log[0]);
      FirstIndexIsFirst(log[1..], c);
    }
  }

  predicate LastHit(log: seq<Command>, i: int, key: CacheKey) {
    0 <= i < |log| && Hits(log[i], key) && forall j :: i < j < |log| ==> !Hits(log[j], key)
  }

  lemma LastHitBefore(log: seq<Command>, c: Command, i: int, key: CacheKey)
    requires !Hits(c, key)
    ensures LastHit(log + [c], i, key) <==> LastHit(log, i, key)
  {
    hide Hits;
    var longer := log + [c];
    assert longer[|log|] == c && forall j :: 0 <= j < |log| ==> longer[j] == log[j];
    if LastHit(longer, i, key) {
      forall j | i < j < |log|
        ensures !Hits(log[j], key)
      {
        assert !Hits(longer[j], key);
      }
    }
  }

  /** `LastRaw` finds the last hit. */
  lemma {:induction false} LastRawIff(log: seq<Command>, key: CacheKey, raw: Bytes)
    ensures LastRaw(log, key) == Some(raw) <==> exists i :: LastHit(log, i, key) && log[i].raw == raw
  {
    hide Hits;
    if log != [] {
      var n := |log| - 1;
      if Hits(log[n], key) {
        assert LastHit(log, n, key);
        assert forall i :: LastHit(log, i, key) ==> i == n;
      } else {
        assert log == log[..n] + [log[n]];
        LastRawIff(log[..n], key, raw);
        forall i
          ensures LastHit(log, i, key) <==> LastHit(log[..n], i, key)
        {
          LastHitBefore(log[..n], log[n], i, key);
        }
        hide LastHit;
        LastHitsAgree(log, log[..n], key, raw);
      }
    }
  }

  lemma LastHitsAgree(log: seq<Command>, before: seq<Command>, key: CacheKey, raw: Bytes)
    requires before <= log && forall i :: LastHit(log, i, key) <==> LastHit(before, i, key)
    ensures (exists i :: LastHit(log, i, key) && log[i].raw == raw)
            <==> exists i :: LastHit(before, i, key) && before[i].raw == raw
  {
    hide Hits;
    if i :| LastHit(log, i, key) && log[i].raw == raw {
      assert LastHit(before, i, key) && before[i].raw == raw;
    }
    if i :| LastHit(before, i, key) && before[i].raw == raw {
      assert LastHit(log, i, key) && log[i].raw == raw;
    }
  }

  /** The command at `i` is the last hit of its key exactly if it is the last of its slot. */
  lemma LastHitIff(log: seq<Command>, i: nat)
    requires i < |log|
    ensures LastHit(log, i, KeyOf(log[i])) <==> LastOfItsSlot(log, i)
  {
    hide KeyOf, SameSlot, IsState, Cacheable;
    CacheableIff(log[i]);
    forall j | i < j < |log|
      ensures Hits(log[j], KeyOf(log[i])) <==> IsState(log[j]) && SameSlot(log[i], log[j])
    {
      CacheableIff(log[j]);
      SlotIff(log[i], log[j]);
    }
  }

  lemma HeldIff(log: seq<Command>, raw: Bytes)
    ensures (exists key :: LastRaw(log, key) == Some(raw))
            <==> Latest(log, raw)
  {
    hide LastRaw, KeyOf, SameSlot, IsState, Cacheable;
    if key :| LastRaw(log, key) == Some(raw) {
      LastRawIff(log, key, raw);
      var i :| LastHit(log, i, key) && log[i].raw == raw;
      LastHitIff(log, i);
    }
    if Latest(log, raw) {
      var i :| LastOfItsSlot(log, i) && log[i].raw == raw;
      LastHitIff(log, i);
      LastRawIff(log, KeyOf(log[i]), raw);
    }
  }

  lemma SameHolders(slots: map<CacheKey, Bytes>, log: seq<Command>, raw: Bytes)
    requires forall key :: Lookup(slots, key) == LastRaw(log, key)
    ensures raw in slots.Values
            <==> Latest(log, raw)
  {
    HeldIff(log, raw);
    hide Latest;
    if raw in slots.Values {
      var key :| key in slots && slots[key] == raw;
      assert Lookup(slots, key) == Some(raw);
    }
    if key :| LastRaw(log, key) == Some(raw) {
      assert Lookup(slots, key) == Some(raw);
      assert slots[key] in slots.Values;
      assert exists k :: LastRaw(log, k) == Some(raw);
    }
  }

  /** The dump of a cache that has ingested this log. */
  ghost function DumpOf(log: seq<Command>): (dump: seq<Bytes>)
    requires AllFramed(log)
    ensures |dump| > 0
  {
    CacheRefinesLog(log);
    Dump(IngestCommands(EMPTY, log))
  }

  lemma StoredIff(s: CacheState, raw: Bytes)
    requires Valid(s)
    ensures raw in Dump(s)[..|s.keys|] <==> raw in s.slots.Values
  {
    hide StoredUnder, VersionIn;
    var stored := Dump(s)[..|s.keys|];
    if raw in s.slots.Values {
      var key :| key in s.slots && s.slots[key] == raw;
      var k :| 0 <= k < |s.keys| && s.keys[k] == key;
      assert stored[k] == raw;
    }
  }

  /** After any log of well-framed commands, the dump holds the bytes of exactly those state commands that no later
      one shares the slot of, and ends with the `InCm`. */
  lemma DumpHoldsIff(log: seq<Command>, raw: Bytes)
    requires AllFramed(log)
    ensures var n := |DumpOf(log)| - 1;
            && DumpOf(log)[n] == SYNTHETIC_INCM
            && (raw in DumpOf(log)[..n]
                <==> Latest(log, raw))
  {
    hide IngestCommands, Valid, LastRaw, Latest, FirstSeenOrder, SYNTHETIC_INCM, Lookup, AllFramed, Dump;
    CacheRefinesLog(log);
    var s := IngestCommands(EMPTY, log);
    DumpEnds(s);
    StoredIff(s, raw);
    assert DumpOf(log) == Dump(s);
    SameHolders(s.slots, log, raw);
  }

  lemma DumpEnds(s: CacheState)
    requires Valid(s)
    ensures |Dump(s)| == |s.keys| + 1 && Dump(s)[|s.keys|] == SYNTHETIC_INCM
    ensures forall k :: 0 <= k < |s.keys| ==> s.keys[k] in s.slots && Dump(s)[k] == s.slots[s.keys[k]]
  {
    hide StoredUnder, VersionIn, SYNTHETIC_INCM;
  }

  /** Its commands stand in the order in which the log first shows their slots, so no two share one. */
  lemma DumpInFirstSeenOrder(log: seq<Command>, k: nat, l: nat)
    requires AllFramed(log) && k < l < |DumpOf(log)| - 1
    ensures |DumpOf(log)[k]| >= 8 && |DumpOf(log)[l]| >= 8
    ensures FirstOfSlot(log, CommandOf(DumpOf(log)[k])) < FirstOfSlot(log, CommandOf(DumpOf(log)[l]))
    ensures !SameSlot(CommandOf(DumpOf(log)[k]), CommandOf(DumpOf(log)[l]))
  {
    hide IngestCommands, LastRaw, FirstIndex, FirstOfSlot, SYNTHETIC_INCM, SameSlot, KeyOf, Framed, VersionIn;
    CacheRefinesLog(log);
    var s := IngestCommands(EMPTY, log);
    DumpEnds(s);
    var c, d := s.slots[s.keys[k]], s.slots[s.keys[l]];
    assert StoredUnder(c, s.keys[k]) && StoredUnder(d, s.keys[l]);
    FirstIndexIsFirst(log, CommandOf(c));
    FirstIndexIsFirst(log, CommandOf(d));
    SlotIff(CommandOf(c), CommandOf(d));
  }

  /** The cache is ready exactly if the log has an `InCm`. */
  lemma ReadyIff(log: seq<Command>)
    requires AllFramed(log)
    ensures IngestCommands(EMPTY, log).ready <==> exists k :: 0 <= k < |log| && ReadyName(log[k].name)
  {
    hide IngestCommands, Framed, FirstSeenOrder, LastRaw, Valid;
    CacheRefinesLog(log);
    forall k | 0 <= k < |log|
      ensures log[k].name == INIT_COMPLETE <==> ReadyName(log[k].name)
    {
    }
  }

  predicate LastVersion(log: seq<Command>, i: int) {
    0 <= i < |log| && VersionName(log[i].name) && forall j :: i < j < |log| ==> !VersionName(log[j].name)
  }

  lemma VersionIsState(c: Command)
    ensures VersionName(c.name) ==> !Skipped(c.name) && c.name != INIT_COMPLETE
    ensures VersionName(c.name) <==> c.name == VERSION
  {
  }

  lemma VersionStep(s: CacheState, c: Command)
    ensures IngestCommand(s, c).version == if VersionName(c.name) then ParseVersion(c.body) else s.version
  {
    VersionIsState(c);
    hide Skipped, KeyOf, ParseVersion, VersionName;
  }

  /** It knows the version that the last `_ver` of the log tells, or none if there is none. */
  lemma {:induction false} VersionIs(log: seq<Command>, i: int)
    ensures LastVersion(log, i) ==> IngestCommands(EMPTY, log).version == ParseVersion(log[i].body)
    ensures (forall j :: 0 <= j < |log| ==> !VersionName(log[j].name)) ==> IngestCommands(EMPTY, log).version == None
    decreases |log|
  {
    hide IngestCommand, VersionName, ParseVersion;
    if log != [] {
      var n := |log| - 1;
      VersionStep(IngestCommands(EMPTY, log[..n]), log[n]);
      VersionIs(log[..n], i);
      assert forall j :: 0 <= j < n ==> log[..n][j] == log[j];
    }
  }

  /** However the steps interleaved, once nothing is on its way an opened client's copy holds the bytes of exactly
      those state commands of the whole upstream log that no later one shares the slot of. */
  lemma ClientHoldsIff(steps: seq<Step>, addr: Addr, raw: Bytes)
    requires Quiet(Reached(steps)) && IsOpenAt(Reached(steps), addr)
    ensures var log := LogOf(FullLog(steps));
            raw in IngestAll(EMPTY, Reached(steps).sessions[addr].queued).slots.Values
            <==> Latest(log, raw)
  {
    hide Reached, FullLog, IngestAll, LastRaw, Latest, LogOf, Quiet, Lookup;
    CopyIsLog(steps, addr);
    SameHolders(IngestAll(EMPTY, Reached(steps).sessions[addr].queued).slots, LogOf(FullLog(steps)), raw);
  }

  lemma CopyIsLog(steps: seq<Step>, addr: Addr)
    requires Quiet(Reached(steps)) && IsOpenAt(Reached(steps), addr)
    ensures forall key :: Lookup(IngestAll(EMPTY, Reached(steps).sessions[addr].queued).slots, key)
                          == LastRaw(LogOf(FullLog(steps)), key)
  {
    hide Reached, FullLog, IngestAll, LastRaw, LogOf, Quiet, Lookup;
    forall key
      ensures Lookup(IngestAll(EMPTY, Reached(steps).sessions[addr].queued).slots, key)
           == LastRaw(LogOf(FullLog(steps)), key)
    {
      ClientHoldsTheLog(steps, addr, key);
    }
  }

  lemma DumpIgnoresReady(s: CacheState, ready: bool)
    requires Valid(s)
    ensures Valid(s.(ready := ready)) && Dump(s.(ready := ready)) == Dump(s)
  {
    hide StoredUnder, VersionIn, SYNTHETIC_INCM;
  }

  lemma CacheDump(steps: seq<Step>)
    ensures AllFramed(LogOf(FullLog(steps))) && Valid(Reached(steps).cache)
    ensures Dump(Reached(steps).cache) == DumpOf(LogOf(FullLog(steps)))
  {
    hide HubInv, Dump, Valid, IngestAll, IngestCommands, Run, Log, LogOf, AllFramed;
    var h := Reached(steps);
    StartInv();
    CacheIsLog(START, steps);
    InvIsValid(h);
    IngestAllIsLog(EMPTY, FullLog(steps));
    CacheRefinesLog(LogOf(FullLog(steps)));
    DumpIgnoresReady(h.cache, h.cache.ready || h.finishing);
    assert Settled(h) == IngestCommands(EMPTY, LogOf(FullLog(steps)));
  }

  /** The first acknowledgement of a client, after any run: its session is open and has been queued, packed, a dump that
      holds exactly the latest state commands of the whole upstream log and ends with the `InCm`. */
  lemma FirstAckGives(steps: seq<Step>, addr: Addr, raw: Bytes)
    requires addr in Reached(steps).sessions && !Reached(steps).sessions[addr].isOpen
    ensures Valid(Reached(steps).cache) && AllFramed(LogOf(FullLog(steps)))
    ensures var dump := DumpOf(LogOf(FullLog(steps)));
            var after := After(Reached(steps), Acked(addr)).sessions[addr];
            && after.isOpen && after.dumpSent && after.queued == Reliable.Pack(dump)
            && dump[|dump| - 1] == SYNTHETIC_INCM
            && (raw in dump[..|dump| - 1] <==> Latest(LogOf(FullLog(steps)), raw))
  {
    hide Reached, FullLog, LogOf, DumpOf, Latest, SYNTHETIC_INCM, AllFramed, Valid, Dump, Reliable.Pack;
    CacheDump(steps);
    DumpHoldsIff(LogOf(FullLog(steps)), raw);
    UnopenedIsEmpty(Reached(steps), addr);
    assert [] + Reliable.Pack(DumpOf(LogOf(FullLog(steps)))) == Reliable.Pack(DumpOf(LogOf(FullLog(steps))));
  }

  lemma UnopenedIsEmpty(h: Hub, addr: Addr)
    requires HubInv(h) && addr in h.sessions && !h.sessions[addr].isOpen
    ensures h.sessions[addr].queued == [] && !h.sessions[addr].dumpSent
  {
    hide CacheInv, AllWholesome, TaskWholesome, Coming, ToCome, TaskUpdate, View, AllFit, IngestAll;
  }
}
