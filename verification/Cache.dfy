/** The coalescing state cache (atem-proxy/src/cache.rs): an ordered last-wins map that stands in for
    the whole command log. */
module Cache {
  import opened Wire
  import opened Commands

  datatype CacheKey = CacheKey(name: CommandName, identity: Bytes)

  /** `keys` is the insertion order of the `IndexMap`, `slots` its contents. */
  datatype CacheState = CacheState(
    keys: seq<CacheKey>, slots: map<CacheKey, Bytes>, version: Option<(u16, u16)>, ready: bool)

  const EMPTY := CacheState([], map[], None, false)

  function KeyOf(c: Command): CacheKey {
    CacheKey(c.name, CommandIdentity(c.name, c.body))
  }

  predicate Skipped(n: CommandName) {
    IsEphemeralCommand(n) || IsLockCommand(n) || IsTransferCommand(n)
  }

  predicate Cacheable(c: Command) {
    !Skipped(c.name) && c.name != INIT_COMPLETE
  }

  function Store(s: CacheState, key: CacheKey, raw: Bytes): CacheState {
    s.(keys := if key in s.slots then s.keys else s.keys + [key], slots := s.slots[key := raw])
  }

  function IngestCommand(s: CacheState, c: Command): CacheState {
    if Skipped(c.name) then s
    else if c.name == INIT_COMPLETE then s.(ready := true)
    else Store(s.(version := if c.name == VERSION then ParseVersion(c.body) else s.version), KeyOf(c), c.raw)
  }

  function IngestCommands(s: CacheState, cmds: seq<Command>): CacheState {
    if cmds == [] then s
    else IngestCommand(IngestCommands(s, cmds[..|cmds| - 1]), cmds[|cmds| - 1])
  }

  /** A payload that does not parse is ignored. */
  function Ingested(s: CacheState, payload: Bytes): CacheState {
    match Parse(payload)
    case Ok(cmds) => IngestCommands(s, cmds)
    case Err(_) => s
  }

  function IngestAll(s: CacheState, payloads: seq<Bytes>): CacheState {
    if payloads == [] then s
    else Ingested(IngestAll(s, payloads[..|payloads| - 1]), payloads[|payloads| - 1])
  }

  /** The late-join dump: the stored commands in order, then the synthetic `InCm`. */
  function Dump(s: CacheState): seq<Bytes>
    requires Valid(s)
  {
    seq(|s.keys|, i requires 0 <= i < |s.keys| => s.slots[s.keys[i]]) + [SYNTHETIC_INCM]
  }

  // ---------------------------------------------------------------- the invariant

  function CommandOf(raw: Bytes): Command
    requires |raw| >= 8
  {
    Command(NameOf(raw), raw, raw[8..])
  }

  /** `raw` is one well-framed command that belongs under `key`. */
  ghost predicate StoredUnder(raw: Bytes, key: CacheKey) {
    && |raw| >= 8
    && Framed(CommandOf(raw)) && Cacheable(CommandOf(raw)) && KeyOf(CommandOf(raw)) == key
  }

  const VERSION_KEY := CacheKey(VERSION, [])

  function VersionIn(slots: map<CacheKey, Bytes>): Option<(u16, u16)> {
    if VERSION_KEY in slots && |slots[VERSION_KEY]| >= 8 then ParseVersion(slots[VERSION_KEY][8..]) else None
  }

  ghost predicate Distinct(keys: seq<CacheKey>) {
    forall i, j :: 0 <= i < j < |keys| ==> keys[i] != keys[j]
  }

  /** The order lists each stored key once, every blob is a command of its key, and the version is the
      one in the stored `_ver`. */
  ghost predicate Valid(s: CacheState) {
    && Distinct(s.keys)
    && (forall k :: k in s.keys <==> k in s.slots)
    && (forall k :: k in s.slots ==> StoredUnder(s.slots[k], k))
    && s.version == VersionIn(s.slots)
  }

  lemma FramedIsCommandOf(c: Command)
    requires Framed(c)
    ensures c == CommandOf(c.raw)
  {
  }

  lemma VersionKeyIff(c: Command)
    ensures KeyOf(c) == VERSION_KEY <==> c.name == VERSION
  {
  }

  lemma IngestCommandKeepsValid(s: CacheState, c: Command)
    requires Valid(s) && Framed(c)
    ensures Valid(IngestCommand(s, c))
  {
    if Cacheable(c) {
      FramedIsCommandOf(c);
      VersionKeyIff(c);
      assert StoredUnder(c.raw, KeyOf(c));
      hide StoredUnder, KeyOf, ParseVersion, Framed, Skipped;
    }
  }

  lemma {:induction false} IngestKeepsValid(s: CacheState, cmds: seq<Command>)
    requires Valid(s) && AllFramed(cmds)
    ensures Valid(IngestCommands(s, cmds))
  {
    if cmds != [] {
      IngestKeepsValid(s, cmds[..|cmds| - 1]);
      IngestCommandKeepsValid(IngestCommands(s, cmds[..|cmds| - 1]), cmds[|cmds| - 1]);
    }
  }

  /** Every payload, well formed or not, keeps the invariant. */
  lemma IngestPayloadKeepsValid(s: CacheState, payload: Bytes)
    requires Valid(s)
    ensures Valid(Ingested(s, payload))
  {
    if Parse(payload).Ok? {
      ParseIffFraming(payload, Parse(payload).value);
      IngestKeepsValid(s, Parse(payload).value);
    }
  }

  lemma {:induction false} IngestAppend(s: CacheState, a: seq<Command>, b: seq<Command>)
    ensures IngestCommands(s, a + b) == IngestCommands(IngestCommands(s, a), b)
    decreases |b|
  {
    if b == [] {
      assert a + b == a;
    } else {
      assert (a + b)[..|a + b| - 1] == a + b[..|b| - 1];
      IngestAppend(s, a, b[..|b| - 1]);
    }
  }

  // ---------------------------------------------------------------- the cache as a view of the log

  predicate Hits(c: Command, key: CacheKey) {
    Cacheable(c) && KeyOf(c) == key
  }

  /** The bytes of the last cacheable command of the log with this key. */
  function LastRaw(log: seq<Command>, key: CacheKey): Option<Bytes> {
    if log == [] then None
    else if Hits(log[|log| - 1], key) then Some(log[|log| - 1].raw)
    else LastRaw(log[..|log| - 1], key)
  }

  /** The index of the first cacheable command of the log with this key, or the log's length. */
  function FirstIndex(log: seq<Command>, key: CacheKey): (i: nat)
    ensures i <= |log|
  {
    if log == [] || Hits(log[0], key) then 0 else 1 + FirstIndex(log[1..], key)
  }

  function Lookup(slots: map<CacheKey, Bytes>, key: CacheKey): Option<Bytes> {
    if key in slots then Some(slots[key]) else None
  }

  lemma {:induction false} FirstIndexAppend(log: seq<Command>, c: Command, key: CacheKey)
    ensures FirstIndex(log + [c], key)
         == if FirstIndex(log, key) < |log| || Hits(c, key) then FirstIndex(log, key) else |log| + 1
  {
    if log == [] {
      assert (log + [c])[1..] == [];
    } else {
      assert (log + [c])[1..] == log[1..] + [c];
      FirstIndexAppend(log[1..], c, key);
    }
  }

  lemma {:induction false} FirstIffLast(log: seq<Command>, key: CacheKey)
    ensures FirstIndex(log, key) < |log| <==> LastRaw(log, key).Some?
  {
    if log != [] {
      var n := |log| - 1;
      assert log == log[..n] + [log[n]];
      FirstIndexAppend(log[..n], log[n], key);
      FirstIffLast(log[..n], key);
    }
  }

  /** Keys in the order in which the log first shows them. */
  ghost predicate FirstSeenOrder(keys: seq<CacheKey>, log: seq<Command>) {
    forall i, j :: 0 <= i < j < |keys| ==> FirstIndex(log, keys[i]) < FirstIndex(log, keys[j])
  }

  /** The state is what the log says: each key's last command, keys in first-seen order, and ready
      exactly if the log has an `InCm`. */
  ghost predicate ViewOf(s: CacheState, log: seq<Command>) {
    && (forall k :: Lookup(s.slots, k) == LastRaw(log, k))
    && FirstSeenOrder(s.keys, log)
    && (s.ready <==> exists i :: 0 <= i < |log| && log[i].name == INIT_COMPLETE)
  }

  lemma OrderStep(s: CacheState, log: seq<Command>, c: Command)
    requires Valid(s) && ViewOf(s, log)
    ensures FirstSeenOrder(IngestCommand(s, c).keys, log + [c])
  {
    var t := IngestCommand(s, c);
    forall i, j | 0 <= i < j < |t.keys|
      ensures FirstIndex(log + [c], t.keys[i]) < FirstIndex(log + [c], t.keys[j])
    {
      KeySeen(s, log, t.keys[i]);
      KeySeen(s, log, t.keys[j]);
      FirstIndexAppend(log, c, t.keys[i]);
      FirstIndexAppend(log, c, t.keys[j]);
      if j < |s.keys| {
        assert FirstIndex(log, s.keys[i]) < FirstIndex(log, s.keys[j]);
      }
      hide FirstIndex, KeyOf, Skipped;
    }
  }

  lemma KeySeen(s: CacheState, log: seq<Command>, k: CacheKey)
    requires Valid(s) && ViewOf(s, log)
    ensures k in s.keys <==> FirstIndex(log, k) < |log|
  {
    FirstIffLast(log, k);
    assert Lookup(s.slots, k) == LastRaw(log, k);
    hide LastRaw, FirstIndex, StoredUnder;
  }

  lemma LookupStep(s: CacheState, log: seq<Command>, c: Command, k: CacheKey)
    requires Lookup(s.slots, k) == LastRaw(log, k)
    ensures Lookup(IngestCommand(s, c).slots, k) == LastRaw(log + [c], k)
  {
    assert (log + [c])[..|log|] == log;
    hide KeyOf, Skipped;
  }

  lemma ReadyStep(s: CacheState, log: seq<Command>, c: Command)
    requires s.ready <==> exists i :: 0 <= i < |log| && log[i].name == INIT_COMPLETE
    ensures IngestCommand(s, c).ready <==> exists i :: 0 <= i < |log + [c]| && (log + [c])[i].name == INIT_COMPLETE
  {
    var log' := log + [c];
    ClassesDisjoint(c.name);
    assert log'[|log|] == c;
    if s.ready {
      var i :| 0 <= i < |log| && log[i].name == INIT_COMPLETE;
      assert log'[i].name == INIT_COMPLETE;
    }
    hide KeyOf;
  }

  /** The cache refines the log: after any sequence of well-framed commands the ordered map is the
      last-wins view of the cacheable ones, with the version of the stored `_ver`. */
  lemma {:induction false} CacheRefinesLog(log: seq<Command>)
    requires AllFramed(log)
    ensures Valid(IngestCommands(EMPTY, log)) && ViewOf(IngestCommands(EMPTY, log), log)
  {
    IngestKeepsValid(EMPTY, log);
    if log != [] {
      var n := |log| - 1;
      var before, c := IngestCommands(EMPTY, log[..n]), log[n];
      CacheRefinesLog(log[..n]);
      assert log[..n] + [c] == log;
      OrderStep(before, log[..n], c);
      ReadyStep(before, log[..n], c);
      forall k
        ensures Lookup(IngestCommand(before, c).slots, k) == LastRaw(log, k)
      {
        LookupStep(before, log[..n], c, k);
      }
      hide IngestCommand, LastRaw, FirstSeenOrder, Lookup;
    }
  }

  /** The commands of a log of payloads, those that do not parse left out. */
  function LogOf(payloads: seq<Bytes>): seq<Command> {
    if payloads == [] then []
    else LogOf(payloads[..|payloads| - 1]) + ParsedOrNone(payloads[|payloads| - 1])
  }

  function ParsedOrNone(payload: Bytes): seq<Command> {
    match Parse(payload)
    case Ok(cmds) => cmds
    case Err(_) => []
  }

  lemma {:induction false} IngestAllIsLog(s: CacheState, payloads: seq<Bytes>)
    ensures IngestAll(s, payloads) == IngestCommands(s, LogOf(payloads))
    ensures AllFramed(LogOf(payloads))
  {
    if payloads != [] {
      var n := |payloads| - 1;
      IngestAllIsLog(s, payloads[..n]);
      IngestAppend(s, LogOf(payloads[..n]), ParsedOrNone(payloads[n]));
      ParseAtSound(payloads[n], 0);
      assert LogOf(payloads[..n]) + [] == LogOf(payloads[..n]);
    }
  }

  /** Payload by payload, through the parser: the cache is the last-wins view of the whole log. */
  lemma CacheRefinesPayloads(payloads: seq<Bytes>)
    ensures Valid(IngestAll(EMPTY, payloads)) && ViewOf(IngestAll(EMPTY, payloads), LogOf(payloads))
  {
    IngestAllIsLog(EMPTY, payloads);
    CacheRefinesLog(LogOf(payloads));
  }

  // ---------------------------------------------------------------- replaying a dump

  function StoredCommands(s: CacheState): (r: seq<Command>)
    requires Valid(s)
    ensures |r| == |s.keys|
  {
    seq(|s.keys|, i requires 0 <= i < |s.keys| => CommandOf(s.slots[s.keys[i]]))
  }

  /** The commands of a dump. */
  function DumpCommands(s: CacheState): (r: seq<Command>)
    requires Valid(s)
    ensures |r| == |s.keys| + 1
  {
    StoredCommands(s) + [INCM_COMMAND]
  }

  lemma DumpIsFramed(s: CacheState)
    requires Valid(s)
    ensures AllFramed(DumpCommands(s)) && Raws(DumpCommands(s)) == Dump(s)
  {
    SyntheticIncmParses();
    StoredIsFramed(s);
    hide Framed, SYNTHETIC_INCM, Valid;
    assert |Dump(s)| == |s.keys| + 1;
    forall i | 0 <= i < |s.keys| + 1
      ensures DumpCommands(s)[i].raw == Dump(s)[i]
    {
    }
    hide DumpCommands, Dump;
  }

  lemma StoredIsFramed(s: CacheState)
    requires Valid(s)
    ensures AllFramed(StoredCommands(s))
    ensures forall i :: 0 <= i < |s.keys| ==> StoredCommands(s)[i].raw == s.slots[s.keys[i]]
  {
    forall i | 0 <= i < |s.keys|
      ensures Framed(StoredCommands(s)[i]) && StoredCommands(s)[i].raw == s.slots[s.keys[i]]
    {
      assert StoredUnder(s.slots[s.keys[i]], s.keys[i]);
    }
    hide Framed;
  }

  ghost function Restrict(slots: map<CacheKey, Bytes>, keys: seq<CacheKey>): map<CacheKey, Bytes> {
    map k | k in slots && k in keys :: slots[k]
  }

  /** The cache that the first `n` entries of `s` make. */
  ghost function FirstEntries(s: CacheState, n: nat): CacheState
    requires n <= |s.keys|
  {
    var slots := Restrict(s.slots, s.keys[..n]);
    CacheState(s.keys[..n], slots, VersionIn(slots), false)
  }

  lemma ReplayEntry(s: CacheState, n: nat)
    requires Valid(s) && n < |s.keys|
    ensures IngestCommand(FirstEntries(s, n), DumpCommands(s)[n]) == FirstEntries(s, n + 1)
  {
    var k := s.keys[n];
    assert StoredUnder(s.slots[k], k);
    assert s.keys[..n + 1] == s.keys[..n] + [k];
    assert k !in s.keys[..n];
    var c := DumpCommands(s)[n];
    assert c == CommandOf(s.slots[k]);
    hide DumpCommands, Valid, Framed, ParseVersion;
    VersionKeyIff(c);
    hide KeyOf, Skipped;
    assert Restrict(s.slots, s.keys[..n + 1]) == Restrict(s.slots, s.keys[..n])[k := s.slots[k]];
  }

  lemma {:induction false} ReplayEntries(s: CacheState, n: nat)
    requires Valid(s) && n <= |s.keys|
    ensures IngestCommands(EMPTY, DumpCommands(s)[..n]) == FirstEntries(s, n)
  {
    hide IngestCommand, IngestCommands, FirstEntries, DumpCommands, Valid;
    if n > 0 {
      ReplayEntries(s, n - 1);
      ReplayEntry(s, n - 1);
      IngestNext(EMPTY, DumpCommands(s), n - 1);
    } else {
      ReplayNothing(s);
    }
  }

  lemma IngestNext(s: CacheState, cmds: seq<Command>, n: nat)
    requires n < |cmds|
    ensures IngestCommands(s, cmds[..n + 1]) == IngestCommand(IngestCommands(s, cmds[..n]), cmds[n])
  {
    assert cmds[..n + 1][..n] == cmds[..n];
    hide IngestCommand;
  }

  lemma ReplayNothing(s: CacheState)
    requires Valid(s)
    ensures FirstEntries(s, 0) == EMPTY == IngestCommands(EMPTY, DumpCommands(s)[..0])
  {
    hide Valid, DumpCommands, ParseVersion;
  }

  /** Replaying a dump into an empty cache rebuilds the cache that was dumped: the same ordered map and
      the same version, and ready. */
  lemma DumpReplays(s: CacheState)
    requires Valid(s)
    ensures IngestCommands(EMPTY, DumpCommands(s)) == s.(ready := true)
  {
    var n := |s.keys|;
    ReplayEntries(s, n);
    assert s.keys[..n] == s.keys && Restrict(s.slots, s.keys) == s.slots;
    assert FirstEntries(s, n) == s.(ready := false);
    assert DumpCommands(s)[..|DumpCommands(s)| - 1] == DumpCommands(s)[..n];
    ClassesDisjoint(INIT_COMPLETE);
    hide Valid, FirstEntries, Store;
  }

  // ---------------------------------------------------------------- updates

  /** What a list of commands writes, by key. */
  function Update(cmds: seq<Command>): map<CacheKey, Bytes> {
    IngestCommands(EMPTY, cmds).slots
  }

  /** Ingesting overrides the slots with the update, whatever was there. */
  lemma {:induction false} IngestIsOverride(s: CacheState, cmds: seq<Command>)
    ensures IngestCommands(s, cmds).slots == s.slots + Update(cmds)
  {
    if cmds != [] {
      IngestIsOverride(s, cmds[..|cmds| - 1]);
      hide KeyOf, Skipped;
    }
  }

  function UpdateOf(payload: Bytes): map<CacheKey, Bytes> {
    Update(ParsedOrNone(payload))
  }

  lemma IngestPayloadIsOverride(s: CacheState, payload: Bytes)
    ensures Ingested(s, payload).slots == s.slots + UpdateOf(payload)
  {
    IngestIsOverride(s, ParsedOrNone(payload));
    hide KeyOf, Skipped, IngestCommand;
  }

  /** Commands that the cache skips write nothing. */
  lemma {:induction false} SkippedUpdatesNothing(cmds: seq<Command>)
    requires forall c :: c in cmds ==> Skipped(c.name)
    ensures Update(cmds) == map[]
  {
    if cmds != [] {
      SkippedUpdatesNothing(cmds[..|cmds| - 1]);
      assert cmds[|cmds| - 1] in cmds;
    }
  }

  // ---------------------------------------------------------------- the cache object

  class StateCache {
    var keys: seq<CacheKey>
    var slots: map<CacheKey, Bytes>
    var version: Option<(u16, u16)>
    var ready: bool

    ghost function State(): CacheState
      reads this
    {
      CacheState(keys, slots, version, ready)
    }

    constructor ()
      ensures State() == EMPTY
    {
      keys, slots, version, ready := [], map[], None, false;
    }

    method Clear()
      modifies this
      ensures State() == EMPTY
    {
      keys, slots := [], map[];
      version := None;
      ready := false;
    }

    method SetReady(isReady: bool)
      modifies `ready
      ensures State() == old(State()).(ready := isReady)
    {
      ready := isReady;
    }

    /** Writes one stored command: in place if its key is known, at the end of the order if not. */
    method Upsert(c: Command)
      modifies `keys, `slots
      ensures State() == Store(old(State()), KeyOf(c), c.raw)
    {
      var key := CacheKey(c.name, CommandIdentity(c.name, c.body));
      if key in slots {
        slots := slots[key := c.raw];
      } else {
        keys := keys + [key];
        slots := slots[key := c.raw];
      }
    }

    method IngestPayload(payload: Bytes)
      modifies this
      ensures State() == Ingested(old(State()), payload)
    {
      var parsed := ParseCommands(payload);
      if parsed.Err? {
        return;
      }
      var cmds := parsed.value;
      for k := 0 to |cmds|
        invariant State() == IngestCommands(old(State()), cmds[..k])
      {
        assert cmds[..k + 1][..k] == cmds[..k];
        var c := cmds[k];
        if IsEphemeralCommand(c.name) || IsLockCommand(c.name) || IsTransferCommand(c.name) {
          continue;
        }
        if c.name == INIT_COMPLETE {
          ready := true;
          continue;
        }
        if c.name == VERSION {
          version := ParseVersion(c.body);
        }
        Upsert(c);
      }
      assert cmds[..|cmds|] == cmds;
    }

    method BuildDump() returns (out: seq<Bytes>)
      requires Valid(State())
      ensures out == Dump(State())
    {
      out := [];
      for k := 0 to |keys|
        invariant |out| == k
        invariant forall i :: 0 <= i < k ==> out[i] == slots[keys[i]]
      {
        out := out + [slots[keys[k]]];
      }
      out := out + [SYNTHETIC_INCM];
    }
  }
}
