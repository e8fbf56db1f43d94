# Verified model of the switcher proxy

The proxy sits between one ATEM switcher and many control clients. It speaks the switcher's reliable UDP
protocol on both sides, keeps the switcher's state in a coalescing cache, replays that cache to every client
that joins late, fans live updates out to all of them, and arbitrates what the clients may send back (media
locks, media transfers, audio level subscriptions).

This project models those parts in Dafny and proves what they promise. Code that works in place is written in
place (classes with the source's fields, loops with invariants) and proved equal to functions on plain values;
the theorems are about those functions, over whole runs and every interleaving. The objects are
`ReliableEndpoint`, `StateCache`, `LockBroker`, `TransferLane`, `CommandFilter`, `UpstreamSession`,
`ClientSession` and `ProxyServer`.

| file | subject |
|---|---|
| `Wire.dfy` | bytes, big-endian numbers, sequences |
| `Packets.dfy` | the 12-byte header and the datagram codec |
| `Commands.dfy` | command framing, identities, classifiers |
| `Reliable.dfy` | one endpoint of the reliable transport |
| `Layout.dfy` | datagrams and commands by their byte values |
| `Timing.dfy` | when an endpoint sends what, over runs of calls |
| `Transport.dfy` | two endpoints and a network that loses, duplicates and reorders: exactly once, in order |
| `Progress.dfy` | staleness, resynchronisation after loss, draining |
| `Packing.dfy` | packing commands into payloads, and back through the wire |
| `Cache.dfy` | the ordered last-wins cache and its dump |
| `Spelling.dfy`, `Slots.dfy` | command classes by name; what shares a slot and what a dump holds, by names and bytes |
| `Locks.dfy`, `Transfer.dfy`, `Filter.dfy` | lock broker, transfer lane, fan-in filter |
| `FanIn.dfy` | whole traces of the fan-in: exclusion, deny mode, audio edges |
| `Passing.dfy` | what the fan-in lets pass and does with it, by names and body bytes |
| `Ownership.dfy` | when a lane or a locked store is left without an owner |
| `Upstream.dfy` | splitting an upstream payload into events |
| `FanOut.dfy` | ingest, publish, fan-out, lag and late join as a state machine, and its invariant |
| `Convergence.dfy` | what the fan-out promises over whole runs |
| `Inbound.dfy` | a client's link and the fan-in together |
| `Routing.dfy` | who must not be sent transfer and audio traffic |
| `Streams.dfy` | what does arrive, in order |
| `Losses.dfy` | what an overflow of the channel loses |
| `Truncation.dfy` | nothing is ever cut by the 11-bit length field |
| `Foreign.dfy` | datagrams that are not the link's own, and how the upstream loop differs |
| `EndToEnd.dfy` | switcher's link, fan-out and client's link together |
| `Server.dfy` | the sessions map in place: events, client datagrams, timer ticks |

## The main results

- **Transport.** Each peer carries the absolute number of every packet (the wire id is that number modulo
  2^15). After any run, what each peer handed over is a prefix of what the other queued, across any number of
  wraps (`Transport.ExactlyOnceInOrder`). Two assumptions are stated: a window of at most 256
  (`Transport.Fresh`), and a packet lifetime (`Transport.InTime`): data arrives at most 2^15 - 1 ids behind the
  sender's next id, acknowledgements at most 2^15 - 256 behind the front of the window.
- **Late join.** The upstream task, the fan-out task and the datagram handler interleave freely. At every
  reachable moment at which no overflow is waiting for its dump (`FanOut.Steady`), applying the events still to
  come to an opened client's view gives exactly the cache, though its dump may be followed by events that the
  dump already holds. An overflow of the broadcast channel may drop any number of its oldest events; from then
  on the equation is not claimed until the dump that follows has been taken, which restores it. Every schedule
  of the two tasks ends, and then every client that was open holds the cache, which is the last-wins view of the
  whole log that upstream sent. A client is taken to read payloads with the proxy's own parser: a payload that does
  not parse means nothing to it.
- **End to end.** The switcher's link, the hub and one client's link run together from the start, over any number
  of HELLOs and timeouts. What is ingested is a prefix of what the switcher queued; what a client with a session is
  handed is at every moment a prefix of what the session was given, uncut; and once the hub is quiet the client's
  copy of the state becomes the cache, and the last-wins view of what was ingested, within 1 + ceil(n / window)
  rounds without loss, whatever was lost before, unless the link is silent (below). Datagrams from outside the
  link, such as those of an earlier session, may arrive at any time if they do not touch the endpoint (below).
- **Nothing goes missing.** Every upstream command leaves in an event of its kind (`Streams.EventsCarryAll`). A client
  that stays open with its flag and ownership is given, in order, exactly the levels it subscribed to, the transfer
  traffic it owns and all state (`Streams.StreamsArrive`) while the channel does not overflow; what an overflow costs is
  below.
- **Cache.** After any log a dump holds exactly the state commands that no later one shares the slot of, where sharing a
  slot is told by the names and first bytes (`Slots.DumpHoldsIff`, `Slots.SlotIff`).
- **Fan-in.** Locks and the transfer lane are exclusive over traces, also on the bytes of the requests
  (`Passing.LockExclusionByBytes`). Ordinary commands pass untouched, in order, whatever goes on around them
  (`Passing.OrdinaryConserved`), from the client's queue on, whatever the network loses
  (`Inbound.OrdinaryCommandsArriveOnce`), and so does a whole transfer of a client that owns a store
  (`Passing.WholeTransferPasses`).
- **Timing.** Over any run of calls, by the datagrams given out and the times of the polls: when a keepalive, an
  acknowledgement and a retransmission go out, each exactly (`Timing.KeepaliveIff`, `Timing.AcknowledgementIff`,
  `Timing.RetransmissionIff`).

Where the code does not keep a promise for every input, the input and the exact condition are proved:

- Progress after a lost acknowledgement. A duplicate that is refused does not make an acknowledgement pending
  again, so a full window whose one acknowledgement is lost stays full (`Progress.SilenceReached`), and no number
  of rounds without loss moves the queue (`Progress.SilenceLasts`). A round empties the window if and only if the
  link is not silent (`Progress.RoundEmptiesWindowIff`), and everything queued is delivered if and only if it is
  not silent with something queued (`Progress.DeliversEventuallyIff`).
- Deny mode. A payload that does not parse is forwarded as it is, so a lock request followed by one stray byte
  goes upstream (`FanIn.DenyLeaks`). A lock request or transfer command stands at the front of what an event
  sends if and only if the event is such a payload with one at its own front (`FanIn.DenyLeaksIff`).
- Session ids. The server compares none, so a datagram of a client's earlier session is taken for one of this
  session. An acknowledgement that names the front of the window takes a packet out of it that never arrived
  (`Foreign.StaleAckLoses`), and a data packet with the expected id is handed over (`Foreign.StaleDataAccepted`).
  A datagram, whoever sent it, changes nothing if and only if it neither acknowledges the front of the window nor
  bears the expected id of a reliable packet (`Foreign.HarmlessIff`), and the end-to-end theorem holds over runs
  with such datagrams.
- Routing. An upstream payload that does not parse goes to every opened client as it is, so a transfer command
  followed by one stray byte reaches clients that own nothing (`Routing.RawReachesAll`). Of what a client without
  a grant is given, exactly such payloads have a transfer command or audio levels at their front
  (`Routing.OnlyOwnersGetTransfers`, `Routing.OnlySubscribersGetAudio`, `Routing.EventLeaksIff`).
- An overflow of the channel is made up for by a dump, which holds state alone. 513 transfer commands while the
  fan-out task does not get to read cost their owner one (`Losses.OverflowLoses`). Over any run, an owner is given every
  transfer command and a subscriber every level report if and only if no event that was pushed out held one
  (`Losses.CompleteIff`).
- The lane's owner need not own a store: lock, start a transfer, unlock (`Ownership.LaneOutlivesLock`). It does
  all along if and only if no event takes its last store and leaves it the lane (`Ownership.LaneHeldIff`).
- A store that upstream reports locked need not have an owner: lock, disconnect, and only then the report
  (`Ownership.LockOutlivesOwner`; the exact events are in `Ownership.LockedOwnedIff`).
- `synthesize_audio_disable` turns a subscription into a disable if and only if it has a body
  (`FanIn.DisableIffBody`): without one it zeroes the last byte of the command's name.
  `FanIn.BodilessSubscriptionNeverStops` gives the input, and `FanIn.AudioAlternatesIff` the condition over runs.
- A payload survives the wire if and only if it has at most 2035 bytes (`Packets.PacketRoundTrip`). The clamp
  is that of a release build; a debug build stops at the assertion before it.
- Datagrams older than the packet lifetime: `Transport.OldAckHarmlessIff` gives the exact range of old
  acknowledgements that pop nothing, `Transport.OldDataAcceptedIff` that of old data taken for new.

## Model

| member | source | states |
|---|---|---|
| Packets.HeaderRoundTrip | crates/atem-protocol/src/packet.rs:46-72 | decoding an encoded header gives it back, for 11-bit lengths, whatever bytes follow |
| Packets.HeaderReencode | crates/atem-protocol/src/packet.rs:46-72 | encoding a decoded header restores the same 12 bytes |
| Packets.PartsAreShiftAndMask | crates/atem-protocol/src/packet.rs:60-62 | the flag tests and the cleared bits are the first word shifted right by 11 and masked with 0x7FF |
| Packets.Encode | crates/atem-protocol/src/packet.rs:46-54 | the in-place writes to the 12-byte buffer leave exactly the header's bytes |
| Packets.EncodePacket | crates/atem-protocol/src/packet.rs:93-110 | the buffer is the patched header followed by the clamped payload |
| Packets.DecodePacket | crates/atem-protocol/src/packet.rs:75-91 | a decoded payload is at most 2035 bytes and lies within the datagram |
| Packets.PacketRoundTrip | crates/atem-protocol/src/packet.rs:75-110 | decoding an encoded packet gives the header and the clipped payload; the payload itself if and only if it has at most 2035 bytes |
| Layout.ClippedAt2035 | crates/atem-protocol/src/packet.rs:100-103 | a payload travels whole up to 2035 bytes; of a longer one the first 2035 |
| Packets.MarkRetransmitDecodes | crates/atem-protocol/src/reliable.rs:199-206 | the two-byte retransmit patch sets IS_RETRANSMIT and changes nothing else that a decoder sees |
| Layout.HeaderLayout | crates/atem-protocol/src/packet.rs:46-53 | the header by its byte values: five flag bits from 0x80 down, eleven bits of length, five big-endian numbers in order |
| Layout.DecodesIff | crates/atem-protocol/src/packet.rs:75-91 | a datagram decodes if and only if it declares a length between 12 and its own, to the bytes from the 12th up to there; otherwise the error, with its numbers |
| Layout.DataDatagram | crates/atem-protocol/src/reliable.rs:216-226 | a data packet decodes to ACK_REQUEST alone, the session id, the next packet id, no other number, and the clipped payload |
| Layout.AckDatagram | crates/atem-protocol/src/reliable.rs:171-179 | an acknowledgement decodes to ACK_REPLY alone, the session id and the last accepted id |
| Layout.RequestDatagram | crates/atem-protocol/src/reliable.rs:181-189 | a retransmit request decodes to its flag alone, the session id and the expected id |
| Layout.InitCompleteDatagram | crates/atem-protocol/src/session.rs:74-80 | the init-complete acknowledgement decodes to ACK_REPLY alone, the session id, the last accepted id or 0, and 0x61 in the unnamed field |
| Commands.ParseCommands | crates/atem-protocol/src/command.rs:54-72 | the offset loop computes the recursive parse, errors included |
| Commands.ParseIffFraming | crates/atem-protocol/src/command.rs:54-72 | parsing yields a list of commands if and only if they are well framed and their bytes joined are the payload |
| Commands.ParseErrIff | crates/atem-protocol/src/command.rs:54-72 | parsing fails if and only if the payload is no concatenation of well-framed commands |
| Commands.ParseAppend | crates/atem-protocol/src/command.rs:54-72 | if `a` parses, then `a + b` parses if and only if `b` does, to the appended list |
| Commands.SerializeCommand | crates/atem-protocol/src/command.rs:43-50 | the buffer building gives length, reserved bytes, name and body, the length cut to 16 bits |
| Commands.SerializeRoundTrip | crates/atem-protocol/src/command.rs:43-72 | a serialized command parses back to itself if and only if it fits the 16-bit length |
| Commands.ClassesDisjoint | crates/atem-protocol/src/command.rs:134-199 | the classes do not overlap, but for FASP, which is both ephemeral and an audio subscription |
| Commands.LeadingOfParsed | crates/atem-protocol/src/command.rs:54-72 | the well-framed commands at the front of a payload that parses are all of its commands |
| Commands.SynthesizedUnlockParses | crates/atem-protocol/src/command.rs:157-180 | a synthesized unlock is one lock request that names the store and does not enable |
| Commands.SyntheticIncmParses | crates/atem-protocol/src/command.rs:109-111 | the synthetic InCm is 12 bytes and parses to one InCm command |
| Layout.CommandLayout | crates/atem-protocol/src/command.rs:43-50 | a command on the wire by its bytes: length, two zeros, name, body |
| Layout.SyntheticIncmBytes | crates/atem-protocol/src/command.rs:109-111 | the twelve bytes of the synthetic InCm |
| Layout.UnlockBytes | crates/atem-protocol/src/command.rs:174-180 | the twelve bytes of the unlock of a store |
| Layout.VersionLayout | crates/atem-protocol/src/command.rs:75-83 | the version is the first two big-endian numbers of the body, whatever follows |
| Spelling.ClassesBySpelling | crates/atem-protocol/src/command.rs:134-199 | each class of commands is the class of these names, letter by letter; a transfer name is FT and then text, or Data |
| Reliable.NextPacketIdWraps | crates/atem-protocol/src/reliable.rs:35-37 | the written-out wrap is the successor modulo 2^15 for every u16 |
| Reliable.ReliableEndpoint.constructor | crates/atem-protocol/src/reliable.rs:82-97 | a new endpoint starts at id 0 both ways with nothing queued |
| Reliable.ReliableEndpoint.QueuePayload | crates/atem-protocol/src/reliable.rs:102-104 | appends one payload and changes nothing else |
| Reliable.ReliableEndpoint.QueueCommandsPacked | crates/atem-protocol/src/reliable.rs:106-123 | the packing loop appends exactly the packets of the packing function |
| Reliable.ReliableEndpoint.OnAckId | crates/atem-protocol/src/reliable.rs:125-133 | pops the covered entries at the window's front and no others |
| Reliable.ReliableEndpoint.AcceptReliable | crates/atem-protocol/src/reliable.rs:136-154 | accepts the expected id alone; a refused packet, retransmit or not, changes nothing |
| Reliable.ReliableEndpoint.ShouldSendAck | crates/atem-protocol/src/reliable.rs:156-169 | an ack is due by count, or by delay once something was accepted since the last |
| Reliable.ReliableEndpoint.BuildAckPacket | crates/atem-protocol/src/reliable.rs:171-179 | acknowledges the highest accepted id and resets the coalescing state |
| Reliable.ReliableEndpoint.BuildRetransmitRequest | crates/atem-protocol/src/reliable.rs:181-189 | asks for the expected id and changes nothing |
| Reliable.ReliableEndpoint.PollOutbound | crates/atem-protocol/src/reliable.rs:192-262 | state and datagrams are those of resend, fill, acknowledge and ping, in this order |
| Reliable.AckDistanceIsRemainder | crates/atem-protocol/src/reliable.rs:44 | the written-out distance is the source's truncating remainder for every pair of u16s |
| Reliable.CoversBackwards | crates/atem-protocol/src/reliable.rs:40-46 | between 15-bit ids an acknowledgement covers its own id and the 255 before it, across the wrap |
| Timing.PollSends | crates/atem-protocol/src/reliable.rs:192-262 | by the kinds of the decoded datagrams, when a poll resends, acknowledges and sends a keepalive, each if and only if; every datagram bears the session id |
| Timing.PollOrder | crates/atem-protocol/src/reliable.rs:192-262 | retransmissions come first, then new payloads, an acknowledgement, a keepalive |
| Timing.KeepaliveSent | crates/atem-protocol/src/reliable.rs:240-258 | an open and idle endpoint with nothing to acknowledge sends, once the interval has passed, exactly one datagram: an empty reliable packet under the next id |
| Timing.NothingToSend | crates/atem-protocol/src/reliable.rs:240-258 | before that it sends nothing and stays as it is |
| Timing.EveryDatagram | crates/atem-protocol/src/reliable.rs:192-262 | over any run of calls every datagram is a keepalive, a payload, a retransmission or an acknowledgement, under the session id |
| Timing.KeepalivesSpaced | crates/atem-protocol/src/reliable.rs:242-258 | over any run of calls keepalives are at least an interval apart |
| Timing.KeepaliveIff | crates/atem-protocol/src/reliable.rs:242-258 | over any run of calls a poll sends a keepalive if and only if the endpoint is open and idle and an interval has passed since the start and every keepalive before |
| Timing.AcknowledgementIff | crates/atem-protocol/src/reliable.rs:156-179 | over any run of calls, after an acknowledgement the next goes out at the first poll at which the configured number of packets were accepted since, or any and the delay has passed |
| Timing.FirstAcknowledgementIff | crates/atem-protocol/src/reliable.rs:156-169 | the first one goes out at the first poll after any packet was accepted |
| Timing.AcknowledgesTheLast | crates/atem-protocol/src/reliable.rs:136-179 | over any run of calls an acknowledgement names the packet accepted last |
| Timing.PollStamps | crates/atem-protocol/src/reliable.rs:195-236 | a poll leaves the window in place, stamps all of it if it resends, and stamps what it adds |
| Timing.RetransmissionIff | crates/atem-protocol/src/reliable.rs:195-200 | over any run of calls a poll resends if and only if the front of the window was last sent the retransmit time ago |
| Timing.RetransmissionsSpaced | crates/atem-protocol/src/reliable.rs:195-210 | under monotone time, resends are at least the retransmit time apart |
| Timing.PollFillsWindow | crates/atem-protocol/src/reliable.rs:212-236 | after a poll the window is full or nothing is queued |
| Timing.WindowBounded | crates/atem-protocol/src/reliable.rs:212-258 | over any run of calls no more than the configured number of packets is in flight, but for a keepalive |
| Transport.PollAtIsPoll | crates/atem-protocol/src/reliable.rs:192-262 | the poll with absolute numbers is the endpoint's poll: same state, same bytes |
| Transport.WireIdIsRemainder | crates/atem-protocol/src/reliable.rs:7-37 | the wire id of an absolute number is its remainder modulo 2^15 |
| Transport.WireIdInjective | crates/atem-protocol/src/reliable.rs:35-37 | within 2^15 - 1 ids the wire id determines the absolute number |
| Transport.CoveringIff | crates/atem-protocol/src/reliable.rs:40-46 | the wrap-aware test on wire ids, exactly, in terms of absolute numbers |
| Transport.AckRefinesUnbounded | crates/atem-protocol/src/reliable.rs:40-133 | with at most 256 consecutive ids in flight an ack pops exactly the entries up to the acked absolute number |
| Transport.OldAckHarmlessIff | crates/atem-protocol/src/reliable.rs:40-133 | an ack behind the front of a non-empty window pops nothing if and only if its distance behind, modulo 2^15, lies between 1 and 2^15 - 256 |
| Transport.OldDataAcceptedIff | crates/atem-protocol/src/reliable.rs:136-141 | data behind the expected number is accepted as new if and only if it is a positive multiple of 2^15 behind |
| Transport.InitInv | crates/atem-proxy/src/server.rs:224-231 | the invariant holds after the handshake |
| Transport.StepKeeps | crates/atem-protocol/src/reliable.rs:102-262 | every queue, open, poll and delivery keeps the two-way invariant: consecutive window ending at the next id, bounded count, entries that decode to their id and payload, genuine datagrams |
| Transport.RunKeeps | crates/atem-protocol/src/reliable.rs:102-262 | so does every run |
| Transport.DeliveredPrefix | crates/atem-protocol/src/reliable.rs:125-262 | under the invariant the delivered payloads are a prefix of those queued, and all of them once nothing is missing |
| Transport.ExactlyOnceInOrder | crates/atem-protocol/src/reliable.rs:125-262 | exactly-once in-order delivery both ways over every run from the handshake, for any loss, duplication, reordering and number of wraps |
| Progress.FrontTestIsEnough | crates/atem-protocol/src/reliable.rs:195-200 | with send times in order, testing only the front misses no stale entry |
| Progress.RunKeepsTimes | crates/atem-protocol/src/reliable.rs:192-254 | under monotone time every run keeps both windows' send times non-decreasing |
| Progress.RunResendsWhatIsStale | crates/atem-protocol/src/reliable.rs:192-213 | over every run from the handshake under monotone time, a poll resends the window, all of it, if and only if some entry is stale |
| Progress.PollAdvances | crates/atem-protocol/src/reliable.rs:192-254 | a fully delivered poll of a stale or empty window advances the receiver to the sender's next id |
| Progress.Resynchronises | crates/atem-protocol/src/reliable.rs:195-238 | after any loss one fully delivered stale-window poll makes the receiver's expected id the sender's next id |
| Progress.RoundDrains | crates/atem-protocol/src/reliable.rs:156-238 | from a link that is not silent, whatever was lost before, a lossless round empties the window and takes across as much of the queue as there was room for |
| Progress.SilentRound | crates/atem-protocol/src/reliable.rs:142-169 | a silent link stays silent through a lossless round and its queue does not move |
| Progress.RoundEmptiesWindowIff | crates/atem-protocol/src/reliable.rs:125-238 | a lossless round empties the window if and only if the link is not silent |
| Progress.SilenceLasts | crates/atem-protocol/src/reliable.rs:142-169 | so for any number of lossless rounds |
| Progress.SilenceReached | crates/atem-protocol/src/reliable.rs:142-179 | a full window that arrives with more queued, and one lost acknowledgement, make a link silent |
| Progress.DrainsInRounds | crates/atem-protocol/src/reliable.rs:125-238 | from any link about to resend: silent, nothing moves; else k lossless rounds empty a queue of n if and only if the first one's room and k - 1 windows make n, and then everything was handed over |
| Progress.DeliversEventuallyIff | crates/atem-protocol/src/reliable.rs:125-238 | 1 + ceil(n / window) lossless rounds deliver everything queued if and only if the link is not silent with something queued, and then no number of rounds does |
| Packing.PackGroups | crates/atem-protocol/src/reliable.rs:106-123 | packing cuts the commands into ordered groups: none split, lost or moved, each packet within 1400 bytes unless it is one command, each as full as it can be |
| Packing.PackedWithinLimit | crates/atem-protocol/src/reliable.rs:106-123 | in numbers: datagrams of at most 1400 bytes or one command alone, none ended before the next command would have passed 1400 |
| Packing.PackConserves | crates/atem-protocol/src/reliable.rs:106-123 | of any byte strings, framed or not, packing keeps every byte in its place |
| Packing.PackedParses | crates/atem-protocol/src/reliable.rs:106-123 | parsing the packets one by one and concatenating gives the same commands |
| Packing.FitsIffCommandsFit | crates/atem-protocol/src/reliable.rs:106-123 | every packet fits the length field if and only if every command does |
| Packing.PackedCommandsSurviveWireIff | crates/atem-protocol/src/reliable.rs:106-123 | packed, encoded, decoded and parsed, commands come back as they were; the payloads do if and only if no command exceeds 2035 bytes |
| Cache.CacheRefinesLog | crates/atem-proxy/src/cache.rs:70-110 | after any well-framed log the ordered map is the last-wins view of its cacheable commands in first-seen order, without duplicates, with the version of the stored `_ver` |
| Cache.CacheRefinesPayloads | crates/atem-proxy/src/cache.rs:70-110 | the same for any payloads, those that do not parse being ignored |
| Cache.IngestPayloadKeepsValid | crates/atem-proxy/src/cache.rs:70-110 | any payload keeps the cache's invariant |
| Cache.DumpReplays | crates/atem-proxy/src/cache.rs:113-119 | replaying a dump into an empty cache rebuilds the same ordered map and version, and is ready |
| Cache.IngestIsOverride | crates/atem-proxy/src/cache.rs:99-108 | ingesting overrides the slots with the commands' own update, whatever was there |
| Cache.SkippedUpdatesNothing | crates/atem-proxy/src/cache.rs:80-85 | ephemeral, lock and transfer commands write nothing |
| Cache.StateCache.Clear | crates/atem-proxy/src/cache.rs:37-43 | back to the empty cache |
| Cache.StateCache.Upsert | crates/atem-proxy/src/cache.rs:99-108 | a known key is updated in place, a new one goes to the end of the order |
| Cache.StateCache.IngestPayload | crates/atem-proxy/src/cache.rs:70-110 | the loop computes the ingest function |
| Cache.StateCache.BuildDump | crates/atem-proxy/src/cache.rs:113-119 | the stored commands in order, then the synthetic InCm |
| Slots.SlotIff | crates/atem-protocol/src/command.rs:118-131 | two commands share a slot if and only if their names are equal and, for the seven names told apart by mix effect, their first bytes, for the twelve told apart by index, their first four |
| Slots.DumpHoldsIff | crates/atem-proxy/src/cache.rs:70-119 | after any log, a dump holds the bytes of a command if and only if it is state and no later state command shares its slot; it ends with the InCm |
| Slots.DumpInFirstSeenOrder | crates/atem-proxy/src/cache.rs:104-119 | in the order in which the log first shows the slots, each once |
| Slots.ReadyIff | crates/atem-proxy/src/cache.rs:87-90 | ready if and only if the log has an InCm |
| Slots.VersionIs | crates/atem-proxy/src/cache.rs:91-93 | the version is that of the last _ver of the log, or none |
| Locks.LockBroker.ClientLockRequest | crates/atem-proxy/src/locks.rs:56-96 | the decision and the new owner map, refusals and bodies without a store included |
| Locks.LockBroker.OnUpstreamLockStatus | crates/atem-proxy/src/locks.rs:99-122 | status commands mark stores locked, or unlocked and ownerless |
| Locks.LockBroker.ClientDisconnected | crates/atem-proxy/src/locks.rs:125-138 | frees what the client owned and returns one unlock for each of its stores that upstream reported locked, and no other |
| Locks.UnlocksAreDistinct | crates/atem-proxy/src/locks.rs:125-138 | each of those unlocks is sent exactly once |
| Transfer.TransferLane.ClientTransfer | crates/atem-proxy/src/transfer.rs:60-135 | the decision and the new lane, byte counter included |
| Transfer.TransferLane.FanoutTo | crates/atem-proxy/src/transfer.rs:138-145 | the lane's owner, else the owner of store 0, else of store 255, none with media disabled |
| Transfer.TransferLane.ClientDisconnected | crates/atem-proxy/src/transfer.rs:147-153 | clears the lane of the client that goes, and no other |
| Filter.CommandFilter.SubscribeAudio | crates/atem-proxy/src/filter.rs:144-176 | subscriber set, kept enable and edge action |
| Filter.CommandFilter.ProcessCommand | crates/atem-proxy/src/filter.rs:87-178 | action and new state for one command in every branch |
| Filter.CommandFilter.ProcessPayload | crates/atem-proxy/src/filter.rs:79-180 | actions and state of a whole payload; one that does not parse is forwarded raw |
| Filter.CommandFilter.ClientDisconnected | crates/atem-proxy/src/filter.rs:64-77 | audio off if the last subscriber goes, then its unlocks; lane, locks and subscription forgotten |
| Passing.OrdinaryCommandsPass | crates/atem-proxy/src/filter.rs:79-180 | ordinary commands, those that are no lock request, transfer or audio subscription, are forwarded whole and in order and change nothing, in any mode |
| Passing.OrdinaryPayloadPasses | crates/atem-proxy/src/filter.rs:79-180 | a payload of ordinary commands leaves byte for byte, and so does one that does not parse |
| Passing.OrdinaryStaysInPlace | crates/atem-proxy/src/filter.rs:177 | among other commands an ordinary one leaves where it stands, unchanged |
| Passing.OrdinaryConserved | crates/atem-proxy/src/filter.rs:79-180 | over any run of any clients: of all that goes upstream for their payloads, exactly their ordinary commands are read as such, each once and in order |
| Inbound.OrdinaryCommandsArriveOnce | crates/atem-proxy/src/server.rs:276-317 | from a client's queue to the switcher, over any run with loss, duplication and reordering: its ordinary commands are sent upstream each once and in order, all of them once nothing is missing |
| Passing.LockBody | crates/atem-protocol/src/command.rs:157-171 | a lock request for a free store, by its bytes: store, state, anything; it is taken if and only if the state byte is not zero |
| Passing.ShortLockBody | crates/atem-protocol/src/command.rs:165-171 | a body of two bytes has its state in the low byte of the store |
| Passing.LockRequestDoes | crates/atem-proxy/src/locks.rs:56-96 | a lock request by its bytes: passed if the store is free or its own, then taken or freed; otherwise dropped; nothing else changes |
| Passing.LockRequestRefused | crates/atem-proxy/src/locks.rs:65-68 | one that names no store, or comes where locks are denied, is dropped and changes nothing |
| Passing.StatusDoes | crates/atem-proxy/src/locks.rs:99-122 | what an upstream status does to the store it names, by its bytes; other commands do nothing |
| Passing.StatusesDo | crates/atem-proxy/src/locks.rs:99-122 | over a list of commands the last status that names a store decides whether it is locked |
| Passing.TransfersAllOrNone | crates/atem-proxy/src/transfer.rs:60-135 | the transfer commands of a client that owns a store, with media enabled and the lane free or its own, go upstream whole and in order; those of any other not at all |
| Passing.ChunksCounted | crates/atem-proxy/src/transfer.rs:80-112 | after the opening command and any chunks the lane is the client's, for the store first named, with the bytes counted up to the largest u64 |
| Passing.WholeTransferPasses | crates/atem-proxy/src/transfer.rs:60-127 | a start, any chunks and an end go upstream whole, and leave the lane free and all else as it was |
| Passing.RestartCounts | crates/atem-proxy/src/transfer.rs:93-97 | a start command within a transfer of its own begins the count anew |
| Passing.FanoutOrder | crates/atem-proxy/src/transfer.rs:138-145 | transfer traffic is for the lane's owner, else the owner of store 0, else of store 255; nobody's while media is disabled |
| Passing.FlagFollowsSubscription | crates/atem-proxy/src/filter.rs:141-176 | after a client's commands its audio flag, and its place among the subscribers, are what its last subscription asked for |
| Passing.AudioEdges | crates/atem-proxy/src/filter.rs:141-176 | a subscription goes upstream as it is for the first subscriber, with its last byte zeroed for the last one to go, and else not at all |
| Passing.SubscriberIsMarked | crates/atem-proxy/src/server.rs:291-304 | so the session of a client that subscribes is marked to receive levels |
| Passing.AllGoneFree | crates/atem-proxy/src/filter.rs:64-77 | when any clients go, in whatever order, exactly their stores, lane and subscriptions are given up, and nobody else's |
| FanIn.PayloadIsRun | crates/atem-proxy/src/filter.rs:79-180 | the actions on a parsed payload are those of its commands as events |
| FanIn.AnyPayloadIsRun | crates/atem-proxy/src/filter.rs:79-180 | for any payload, parsed or not, the state and what goes upstream are those of its events, so the trace theorems apply |
| FanIn.LockExclusion | crates/atem-proxy/src/locks.rs:56-138 | between forwarded lock requests of two clients for one store lies a release of the first |
| Passing.LockExclusionByBytes | crates/atem-proxy/src/locks.rs:56-138 | the same on the bytes of the requests: between two that went upstream for different clients, something freed the store of the first |
| FanIn.GoneFrees | crates/atem-proxy/src/locks.rs:125-143 | a disconnect frees exactly the client's stores |
| FanIn.WhatClosesLane | crates/atem-proxy/src/transfer.rs:50-153 | a lane is closed by its owner's FTDC or FTDE, its owner's disconnect or a reset, and by nothing else |
| FanIn.ForwardedTransferIsOwned | crates/atem-proxy/src/transfer.rs:60-135 | a forwarded transfer command comes from a client that owns some store at that moment |
| FanIn.TransferExclusion | crates/atem-proxy/src/transfer.rs:60-153 | forwarded transfer commands of two clients are separated by a close of the first's lane |
| FanIn.DenyForever | crates/atem-proxy/src/filter.rs:87-143 | with locks denied no store is ever owned, no lane opens, and every lock request and transfer command that parses is dropped, over any run |
| FanIn.DenyLeaksIff | crates/atem-proxy/src/filter.rs:79-180 | over any run with locks denied nothing is ever owned, and a lock request or transfer command stands at the front of what an event sends if and only if the event is a payload that does not parse and has one at its own front |
| FanIn.DenyLeaks | crates/atem-proxy/src/filter.rs:80-85 | the input: any lock request followed by one zero byte, from any state |
| FanIn.DisableIffBody | crates/atem-proxy/src/filter.rs:192-202 | the synthesized disable is one if and only if the subscription has a body |
| FanIn.BodilessSubscriptionNeverStops | crates/atem-proxy/src/filter.rs:64-77 | the input for which it is not |
| FanIn.AudioAlternatesIff | crates/atem-proxy/src/filter.rs:64-176 | one audio command per edge of the subscriber set; they alternate, ending in an enable exactly while someone subscribes, if and only if no last subscriber left a bodiless enable behind |
| Ownership.LaneHeldStep | crates/atem-proxy/src/locks.rs:56-138 | an event leaves the lane's owner without a store if and only if it takes its last one and leaves it the lane |
| Ownership.LaneHeldIff | crates/atem-proxy/src/transfer.rs:60-153 | over any run, the lane's owner owns a store all along if and only if no such event happened |
| Ownership.LaneOutlivesLock | crates/atem-proxy/src/locks.rs:85-90 | the input: lock on, FTSD, lock off |
| Ownership.LockedOwnedStep | crates/atem-proxy/src/locks.rs:56-138 | an event leaves a locked store without an owner if and only if it is an unlock not yet confirmed, a report on an unowned store, or the disconnect of a client that holds one |
| Ownership.LockedOwnedIff | crates/atem-proxy/src/locks.rs:56-138 | over any run, every locked store has an owner all along if and only if no such event happened |
| Ownership.LockOutlivesOwner | crates/atem-proxy/src/locks.rs:125-138 | the input: lock on, disconnect, LKST on |
| Upstream.SplitCommands | crates/atem-proxy/src/upstream.rs:271-293 | the loop fills the three buffers with the routed commands in order, and notes an InCm |
| Upstream.RoutesPartition | crates/atem-proxy/src/upstream.rs:275-293 | every command takes exactly one route, as often as it occurs |
| Upstream.ChunksReparse | crates/atem-proxy/src/upstream.rs:275-305 | each chunk parses back to its route's commands in order |
| Upstream.SplitKeepsState | crates/atem-proxy/src/upstream.rs:261-319 | cache and lock state after the split path are those of ingesting the whole payload |
| Upstream.EventsFit | crates/atem-proxy/src/upstream.rs:295-305 | no event is longer than its payload |
| Upstream.UpstreamSession.HandleUpstreamPayload | crates/atem-proxy/src/upstream.rs:250-321 | new cache, locks and connected flag, the events in order with Connected once only, and with it the opened endpoint and the init-complete acknowledgement |
| Streams.EventsInOrder | crates/atem-proxy/src/upstream.rs:271-305 | of a payload that parses, each event holds exactly the commands of its kind, by name and in order: state, then levels, then transfers |
| Streams.EventsCarryAll | crates/atem-proxy/src/upstream.rs:271-305 | as multisets, the commands read in the events and the InCms are the payload's |
| Streams.EveryCommandLeaves | crates/atem-proxy/src/upstream.rs:271-305 | every transfer command leaves in a transfer event, every level report in an audio event, all else but the InCm in a state event |
| FanOut.EventsUpdate | crates/atem-proxy/src/upstream.rs:295-305 | the events of a payload write into a view what the cache ingested of it |
| FanOut.DumpView | crates/atem-proxy/src/cache.rs:113-119 | the view of a packed dump is exactly the cache |
| FanOut.DumpSends | crates/atem-proxy/src/server.rs:267-270 | a packed dump fits the wire, makes its client ready and is the whole cache |
| FanOut.OpenedInv | crates/atem-proxy/src/server.rs:262-275 | a client may open at any moment: its dump already holds what is still to come |
| FanOut.SentKeeps | crates/atem-proxy/src/upstream.rs:298-304 | publishing an event keeps the invariant, also when it pushes the oldest one out of the channel |
| FanOut.DeliverKeeps | crates/atem-proxy/src/server.rs:65-102 | so does handing an event or a resync dump to the sessions |
| FanOut.TakeDumpKeeps | crates/atem-proxy/src/server.rs:93-95 | the dump taken after a lag makes up for everything lost, before it is queued |
| FanOut.StepKeeps | crates/atem-proxy/src/server.rs:53-307 | every step of the upstream task, the fan-out task and the datagram handler keeps the invariant |
| Convergence.Run | crates/atem-proxy/src/server.rs:53-307 | every interleaving of steps stays within the invariant |
| Convergence.LateJoinConvergence | crates/atem-proxy/src/server.rs:65-275 | at every reachable moment at which no overflow waits for its dump, an opened client's view with the pending events applied is exactly the cache |
| Convergence.QuietCaughtUp | crates/atem-proxy/src/server.rs:65-275 | with nothing on its way, an opened client's copy has the cache's entries, keys and version, and is ready |
| Convergence.ScheduleEnds | crates/atem-proxy/src/server.rs:53-108 | the two tasks stop within a computed number of steps and change neither the cache contents nor who is open |
| Convergence.EveryScheduleConverges | crates/atem-proxy/src/server.rs:53-108 | after any run, with any number of overflows, every schedule of the two tasks ends with every open client holding the cache |
| Convergence.SomeScheduleEnds | crates/atem-proxy/src/server.rs:53-108 | such a schedule exists from every reachable state |
| Convergence.CacheIsLog | crates/atem-proxy/src/upstream.rs:295-319 | over any run the hub's cache is what ingesting the whole upstream log gives |
| Convergence.ClientHoldsTheLog | crates/atem-proxy/src/server.rs:65-275 | with nothing on its way, an opened client holds under each key the last cacheable command upstream sent, and nothing else |
| Slots.ClientHoldsIff | crates/atem-proxy/src/server.rs:65-275 | with nothing on its way, an opened client's copy holds the bytes of exactly those state commands of the whole upstream log that no later one shares the slot of |
| Slots.FirstAckGives | crates/atem-proxy/src/server.rs:262-275 | after any run, a client's first acknowledgement opens its session and queues a packed dump of exactly those commands and the InCm |
| Streams.GivenInOrder | crates/atem-proxy/src/server.rs:53-92 | while the channel does not overflow and the client stays open with its flag and ownership, it is given exactly the payloads of the events for it, in order |
| Streams.StreamsArrive | crates/atem-proxy/src/server.rs:53-92 | from quiet to quiet, such an owner is given every transfer command that upstream sent, such a subscriber every level report, everyone all the rest, each in order, and nobody what is not for it |
| Losses.ReachedPure | crates/atem-proxy/src/upstream.rs:271-305 | at every reachable moment each event on its way holds the commands of its own kind alone |
| Losses.NothingElseIsLost | crates/atem-proxy/src/server.rs:53-102 | from any reachable moment, over any run with any overflows: what an owner (a subscriber) is given, what is on its way and what was pushed out are together all that upstream sent |
| Losses.CompleteIff | crates/atem-proxy/src/server.rs:93-102 | from quiet to quiet, it is given all of it if and only if no event pushed out held any |
| Losses.OverflowLoses | crates/atem-proxy/src/server.rs:93-102 | the input: 513 transfer commands while the fan-out task does not get to read |
| Routing.TransferReachesOneOwner | crates/atem-proxy/src/server.rs:81-92 | a transfer payload is queued for one session at most: the lane owner's while a lane is active, else that of store 0's owner, else of store 255's |
| Routing.EventLeaksIff | crates/atem-proxy/src/upstream.rs:261-305 | an event that is not there for transfer (or audio) traffic has a command of it at its front if and only if it is a payload that does not parse and has one there |
| Routing.OnlyOwnersGetTransfers | crates/atem-proxy/src/server.rs:65-102 | over any run, for any choice of owner at each delivery: what is given to a client that was never the owner has a transfer command at its front if and only if it is an upstream payload that does not parse and has one there; what parses has none |
| Routing.OnlySubscribersGetAudio | crates/atem-proxy/src/server.rs:65-102 | over any run, the same for audio levels and a client that never subscribed |
| Routing.RawReachesAll | crates/atem-proxy/src/upstream.rs:261-268 | the input: any transfer command followed by one zero byte from upstream is given to every opened client, with nobody being the owner |
| Truncation.PackKeepsWithin | crates/atem-protocol/src/reliable.rs:106-123 | packing commands that fit gives payloads that fit, framed or not |
| Truncation.NothingIsCutUpstream | crates/atem-proxy/src/upstream.rs:162-178 | whatever the events of a run sent upstream, batched in any way across events and clients, raw payloads included, is decoded uncut |
| Truncation.DecodedEventsFit | crates/atem-protocol/src/packet.rs:75-91 | what a decoded datagram carries, parsed or raw, fits |
| Truncation.NothingIsCutDownstream | crates/atem-protocol/src/packet.rs:93-110 | in every reachable state of the fan-out, what a session was given is decoded uncut |
| Foreign.HarmlessIff | crates/atem-proxy/src/server.rs:247-307 | a datagram, whoever sent it, leaves the endpoint as it was if and only if it does not decode, is a handshake, or neither acknowledges the front of the window nor is the reliable packet expected |
| Foreign.OverhearKeeps | crates/atem-proxy/src/server.rs:247-311 | such a datagram, with the retransmit request it may be answered with, keeps the transport invariant |
| Foreign.StaleAckLoses | crates/atem-proxy/src/server.rs:262-263 | the input: an acknowledgement under any session id that names the front of the window before it arrived breaks the invariant, the packet leaving the window undelivered |
| Foreign.StaleDataAccepted | crates/atem-proxy/src/server.rs:276-291 | the input: a data packet under any session id that bears the expected id is handed over |
| Foreign.UpstreamLoopAgrees | crates/atem-proxy/src/upstream.rs:184-230 | the upstream loop, which differs on handshake packets and on payloads without ACK_REQUEST, agrees with the client-side loop on every datagram that an endpoint of this protocol sends |
| Foreign.UpstreamLoopAgreesIff | crates/atem-proxy/src/upstream.rs:184-230 | on any datagram the two loops agree if and only if it is neither a handshake packet that acknowledges the front of the window nor one without ACK_REQUEST that has a payload |
| EndToEnd.StepAppends | crates/atem-proxy/src/server.rs:65-275 | while a session lives, every step of the hub only adds to what it was given |
| EndToEnd.HandsOver | crates/atem-proxy/src/upstream.rs:204-227 | a step of the switcher's link hands over exactly the payload of the reliable packet it accepts |
| EndToEnd.BeginInv | crates/atem-proxy/src/upstream.rs:137-152 | the invariant holds when the proxy has just connected |
| EndToEnd.MoveKeeps | crates/atem-proxy/src/server.rs:53-307 | every move of switcher's link, hub, HELLO, client's link or a foreign datagram keeps the invariants of both links and the hub: the cache is the ingestion of what was handed over, and the endpoint was queued what the session was given |
| EndToEnd.LateJoinerCatchesUp | crates/atem-proxy/src/server.rs:65-275 | from the start, over any interleaving, losses, HELLOs, timeouts and foreign datagrams that do not touch: ingested is a prefix of what the switcher queued, a client is handed a prefix of what it was given, uncut, and its copy is the cache and the last-wins view of what was ingested when the hub is quiet and nothing is missing |
| EndToEnd.LateJoinerCatchesUpInRounds | crates/atem-protocol/src/reliable.rs:125-238 | whatever was lost before, once the hub is quiet 1 + ceil(n / window) lossless rounds make the client's copy the cache and the view of the log, unless the link is silent with something queued |
| Server.HandshakeReplyDecodes | crates/atem-protocol/src/session.rs:50-63 | the client reads a handshake packet of 20 bytes with the assigned session id, the OK status and no other number |
| Server.SessionIdsRepeatIff | crates/atem-protocol/src/session.rs:17-19 | over any number of HELLOs, two sessions have the same id if and only if their HELLOs are a multiple of 2^15 apart |
| Server.SessionIdHasHighBit | crates/atem-protocol/src/session.rs:17-19 | a session id has the high bit set and the low fifteen bits of the index |
| Server.ClientIntervals | crates/atem-protocol/src/reliable.rs:19-31 | a client session in numbers, over any run of calls: keepalives 100 ms apart, an acknowledgement after 16 packets or 5 ms, resends after 30 ms, 32 in flight |
| Server.AnyAckOpens | crates/atem-proxy/src/server.rs:262-275 | a packet opens the session and touches the window if and only if it has ACK_REPLY or names any id but 0 |
| Server.NewEndpointIsFresh | crates/atem-proxy/src/server.rs:220-231 | a session's endpoint starts where the transport theorem starts, at id 1 both ways |
| Server.HeardIsReceive | crates/atem-proxy/src/server.rs:262-280 | what the handler does to the endpoint is what the transport model does with the datagram |
| Server.TakenIsDelivered | crates/atem-proxy/src/server.rs:276-291 | a packet's commands go to the filter exactly when the transport hands its payload over, and a retransmit request is sent exactly when the transport sends one |
| Server.KindByHeader | crates/atem-proxy/src/server.rs:199-261 | every handshake packet is a HELLO, also from a client with a session; any other packet is its session's, and ignored if it has none |
| Server.PacketIsSteps | crates/atem-proxy/src/server.rs:262-306 | what the handler does to the sessions is what the fan-out model's steps do |
| Server.ClientSession.Handle | crates/atem-proxy/src/server.rs:260-306 | endpoint, session, filter state, reply and forwarded commands for a packet, in every branch |
| Server.ClientSession.OpenOnce | crates/atem-proxy/src/server.rs:264-273 | the first acknowledgement opens the session and queues the dump, later ones change nothing |
| Server.ClientSession.Apply | crates/atem-proxy/src/server.rs:293-304 | the loop over the actions forwards in order and keeps the last audio flag |
| Server.ClientSession.PollRel | crates/atem-proxy/src/server.rs:134-136 | a poll moves a prefix of the queue to the wire and loses nothing |
| Server.ProxyServer.HandleEvent | crates/atem-proxy/src/server.rs:58-92 | one event reaches exactly the sessions it is for, and nothing else in them changes |
| Server.ProxyServer.ResyncOpened | crates/atem-proxy/src/server.rs:96-101 | after a lag every opened session is given the packed dump |
| Server.ProxyServer.Handshake | crates/atem-proxy/src/server.rs:201-243 | refused until upstream is connected and ready, else answered under the next session id, and a new session replaces any old one |
| Server.ProxyServer.HandleDatagram | crates/atem-proxy/src/server.rs:189-320 | undecodable and unknown: nothing; HELLO: a reply and a new session; else the packet is handled and no other session changes |
| Server.ProxyServer.PollAll | crates/atem-proxy/src/server.rs:127-141 | exactly the silent clients are dropped, each once, and exactly the others are polled |
| Server.ProxyServer.Forget | crates/atem-proxy/src/server.rs:142-149 | each dropped client leaves the filter in turn, and its cleanup commands are those it leaves behind |
| Server.ProxyServer.Tick | crates/atem-proxy/src/server.rs:124-159 | both halves of a timer tick |
| Server.OverdueIff | crates/atem-proxy/src/server.rs:130-133 | a client is dropped if and only if it has been silent for more than the idle time |
| Server.HeardStays | crates/atem-proxy/src/server.rs:130-275 | any packet of a client puts off its being dropped by the idle time, and its endpoint is open exactly when its session is |

## Left out

- Sockets, async tasks and timers, cancellation, name discovery, command line, service, configuration and logging: input and output. Time is a parameter.
- Steps under one lock are atomic, and so are three that take several locks in turn: `client_transfer` (the broker's, then the lane's), `client_disconnected` of the filter (subscribers, lane, broker) and the filter's decision on one command. Another task's step between those locks is not modelled.
- Reconnects: one upstream session is modelled. The `Disconnected` event, the backoff, and the clearing of cache, locks, lane and sessions between sessions are not; the event can itself be lost to a lag, so convergence is claimed within a session.
- Transport.ExactlyOnceInOrder: assumes a window of at most 256 ids and the packet lifetime that `Transport.InTime` states; the code has no epoch that would make up for older datagrams.
- EndToEnd.LateJoinerCatchesUp: holds over runs in which foreign datagrams do not touch an endpoint, which `Foreign.HarmlessIff` characterises; those at the upstream socket, which is new and connected for each session, are not modelled.
- Timing.KeepaliveIff: takes no queued payload to be empty, as no code queues one; an empty one is sent as the very datagram that a keepalive is. The same holds for the other laws of Timing.
- Inbound.OrdinaryCommandsArriveOnce: is about one client's payloads by themselves; `Passing.OrdinaryConserved` is about all clients' interleaved.
- Retransmit requests are sent and received, but no code answers one, in the model as in the source.
- Cache.StateCache.Clear: does not model the product name, which the source clears with the rest and which only the log and name discovery read.
- Cache.StateCache.IngestPayload: does not model the product name either; replaying a dump loses it when the last `_pin` does not parse. `parse_version` is modelled.
- The upstream loop takes over the session id of a packet if it is not 0; an endpoint here keeps the id it was made with.
- The upstream session's own idle timeout.
- The HELLO that the proxy itself sends upstream, and reading the switcher's answer.
- Media pacing: the chunk delay, the soft upload cap's warning, and the `started` time of a transfer change no decision.
- Counters and warn-once bookkeeping that only feed the log.
- The channel of commands to the upstream task, which drops what is shorter than 8 bytes before packing.
- The order of the sessions map within one tick: packets are given per client, dropped clients in some order.
- The tie between the filter's audio subscribers and the sessions' audio flags: a new HELLO resets the flag and leaves the filter as it is.
- FanIn.LockExclusion: is about lock requests that the filter recognises; what a payload that does not parse carries upstream is not arbitrated (`FanIn.DenyLeaksIff` says when that happens). The same holds for FanIn.TransferExclusion and FanIn.AudioAlternatesIff.
- FanOut.StepKeeps: a session is represented by the list of all payloads given to its endpoint; the endpoint itself is that of `Reliable`, tied to it by `Server.ClientSession` and `EndToEnd`.
