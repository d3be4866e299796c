# Verified models of five protocol components

A Dafny model of the parts of this repository whose correctness is least obvious from their code, and
proofs of what those parts promise. `dafny verify dfyconfig.toml` checks everything.

Code that updates objects in place is modelled by classes and loops, each method proved against a
function on values; what the component promises is then proved about those functions, over every input,
every run or every interleaving.

**Homa-lite transport** (`Homa*.dfy`). `HomaSenderCore` and `HomaReceiverCore` are the two cores as the
program runs them; `HomaSender` and `HomaReceiver` are what their methods compute. `HomaWorld` puts any
number of hosts on a network that loses, repeats and reorders datagrams, which travel as octets through
`HomaPacket`. Two invariants over senders, network and receivers hold in every run: one under every
configuration (`HomaBase`, `HomaBaseSteps`), from which come memory safety, credit, sizes and repair, and a
stronger one about the bytes themselves (`HomaFlow`, `HomaReassembly`, `HomaSteps`). `HomaRun`,
`HomaRepairRun` and `HomaDeliversRun` draw the results. `HomaSrpt`, `HomaStarve`, `HomaAsks`, `HomaLedger`,
`HomaRepair`, `HomaDelivers`, `HomaRetransmit` and `HomaWindow` are about one core at a time, for any inputs
whatsoever: not only what it never does, but also what it does, and exactly when.
That every message arrives byte for byte needs one condition on the configuration, `Aligned`: the packet size
divides the grant increment. Nothing is asked of the unscheduled window, and empty messages are included. The
condition is exact: under every other configuration whose sizes leave room for the message, `HomaMisaligned`
constructs a run that delivers bytes nobody sent (with `HomaSolo` and `HomaSoloRun`, one message between two
hosts), and `HomaIntegrity` puts the two halves together. The default configuration (packets of 1200 octets,
increments of 262144) does not meet the condition, so under it integrity fails.

**Maglev table** (`Primes`, `Maglev`, `MaglevTable`). The probe sequence of each backend is a permutation
because the table size is prime, so the fill loop ends; the table is the only one the turn-taking rule
allows, and its balance is exact.

**Table publisher** (`LutPublisher`, `LutSafety`). One writer and any number of readers over two buffers,
every atomic operation and both halves of every buffer write a step of their own.

**Connection table and packet pipeline** (`Lru`, `Slab`, `ConnTrack`, `Edge`, `EdgeAffinity`,
`EdgeExpiry`, `Simulator`). A map, a slab of doubly linked nodes and a free list behave as a sequence of
connections in order of use; on top of it, a flow stays on its backend while it is in use, and only then.

**Replay window and session** (`Words`, `Replay`, `Session`, `SessionSafety`). One 64-bit bitmap stands
for the set of all sequence numbers ever accepted; over a hostile channel with ideal encryption every send
is delivered at most once.

**Message codec and segment offload** (`Varint`, `Message`, `MessageExact`, `MessageCodec`, `FrameReader`,
`Chunking`, `Gso`). Printers, parsers and re-chunkers that undo each other.

Conventions: `Bytes` and `Chunks` hold octets, fixed-width encodings and chunk arithmetic. Integers are
unbounded; truncations (`as u32`, `as u8`), wrap-around and widths are written out where the code has them.
A hash map's iteration order is a parameter, any listing of its keys without repetition. Times are natural
numbers and differences saturate. `None`, or an `ok` result, stands for a panic the code raises.

Where the code and its comments disagree the model follows the code. The session's counter stops one
message short of the 2^64 that the comment in `crypto.rs` gives. The comment on the last flush of a batch in
the transport's send loop says that the aggregation window is kept across batches, but that flush empties it.
The session's window takes numbers up to 63, not 64, behind the highest.

## Model

| member | source | states |
|---|---|---|
| HomaPacket.DecodeEncode | crates/homa-rpc/src/transport/packet.rs:77-120 | every header whose fields fit their widths, with its payload, survives encoding and decoding |
| HomaPacket.EncodeDecode | crates/homa-rpc/src/transport/packet.rs:90-120 | whatever octets decode are exactly the encoding of what they decode to |
| HomaPacket.Layout | crates/homa-rpc/src/transport/packet.rs:77-88 | where each field lies: type and priority, then id, message length, offset and length, each digit by digit in base 256, least significant first, then the payload |
| HomaTypes.PriorityIsDecade | crates/homa-rpc/src/transport/priority.rs:23-31 | a message's priority is the first whose bound, 100 times a power of ten, its length does not exceed, or the last |
| HomaSenderCore.SenderCore.SendUpTo | crates/homa-rpc/src/transport/sender.rs:302-326 | the send loop emits the packets of the range, each starting where the last ended, and leaves the position there |
| HomaSenderCore.SenderCore.PumpKey | crates/homa-rpc/src/transport/sender.rs:295-326 | pumping sends up to the limit, raises the credit, and marks the message done exactly when everything is sent |
| HomaSenderCore.SenderCore.Start | crates/homa-rpc/src/transport/sender.rs:103-125 | a new message sends its unscheduled window |
| HomaSenderCore.SenderCore.HandleGrant | crates/homa-rpc/src/transport/sender.rs:128-144 | a grant beyond the credit sends up to it; any other changes nothing |
| HomaSenderCore.SenderCore.SendRange | crates/homa-rpc/src/transport/sender.rs:162-172 | the resend loop ends, having sent every chunk that overlaps the range, whole |
| HomaSenderCore.SenderCore.HandleResend | crates/homa-rpc/src/transport/sender.rs:150-183 | answers the range, and moves credit and send position to its end if they were short of it |
| HomaSenderCore.SenderCore.Tick | crates/homa-rpc/src/transport/sender.rs:196-244 | whatever order the map lists them in: a message goes exactly when its linger has run out, and for every other exactly one packet is sent if it is stalled and none otherwise |
| HomaSenderCore.SenderCore.Confirm | crates/homa-rpc/src/transport/sender.rs:262-271 | a done message is gone; one not done keeps data, position, credit and progress time and is never retransmitted; all others are untouched |
| HomaReceiverCore.ReceiverCore.IssueGrant | crates/homa-rpc/src/transport/receiver.rs:293-326 | credit ends at the received bytes plus an increment, cut to the message and never moved back, and the one grant sent says so; or nothing changes, exactly when the message is unknown or, unforced, half an increment is outstanding or there is nothing to add |
| HomaReceiverCore.ReceiverCore.Select | crates/homa-rpc/src/transport/receiver.rs:263-284 | the messages with least remaining, up to the overcommitment, and every starving one |
| HomaReceiverCore.ReceiverCore.Schedule | crates/homa-rpc/src/transport/receiver.rs:263-289 | selects, then grants each selected message in turn |
| HomaReceiverCore.ReceiverCore.StarveCheck | crates/homa-rpc/src/transport/receiver.rs:188-204 | pops the deadlines that have come, and grants everyone among them who needs credit, is not being granted and is due |
| HomaReceiverCore.ReceiverCore.DeliverKey | crates/homa-rpc/src/transport/receiver.rs:329-344 | the message leaves table and granting set and is remembered last; no more than the cache is remembered, and only the longest remembered message is forgotten |
| HomaReceiverCore.ReceiverCore.HandleData | crates/homa-rpc/src/transport/receiver.rs:101-184 | takes every packet: panics, with nothing changed, exactly when the bytes would run past the buffer; refuses exactly a remembered, an overlong, or an unknown message while the table is full, and answers busy only to the last; any other message is being received or handed out afterwards |
| HomaReceiverCore.ReceiverCore.TickOne | crates/homa-rpc/src/transport/receiver.rs:212-258 | touches one message only: its bytes stay, its credit does not go down, at most one packet is sent, and it is dropped only after 40 unanswered requests |
| HomaReceiverCore.ReceiverCore.Tick | crates/homa-rpc/src/transport/receiver.rs:207-260 | every message in turn, in whatever order the map lists them, then scheduling |
| HomaReassembly.CompleteIsData | crates/homa-rpc/src/transport/receiver.rs:47-56 | a message whose byte count is full has every chunk marked, and its buffer is the data sent |
| HomaDelivers.TakenIffNotTurnedAway | crates/homa-rpc/src/transport/receiver.rs:109-126 | a packet with something new marks its chunk or completes its message if and only if its message is not remembered as delivered, is not longer than the limit, and is known or finds room; one turned away changes nothing |
| HomaDelivers.FedIsDelivered | crates/homa-rpc/src/transport/receiver.rs:128-172 | a receiver with room that does not remember the message, fed all its chunks in any order with any repeats, delivers exactly the data; empty messages included, under every configuration |
| HomaDelivers.ArrivedIsDelivered | crates/homa-rpc/src/transport/receiver.rs:101-184 | the same among any other packets and ticks, as long as the message finds room when it first comes and no tick gives it up |
| HomaDeliversRun.ArrivedIsDeliveredInRun | crates/homa-rpc/src/transport/mod.rs:521-551 | in every run with whole-packet credit, whatever else happens: once all chunks of a submitted message have reached a receiver that had room and does not give it up, it has been delivered byte for byte |
| HomaSteps.StepOk | crates/homa-rpc/src/transport/mod.rs:521-551 | every event, at any host, keeps the joint invariant of senders, network and receivers |
| HomaRun.SubmittedOnce | crates/homa-rpc/src/transport/mod.rs:320-335 | over every run a message id is given out once |
| HomaRun.EndToEndIntegrity | crates/homa-rpc/src/transport/receiver.rs:101-184 | with whole-packet credit, in every run over a network that loses, repeats and reorders, everything delivered is byte for byte what was submitted under that id |
| HomaRun.NeverOverruns | crates/homa-rpc/src/transport/receiver.rs:158-166 | under every configuration, in every run: no data packet that can arrive makes the receiver copy past its buffer |
| HomaBaseSteps.BaseStep | crates/homa-rpc/src/transport/mod.rs:521-551 | under every configuration every event keeps the joint invariant of sizes and credit: each packet is a slice of what was submitted; each send position and each credit end lies on the chunk grid, or off it by the increment, or inside the unscheduled window, or at the end, unless the end of the message has been sent |
| HomaRun.SendsSlices | crates/homa-rpc/src/transport/sender.rs:295-326 | under every configuration, in every run: a data packet carries a slice, no longer than a packet, of what was submitted under its id, with its length |
| HomaRun.DeliversSubmitted | crates/homa-rpc/src/transport/receiver.rs:166-172 | under every configuration, in every run: what is delivered has the id and the length of something submitted |
| HomaRun.DoneMeansSent | crates/homa-rpc/src/transport/sender.rs:159-182 | in every run a message marked done has had every chunk put on the network, although a resend request can move the send position forward |
| HomaRun.SendsWithinCredit | crates/homa-rpc/src/transport/sender.rs:205-326 | under every configuration, in every run: a packet other than a first one, pokes included, starts inside the unscheduled window or under a grant that its receiver sent |
| HomaRun.ReceiverRecord | crates/homa-rpc/src/transport/receiver.rs:128-166 | under every configuration, in every run: the record has the length submitted, counts no more bytes than the marked chunks hold, and its credit stays inside the message and was announced |
| HomaRun.ByteCountIsSum | crates/homa-rpc/src/transport/receiver.rs:156-164 | with whole-packet credit, in every run: the byte count is the sum of the marked chunks |
| HomaWindow.StepWithinCredit | crates/homa-rpc/src/transport/sender.rs:128-183 | for any input in any state: credit does not go down, goes up by no more than the input gives, and what a start, grant or resend request sends begins below it |
| HomaWindow.LifeWithinCredit | crates/homa-rpc/src/transport/sender.rs:295-326 | over every run of a sender the send position is less than a packet past the credit heard of, with no condition on sizes |
| HomaWindow.PumpConserves | crates/homa-rpc/src/transport/sender.rs:302-326 | pumping sends every byte from the send position to where it stops, once and in order, and does not stop short of the limit |
| HomaWindow.TickSendsWithin | crates/homa-rpc/src/transport/sender.rs:205-243 | a tick sends a done message's first packet or a poke; in any sender, the poke starts below the credit heard of if and only if there is some and the send position is not past it or the last byte sent and the last byte credited share a chunk |
| HomaWindow.PokePastCredit | crates/homa-rpc/src/transport/sender.rs:227-242 | the condition can fail for a sender on its own: a resend request and a grant, which no receiver sends together, after which a poke starts at the end of the credit |
| HomaMisaligned.MisalignedCorrupts | crates/homa-rpc/src/transport/sender.rs:174-177 | for every configuration without whole-packet credit, in which a receiver takes messages and takes one that is a grant and a packet longer than the unscheduled chunks: a run, on a clock that never goes back, that delivers bytes differing from the ones submitted under that id |
| HomaIntegrity.IntegrityIffAligned | crates/homa-rpc/src/transport/receiver.rs:101-184 | for every configuration in which such a message is not too long: every run delivers only what was submitted, byte for byte, if and only if the packet size divides the grant increment (or no message is ever taken) |
| HomaIntegrity.DefaultBreaks | crates/homa-rpc/src/transport/mod.rs:81-98 | the default configuration has a run that delivers what was never submitted |
| HomaSrpt.ScheduleIsSrpt | crates/homa-rpc/src/transport/receiver.rs:263-326 | after scheduling, a message that needs credit is granted and served, or was granted within the starvation threshold and is outranked by a full set of granted messages with no more left |
| HomaSrpt.ScheduleOnly | crates/homa-rpc/src/transport/receiver.rs:263-289 | only messages that need credit are granted, and no more of them than the overcommitment unless they starve |
| HomaStarve.ShortestFirst | crates/homa-rpc/src/transport/receiver.rs:166-183 | after the first packet of a message, one that finishes a message, and a tick: whoever needs credit and is not being granted waits behind a full set of granted messages with no more left |
| HomaStarve.StarveCheckSaves | crates/homa-rpc/src/transport/receiver.rs:188-204 | wherever in the sorted queue its deadline is, a due message outside the granting set is granted, and served, by one check |
| HomaStarve.RunStarvesNobody | crates/homa-rpc/src/transport/receiver.rs:174-204 | over every run on a clock that does not go back, after every tick and every packet that is not refused, every message that needs credit and is not being granted was granted within the threshold |
| HomaAsks.TickAsksExactly | crates/homa-rpc/src/transport/receiver.rs:212-246 | a tick asks for a message if and only if it has been idle for the resend timeout with a first missing chunk below its credit; it asks once, from that chunk to the credit or an increment further, and gives the message up exactly if 40 requests went unanswered before |
| HomaAsks.TickGrantsWhenIdle | crates/homa-rpc/src/transport/receiver.rs:247-258 | with nothing missing below the credit nothing is asked for or given up, and a message being granted that is idle for both timeouts gets its credit extended and announced |
| HomaAsks.ProgressIff | crates/homa-rpc/src/transport/receiver.rs:156-164 | a packet restarts a message's timers and its count of unanswered requests if and only if it fills a chunk that was missing |
| HomaLedger.CreditDiscipline | crates/homa-rpc/src/transport/receiver.rs:293-326 | for every input, within one incarnation, credit never decreases, never exceeds the message, nor the larger of the window and one increment past the bytes received |
| HomaLedger.AtMostOnce | crates/homa-rpc/src/transport/receiver.rs:329-344 | over every run the cache is exactly the last 4096 deliveries, disjoint from what is being received, and two deliveries of one message have at least 4096 others between them |
| HomaRepair.ResendRepairs | crates/homa-rpc/src/transport/receiver.rs:219-246 | for any receiver record of the message's size: feeding the answer to a resend request back, in any order with any repeats, delivers the message or marks every chunk that overlaps the range |
| HomaRepairRun.ResendRepairsInRun | crates/homa-rpc/src/transport/sender.rs:150-183 | under every configuration, in every run, whatever happens in between: once the packets of an answer have arrived, the message has since been delivered or given up, or every chunk that overlaps the range is marked |
| HomaRetransmit.BoundedRetransmission | crates/homa-rpc/src/transport/sender.rs:196-225 | over every run with a clock that does not go back, the n-th retransmission of a done message satisfies n * timeout < linger |
| HomaRetransmit.TickExactly | crates/homa-rpc/src/transport/sender.rs:196-244 | at a tick a message goes exactly when its linger is over; otherwise one packet is sent for it if and only if it is done, unconfirmed and idle for the retransmission timeout (bytes 0 to the packet size), or not done and idle for the poke timeout (the chunk of the last byte sent) |
| HomaRetransmit.RetransmissionGoesOn | crates/homa-rpc/src/transport/sender.rs:205-225 | over every life: if ticks come at most gap apart and the receiver is silent, a done, unconfirmed message has, t after it was done and within its linger, been sent at least t / (timeout + gap) - 1 times |
| HomaRetransmit.Begun | crates/homa-rpc/src/transport/sender.rs:103-125 | a message just started has its data and flag, the unscheduled window as credit and sent, and is done exactly if that was all of it |
| HomaRetransmit.WordIsProgress | crates/homa-rpc/src/transport/sender.rs:128-190 | a grant beyond the credit, a resend request and a busy answer each restart the message's idle time, and change neither data nor flag |
| HomaRetransmit.OtherWordsDoNot | crates/homa-rpc/src/transport/sender.rs:128-190 | a grant within the credit, and anything about other messages, leaves the record as it is |
| HomaRetransmit.GoneForGood | crates/homa-rpc/src/transport/sender.rs:254-271 | once a message is gone no later step, whatever it is, sends anything for it unless it is started anew |
| HomaRetransmit.SilentOnceGone | crates/homa-rpc/src/transport/sender.rs:196-271 | from the step that finishes a message, or confirms or reclaims a done one, nothing is sent for it |
| Primes.IsPrime | crates/xdp-edge/src/maglev.rs:11-23 | trial division up to the square root decides primality, both ways |
| Maglev.ProbesCover | crates/xdp-edge/src/maglev.rs:64-70 | for a prime size below 2^32 each backend's probes meet every slot within the first m, in wrapping 64-bit arithmetic |
| Maglev.ProbesDiffer | crates/xdp-edge/src/maglev.rs:64-70 | and no slot twice |
| Maglev.HashesReduced | crates/xdp-edge/src/maglev.rs:34-42 | offset and skip are what the two hashes leave modulo m and, less one, modulo m - 1 |
| Maglev.FindFree | crates/xdp-edge/src/maglev.rs:65-73 | the inner loop ends: it finds the first slot of the permutation that is still free, and the cursor never passes m |
| Maglev.BuildLut | crates/xdp-edge/src/maglev.rs:47-79 | panics exactly when the size is not prime or there are no backends; otherwise every slot is claimed by the backend whose turn it was, as its first free slot |
| Maglev.LutUnique | crates/xdp-edge/src/maglev.rs:44-79 | hashes, size and backends determine the table |
| Maglev.LutInRange | crates/xdp-edge/src/maglev.rs:59-78 | no slot is left empty and every entry is the index of a backend |
| Maglev.ExactBalance | crates/xdp-edge/src/maglev.rs:125-131 | backend i owns m / n slots, and one more if and only if i < m mod n, for all hashes, also when backends repeat or outnumber the slots |
| MaglevTable.Table.Rebuild | crates/xdp-edge/src/maglev.rs:103-106 | the table becomes that of the new backends, or nothing changes |
| MaglevTable.Table.LoadTable | crates/xdp-edge/src/maglev.rs:109-117 | takes over exactly the tables of the right size with entries in range |
| MaglevTable.Table.Lookup | crates/xdp-edge/src/maglev.rs:119-123 | never out of bounds once loaded; a key is answered by the backend that owns slot key mod m, whichever entry that is |
| MaglevTable.OneAnswers | crates/xdp-edge/src/maglev.rs:119-123 | every key is answered by exactly one entry |
| MaglevTable.BalancedLookups | crates/xdp-edge/src/maglev.rs:119-131 | of any m consecutive keys entry i of n backends answers m / n, and one more if and only if i < m mod n |
| MaglevTable.ConsecutiveKeys | crates/xdp-edge/src/maglev.rs:119-123 | for any table, of any m consecutive keys an entry answers as many as it owns slots |
| MaglevTable.Table.SlotCounts | crates/xdp-edge/src/maglev.rs:126-132 | the counts are the numbers of slots each backend owns |
| LutSafety.StepOk | crates/xdp-edge/src/control/lut_publish.rs:79-119 | every step of the writer or of a reader keeps the invariant: counts, labels, intact buffers in use |
| LutSafety.SnapshotSafe | crates/xdp-edge/src/control/lut_publish.rs:104-119 | in every interleaving whoever uses a buffer sees the whole image of a single publish, and the version number is that of the image or the next |
| LutSafety.RecheckIff | crates/xdp-edge/src/control/lut_publish.rs:104-119 | a recheck leaves the reader using its buffer if and only if that buffer is active at that step |
| LutSafety.SnapshotAlone | crates/xdp-edge/src/control/lut_publish.rs:104-119 | from every reachable state a reader that starts and runs alone holds, four steps later, a snapshot of the version current then |
| LutSafety.SnapshotFromAnywhere | crates/xdp-edge/src/control/lut_publish.rs:104-119 | a reader at any point of its attempt, even with a replaced buffer, gets a snapshot within seven steps alone |
| LutSafety.PublishAlone | crates/xdp-edge/src/control/lut_publish.rs:79-99 | a publish that runs alone with nobody inside the spare buffer makes its image the current one under the next version |
| LutSafety.SnapshotStable | crates/xdp-edge/src/control/lut_publish.rs:79-99 | from a successful recheck to the drop neither the table nor the backend list of the buffer changes |
| LutSafety.SkewExactly | crates/xdp-edge/src/control/lut_publish.rs:95-111 | the version number is the table's own if and only if, when it is read, the buffer is active and the writer has not counted the next version |
| LutSafety.SkewHappens | crates/xdp-edge/src/control/lut_publish.rs:95-111 | the bound is reached: a run in which version 1's table is held under the number 2 |
| LutSafety.LookupSafe | crates/xdp-edge/src/control/lut_publish.rs:31-34 | a lookup through a snapshot stays in bounds, for every key, and gives the backend that owns the key's slot in the published table |
| LutSafety.PublishedIsSeen | crates/xdp-edge/src/control/lut_publish.rs:95-99 | once publish has returned v every recheck that succeeds gives v or a later version |
| Slab.Unlinks | crates/xdp-edge/src/conntrack.rs:166-181 | joining a node's neighbours takes exactly that node out of the forward and the backward list |
| Slab.Pushes | crates/xdp-edge/src/conntrack.rs:154-164 | linking a node in front puts exactly that node at the head of both lists |
| ConnTrack.ConnTrack.PushHead | crates/xdp-edge/src/conntrack.rs:154-164 | the list becomes the node followed by the old list; keys and values stay |
| ConnTrack.ConnTrack.Unlink | crates/xdp-edge/src/conntrack.rs:166-181 | the list becomes the old list without the node; keys and values stay |
| ConnTrack.ConnTrack.MoveToHead | crates/xdp-edge/src/conntrack.rs:183-189 | the node comes first, the others keep their order |
| ConnTrack.ConnTrack.RemoveAt | crates/xdp-edge/src/conntrack.rs:191-197 | list, map and free list lose and gain exactly the node |
| ConnTrack.ConnTrack.AllocNode | crates/xdp-edge/src/conntrack.rs:131-152 | takes the last free node, or else a new one at the end of the slab |
| ConnTrack.ConnTrack.Lookup | crates/xdp-edge/src/conntrack.rs:63-75 | behaves as a lookup in the recency sequence: a hit moves to the front refreshed and answers as before, an expired entry goes |
| ConnTrack.ConnTrack.Insert | crates/xdp-edge/src/conntrack.rs:78-94 | behaves as insertion at the front of the recency sequence, losing the last when full; the slab never exceeds the capacity |
| ConnTrack.ConnTrack.SweepExpired | crates/xdp-edge/src/conntrack.rs:111-127 | whatever order the map lists the victims in, an order-preserving filter, and the count removed |
| Simulator.XdpSimulator.Process | crates/xdp-edge/src/simulator.rs:99-139 | verdict, new tables and statistics: which counter each packet raises, in terms of the limiter, the guard, and whether the table knew the flow within the timeout |
| Simulator.XdpSimulator.SetBackends | crates/xdp-edge/src/simulator.rs:94-96 | the table becomes that of the new backends; tracked connections stay |
| Simulator.XdpSimulator.ApplyLut | crates/xdp-edge/src/simulator.rs:157-159 | takes over a fitting table; tracked connections stay |
| Simulator.XdpSimulator.Sweep | crates/xdp-edge/src/simulator.rs:151-153 | the connection table is filtered, nothing else changes |
| EdgeAffinity.NextHolds | crates/xdp-edge/src/simulator.rs:99-139 | an event of another flow, a sweep in time, or new backends leave a tracked flow's entry in the table, as long as the flows used since are fewer than the capacity |
| EdgeAffinity.Affinity | crates/xdp-edge/src/simulator.rs:94-159 | over every run, a flow whose consecutive forwarded packets are no further apart than the timeout, with fewer than capacity other flows between, goes to one backend throughout |
| EdgeExpiry.RunSeen | crates/xdp-edge/src/conntrack.rs:63-94 | over every run the time kept for a flow is that of its latest forwarded packet |
| EdgeExpiry.IdleIsRouted | crates/xdp-edge/src/simulator.rs:118-139 | the dual: over every run a packet of a flow that is new, or idle for longer than the timeout, goes to the backend that owns its slot in the table of the moment |
| EdgeExpiry.IdleIsSwept | crates/xdp-edge/src/conntrack.rs:111-127 | and a sweep leaves nothing of such a flow |
| EdgeAffinity.ForwardsToConfigured | crates/xdp-edge/src/simulator.rs:118-139 | over every run a packet goes only to a backend that is, or was earlier, in the configured list |
| Words.BitShifted | crates/gm-pq-stack/src/handshake/session.rs:51-56 | shifting a 64-bit word moves every digit that stays inside it |
| Replay.ReplayWindow.CheckAndMark | crates/gm-pq-stack/src/handshake/session.rs:43-70 | accepts a number if and only if it was never accepted and is less than 64 behind every number accepted |
| Session.OpenSealed | crates/gm-pq-stack/src/crypto.rs:82-105 | what was sealed opens to the same number and plaintext |
| Session.SealedLayout | crates/gm-pq-stack/src/crypto.rs:71-105 | a packet is its number, eight octets, most significant first, and then ciphertext and tag |
| Session.Aead.Seal | crates/gm-pq-stack/src/crypto.rs:72-79 | seals under the next number, or panics exactly when the counter cannot go up |
| Session.Session.Send | crates/gm-pq-stack/src/handshake/session.rs:97-99 | the same, for the session's sending half only |
| Session.Session.Recv | crates/gm-pq-stack/src/handshake/session.rs:102-106 | too short, not authentic, replayed or delivered; a packet that is not authentic leaves the window alone |
| SessionSafety.NumbersUsed | crates/gm-pq-stack/src/crypto.rs:72-79 | over every run the numbers used are exactly those below the counter, so none is used twice |
| SessionSafety.AtMostOnce | crates/gm-pq-stack/src/handshake/session.rs:102-106 | over every run, however packets are dropped, repeated, reordered or injected, no number is delivered twice |
| SessionSafety.DeliversWhatWasSent | crates/gm-pq-stack/src/handshake/session.rs:97-106 | what is delivered is the plaintext sealed under that number |
| SessionSafety.DeliveredIff | crates/gm-pq-stack/src/handshake/session.rs:43-70 | a genuine packet is delivered if and only if its number was not before and none 64 or more ahead was |
| SessionSafety.ReorderingLosesNothing | crates/gm-pq-stack/src/handshake/session.rs:60-69 | a first arrival after none that is 64 or more ahead is delivered |
| Varint.DecodeEncoded | crates/moq-live/src/varint.rs:12-48 | decoding undoes encoding for every 62-bit value, whatever follows (section 16 of RFC 9000) |
| Varint.DecodePrefix | crates/moq-live/src/varint.rs:35-48 | a strict prefix of an encoding is reported as too short, never as a value |
| Varint.EncodedIsShortest | crates/moq-live/src/varint.rs:12-32 | no octets that decode to a value are shorter than its encoding |
| Varint.EncodedLayout | crates/moq-live/src/varint.rs:12-32 | the two high bits of the first octet are the base-2 logarithm of the length; the rest of it and the other octets are the value's digits, most significant first |
| Varint.Decode | crates/moq-live/src/varint.rs:35-48 | the octet loop computes the big-endian value, within 62 bits, without overflow |
| MessageCodec.Encode | crates/moq-live/src/message.rs:128-213 | appending field by field gives the frame of the message |
| MessageCodec.ReadMessage | crates/moq-live/src/message.rs:226-285 | reading with a cursor gives the value, the rest and the error that the format says |
| MessageCodec.Decode | crates/moq-live/src/message.rs:216-290 | the same for a whole frame, with its length and trailing octets checked |
| Message.DecodeFrame | crates/moq-live/src/message.rs:128-290 | decoding the frame of any encodable message gives it back, an object's group as 0 |
| Message.Normalizes | crates/moq-live/src/message.rs:216-290 | any frame that decodes, however encoded, gives a message whose own frame is no longer and decodes to the same |
| Message.FrameLayout | crates/moq-live/src/message.rs:128-213 | a frame is one octet with the number of the type, the length of the payload, and the payload |
| Message.PayloadLayout | crates/moq-live/src/message.rs:128-213 | the payload of each message is its fields in the listed order, as integers and counted octets |
| MessageExact.TrailingRejected | crates/moq-live/src/message.rs:219-225 | octets after a frame make it invalid |
| MessageExact.PaddingRejected | crates/moq-live/src/message.rs:286-288 | so do octets after the last field, even if the length counts them |
| MessageExact.UnknownRejected | crates/moq-live/src/message.rs:284-285 | a type that is none of the ten is invalid, whatever the payload |
| FrameReader.TryParse | crates/moq-live/src/net.rs:107-120 | the first message of a buffer and its length, nothing yet, or an error, as the format says |
| FrameReader.ParseFrame | crates/moq-live/src/net.rs:107-120 | a buffer that starts with a frame yields its message and length |
| FrameReader.CompleteFrame | crates/moq-live/src/net.rs:107-120 | a frame that is all there is decided at once, as its message or its error, whatever follows |
| FrameReader.ParsePrefix | crates/moq-live/src/net.rs:107-120 | a strict prefix of a frame is never an error and never a message |
| FrameReader.FrameReader.Read | crates/moq-live/src/net.rs:83-103 | the loop returns what reading chunk by chunk says, and keeps what follows |
| Chunking.ChunkingIndependence | crates/moq-live/src/net.rs:83-120 | for every list of encodable messages and every cut of their frames into reads: exactly those messages, in order, then the clean end |
| Chunking.TruncatedStream | crates/moq-live/src/net.rs:92-99 | if the stream ends inside one more frame: the same messages, then an error |
| Gso.CutJoined | crates/homa-rpc/src/transport/gso.rs:138-162 | cutting every n octets undoes joining, for pieces of n octets |
| Gso.JoinCut | crates/homa-rpc/src/transport/mod.rs:527-532 | joining undoes cutting, for all data |
| Gso.Split | crates/homa-rpc/src/transport/mod.rs:527-532 | the receiver's loop cuts at every stride, the last piece possibly shorter; with no stride the data is one piece |
| Gso.GsoAggregator.TryPush | crates/homa-rpc/src/transport/gso.rs:75-131 | takes a packet over if and only if with it the segment is still full data packets of one message at consecutive offsets, to one destination and, if more than one, within 64 KiB; otherwise changes nothing |
| Gso.GsoAggregator.Finish | crates/homa-rpc/src/transport/gso.rs:87-99 | the segment consists of full data packets of one message at consecutive offsets, and the kernel's cut gives back what was taken over |
| Gso.SendBatch | crates/homa-rpc/src/transport/mod.rs:488-511 | what goes on the wire is exactly the packets of the batch, whole, in order, none lost, repeated or split; a batch that is one run of consecutive full packets within 64 KiB goes out in a single call |

## Left out

- HomaIntegrity.IntegrityIffAligned: configurations whose unscheduled window or increment comes so close to the 16 MiB limit on messages that no message goes a grant and a packet past the unscheduled chunks; there the condition is shown sufficient (EndToEndIntegrity) but not necessary.
- HomaWindow.TickSendsWithin: the exact condition is for messages below 2^32 octets, beyond which the offset in the packet is truncated.
- A busy answer, one message's share of a sender's tick, and finish are methods of HomaSenderCore without rows of their own; what they mean over time is in TickSendsWithin, BoundedRetransmission and SilentOnceGone.
- Maglev.BuildLut: sizes of 2^32 and more, where an index no longer fits its 32 bits.
- ConnTrack.ConnTrack.Insert: capacities above 2^32 - 1, where node indices are truncated.
- LutSafety.SnapshotSafe: sequentially consistent interleavings only; weak memory orderings, a version counter that wraps, and the writer's progress out of its spin loop are not part of the model.
- SessionSafety.DeliversWhatWasSent: encryption is ideal, that is, only what was sealed opens; SM4-GCM itself, key derivation and the handshake are not part of the model.
- Words.BitShifted: 64-bit words are numbers and their bitwise operations are defined digit by digit, a shift by n as n shifts by one.
- Chunking.ChunkingIndependence: UTF-8 validity is an arbitrary predicate, and errors of the underlying stream are not modelled.
- Gso.SendBatch: the kernel's cutting is given by Cut; platforms without segment offload send packet by packet.
- The statistical claim that about 1/N of the Maglev slots move when a backend changes; the hash is an arbitrary function.
- Rate limiter, SYN guard and flow hash: arbitrary booleans and an arbitrary function.
- Sockets, threads, send queues, tracing and statistics counters of the transport; the RPC layer, the TCP baseline and the network simulator.
- The relay, group cache and hub of moq-live, p2p-mesh, tickets, cookies and trust files, health checks and metrics, and the kernel program xdp_edge.c.
