# Last-write-wins store and gossip replication: a verified model

This project models the state store of the sync engine and the gossip protocol that
replicates it, and proves what they keep over every run: tag uniqueness, confirmed delivery,
watermark soundness, convergence and its bound, event completeness, and the frame round trip.
`dafny verify dfyconfig.toml` checks all of it.

## How it is laid out

| file | what it holds |
|---|---|
| `Wrappers.dfy`, `LexOrder.dfy`, `Crdt.dfy` | an option type; the order on node ids; the register merge and the tag order it takes the maximum of |
| `StoreSpec.dfy` | what the store's operations compute, as functions on maps, and their algebra |
| `Store.dfy` | `StateStore` as a class whose methods update the map and the event channel in place |
| `EventLog.dfy` | the store with any number of threads, which emit events after they release the lock |
| `Protocol.dfy`, `Peers.dfy`, `Manager.dfy` | peer table updates as functions; `PeerInfo` and `GossipManager` as classes proved against them |
| `Cluster.dfy`, `StepLaws.dfy` | the cluster as a step machine: stamp, apply, target, build, deliver, register, ack, lose; and what each step does, field by field |
| `Invariants.dfy`, `Guarantees.dfy` | what holds with any clocks, any topology and any loss, delay, overlap and reordering |
| `Watermark.dfy`, `Convergence.dfy` | what the clock hypothesis adds: watermark soundness and, on a full mesh, convergence |
| `Confirmation.dfy` | the documented reading of a watermark, and exactly which steps keep it |
| `Progress.dfy`, `WholeRuns.dfy`, `Draining.dfy` | the measure that bounds progress; uninterrupted exchanges; quiescence and convergence within the measure |
| `Oversized.dfy` | messages above the read bound: what can never be sent, and exactly when an entry can advance |
| `Stranded.dfy`, `AfterWrite.dfy`, `NextWrite.dfy` | writes that no run can spread; writes that always spread; exactly which writes a converged mesh can spread |
| `Failures.dfy` | reachable states that never converge, on a star and with a clock that goes back, and one in which the documented reading is false |
| `Frame.dfy`, `Codec.dfy` | the length-prefixed frames, as functions and as in-place readers and writers; the bytes of the two messages and their sizes |

The classes and the machines share their functions.  `StateStore` methods are proved equal to
the functions of `StoreSpec` that the machines use as atomic critical sections, and
`GossipManager` methods to the functions of `Protocol` and to `Cluster.Cut`.

## Hypotheses

- **Node ids are distinct, and no node loses its store.**  A cluster is a map from node ids to
  nodes, and no step empties a store.  Tag uniqueness, the refinement to learned sets and the
  authorship of entries rest on this and on nothing else: not on clocks, topology, addresses,
  seeds or message sizes (`CompleteConfig` only says that the maps of the configuration are about
  its nodes).
- **No seed string is a node id** (`ValidConfig`).  Seeds are table keys as addresses, inbound
  senders as node ids, so one node may have several entries with watermarks of their own.  All
  statements range over table entries; `route` says which node answers at an address, from
  wherever it is used, and addresses nobody answers at are allowed.  Statements about watermarks
  and tables carry this hypothesis.
- **Each node answers at the address it advertises** (`OwnAddresses`).  A node bound to a wildcard
  address does not.  It is assumed only for two-way discovery and where a write is shown to stay
  hidden, so also in the exact condition for convergence after a write.
- **The message bound.**  `read_message` refuses payloads above 16 MiB and nothing on the sending
  side does (`src/gossip/protocol.rs:45-74`), so a message that is too big can only be lost, however
  often it is sent.  `Cluster.Fits` computes the size of a message from its fields as the codec lays
  them out, and delivery depends on it; `Manager.SendReadIff` proves that this is what becomes of
  the bytes.  This is no assumption.  Acknowledgements, which hold a node id and a count, are taken to fit,
  which they do unless the id alone is about 16 MiB long (`Codec.AckReadIff`).
- **The clock hypothesis H** (`ClockOk`): when the critical section of a `set` runs, its stamp
  is above every timestamp in that node's own store.  It is assumed only in runs of mode
  `GoodClocks`.  Mode `AnyClocks` lets stamps repeat, jump and go back.
- **Full mesh**: every node's table has an entry that reaches every other node.  It is assumed
  only for convergence.

## Where the code and its documentation differ

- `src/state/crdt.rs:12-14` calls the merge commutative.  Two values with one timestamp and one
  node id each keep their own side; `Crdt.MergeCommutesIff` has the exact condition,
  `StoreSpec.OrderIrrelevantIff` the one for whole deltas, and `Guarantees.TagUniqueness` shows
  that no reachable state has such values under one key.
- `src/gossip/peer.rs:16-22` describes the watermark as what the peer is confirmed to have
  received.  Entries that a node takes in at or below a watermark are never pushed on that
  entry.  `Confirmation.ReadingAfterStepIff` says exactly which steps keep the reading, and
  `Failures.ReadingFails` gives a reachable state in which it is false with every clock right.
  For a node's own writes it does hold, under H.
- `README.md:230-233` concludes that all nodes converge.  From a converged full mesh with nothing to
  send they do after the next write if and only if the write meets H and fits into a message, is lost
  to what its own store holds, or is carried to all by targets picked earlier
  (`NextWrite.ConvergesAfterWriteIff`).
  `Convergence.QuiescentConvergence` is the general sufficient condition.  Without a mesh or without H
  there are reachable states from which no run converges (`Failures.StarDoesNotConverge`,
  `Failures.LateStampDoesNotConverge`).
- `src/gossip/protocol.rs:8-12` has the length prefix reject absurdly large messages.  An entry
  whose delta is too big, and stays so whatever its node may take in, with nothing under way that
  would count, never advances (`Oversized.CloggedStays`; a smaller value that replaces a large one can
  end this); a single value that is too big never leaves its author
  (`Oversized.OversizedStaysAtAuthor`).
- `src/gossip/peer.rs:41-42` has the store's highest timestamp recorded,
  `src/gossip/manager.rs:170-179` the highest one sent and not the store's.  They differ only
  in when the store is looked at: `Guarantees.AckRecordsStoreMaximum`.
- `README.md:315-317` has a lagging client fill the gap from a delta.  That is right for
  positive stamps once no emission is outstanding, and only because the client merges:
  the last event of a key may be older than the store (`EventLog.LastEventMayBeStale`).  For a
  delta since a later point, `EventLog.LagRecoveryIff` has the exact condition.

## Model

| member | source | states |
|---|---|---|
| LexOrder.LexIsTotalOrder | src/state/crdt.rs:55 | the node id comparison is a total order on all strings, which prefix order is not |
| LexOrder.LexLeIff | src/state/crdt.rs:55 | which order it is: a proper prefix is smaller, and otherwise the smaller character at the first difference decides |
| Crdt.MergeWinner | src/state/crdt.rs:6-14 | the later timestamp wins; at equal timestamps the lexicographically larger node id, spelled out by characters; and the left value when both agree |
| Crdt.MergeIsMaximum | src/state/crdt.rs:48-62 | the merge is the maximum of its arguments by (timestamp, node id), and keeps the left one exactly when the right one is not strictly above |
| Crdt.MergeCommutesIff | src/state/crdt.rs:12-14 | two values merge alike both ways round exactly when an equal tag means an equal value |
| Crdt.MergeNotCommutative | src/state/crdt.rs:54-60 | values exist on which the merge does not commute |
| Crdt.MergeAssociative | src/state/crdt.rs:12-14 | the merge is associative and idempotent on all values, ties included |
| Crdt.DominationIsStrictOrder | src/state/crdt.rs:66-68 | being dominated means a strictly larger tag, is never mutual and is transitive |
| StoreSpec.MergeEntryEffect | src/state/store.rs:136-141 | a merged write never lowers an entry, ends up dominated, and changes the map exactly when the map did not dominate it |
| StoreSpec.MergeSeqEffect | src/state/store.rs:164-174 | after a delta the map dominates each of its entries, has lost or lowered nothing, and holds only old values and values of the delta |
| StoreSpec.EnumerationMergesAlike | src/state/store.rs:91-99 | a delta listed in any hash map order merges to the same map |
| StoreSpec.SameEntriesSameResult | src/state/store.rs:159-187 | deltas with the same entries in any order and multiplicity merge alike if every tie between different values is beaten by the store or a later entry |
| StoreSpec.OrderIrrelevantIff | src/state/crdt.rs:12-14 | merge order is irrelevant for a delta exactly when every such tie is beaten |
| StoreSpec.ChunkingDoesNotMatter | README.md:483-486 | a delta merged chunk by chunk gives the map of one whole merge |
| StoreSpec.StrongEventualConsistency | src/state/store.rs:159-187 | permuting, duplicating and re-chunking tag-consistent entries never changes the final map |
| StoreSpec.RetryIsNoOp | src/state/store.rs:159-187 | a delta merged again, at once or after others, changes nothing and reports nothing |
| StoreSpec.ReportCountsImprovements | src/state/store.rs:169-173 | a key is reported as often as the loop strictly improved it |
| StoreSpec.ReportIsInOrder | src/state/store.rs:164-174 | the report lists, in the order of the delta, the keys at exactly those positions where the loop changes the map |
| StoreSpec.ReportIsExact | src/state/store.rs:158-187 | for any delta, repeated keys included, a key is reported exactly when its final entry differs from its initial one |
| StoreSpec.MergedCountIsChangedKeys | src/gossip/protocol.rs:34-35 | for a delta with distinct keys the reported count is the number of keys whose entry changed |
| StoreSpec.JoinMapUnchangedIff | src/state/store.rs:164-174 | merging a map changes nothing exactly when all its entries are dominated already |
| StoreSpec.DeltaMaximumIsStoreMaximum | src/gossip/manager.rs:170-179 | a delta is empty exactly when the store has nothing above the watermark; otherwise its largest timestamp is the store's, and above the watermark |
| StoreSpec.DeltaSyncEqualsFullSyncIff | src/state/store.rs:88-99 | sending only what is above a watermark equals sending everything exactly when the receiver dominates the rest |
| StoreSpec.DeltaSinceZeroReproducesIff | src/gossip/peer.rs:21 | a delta since 0 rebuilds the store in an empty one exactly when all stamps are positive |
| Store.StateStore.constructor | src/state/store.rs:60-69 | a new store is empty and has sent nothing |
| Store.StateStore.Snapshot | src/state/store.rs:79-87 | lists every entry once, in some order |
| Store.StateStore.DeltaSince | src/state/store.rs:91-99 | lists, once each and in some order, exactly the entries stamped strictly after the argument |
| Store.StateStore.MaxTimestamp | src/state/store.rs:102-110 | the largest timestamp held, or 0 when empty |
| Store.StateStore.Set | src/state/store.rs:133-150 | folds the write into the map under its key and touches no other, returns and sends the winner, which is the write or the value held before, and lowers nothing |
| Store.StateStore.MergeDelta | src/state/store.rs:159-187 | merges the delta in order, reports in order one mention per change, and sends for the i-th reported key one event, the i-th, with the value the map ends up with |
| Store.SetIsRun | src/state/store.rs:133-150 | an undisturbed `set` is a run of the concurrent event machine |
| Store.MergeIsRun | src/state/store.rs:159-187 | so is an undisturbed `merge_delta`, with the map, log and report the class method has |
| EventLog.EventsNeverAhead | src/state/store.rs:142-148 | under any interleaving, every event sent is at most the store's current value of its key |
| EventLog.EventCompleteness | src/state/store.rs:176-184 | when no thread has an emission outstanding, the merge of all events, in any order, is the store |
| EventLog.MergesToStoreIff | src/state/store.rs:159-187 | merging what is never ahead of a store gives the store exactly when each of its values was held or merged |
| EventLog.LagRecoveryIff | src/rpc/handler.rs:198-200 | a client that lost any events, holds a map, and merges a delta since any point with all events sent after it ends with the store if and only if it had what the delta leaves out and no later event replaces |
| EventLog.LagRecovery | README.md:315-317 | so a delta since 0 recovers a client that holds nothing, for positive stamps, once no emission is outstanding |
| EventLog.LastEventMayBeStale | src/state/store.rs:142-148 | two crossing emissions leave an older value as the last event of a key |
| Protocol.AcksCommute | src/gossip/peer.rs:43-48 | acknowledgements may be recorded in any order; the watermark is the maximum of all |
| Protocol.SkipsIff | src/gossip/manager.rs:160-168 | a target is skipped exactly when it has been exchanged with and nothing in the store is stamped after its watermark |
| Protocol.TableAckedLaw | src/gossip/manager.rs:205-208 | an ack counts one exchange and raises the watermark on its entry, which is made first if it is missing, and changes no other entry |
| Protocol.TableSeenLaw | src/gossip/manager.rs:244-247 | a merged message counts one exchange on its sender's entry, which is made first if it is missing and keeps its watermark otherwise, and changes no other entry |
| Protocol.SeedTableLaw | src/gossip/manager.rs:49-53 | a new table has a fresh entry under each non-empty seed and nothing else |
| Peers.PeerInfo.constructor | src/gossip/peer.rs:30-37 | a new peer has watermark 0 and no exchanges |
| Peers.PeerInfo.RecordExchange | src/gossip/peer.rs:43-48 | always counts one exchange, modulo 2^64, and raises the watermark to the argument unless it was higher |
| Peers.PeerInfo.MarkSeen | src/gossip/peer.rs:57-60 | always counts one exchange, modulo 2^64, and leaves the watermark alone |
| Manager.GossipManager.constructor | src/gossip/manager.rs:47-61 | the table handed in keeps its entries as they are, and each distinct non-empty seed that it lacks gets a new entry under its address |
| Manager.GossipManager.SelectTargets | src/gossip/manager.rs:137-148 | distinct current table entries, as many as the smaller of fanout and table size |
| Manager.GossipManager.BuildSend | src/gossip/manager.rs:158-190 | no send exactly if the target has been exchanged with and nothing in the store is stamped after its watermark; otherwise one to its address with every entry that is, once each, and with their largest timestamp, as the cluster's step cuts it |
| Manager.GossipManager.GossipRound | src/gossip/manager.rs:135-214 | one send per target that is not skipped, in target order, all with the old generation, which advances only if there is a target |
| Manager.SendsAreInOrder | src/gossip/manager.rs:156-213 | the sends of a round are those of exactly the targets that are not skipped, in target order, each with its own entries |
| Manager.GossipManager.HandleAck | src/gossip/manager.rs:193-210 | counts one exchange and raises the watermark to what was sent on the target's entry, creating it if need be, and touches no other |
| Manager.GossipManager.HandleInbound | src/gossip/manager.rs:220-255 | merges, counts one exchange on the sender's entry without moving its watermark, creating it if need be, touches no other, and answers with the number of reported keys |
| Manager.MaxSent | src/gossip/manager.rs:179 | the loop computes the largest timestamp of the delta, or 0 |
| Manager.SendReadIff | src/gossip/protocol.rs:59-79 | the receiver reads the bytes of a send, as itself, exactly when the cluster lets it through for its size, whatever order the delta was listed in |
| Manager.InboundMatchesCluster | src/gossip/manager.rs:235-252 | whatever order a delta is listed in, the handler's merge is the cluster's, and its count is the number of changed keys |
| StepLaws.InitLaw | src/gossip/manager.rs:47-61 | a new cluster has empty stores and just the non-empty seeds in its tables |
| StepLaws.StampLaw | src/state/store.rs:134 | a write is stamped with its node's clock and id before it waits for the lock |
| StepLaws.ApplyLaw | src/state/store.rs:136-141 | a stamped write can always get the lock, and then changes its key in its own node's store and nothing else |
| StepLaws.TargetLaw | src/gossip/manager.rs:137-148 | any table entry can be picked at any time, with its watermark and count as they are then |
| StepLaws.BuildLaw | src/gossip/manager.rs:158-186 | a target is dropped exactly when it has been exchanged with and nothing is new for it; otherwise its message holds everything that is, and the largest timestamp |
| StepLaws.DeliverLaw | src/gossip/manager.rs:225-235 | a message can be delivered exactly when its address is answered and its payload is at most 16 MiB; it is merged key by key at the node that answers and nowhere else |
| StepLaws.RegisterLaw | src/gossip/manager.rs:244-247 | the receiver then always can register the sender, which changes that one entry only |
| StepLaws.AckLaw | src/gossip/manager.rs:193-210 | an acknowledgement can always be recorded, which changes that one entry only |
| StepLaws.LoseLaw | src/gossip/manager.rs:210 | every message and every acknowledgement under way can be lost without any other effect |
| Cluster.StepGrows | src/state/store.rs:133-175 | no step, with any clock, removes a key, lowers an entry, forgets a peer or moves a watermark back |
| Cluster.FitsMonotone | src/gossip/protocol.rs:68-74 | leaving entries out of a message never makes it too big |
| Cluster.RunGrows | src/gossip/peer.rs:43-48 | the same over whole runs, so no store's largest timestamp ever decreases |
| Invariants.WinningTagIsFresh | src/state/crdt.rs:54-60 | a write that beats its author's store has a tag no earlier write of that key has |
| Invariants.StepKeepsInv | src/gossip/manager.rs:135-255 | every step keeps the invariant on stores, tables, tasks under way and acknowledgements |
| Guarantees.TasksNameNodes | src/gossip/manager.rs:156-212 | every task under way names nodes of the cluster, so the guards that steps repeat never stop them |
| Guarantees.TagUniqueness | src/state/store.rs:133-141 | in every reachable state, across all stores and deltas under way, key, timestamp and node id determine the value, whatever the clocks, addresses and seeds are |
| Guarantees.MergeCommutesWhereReachable | src/state/crdt.rs:12-14 | so the merge does commute on any two values of a key that can meet |
| Guarantees.EntriesComeFromTheirAuthors | src/state/store.rs:133-141 | every entry seen anywhere was written by a `set` on the node it names, whose store still dominates it |
| Guarantees.StoreRefinesLearnedSet | src/state/store.rs:133-187 | each store is the per-key maximum of the writes its node has learned, and nodes that learned the same hold the same |
| Guarantees.ApplyIsInsertion | src/state/store.rs:136-141 | a `set` inserts its write into the learned set, or is dropped without trace when the store dominates it |
| Guarantees.DeliverIsUnion | src/gossip/manager.rs:235 | a merged message is set union at the receiver, and no change when all of it was learned before, as on a retry |
| Guarantees.ConfirmedDelivery | src/gossip/manager.rs:193-210 | the receiver's store dominates every entry of every acknowledged delta, in that state and all later ones; no clock or topology hypothesis |
| Guarantees.WatermarkIsLargestAcknowledged | src/gossip/peer.rs:16-22 | a watermark is exactly the largest timestamp over the deltas acknowledged on its entry, or 0, and within the node's own store |
| Guarantees.InFlightWithinSender | src/gossip/manager.rs:170-179 | what a message in flight will record is its delta's maximum and within its sender's store |
| Guarantees.MessagesWereCut | src/gossip/manager.rs:158-186 | every message under way was cut from its sender's store in some earlier state, with a snapshot no newer than that state's entry |
| Guarantees.AckRecordsStoreMaximum | src/gossip/peer.rs:41-47 | an ack moves the watermark to the maximum of its old value and, for a non-empty delta, the largest timestamp of the very store the message was cut from |
| Guarantees.TwoWayDiscovery | src/gossip/manager.rs:160-168 | where nodes answer at the addresses they advertise, once an entry has counted an exchange, the node it reaches has an entry that reaches back |
| Watermark.CutCovers | src/gossip/manager.rs:158-179 | a delta cut from a stale watermark still carries, up to its maximum, all the sender's writes the receiver lacks |
| Watermark.StepKeepsSound | src/gossip/manager.rs:193-210 | stale snapshots, overlapping sends, and reordered or lost acks all keep author-to-peer soundness, as does a write that meets H |
| Watermark.AuthorToPeerSoundness | src/gossip/peer.rs:16-22 | under H, a peer dominates every write of a node stamped at most that node's watermark for it |
| Watermark.GoodClocksAlwaysWin | src/state/store.rs:133-141 | under H a write that gets the lock always takes effect |
| Confirmation.ReadingAfterStepIff | src/gossip/peer.rs:16-22 | a step keeps the documented reading of an entry exactly when it is no write or delivery that puts an entry unknown to the peer at or below the watermark, and no ack that takes the watermark over an entry that was not in its delta and is unknown to the peer |
| Confirmation.NothingEnteredKeepsReading | src/gossip/manager.rs:170-179 | an ack keeps it when nothing at or below what it records has entered the sender's store since the message was cut |
| Confirmation.RepliesKeepReading | src/gossip/manager.rs:235 | a message from the peer itself always keeps it |
| Confirmation.OnlyForeignEntriesEndReading | src/gossip/peer.rs:16-22 | under H only deliveries and acks can end it, and all that the peer then lacks was written by other nodes |
| Convergence.QuiescentConvergence | README.md:230-233 | under H, when each ordered pair of nodes has an entry with nothing to send, all stores are equal, to the per-key maximum of all writes, whatever is in flight |
| Convergence.ConvergedUntilNextWrite | src/state/store.rs:159-187 | converged stores stay as they are until the next write gets the lock, with any clocks |
| Convergence.DrainedMeshConverges | src/gossip/manager.rs:135-214 | the two together for a full mesh with nothing left to send |
| Convergence.CompleteIsConverged | src/state/crdt.rs:12-14 | all stores are equal, to the maximum of all writes, exactly when each dominates every write |
| Progress.QuietStepLowersMeasure | src/gossip/manager.rs:158-210 | between writes no step raises the measure, and every store-changing merge and watermark-advancing ack lowers it |
| Progress.BoundedProgress | src/gossip/manager.rs:158-210 | in any run without writes, the steps that change a store or advance a watermark number at most the measure |
| WholeRuns.ExchangeIff | src/gossip/manager.rs:156-212 | the five steps of an exchange, uninterrupted and under whichever task id, are possible exactly when the entry is not skipped, its address is answered and the message is within the bound, and then they lead to one determined state |
| Draining.ExchangeAdvances | src/gossip/manager.rs:202-208 | every uninterrupted exchange on an entry with something to send moves the watermark up, to the sender's largest timestamp |
| Draining.ExchangesAreBounded | src/gossip/manager.rs:158-210 | such exchanges, on whichever entries and in whatever order, never number more than the measure |
| Draining.DrainWithinMeasure | src/gossip/manager.rs:135-214 | from any state they can go on, within the measure, until none that gets through is possible |
| Draining.ConvergedOrBlocked | README.md:230-233 | under H on a full mesh, every sequence of them that cannot go on is within the measure and ends converged, or with a message too big to be read |
| Draining.ConvergenceWithinMeasure | README.md:230-233 | so it ends converged when all messages fit |
| Oversized.OversizedStaysAtAuthor | src/gossip/protocol.rs:68-74 | a write that does not fit into a message on its own is never in any store but its author's, with any clocks and topology |
| Oversized.CloggedStays | src/gossip/protocol.rs:68-74 | an entry that has nothing to send or too much, whatever its node may still take in, with nothing under way that would count, never advances in any run without writes |
| Oversized.EntryAdvancesIff | src/gossip/manager.rs:158-210 | when its node has every write, some run without writes advances an entry exactly when its delta is not empty and fits, or a message under way will still get through and count |
| Stranded.NeverPushed | src/gossip/manager.rs:158 | a write that all entries leading to a node are past never reaches that node, nor anything that makes up for it, in any run without writes |
| Stranded.HiddenNeverConverges | README.md:230-233 | so no run without writes from such a state ever converges |
| Stranded.DrainedButNotConverged | src/gossip/manager.rs:158-168 | in particular no sequence of exchanges that goes on until nothing that gets through is left |
| AfterWrite.LateWriteIsHidden | src/state/store.rs:134 | a new write at or below a point that all entries leading to some other nodes are past is hidden from these, unless a waiting target can carry it there |
| AfterWrite.GoodWriteSpreads | src/gossip/manager.rs:158-210 | a write that meets H and fits spreads: whichever exchanges follow, when none that gets through is left, the cluster has converged |
| NextWrite.RelayAll | src/gossip/manager.rs:137-168 | if no group of nodes around those that hold a write is without a usable waiting target that leads out of it, a run of these targets alone brings the write to all |
| NextWrite.LateWriteNeverConverges | src/gossip/manager.rs:137-168 | a write that does not meet H, and that no usable waiting target carries out of some group around its node, never gets out of it |
| NextWrite.ConvergesAfterWriteIff | README.md:230-233 | from a converged full mesh with nothing to send, with any targets, messages and other writes under way, some run without further writes converges after the next write if and only if it loses to its own store, or its stamp is above that store's maximum and a message with it alone fits, or waiting targets carry it from its node to all |
| Failures.StarDoesNotConverge | README.md:230-233 | on every star of a hub and two leaves, with every clock right, a leaf's write stamped at or below one the hub has pushed is hidden from the other leaf, and no run without writes converges |
| Failures.LateStampDoesNotConverge | src/state/store.rs:134 | on every full mesh, a write stamped no later than one already spread is hidden from every other node, and no run without writes converges |
| Failures.ReadingFails | src/gossip/peer.rs:16-22 | with every clock right, a reachable state in which the documented reading of a watermark is false |
| Frame.BigEndianRoundTrip | src/gossip/protocol.rs:51-66 | length encoding and decoding are inverse both ways on all 32-bit lengths and all 4 bytes |
| Frame.FrameLayout | src/gossip/protocol.rs:51-53 | a frame is the payload after four bytes that give its length, the high byte first |
| Frame.FrameRoundTripIff | src/gossip/protocol.rs:42-79 | a written payload is read back, leaving exactly what followed it, if and only if it is at most 16777216 bytes long |
| Frame.OversizedRejectedFromPrefix | src/gossip/protocol.rs:66-74 | a payload of more than 16777216 and less than 2^32 bytes is refused from its prefix, whatever follows |
| Frame.ParsedWasFramed | src/gossip/protocol.rs:59-79 | whatever is read as a payload is within the bound and was framed as that payload |
| Frame.TruncationDetected | src/gossip/protocol.rs:65-77 | no proper prefix of a frame reads as a message |
| Frame.StreamRoundTrip | src/gossip/protocol.rs:45-79 | a concatenation of frames reads back as the same payloads, to the last |
| Frame.OversizedEndsStream | src/gossip/protocol.rs:68-74 | an oversized frame ends the stream after all payloads before it |
| Frame.WriteMessage | src/gossip/protocol.rs:45-56 | appends the big-endian length and the payload of the encoded message, or nothing when encoding fails |
| Frame.ReadMessage | src/gossip/protocol.rs:59-79 | the in-place reader fails on a short stream, refuses lengths above 16777216 with the length, leaves what follows the payload, and decodes it or says that it cannot |
| Frame.MessageReadIff | src/gossip/protocol.rs:45-79 | for any self-delimiting codec, a written message is read, as anything at all, if and only if its payload is within the bound, and then as itself |
| Frame.MessageRoundTrip | src/gossip/protocol.rs:45-79 | for any codec with a left inverse, a written message within the bound is read back, and a larger one below 2^32 bytes is refused with its size |
| Codec.Utf8RoundTrip | src/gossip/protocol.rs:13-36 | every string, of characters of one to four bytes, is read back from its UTF-8 bytes |
| Codec.Utf8WasEncoded | src/gossip/protocol.rs:13-36 | whatever bytes are read as a string are the UTF-8 bytes of that string, so no overlong form is taken |
| Codec.NumberLayout | src/gossip/protocol.rs:13-36 | a number is eight bytes, the low one first |
| Codec.GossipRoundTrip | src/gossip/protocol.rs:13-27 | every gossip message is read back from its bytes, leaving exactly what followed |
| Codec.GossipWasEncoded | src/gossip/protocol.rs:13-27 | whatever bytes are read as a gossip message are the bytes of that message |
| Codec.GossipOnTheWire | src/gossip/protocol.rs:13-27 | the bytes of one message, field by field |
| Codec.AckRoundTrip | src/gossip/protocol.rs:29-36 | and every acknowledgement |
| Codec.AckWasEncoded | src/gossip/protocol.rs:29-36 | whatever bytes are read as an acknowledgement are the bytes of that acknowledgement |
| Codec.AckOnTheWire | src/gossip/protocol.rs:29-36 | the bytes of one acknowledgement, field by field |
| Codec.GossipIsSelfDelimiting | src/gossip/protocol.rs:45-79 | nothing is read from a gossip message that is cut short |
| Codec.ListedSize | src/gossip/protocol.rs:20-23 | however a delta is listed, its bytes number the sum of its entries' sizes |
| Codec.GossipReadIff | src/gossip/protocol.rs:66-78 | a written gossip message is read if and only if the size computed from its fields is within the bound, and then as itself |
| Codec.AckReadIff | src/gossip/protocol.rs:66-78 | the same for an acknowledgement, whose size is that of a node id and a count |

## Left out

- TCP listeners, connects, timeouts, task spawning, cancellation and logging: only their effects remain, as loss, delay and interleaving.
- The wall clock: stamps are chosen by the environment, as arbitrary naturals; H is a hypothesis where it is needed.
- `last_seen` and `is_stale`: no gossip decision reads them.
- The probabilities of the random shuffle: targets are any choice of distinct entries, and `README.md:332-348` is not about what the code guarantees.
- JSON-RPC parsing and dispatch, and the per-connection select loop (`src/rpc`).
- tokio's broadcast ring, DashMap shards and parking_lot internals: an append-only log, an atomic map and an atomic critical section stand for them; the deadlock claim depends on code that is not part of this model.
- `src/state/snapshot.rs`, and the codec beyond the layout of the two messages: its error cases are one failure to decode.
- Node restart with a lost store, and duplicate node ids: both break tag uniqueness.
- Integer width of timestamps: they are only compared, so naturals stand for `u64` (`Codec.dfy` asks for 64 bits); the exchange and generation counters wrap at 2^64, as in a release build.
- I/O errors other than the end of the stream, and the writer's flush.
- Convergence on other topologies: false in general, as `Failures.dfy` shows; the exact condition for the next write is given on a full mesh that has converged.
- Addresses that lead to different nodes from different places, as a wildcard address does: `route` is one map for all.
- The target list of a round as one atomic copy in `Cluster.dfy`: the cluster targets one entry per step, at any time and any number of times, which allows all the code's rounds and more; the fanout is in `Manager.dfy`.
- Interleaving inside `GossipManager` and `StateStore` methods: they run undisturbed; `Cluster.dfy` and `EventLog.dfy` have the interleavings.
- `len`, `is_empty` and `node_id` of the store: the replication does not call the first two, and the third reads a constant.
