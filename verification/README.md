# Verified model of the warehouse

A warehouse node keeps balances per owner and SKU. Requests change them through a
replicated log, a local write-ahead log, sharded in-memory state and a deduplication index
that moves from memory to disk; a history with secondary indexes follows the same log. The
repository's promise is that every operation changes a balance exactly once despite
concurrent requests, retries, crashes, replay and a deposed writer. This project models the
parts that promise rests on and proves it.

## How the modules fit together

| module | models |
|---|---|
| Model | operations, validation, UTF-8, sums of deltas, balances |
| ReplicatedLog | the log of fences and operations and its epoch fold |
| Protocol, ProtocolProof | the dedup protocol as a step system: each lock section, LSM commit, Bloom update and hand-over is one step, requests interleave freely |
| Store | the same lock sections as loops over the map, proved equal to the protocol's steps |
| Node, NodeProof | a node around the protocol: WAL, snapshot, checkpoint, balances, published view, log tail, crash at any step and start |
| Retries, Livelock | how often preflights make each other start over: a bound for requests in a common order, and the pair that never ends |
| CompactionRuns | start-up compaction over whole runs: what it forgets and exactly when |
| Progress | what the disk worker, the Bloom rebuild and the log tail achieve once nothing holds them up |
| Lease | many nodes, the lease slot with its time to live, the log, a global clock, and the two checks around replication |
| Replay | reading log records, the checkpoint, catch_up and the history tail as loops that may fail anywhere |
| Keyspaces, History | ordered keyspaces, the history table, its indexes, reads and paging |
| Bits, DiskIndex | the layered disk index and its Bloom filter over a byte array |
| Binary, Wal, Snapshot | the byte formats, WAL framing and recovery, the snapshot file |
| Shards | balance shards, request replies, publication, start and dump |
| Warehouse | where one component's assumption is another's theorem |

Two kinds of statements carry the weight. Protocol, Node, Lease and the
lives of the WAL file are step systems with an inductive invariant; results about them hold
in every reachable state. Loops and in-place updates of the program are methods on classes,
arrays and sequences, proved against functions or relations that do not mention the loop,
about which the lemmas then speak.

SHA-256 of ids and of contents is a free constructor (equal digests mean equal values;
Binary.FingerprintInputIsInjective covers the framing), CRC-32, the snapshot digest, SipHash
and the placement of keys are arbitrary functions, so results hold for any of them. Time is
a global clock in milliseconds. Which calls into disk and network succeed is a parameter.

Hypotheses that the theorems name:

- ids are consistent: accepted log records never carry one id with two contents (guards of
  Node.Enabled, precondition of HistoryReadsFailClosed);
- start-up compaction happens as one step with nothing in flight and every committed id on
  disk (Node.Drained); CompactionIsSafeIff and TornCompactionIsSafeIff say exactly what is
  counted twice otherwise, and PersistedIffForgotten how a node could check;
- a lease pass sets valid_until at most 3.5 s after the server stored its update and never
  ends between that update and its fence; LeaseIsSafeIff shows both are needed;
- an acknowledged WAL batch survives if nothing was appended behind a torn frame since the
  file was new or last reset (OrderlySince); AcknowledgedIsFoundIff and TornThenAcknowledged show that
  the writer, which does not look, can lose it;
- a successful sync of the WAL also makes the bytes of earlier failed syncs durable
  (Wal.After);
- requests come to their ids in one common order wherever Retries bounds their steps;
  CrossedRequestsRetryForEverIff shows a pair that does not.

Where the repository's documents and its code differ, the code is modelled:
docs/ARCHITECTURE.md:33-36 still says that ids are unique per shard only and that the dedup
index lives in memory and is rebuilt by full replay, while the code deduplicates globally
and keeps the index on disk; docs/ARCHITECTURE.md:69-71 promises that a node without the
lease never changes local state, which holds exactly under the conditions of LeaseIsSafeIff.

## Model

| member | source | states |
|---|---|---|
| ProtocolProof.StepKeepsInv | src/state.rs:156-299 | the protocol invariant survives every step of every interleaving: lock sections of preflight, rollback and finish, the hand-over to publisher and disk worker, the worker's three steps, the Bloom rebuild, and a restart |
| ProtocolProof.RunsAreGood | src/state.rs:135-154 | every state of every run from an empty node satisfies the protocol invariant |
| ProtocolProof.NoCommittedIdIsMissed | src/state.rs:190-224 | while a request holds a shard lock and decides on the answer of the disk, each committed id of that shard is visible with its fingerprint, in memory or in that answer, in every run |
| ProtocolProof.MissedNothing | src/state.rs:190-224 | the same at one state, from the invariant |
| ProtocolProof.NothingHidden | src/dedup_disk.rs:311-362 | a committed key that memory does not show is let through by the Bloom filter and found on disk |
| ProtocolProof.SuccessfulPreflight | src/state.rs:156-241 | a preflight that succeeded has marked exactly the first occurrences of ids not committed, holds every one of them, and every other first occurrence is committed with exactly its content |
| ProtocolProof.SingleReservation | src/state.rs:201-222 | two live reservations of one id are the same reservation |
| ProtocolProof.NothingLeftBehind | src/state.rs:230-254 | a request that waits, was refused or has ended owns no pending entry in any shard: all-or-nothing rollback, and no hold-and-wait |
| ProtocolProof.OthersAreSpared | src/state.rs:243-283 | whatever step a request takes, the reservations other requests hold and all commitments that memory shows stay as they were |
| ProtocolProof.NoLostWakeUp | src/state.rs:201-207 | a waiting request can wake, or what it waits for is an attempt of another request that has still to notify |
| ProtocolProof.UnblockedMoves | src/state.rs:178-241 | a request that does not wait can take a step of its own when the locks are free or it holds one |
| ProtocolProof.SomebodyMoves | src/state.rs:178-299 | no deadlock: while some request is unfinished, some request can take a step |
| Retries.RetriesAreBounded | src/state.rs:178-241 | if every request comes to its ids in one common order with `levels` ranks, n requests together start over at most n * ((n + 1)^levels - 1) times, in every run and under every schedule |
| Retries.EveryRequestEnds | src/state.rs:178-299 | under that condition no schedule goes on for ever: the steps of all requests are bounded, and below the bound an unfinished request means that some request can still move |
| Retries.AscendingRequestsAreOrdered | src/state.rs:185-193 | the condition holds for requests whose ids ascend in any order on ids, so a caller can sort |
| Retries.DecideStopsAt | src/state.rs:193-225 | the loop under a shard lock stops at the reservation it meets and marks nothing from there on |
| Livelock.ChangePlaces | src/state.rs:230-241 | of two requests for the same two ids in opposite order, one that backs out and one that starts over change places when each does what it can |
| Livelock.CrossedRequestsRetryForEverIff | src/state.rs:178-241 | once a third request for one of the ids has failed, two such requests can both retry more than any number of times, without an answer, if and only if the ids fall in one dedup shard |
| ProtocolProof.StoreKeeps | src/state.rs:472-480 | the LSM commit of a batch keeps every committed key visible |
| ProtocolProof.AddKeeps | src/dedup_disk.rs:373-374 | adding a batch to the Bloom filter keeps every committed key visible |
| ProtocolProof.ForgetVisibility | src/state.rs:481-486 | removing an entry from memory is safe once the key is on disk and in the Bloom filter |
| ProtocolProof.VisitKeeps | src/dedup_disk.rs:421-448 | a step of the background Bloom rebuild hides nothing, whatever is written meanwhile |
| ProtocolProof.MergeKeeps | src/dedup_disk.rs:451-456 | OR-ing the finished image into the live filter and trusting it hides no committed key |
| ProtocolProof.FinishVisibility | src/state.rs:267-283 | committing or dropping one shard's reservations keeps memory, disk and history of commitments consistent |
| ProtocolProof.PairsOfMarks | src/state.rs:270-283 | a committed request queues for the disk exactly the ids of the operations it marked, with their owner, SKU, delta and version |
| ProtocolProof.QuietSteps | src/state.rs:156-299 | whatever the protocol does on its own, work already applied stays accounted for: held by its request or committed with its content |
| Protocol.DecideFrame | src/state.rs:193-225 | the loop under a shard lock leaves every existing entry and every foreign mark alone |
| Protocol.DecideReserves | src/state.rs:209-222 | it marks exactly the entries it creates: absent from memory and disk before, pending under this reservation after |
| Protocol.DecideVerdict | src/state.rs:195-214 | without objection every unmarked index agrees with what is committed; a wait is for a reservation of the same content |
| Protocol.DecideConflicts | src/state.rs:196-213 | a conflict is raised only over an id known with another content |
| Store.FirstOccurrences | src/state.rs:162-176 | accepts exactly the requests in which operations of one id have the same owner, SKU, delta and version, and returns the ascending indices of first occurrences |
| Store.DedupMap.ReserveShard | src/state.rs:193-225 | the loop with its early exits computes the protocol's decision: memory, marks and verdict |
| Store.DedupMap.ReleaseShard | src/state.rs:244-252 | one shard of the rollback removes exactly the listed keys still held by this reservation |
| Store.DedupMap.FinishShard | src/state.rs:267-283 | one shard of finish turns reservations into commitments and queues exactly those for the disk, or drops them |
| Store.DedupMap.ForgetPersisted | src/state.rs:481-486 | the worker drops exactly the entries still committed with the content it wrote |
| Store.ForgettingOneByOne | src/state.rs:481-486 | dropping a batch is the protocol's forget step repeated entry by entry |
| Store.LoopsAreProtocolSteps | src/state.rs:243-283 | with the keys a request marked, these loops are the protocol's rollback and finish steps |
| Store.DedupMap.Rollback | src/state.rs:243-255 | over all 64 shards the rollback removes exactly this reservation's keys |
| Store.DedupMap.Attempt | src/state.rs:179-240 | an attempt that runs with nobody in between reserves the first operation of every new id and finds all others committed with exactly their owner, SKU, delta and version, or leaves memory exactly as it was, with a differing content or a foreign reservation as the reason |
| NodeProof.StepKeepsInv | src/main.rs:632-731 | the node invariant (counted operations are accepted, distinct, durable; balances, snapshot and published view are their sums; checkpoints are honest) survives every step: requests, replication, WAL, apply, publish, tail, compaction, crash and start at any point |
| NodeProof.BornIsGood | src/state.rs:87-154 | a first start on an empty disk satisfies it for any existing log with consistent ids |
| NodeProof.RunsAreGood | src/main.rs:96-247 | so does every state of every run |
| NodeProof.ExactlyOnce | src/main.rs:458-498 | in any run with crashes, a node whose tail has reached the end of the log shows for every owner and SKU the sum of the deltas of the distinct accepted operations that name this owner and this SKU |
| NodeProof.NothingCountedTwice | src/state.rs:515-521 | at every moment the balance of an owner and SKU is the sum of the deltas of a set of distinct accepted operations of that owner and SKU |
| NodeProof.CaughtUp | src/main.rs:458-498 | the exactly-once equation at one state, from the invariant |
| NodeProof.JournalNeverShrinks | src/state.rs:105-121 | what was counted once stays counted, across crashes |
| NodeProof.AcknowledgedIsPermanent | src/main.rs:656-661 | the operations of an acknowledged request stay counted for ever |
| NodeProof.PublicationConserves | src/state.rs:284-293 | per owner and SKU, the published balance is the sum over distinct shown operations, and the shard balance is that plus what is applied and not yet shown, which belongs to requests on their way to publication |
| NodeProof.PublicationIsAtomic | src/state.rs:429-454 | readers see every operation a request has marked as new, or none of them |
| NodeProof.CompactionRemembersIff | src/main.rs:187-191 | a crash after start-up compaction forgets no counted id if and only if every committed id had reached the disk index |
| CompactionRuns.CompactionIsSafeIff | src/main.rs:187-191 | no run of the node that comes back counts an id twice if and only if every committed id had reached the disk index |
| CompactionRuns.LostIdIsCountedAgain | src/main.rs:187-191 | from any good state, a counted id that is not on disk passes preflight again after compaction and crash, its record is accepted, and the balance moves a second time |
| CompactionRuns.RunsAreTidy | src/state.rs:472-486 | in every run, memory shows a committed id only until it is on disk and the worker has dropped it |
| CompactionRuns.PersistedIffForgotten | src/state.rs:371-380 | with the persist queue empty and the worker idle, every committed id is on disk if and only if memory shows no committed entry, which is what the store's counters report |
| CompactionRuns.DrainingCompactionCountsTwice | src/main.rs:166-191 | a run from an empty node: one accepted operation, compaction while its id is still queued, a crash and a retry make the balance twice the sum over distinct ids |
| NodeProof.TornCompactionRecoversIff | src/main.rs:190-191 | a crash between saving the snapshot and resetting the WAL restores the balances if and only if the WAL nets to zero at every position |
| CompactionRuns.TornCompactionIsSafeIff | src/main.rs:190-191 | such a crash counts nothing twice if and only if no record of the WAL has an id that was already committed |
| CompactionRuns.TornCompactionCountsTwice | src/main.rs:190-191 | the run with one operation that ends in such a crash and counts it twice |
| Progress.QueueReachesDisk | src/state.rs:456-491 | from any good state the worker can write the whole queue, and then every queued id is on disk with its content, in the Bloom filter and out of memory, and everything else is as it was |
| Progress.RefusedBatchStaysInMemory | src/state.rs:488-489 | a batch the disk refuses is given up with nothing stored and its ids still in memory |
| Progress.RebuildEnds | src/dedup_disk.rs:425-456 | the Bloom rebuild can finish from any state in which what is left to visit is stored, which LeftIsStored keeps; the filter is then trusted and has gained exactly the bits of its image and of all stored keys |
| Progress.ForeignRecordIsCounted | src/main.rs:458-498 | an operation another node appends under the current epoch goes through preflight, WAL, balance, publication and the persist queue, and the tail is then behind its record |
| Progress.IdenticalRecordServes | src/cluster.rs:111-131 | a retry whose record is in the log already is counted by that record and leaves the log as it is |
| Progress.UnsureComesBack | src/main.rs:715-730 | a WAL append that reported an error but reached the file refuses the request now and counts the operation after a crash |
| Model.TotalIsSum | src/state.rs:515-521 | folding operations into a balance adds, for every owner and SKU, the deltas of exactly the operations that name them |
| Model.FirstPerIdMembers | src/state.rs:105-121 | of records with repeated ids exactly the first of each id counts |
| ReplicatedLog.FoldResumes | src/main.rs:462-487 | the fold of epochs and accepted operations can be cut anywhere and resumed |
| ReplicatedLog.EpochNeverDecreases | src/main.rs:471-476 | the active epoch never decreases along a log |
| ReplicatedLog.FenceDeposesOlderEpochs | src/main.rs:477-485 | behind a fence no record of a smaller epoch is accepted, whoever wrote it |
| ReplicatedLog.AcceptedIffFenced | src/main.rs:471-485 | a record is accepted exactly if its epoch was fenced before it and no higher one was |
| ReplicatedLog.AcceptedUnfencedIff | src/main.rs:465-485 | of records under epoch zero exactly those before the first fence of a larger epoch are accepted |
| ReplicatedLog.AcceptanceIsStable | src/main.rs:477-485 | later records do not change the verdict on an earlier one |
| ReplicatedLog.AcceptedRecordCounts | src/main.rs:477-480 | an accepted record contributes all its operations |
| ReplicatedLog.AcceptedMembers | src/main.rs:471-485 | an operation counts as accepted exactly if some accepted record carries it |
| Lease.StepKeepsInv | src/cluster.rs:227-264 | the lease invariant survives every step of every node, the server, the log and the clock |
| Lease.AtMostOneWriter | src/main.rs:733-742 | at no moment do two nodes both own a lease valid for more than another 2.5 s, if setting valid_until takes at most 3.5 s |
| Lease.WriterHoldsSlot | src/cluster.rs:279-282 | a node that passes the check is the one named in the slot, with the newest epoch |
| Lease.PassWithoutRenewal | src/cluster.rs:258-264 | a pass that renews nothing leaves the node its epoch until it runs out; one that has lost the slot for certain fails the second check of its requests at once |
| Lease.LeaseImpliesAcceptance | src/main.rs:702-713 | whatever a request applies after its second check sits in a log record that every replica accepts |
| Lease.SlowOwnersAreUnsafe | src/cluster.rs:254-257 | any delay above 3.5 s from the server's update to setting valid_until admits a run in which a node applies a validated operation that every replica rejects |
| Lease.LostFencesAreUnsafe | src/cluster.rs:243-246 | a pass that ends between the update and its fence admits such a run at any speed |
| Lease.LeaseIsSafeIff | src/cluster.rs:227-282 | all runs are safe if and only if the delay is at most 3.5 s and no pass loses its fence; some run applies a rejected operation exactly otherwise |
| Lease.WriterLease.Settle | src/cluster.rs:253-261 | after a renewal the writer check gives out the new epoch for exactly 1.5 s; a pass without one never prolongs what the last one gave, and ends it at once when the lease is lost for certain |
| Replay.ReadRecord | src/cluster.rs:150-186 | a record is read as itself if its bytes, or the older JSON in them, decode and all operations validate; otherwise as the inert poison record, once its report is acknowledged, and not before |
| Replay.WhatIsRead | src/cluster.rs:150-186 | bytes of the current format are read as the record they encode, other bytes as what the older format reads, and either as the poison record if it does not validate |
| Replay.ReadLogsAreValid | src/cluster.rs:161-167 | whatever bytes are in the log, consumers see validated operations only |
| Model.ValidationLimits | src/model.rs:13-28 | a valid operation stays valid under another delta exactly if that is not zero and at most 1,000,000,000 either way, and under another version exactly if that is 1 |
| Model.OneCharacterNames | src/model.rs:31-39 | a name of one ASCII character is valid exactly if the character prints |
| Model.NameLengths | src/model.rs:31-34 | a name of letters is valid exactly if it has 1 to 128 bytes |
| Replay.LogBalancesStayInRange | src/model.rs:18-23 | with at most 9,223,372,036 accepted operations per position no balance leaves i64 |
| Model.BalanceLimitIsTight | src/model.rs:18-23 | that number is the largest such bound |
| Replay.OpenCheckpoint | src/checkpoint.rs:17-25 | opening restores sequence and epoch from the 20 bytes of the current format or what the older formats read, zero without a file, and refuses what no format reads |
| Replay.SavedPairMeans | src/checkpoint.rs:17-25 | 20 bytes behind the magic are read as sequence and epoch at their offsets, everything else by the older formats |
| Replay.CheckpointReopens | src/checkpoint.rs:17-37 | what was saved is what is opened, whatever the older formats are |
| Replay.Checkpoint.Advance | src/checkpoint.rs:30-41 | a larger sequence is written as 20 bytes at their offsets and becomes the pair with its epoch; a sequence that is not larger and a failed write change neither file nor memory |
| Replay.Checkpoint.Reset | src/checkpoint.rs:43-52 | the pair and the file go to zero, or a failed write leaves both as they were |
| Replay.TakeRecord | src/main.rs:470-486 | a fence moves the epoch to the larger one; a record of the current epoch is restored; of any other record exactly those that are not the poison record are reported; it fails exactly if the store or the report it needs fails, and then changes nothing |
| Replay.CatchUp | src/main.rs:458-498 | from any saved pair and under any failures the pass restores exactly the accepted operations and reports exactly the refused records of the part it read, saves only pairs that are folds of the log, and stays at most 64 records behind; it stops exactly at the first record that cannot be read, restored or reported or at a position that cannot be saved |
| Replay.SavedEpochsAreFolds | src/main.rs:487-495 | a saved epoch equals the epoch fold of the log at the saved sequence |
| Replay.NothingIsDropped | src/main.rs:477-485 | every record of operations is accepted in full, or is the poison record, or is among those reported, for every epoch up to the largest |
| Replay.HistoryPass | src/main.rs:387-445 | batches of 16 under any failures leave rows and progress that are the fold of one prefix of the log, and the published position at the progress whenever anything was written; it ends before the log does only because a record of the next batch could not be read or the batch not written |
| Replay.RestartsChangeNothing | src/main.rs:460-487 | any number of restarts from any positions already passed hand on the operations of one fold, up to ids already seen |
| Replay.CatchUpIsPass | src/main.rs:458-498 | what catch_up promises is one more resumed pass behind those made before |
| Replay.LiveTail | src/main.rs:368-385 | repeated catch_up over a growing log, each failing anywhere, keeps what was restored the outcome of resumed passes and the checkpoint a fold of the log; an undisturbed last pass has dealt with the whole log |
| Replay.HistoryTail | src/main.rs:387-445 | repeated history passes over a growing log, each broken off anywhere, keep rows and progress the fold of one prefix and the published position in step; an undisturbed last pass brings all three to the end |
| Replay.TwoConsumersAgree | src/main.rs:368-498 | what these two loops keep makes them agree at the end of the log: ids and contents restored are exactly the rows of the history |
| Replay.HistoryKeepsFollowing | src/main.rs:390-431 | a history pass, complete or broken off, keeps the table equal to the fold at its progress |
| Replay.HistoryReadsFailClosed | src/main.rs:447-456 | a history read that passes the check finds every operation accepted up to the checkpoint, with its content, and nothing that was not accepted |
| Replay.HistoryAnswersOnceThrough | src/main.rs:423-456 | once both loops have reached the end of the log the history read check passes and every accepted operation is found |
| History.IndexKeysDiffer | src/dedup_disk.rs:507-511 | index keys of NUL-free identifiers determine their parts |
| History.RangeIsExact | src/dedup_disk.rs:177-182 | the byte range of a value holds exactly its own entries, for any queried value |
| Model.Utf8StaysBelowFF | src/dedup_disk.rs:178-180 | the closing byte 0xFF of a range never occurs in UTF-8 |
| Model.ScalarsMakeText | src/binary.rs:36 | text stays text with the bytes of any Unicode scalar value in front |
| Model.TextStartsWithScalar | src/binary.rs:36 | and whatever is not empty starts with those of one |
| Model.ValidIdentifiersAreNulFree | src/model.rs:31-39 | validated identifiers are non-empty and contain no NUL |
| Keyspaces.LessIsLexicographic | src/dedup_disk.rs:178-185 | keys are ordered by the first byte in which they differ, a proper prefix first |
| Keyspaces.PrefixRange | src/dedup_disk.rs:178-182 | in byte order the half-open range from a prefix to the prefix with 0xFF holds exactly the extensions that do not continue with 0xFF |
| History.HistoryStore.Materialize | src/dedup_disk.rs:283-297 | one atomic batch or nothing: the last operation of every id in the batch is the row of that id, other rows stay, the progress is that of the last entry, and the indexes stay exact if ids are consistent |
| History.IndexStaysExactIff | src/dedup_disk.rs:286-291 | a write keeps an index exact if and only if its id is new or keeps the indexed field |
| History.LastMentionWins | src/dedup_disk.rs:130-167 | of the operations of one id in a batch the last one is stored |
| History.MaterializingAgain | src/dedup_disk.rs:283-297 | writing a batch again changes nothing |
| History.MaterializedHolds | src/dedup_disk.rs:286-291 | under consistent ids the table holds exactly what was there and what was written |
| History.HistoryStore.ByIndex | src/dedup_disk.rs:177-207 | the rows with this owner, or this SKU, behind the cursor, in ascending id order, and all of them unless the page is full, then the smallest; from the older tables as long as the history is empty |
| History.HistoryStore.Scan | src/dedup_disk.rs:235-245 | the same over all rows |
| History.HistoryStore.GetOperations | src/dedup_disk.rs:218-233 | exactly the ids that have a row are answered, in the order asked for, by the row of the history or else by the older one |
| History.FoundInOrder | src/dedup_disk.rs:218-233 | the rows found belong to exactly the ids that have one, in the order asked for |
| History.KnownIs | src/dedup_disk.rs:222-230 | a row of the history hides the older row of its id, and without one the older row is found |
| History.ShortReadIff | src/main.rs:548-554 | the answer is short exactly if a requested id is missing |
| History.ListingIsUnique | src/dedup_disk.rs:177-190 | the ascending listing of the matching rows is unique |
| History.PagingIsComplete | src/main.rs:564-567 | for any limit, following next_cursor ends after matches / limit + 1 pages and lists exactly the matching rows, each once, in strictly ascending order |
| DiskIndex.MemoryShardIsLsmShard | src/state.rs:23-25 | the memory shard of a key is its LSM shard |
| DiskIndex.ShardsAreInRange | src/dedup_disk.rs:472-478 | masking the first byte is its remainder, so shard numbers are in range |
| DiskIndex.PositionsAreWords | src/dedup_disk.rs:520-524 | the four positions of a key are its little-endian words modulo the number of bits |
| DiskIndex.BitIsShift | src/dedup_disk.rs:526-532 | a position is the bit `at % 8` of byte `at / 8` |
| DiskIndex.BloomAdd | src/dedup_disk.rs:530-532 | sets the four bits of the key in the byte array and no other |
| DiskIndex.AddedAnswersYes | src/dedup_disk.rs:526-532 | an added key answers yes, and no key stops answering yes |
| DiskIndex.OrMerge | src/dedup_disk.rs:453-454 | the merge is the union of both bit sets |
| DiskIndex.MergedAnswersYes | src/dedup_disk.rs:453-455 | every key of either filter answers yes afterwards |
| DiskIndex.LayersAreOneMap | src/dedup_disk.rs:299-309 | reading one shard per layer in priority order is reading the union of all layers as one map |
| DiskIndex.InsertedHolds | src/dedup_disk.rs:364-376 | after a batch the last entry of a key is what the index holds |
| DiskIndex.InsertedSpares | src/dedup_disk.rs:364-376 | and keys without an entry keep what they had |
| DiskIndex.ShardedInsertIsInsert | src/dedup_disk.rs:364-372 | inserting through the shards keeps the placement and is inserting into that map |
| DiskIndex.DiskDedup.constructor | src/dedup_disk.rs:121-144 | an opened index holds the layers it found, with an empty filter that is trusted only on a first start |
| DiskIndex.DiskDedup.Get | src/dedup_disk.rs:299-309 | a single lookup is a lookup in the plain map |
| DiskIndex.DiskDedup.GetMany | src/dedup_disk.rs:311-362 | each answer of a batch lookup is the lookup of its key in the plain map |
| DiskIndex.DiskDedup.InsertMany | src/dedup_disk.rs:364-376 | the map gains the entries, the last of a key counting, every other key keeps its value, and the filter gains exactly the bits of the inserted keys |
| DiskIndex.DiskDedup.RebuildImage | src/dedup_disk.rs:425-450 | the image holds exactly the bits of the stored keys |
| DiskIndex.DiskDedup.MergeImage | src/dedup_disk.rs:451-456 | the filter gains exactly the bits of the image, covers every key and may be trusted from then on |
| Wal.EncodingsAreSmall | src/wal.rs:107-114 | no encoded operation exceeds 196,631 bytes, well below the 1 MiB record limit and what a u32 counts |
| Wal.Recover | src/wal.rs:138-162 | returns the operations of the whole frames, binary or older JSON, and their byte length if what follows is unfinished, and refuses the file only over a finished frame that is damaged |
| Wal.RecoveryIsUnique | src/wal.rs:138-162 | the bytes determine list, length and verdict, so no file is both recoverable and damaged |
| Wal.TornTailRecovers | src/wal.rs:138-162 | for every list of operations and every cut of its frames, recovery finds exactly the operations whose whole frame survived, and their length |
| Wal.Open | src/wal.rs:27-44 | opening cuts the file to the frames of the recovered operations, or refuses it as recovery does |
| Wal.PayloadFrames | src/wal.rs:54-68 | the payloads of append_many are framed as the frames of its operations |
| Wal.Writer.Commit | src/wal.rs:77-135 | one round takes a prefix of the queue and writes for it the length, CRC and payload of every record in order, byte by byte; after success and after a failed sync the file is the old one and all these bytes, after a failure the old one and those that fitted; the whole batch is answered alike, collecting stops at max_batch records or the deadline, and a reset that arrives meanwhile is swallowed |
| Wal.CommitOperations | src/wal.rs:77-135 | a round over appended operations does to the file, and to what counts as acknowledged, exactly what one commit, failed sync or torn write of the disk model does |
| Wal.CrashImageRecovers | src/wal.rs:27-44 | whatever byte a crash cuts at, recovery succeeds with a prefix of what was written and all that was synced |
| Wal.EventKeepsDisk | src/wal.rs:27-162 | commits, failed syncs, torn writes, crashes, reopening and reset keep the file equal to its frames and the answers traceable in it, as long as nothing is appended behind a torn frame |
| Wal.AcknowledgedSurvives | src/wal.rs:77-162 | after any number of lives the next recovery returns every operation acknowledged since the last reset, in write order, with at most unacknowledged ones among them, provided nothing was appended behind a torn frame in between |
| Wal.AcknowledgedIsFoundIff | src/wal.rs:115-134 | an acknowledged batch can be recovered from where it was written if and only if no torn frame stood there |
| Wal.WritesComeBehind | src/wal.rs:107-126 | whatever a write appends comes behind the frames and whatever already follows them |
| Wal.RecoveryStopsAtTear | src/wal.rs:138-162 | with bytes behind a torn frame recovery stops at the tear or refuses the file there, exactly unless the bytes complete a frame |
| Wal.TornThenAcknowledged | src/wal.rs:115-134 | the failing run: three bytes of a frame, an error, then a synced and acknowledged batch; no later start reads the file |
| Wal.ValidatedRequestsAreLost | src/wal.rs:115-134 | that run exists with operations that pass validation |
| Binary.DigitOfLE | src/binary.rs:22-24 | byte `i` of a number is its digit `i` to the base 256 |
| Binary.FromLERoundTrip | src/binary.rs:30-34 | little-endian decoding and encoding undo each other on bytes |
| Binary.LERoundTrip | src/binary.rs:22-24 | and on numbers that fit |
| Binary.Buffer.PutOperation | src/binary.rs:24 | refuses exactly operations with an over-long string and appends the format otherwise |
| Binary.EncodeOperation | src/binary.rs:10-12 | magic, three length-prefixed strings, the delta in two's complement and the version, at these offsets; refused exactly for strings a u16 cannot count |
| Binary.EncodeBatch | src/binary.rs:15 | magic, a u32 count and the operations one after another; refused for over-long strings and above 4,294,967,295 operations |
| Binary.EncodeLogOperations | src/binary.rs:18 | magic, kind 2, epoch, count and operations at their offsets; refused likewise |
| Binary.EncodeLogFence | src/binary.rs:19 | magic, kind 1, epoch and holder at their offsets; refused exactly for an over-long holder |
| Binary.Reader.ReadString | src/binary.rs:36 | reads the string that starts here, or there is none |
| Binary.Reader.ReadOperation | src/binary.rs:37 | reads the operation that starts here, or there is none |
| Binary.Reader.ReadOperations | src/binary.rs:35-37 | reads the counted list that starts here, or there is none of at most 100,000 |
| Binary.DecodeOperation | src/binary.rs:13 | succeeds exactly on encodings; each field is what the bytes at its offset say, the delta modulo 2^64 |
| Binary.DecodeBatch | src/binary.rs:16 | succeeds exactly on encodings of at most 100,000 operations, and reads what stands at the offsets |
| Binary.DecodeLog | src/binary.rs:20 | succeeds exactly on encodings of fences and of at most 100,000 operations, and reads what stands at the offsets |
| Binary.OperationLayout | src/binary.rs:10-13 | every field of an encoded operation stands at its offset |
| Binary.BatchLayout | src/binary.rs:15-16 | so do count and operations of an encoded batch |
| Binary.RecordLayout | src/binary.rs:18-20 | and kind, epoch and contents of an encoded log record |
| Binary.EncodingsArePrefixFree | src/binary.rs:10-13 | no valid encoding is a proper prefix or an extension of another |
| Binary.BatchesArePrefixFree | src/binary.rs:15-16 | the same for batches |
| Binary.RecordsArePrefixFree | src/binary.rs:18-20 | the same for log records |
| Binary.DecodedIsUnique | src/binary.rs:10-13 | decode(encode(x)) is x for every operation that encodes |
| Binary.BatchRoundTripIff | src/binary.rs:15-16 | a batch that encodes comes back if it has at most 100,000 operations and is refused otherwise |
| Binary.LogRoundTripIff | src/binary.rs:18-20 | the same for log records |
| Binary.FingerprintLayout | src/state.rs:36-50 | the digested bytes are owner, SKU, delta and version, each behind its length, at these offsets |
| Binary.FingerprintInputIsInjective | src/state.rs:36-50 | the length-prefixed fields determine the content that is digested |
| Snapshot.Encode | src/snapshot.rs:75-94 | version, sequence, counted balances, counted ids with fingerprints and from version 3 on the epoch, all at their offsets; refused exactly for strings a u16 cannot count |
| Snapshot.Decode | src/snapshot.rs:103-126 | succeeds exactly on encodings of decodable snapshots, with at most 100,000,000 entries of a kind, and reads what stands at the offsets |
| Snapshot.PayloadLayout | src/snapshot.rs:75-94 | every part of an encoded snapshot stands at its offset |
| Snapshot.PayloadDetermines | src/snapshot.rs:75-126 | payloads are a prefix code up to the epoch that versions below 3 drop |
| Snapshot.WhatComesBack | src/snapshot.rs:75-126 | a saved snapshot comes back without an epoch its version cannot carry, and is refused above 100,000,000 items |
| Snapshot.RoundTripIff | src/snapshot.rs:75-126 | the round trip is exact if and only if the counts are sane and no epoch is lost |
| Snapshot.SnapshotFile.Save | src/snapshot.rs:58-73 | the file is replaced by magic, length, digest and payload when every step succeeds, and stays as it was whichever step fails; the temporary file is then a prefix of the new one |
| Snapshot.SnapshotFile.Load | src/snapshot.rs:35-56 | returns what the file holds in the current or the older format, nothing without a file, and refuses exactly the files that hold neither: torn, padded, altered, of unknown version |
| Snapshot.LoadedLayout | src/snapshot.rs:35-56 | a file that loads has the current or the older magic, the length of its payload up to 4 GiB, the digest of the payload and a version from 1 to 3 |
| Snapshot.SavedLoadsIff | src/snapshot.rs:35-73 | a saved file loads as exactly the snapshot without an epoch its version cannot carry, if and only if counts, version and size are within bounds |
| Bits.MaskIsRemainder | src/state.rs:538 | masking with a power of two minus one is the remainder |
| Shards.ShardForIsRemainder | src/state.rs:534-539 | every key has exactly one shard, within the count |
| Shards.ShardedIsUnsharded | src/state.rs:494-539 | for any power-of-two count shards that apply their own part keep disjoint keys and together are the unsharded fold |
| Shards.ApplyGroup | src/state.rs:515-527 | each reply is the balance before plus the deltas of all items up to its own with the same owner and SKU; the balance of every owner and SKU ends as it began plus the deltas of its items |
| Shards.RunShard | src/state.rs:494-532 | however many commands are drained at a time, the final balance of every owner and SKU is the start plus the deltas of its items in all commands, and every reply counts every such item of every earlier command and of its own up to itself |
| Shards.GroupFollowsBatch | src/state.rs:333-337 | a shard's group keeps the order of the batch |
| Shards.StateShards.ApplyBatched | src/state.rs:328-353 | if the WAL takes the operations, every shard applies its part behind whatever other requests queued before, and every item is answered by the balance of its owner and SKU in its shard once that is done; if not, no balance changes |
| Shards.StateShards.ApplyPreflightBatch | src/state.rs:307-326 | one reply per operation in request order: for a new one the running balance of its owner and SKU in its shard's command order, for a duplicate the published balance; it fails exactly if there was something new and the WAL refused it, and then changes nothing |
| Shards.PublishRound | src/state.rs:429-454 | the commands at the head of the queue, whole and as many as wait but at most 256, are added under one lock: every published balance grows by the deltas of their operations for that owner and SKU |
| Shards.Start | src/state.rs:87-133 | the shards hold for every owner and SKU the snapshot balance plus the deltas of the first record of each recovered id that names them; the dedup index gains exactly these ids and those older snapshots carry, each with a content given for it |
| Shards.FromEntriesHolds | src/state.rs:355-365 | of the entries of one owner and SKU the last one counts |
| Shards.DumpAll | src/state.rs:355-365 | what is dumped rebuilds the same balances under any shard count |
| Warehouse.LeaseLetsTheNodeApply | src/main.rs:649-656 | what the node demands before applying a client's operations is what the lease guarantees |
| Warehouse.RecordsReadBack | src/cluster.rs:111-137 | a validated record comes back from the log unchanged, so the log is a sequence of records |
| Warehouse.CrashLeavesAPrefix | src/wal.rs:115-120 | a crash while a batch is written leaves a WAL that recovers to everything before it and a prefix of the batch |
| Warehouse.CatchUpKeepsHonest | src/main.rs:487-495 | a catch-up pass moves an honest checkpoint to an honest checkpoint |
| Warehouse.HistoryExplainsBalances | src/main.rs:569-597 | with tail and history at the end of the log the balance of every owner and SKU is the sum of the deltas of the rows of a full history scan that name them |
| Warehouse.ProtocolSeesTheFilter | src/dedup_disk.rs:520-532 | the set of bits the protocol reasons about is the byte array of the filter |

## Left out

- HTTP routing, JSON, metrics, tracing, configuration, deployment files, load generators and
  scripts: input, output or presentation.
- The insides of JetStream, Fjall, redb, tokio channels, SHA-256 and CRC-32: an ordered
  append-only log, atomic batches, first-in first-out queues and arbitrary functions stand
  for them.
- The older JSON and text formats (log records, WAL payloads, snapshots, checkpoints, redb
  rows) are arbitrary functions of the bytes or lists of decoded rows, so nothing is said
  about what they accept.
- Wal.Writer.Commit: a swallowed reset is reported as `lostReset`; the error that its caller
  then sees is not followed into start-up.
- History.HistoryStore.ByIndex: needs exact indexes, which IndexStaysExactIff ties to ids
  keeping their owner and SKU.
- Retries.EveryRequestEnds: the common order is sufficient; for more than two requests the
  exact shape of the orders that allow endless retries is not worked out.
- History.PagingIsComplete: is about a history that does not change between pages.
- Shards.StateShards.ApplyPreflightBatch: promises no freshness for the balance of a
  duplicate, because the published view may lag behind the duplicated operation.
- Lease.LeaseIsSafeIff: instance ids are distinct and clocks agree; drift between machines is
  not modelled.
- Store.DedupMap.Attempt: is about an attempt nobody interrupts; interleaved attempts are the
  subject of ProtocolProof.
- Protocol: the memory of the 64 shards is one map whose sections are guarded by their
  locks; the persist queue is one sequence whose batches are cut anywhere, which covers every
  grouping the worker can choose.
- A disk read error in the middle of preflight and a handler cancelled between preflight and
  finish leave reservations behind; both are taken not to happen.
- Quarantine and rebuild at start-up after damaged files: the dedup index may then hold ids
  whose effect was only in the damaged WAL, so the balance theorem does not cover them.
- Truncation of the WAL at start is taken to be durable at once.
- Single-node mode without log and lease.
