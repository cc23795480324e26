# A verified model of the segmented vector store

The store keeps vectors with metadata, answers nearest-neighbour queries, and survives crashes. New
records go to a write buffer; full buffers are queued and turned into immutable HNSW segments by a
sealing worker; a merge worker rebuilds the two smallest segments; deletes in immutable places are
tombstones local to that place. A write-ahead log and checkpoints make it durable. This project models
that behaviour and proves what it is for. `dafny verify dfyconfig.toml` checks everything.

## How the model is organised

* **The interleaving machine** (`Store`, `StoreInvariants`, `StoreSteps`, `StoreMerge`, `StoreRuns`,
  `StoreWorkers`, `StoreMergers`, `StoreHiding`, `StoreReads`, `StoreSearches`, `StoreMetas`). Every block
  the program runs under one lock is one label; the lock-free builds are gaps in which any other thread may
  step; any number of sealing workers and merges may be in flight. The abstract state is the live map
  id -> vector. Theorems are about every run: refinement of the map, one live copy per id, no
  resurrection of a deleted id, exact duplicate and liveness checks spread over three locks, and the queue
  protocol. `StoreMergers` adds who may merge and when; its runs are runs of the store. `StoreMetas` adds
  the metadata side: the posting lists, the numeric fields and the metadata store have a lock each, so
  between the vector and the last of them lies a moment of every write.
* **The index as code** (`Segmented`, over `StoreFrames`). A class whose methods are the program's:
  the loops inside the locked blocks make exactly the machine's steps, and between any two blocks of an
  operation any number of blocks of the sealing and merge workers run (`Others`). Every operation
  returns the writer to rest, so calls chain.
* **The structures behind it** (`Shelves`, `Derived`, `Live`). `Shelves` builds the graph of a sealed
  buffer and of a merge record by record and moves flat blocks and graphs along with the sources, so that
  at every step of the machine every source has an index with exactly its records. `Derived` keeps posting
  lists and numeric fields equal to a recomputation. `Live` runs store, indexes and metadata together,
  block by block, from an empty or an opened index, in any interleaving; its search assumes nothing about
  any of them.
* **The newest-copy rule.** Deletes and scans stop at the first source that contains an id, and the
  comments at src/index/segmented.rs:814-815 and 1348-1350 take for granted that this source holds the
  live copy. A merge appends its output at the young end of the list (src/index/segmented.rs:461), so
  this is not always so: `StoreHiding.LiveRecordHidden` is a concrete run, with the merge started by
  three segments against a ceiling of two (delete id 5 while the merge builds, insert it again, publish
  the new segment, let the merge swap), after which the record is live and unreadable by a scan, and
  its delete answers NotFound. The code is modelled as it is; the rule is shown to survive a step if
  and only if the step is not a swap that carries a tombstone for an id live in another segment
  (`StoreMerge.HidesNothing`). Results about deletes of live ids, scans and replay carry that guard
  (`guarded` in the classes); refinement of the live map does not need it. What the log forgets without
  it is said exactly by `Records.LogForgetsExactly`.
* **The hand-over window.** `seal` empties the buffer in one block and queues the data in the next
  (src/index/segmented.rs:1023-1047); the comment at 1041-1042 says the data is never invisible.
  Between the two blocks it is: no reader of segments, queue and buffer finds it and `len` does not
  count it. `StoreReads` proves that reading is exact for all ids if and only if the newest-copy rule
  holds and the writer is not between these blocks, with a reachable witness (`TakenRecordUnseen`), and
  that `len` is short by exactly the taken records.
* **The order of reading.** A search clones the segment list, then the queue, then reads the buffer
  (src/index/segmented.rs:1388-1421), while records move the other way; the header at
  src/index/segmented.rs:20-22 says a reader may see a record twice and never loses one. It is the other
  way round: `StoreSearches` proves that a record that lives on throughout is never found twice, says
  exactly when it is missed (published between the first two reads, or taken out of the buffer before the
  third), gives a reachable search that misses an untouched record (`LiveRecordMissed`), and shows that
  reading the buffer first and the segments last would miss nothing outside the hand-over.
* **The shortcut.** A single Eq whose estimate reaches `len` is answered without the filter
  (src/index/segmented.rs:881-890). `Shortcut` proves when this can be trusted for all filters and all
  metadata: if and only if the posting lists name no record that is unseen, or nothing is seen, or fewer
  records are indexed than seen. They do name one in two windows of the program, and each has a reachable
  witness: the hand-over of a seal (`TakenMisfires`), and the middle of a delete, after the vector is erased
  and before the posting lists are updated (`ErasedMisfires`, src/index/segmented.rs:1304-1316).
* **Durability** (`Wal`, `Records`, `Disk`, `Checkpoint`, `Recovery`, `Journal`, `Writer`, `MetaRepr`,
  `PlainFormats`). Framing and replay of arbitrary bytes, the log file with its synced length, what records
  mean, the data directory with an atomically swapped manifest, the checkpoint with every intermediate
  directory kept in a ghost history. Codecs are any invertible functions on what is stored, and
  `PlainFormats` is one, byte by byte. The single writer works on the segmented index and its metadata
  structures, other threads included: batches, one commit per batch, replies, checkpoints of the settled
  index; a ghost trail keeps every moment of its run, and a crash is shown to be safe at each of them.
  `Recovery` opens what a crash left: the manifest's segments form a store in good order, and replaying the
  log into it, whatever sealing and guarded merging do meanwhile, gives the database recovery promises.
  Crash and reopening are one method, `Writer.Reopen`.
* **The graph** (`LayerSearch`, `HnswGraph`, `Neighbors`, `Wiring`, `Hnsw`), after Malkov and Yashunin,
  "Efficient and robust approximate nearest neighbor search using Hierarchical Navigable Small World
  graphs", Algorithms 1, 2, 4 and 5. `Wiring` says what an insert does to the graph as a value: where the
  descent ends, what each level's search may answer, whom the node is linked to and what becomes of those
  lists. While the slots are at most min(m, ef_construction) + 1 the live ones list each other all, so a
  search as wide as the index finds the nearest whatever the graph's history; beyond that, exactness is
  stated for graphs the width covers.
* **Exact structures** (`TopK`, `ExactSearch`, `FlatBlock`, `BruteForce`, `Numeric`, `Meta`,
  `MetaStore`), **filtered search** (`SourceSearch`: what the graph or flat block behind each source
  contributes; `Planner`: the arm decision and the whole of `search_filtered`, at any moment of the metadata)
  and **quantization** (`Quant`, `Frozen`).

Stored coordinates are the values of `f32` and stored numbers those of `f64` (`Prelude.Single`, `Double`);
what is computed from them -- normalised vectors, distances, histogram bounds -- are reals. The metric is any
function together with an idempotent normalisation. Heaps are sequences in pop order. Clocks, randomness and
scheduling are parameters or nondeterministic choices.

## Model

| member | source | states |
|---|---|---|
| StoreRuns.RunHolds | src/index/segmented.rs:276-343 | over every run of writer, sealing workers and merges the whole invariant holds: one live copy per id, queue protocol, writer position facts |
| StoreRuns.RunRefines | src/index/segmented.rs:570-616 | every run acts on the live map as its legal sequence of inserts and deletes; publishes, snapshots and swaps are invisible |
| StoreRuns.DeletedStaysDeleted | src/index/segmented.rs:405-462 | an id whose delete answered Ok is dead in every later state until it is inserted again, whatever merges do |
| StoreRuns.StepKeepsNewestIff | src/index/segmented.rs:405-462 | the newest-copy rule survives a step if and only if the step is not a swap that hides a live copy |
| StoreRuns.GuardedRunKeepsNewest | src/index/segmented.rs:814-815 | the newest-copy rule the scan's comment takes for granted holds after every run with guarded swaps |
| StoreReads.ReadsRightIff | src/index/segmented.rs:814-856 | reading segments, queue and buffer at the newest containing source is exact for all ids if and only if the newest-copy rule holds and no buffer is between taking and queueing |
| StoreReads.GuardedRunReadsRight | src/index/segmented.rs:814-856 | after every guarded run reading is exact for all ids if and only if the writer is not in that window |
| StoreReads.ReadsAllButTaken | src/index/segmented.rs:1019-1047 | inside the window exactly the taken records are missed, every other id is read right |
| StoreReads.TakenRecordUnseen | src/index/segmented.rs:1023-1047 | a concrete reachable state of the window: a live, answered record that no reader finds and `len` does not count |
| StoreReads.LenIsViewSize | src/index/segmented.rs:1432-1448 | the summed live counts never underflow; they are the size of the live map less the taken records, hence right if and only if none are taken |
| StoreRuns.DeleteOfLiveSucceeds | src/index/segmented.rs:1329-1373 | with the newest-copy rule a delete that passed its liveness check never answers NotFound |
| StoreRuns.DuplicateCheckIsMembership | src/index/segmented.rs:591-616 | the insert check over three locks equals membership in the live map under any worker steps in between |
| StoreRuns.LivenessCheckIsMembership | src/index/segmented.rs:1290-1300 | the delete check over three locks equals membership likewise |
| StoreInvariants.LookupExactIff | src/index/segmented.rs:846-855 | stopping at the newest containing source is exact for all ids if and only if nothing newer than a live copy contains its id |
| StoreInvariants.LiveMapMembers | src/index/segmented.rs:1290-1300 | an id is in the live map exactly when some source has it live |
| StoreInvariants.InitHolds | src/index/segmented.rs:496-529 | a fresh store satisfies every invariant and is empty |
| StoreMerge.DiffReplay | src/index/segmented.rs:439-459 | the merged segment unites exactly what is live in its sources at swap time if and only if its tombstones are the difference since the snapshot |
| StoreMerge.SwapStep | src/index/segmented.rs:439-462 | a swap, guarded or not, cancelled or not, leaves the live map unchanged and keeps all invariants |
| StoreMerge.SwapKeepsNewestIff | src/index/segmented.rs:450-461 | the exact condition under which a swap keeps the newest-copy rule |
| StoreHiding.LiveRecordHidden | src/index/segmented.rs:461 | a concrete reachable run, its one merge started above a ceiling of two, after which a live record is unreadable and its delete answers NotFound |
| StoreWorkers.OneOwner | src/index/segmented.rs:279-311 | at most one worker owns the sealing queue, and only while the flag is up |
| StoreWorkers.NoLostWakeup | src/index/segmented.rs:302-309 | no worker left and no start pending implies an empty queue |
| StoreWorkers.QueueBounded | src/index/segmented.rs:1091-1110 | unless the 60 s valve fired the queue holds at most 3 buffers, and at most 2 between operations |
| StoreWorkers.BufferBelowThreshold | src/index/segmented.rs:570-588 | between operations of every run the write buffer is below the threshold: it is sealed when it gets there |
| StoreWorkers.PublishTakesOldest | src/index/segmented.rs:296-331 | sealing is first in, first out, and a publish carries every tombstone collected so far |
| StoreWorkers.SettledSnapshot | src/index/segmented.rs:1498-1508 | after the checkpoint's wait the segment list read at any later moment holds exactly the live map, one live copy per id, and the newest copy decides if the swaps in between are guarded |
| StoreWorkers.SegmentsImmutable | src/index/segmented.rs:66-77 | over every run a segment keeps its identity and contents |
| Segmented.ContainsLiveIn | src/index/segmented.rs:1131-1137 | the loop decides liveness in a list of sources |
| Segmented.FindNewest | src/index/segmented.rs:1350-1372 | the reverse walk finds the newest source containing the id |
| Segmented.PickVictims | src/index/segmented.rs:418-422 | the two merge victims are the first two of a stable sort by live count |
| Segmented.VictimsAreSmallest | src/index/segmented.rs:418-422 | those two have the fewest live records, the earlier in the list first among equals |
| Segmented.Without | src/index/segmented.rs:460 | the retain loop removes exactly the two sources |
| Segmented.SegmentedIndex.EraseSealing | src/index/segmented.rs:1345-1359 | the block makes exactly the machine's step and answers as it does |
| Segmented.SegmentedIndex.EraseSegments | src/index/segmented.rs:1360-1372 | likewise for the segment list |
| Segmented.SegmentedIndex.DeleteShared | src/index/segmented.rs:1275-1286 | with other threads between its blocks: never removes anything but its id, answers Ok only for a live id, and with guarded swaps exactly for live ids |
| Segmented.SegmentedIndex.InsertShared | src/index/segmented.rs:549-616 | with other threads between its blocks, an exact insert on the map with its error cases, sealing and throttling included; the writer is at rest again and the newest-copy rule kept |
| Segmented.SegmentedIndex.Seal | src/index/segmented.rs:1019-1055 | taking, queueing, raising the flag and starting a worker, with other threads in between, lose no record |
| Segmented.SegmentedIndex.Backpressure | src/index/segmented.rs:1091-1110 | the wait ends with at most two queued buffers or the valve fired, and keeps the map |
| Segmented.SegmentedIndex.Wait | src/index/segmented.rs:1175-1186 | whatever ran before, the sealing workers alone bring the wait to an end: flag down, queue empty, same records |
| Segmented.SegmentedIndex.SettleDown | src/index/segmented.rs:1480-1508 | seal, wait and read: the segment list returned is that of a settled index with the same records |
| Segmented.SegmentedIndex.Publish | src/index/segmented.rs:316-335 | installing a built segment and leaving the queue is the machine's publish |
| Segmented.SegmentedIndex.InstallMerged | src/index/segmented.rs:439-462 | presence check, difference, retain and push are the machine's swap |
| Segmented.SegmentedIndex.MergeSmallestPair | src/index/segmented.rs:405-462 | with publishes and other merges between snapshot and swap the map is unchanged; with nobody in between the list is one segment shorter |
| Segmented.SegmentedIndex.MergeDown | src/index/segmented.rs:229-236 | with other threads during its merges, as long as they have work, the loop ends at or below the ceiling with the map unchanged |
| StoreMergers.OneMerger | src/index/segmented.rs:218-247 | in every reachable state at most one merge worker owns the flag, and at most one merge is in flight |
| StoreMergers.NoLostTrigger | src/index/segmented.rs:220-245 | with no worker merging and no sealing worker asking, the list is at or below the ceiling |
| StoreMergers.EveryMergeCounts | src/index/segmented.rs:439-462 | under this protocol no swap is ever cancelled: it can run, and makes one segment of two |
| StoreMergers.ShiftIsRun | src/index/segmented.rs:218-247 | to the store the protocol is invisible: its runs are runs of the store |
| StoreMetas.CourseHolds | src/index/segmented.rs:570-588 | over every course of blocks, vector and metadata side: metadata belongs to live records, and the three structures differ by the record in hand alone |
| StoreSearches.ForwardMissesIff | src/index/segmented.rs:1388-1421 | of a record that lives on, the search misses exactly one published between its first two reads, in the hand at the second, or in the buffer then and taken out before the third |
| StoreSearches.ForwardFindsOnce | src/index/segmented.rs:20-22 | and it never sees such a record twice |
| StoreSearches.CalmSearchFinds | src/index/segmented.rs:1388-1421 | with no publish before the second read and no seal under way or after it, the search finds every record that lives on |
| StoreSearches.ScanMissesIff | src/index/segmented.rs:778-829 | the same for the scan, which reads the buffer first |
| StoreSearches.BackwardMissesIff | src/index/segmented.rs:20-22 | reading buffer, queue, segments would miss a record in the writer's hand alone |
| StoreSearches.LiveRecordMissed | src/index/segmented.rs:1388-1421 | a reachable search that misses a record nobody touches |
| Shelves.BuildOne | src/index/segmented.rs:316-326 | the build loop over graph inserts gives a graph with exactly the records of the queued buffer; no insert fails |
| Shelves.BuildMerged | src/index/segmented.rs:424-437 | the rebuild gives a graph with exactly what both snapshots show as live; no insert fails |
| Shelves.Shelf.Publish | src/index/segmented.rs:316-335 | after a publish every source still has an index with exactly its records |
| Shelves.Shelf.Swap | src/index/segmented.rs:439-462 | likewise after a swap |
| Shelves.Shelf.Follow | src/index/segmented.rs:66-100 | whatever block the store runs, its indexes can follow: every source has its index again |
| Shelves.Shelf.ServesVisible | src/index/segmented.rs:1388-1421 | so behind every source a search walks there is an index with exactly its records |
| Live.LiveIndex.Do | src/index/segmented.rs:570-588 | one block of any thread keeps store, indexes and metadata structures together |
| Live.LiveIndex.Run | src/index/segmented.rs:276-343 | and so does every course of blocks |
| Live.LiveIndex.Search | src/index/segmented.rs:874-992 | at every moment, with no hypothesis about indexes or metadata: the answer is right for the records seen, under the metadata with or without the record in hand, unless the shortcut fired while the posting lists named an unseen record |
| Wal.ReplayBytes | src/storage/wal.rs:256-302 | the offset loop computes the recursive replay, with its report, on arbitrary bytes |
| Wal.ReplayOfLog | src/storage/wal.rs:153-181 | replaying appended records returns them, to the last byte |
| Wal.CutLog | src/storage/wal.rs:256-302 | a cut at any byte yields exactly the records whose frames fit |
| Wal.CutIsPrefix | src/storage/wal.rs:10-17 | on arbitrary bytes a cut yields a prefix of the records: nothing is made up |
| Wal.TruncationIsStable | src/storage/wal.rs:235-253 | on arbitrary bytes the truncated file replays to the same records and ends cleanly |
| Wal.AppendAfterTruncation | src/storage/wal.rs:235-253 | appending after truncation continues the sequence |
| Wal.TornFrame | src/storage/wal.rs:269-286 | a frame cut short anywhere is recognised as torn |
| Wal.FrameLayout | src/storage/wal.rs:8-11 | on disk a frame is length and checksum, four bytes each from the least significant, then the payload |
| Wal.HeadIsFrame | src/storage/wal.rs:256-302 | a record is read if and only if the buffer starts with one whole frame of it: a length from 1 to 64 MiB, the payload's checksum, a payload that decodes |
| Wal.WalFile.Append | src/storage/wal.rs:153-181 | refuses an oversized record; otherwise appends one frame and syncs as far as the policy says |
| Wal.WalFile.Sync | src/storage/wal.rs:186-194 | after a sync nothing appended is volatile |
| Wal.WalFile.SyncIfDue | src/storage/wal.rs:198-209 | syncs exactly under group policy, when dirty and due |
| Wal.WalFile.Commit | src/storage/wal.rs:221-229 | end of batch gives exactly the durability of the policy |
| Wal.WalFile.SyncedSurvives | src/storage/wal.rs:215-229 | what was synced is replayed in full from whatever a crash leaves |
| Wal.WalFile.TornSurvives | src/storage/wal.rs:10-17 | an unsynced tail only costs records from the end |
| Records.PrefixReplays | src/index/segmented.rs:1751-1774 | any prefix of a log the writer produced replays without a duplicate |
| Records.ReplayMeans | src/index/segmented.rs:1751-1774 | record by record: an insert of a present id or a wrong length is fatal, any other insert stores vector and metadata, a delete of nothing changes nothing |
| Records.ReplayRefines | src/index/segmented.rs:1751-1774 | replay through the store, with any guarded worker steps in between, rebuilds the database the log describes |
| Records.LogDescribesRun | src/index/segmented.rs:549-565 | at every moment of every guarded run the log replays to the live map with the operation in progress completed |
| Records.LogForgetsExactly | src/index/segmented.rs:1275-1286 | every run, guarded or not: the log replays without a duplicate and gives what memory holds less exactly the ids whose latest logged delete was answered NotFound |
| Records.LogAgreesIff | src/index/segmented.rs:1275-1286 | log and memory agree after a run if and only if no such id is left |
| Disk.SameRecovery | src/index/segmented.rs:1678-1748 | recovery depends on nothing but the manifest, the files it names and the log, wherever the log is torn |
| Disk.WriteUnread | src/storage/mod.rs:66-75 | writing a file no manifest names is invisible to recovery |
| Disk.RemoveUnread | src/storage/mod.rs:294-313 | removing a file no manifest names is invisible to recovery |
| Checkpoint.SwapCommits | src/storage/mod.rs:263-267 | the manifest rename is the commit point: afterwards recovery gives exactly the checkpointed state |
| Checkpoint.DataDirectory.WriteSegments | src/index/segmented.rs:1516-1546 | stored segments are referenced again, new ones get fresh files; every reference matches its segment |
| Checkpoint.DataDirectory.RotateLog | src/index/segmented.rs:1569-1580 | the next generation's log is there and empty |
| Checkpoint.DataDirectory.Collect | src/storage/mod.rs:294-313 | garbage collection, in any order: gone are exactly the program's own unreferenced files whose removal does not fail, and their number is returned; referenced and foreign files are untouched |
| Checkpoint.DataDirectory.Checkpoint | src/index/segmented.rs:1480-1591 | every directory before the commit recovers as before with the old log, every one after it to exactly the live map and metadata and opens to exactly the snapshot's segments; no step harms a referenced file |
| Checkpoint.OpenDirectory | src/index/segmented.rs:1678-1748 | opening any directory a crash left gives the manifest's segments (one live copy per id, the newest deciding, whenever the checkpoint wrote such), its metadata, the intact log and a directory in order |
| Checkpoint.MarksStillFit | src/index/segmented.rs:1519-1536 | whatever the store does between two checkpoints, the stored-file marks still describe the sources that are left |
| PlainFormats.PlainIsLossless | src/storage/mod.rs:77-123 | there are formats like the ones the durability results ask for: concrete codes that read back whatever is stored |
| PlainFormats.EmptyOpens | src/index/segmented.rs:1678-1696 | under them an empty directory opens, so the results are about something |
| Writer.Writer.Serve | src/bin/server.rs:279-331 | over the segmented index with its other threads: every command gets exactly one reply, in order, with the outcome of sequential execution, for every batching; reply i says done, or why not, exactly as the database after the first i commands demands; index and metadata structures hold the final database; at every moment of the run, with no gap, a crash would have been safe |
| Journal.DoneIff | src/bin/server.rs:279-300 | an insert or delete is done if and only if its record fits the database and a frame |
| Journal.NextHandles | src/bin/server.rs:279-300 | each refusal has its exact condition: wrong length, present id, absent id, oversized record; what is stored is the record, and nothing when refused |
| Journal.AnswersHandle | src/bin/server.rs:279-331 | so for every command of a run, over the database its predecessors left |
| Writer.Writer.TakeCheckpoint | src/bin/server.rs:305-313 | a checkpoint inside a batch; a crash at any directory it goes through recovers past everything acknowledged |
| Writer.AnsweredIsDurable | src/bin/server.rs:317-327 | an answered write is in the recovered history, wherever a crash cuts the log at or past its synced length, and what is left opens |
| Writer.AnsweredIsInStore | src/index/segmented.rs:1678-1774 | in every interleaving of the replay with sealing and guarded merging, the reopened store is in order and holds the journal up to an entry past the answered one |
| Writer.AnyMomentIsDurable | src/bin/server.rs:279-331 | for every directory the run went through: had the crash come then, whatever was answered by then would be in the recovered history |
| Writer.Open | src/index/segmented.rs:1667-1748 | opening gives a running writer whose database is what recovery promises, held by index, posting lists, numeric fields and metadata store |
| Writer.Reopen | src/index/segmented.rs:1667-1774 | crash and reopening: the new writer, its index and its metadata structures hold the journal up to an entry past every answered one |
| Recovery.RecoveredStore | src/index/segmented.rs:1678-1774 | however replay, sealing and guarded merging interleave, the reopened store satisfies the invariant and the newest-copy rule and holds exactly the recovered database |
| Recovery.ReplayLog | src/index/segmented.rs:1751-1774 | the replay loop over index and metadata structures, other threads included, rebuilds all of them |
| Recovery.ApplyInsert | src/index/segmented.rs:570-588 | vectors, metadata, then the seal a full buffer is due: index and metadata structures hold the database with the record |
| Journal.InsertIsThere | src/bin/server.rs:317-327 | an acknowledged insert is recovered with vector and metadata unless a later record names its id |
| Journal.DeleteIsGone | src/bin/server.rs:317-327 | an acknowledged delete stays deleted, metadata included |
| Journal.CrashLeavesValidLog | src/index/segmented.rs:1751-1774 | what a crash leaves is a directory the next writer can start from |
| MetaRepr.MetaToRepr | src/storage/mod.rs:174-178 | the disk form lists exactly the entries, sorted by field name |
| MetaRepr.ReprIsUnique | src/storage/mod.rs:170-178 | the same metadata always gives the same list |
| MetaRepr.ReprRoundTrip | src/storage/mod.rs:174-182 | the disk form reads back to the metadata |
| LayerSearch.SearchLayer | src/index/hnsw.rs:224-307 | termination, distinct admissible sorted results, the best of all slots visited; unless a budget ended it, locally optimal: from every visited slot not beaten by a full result all ways were followed; exhaustive when ef covers the reachable slots |
| LayerSearch.StepIsGreedy | src/index/hnsw.rs:563-567 | a step of the descent ends no farther than it began and where no neighbour on the level is nearer |
| Neighbors.SelectNeighbors | src/index/hnsw.rs:320-348 | the two-phase selection: spread neighbours first, the quota filled with the nearest of the rejected |
| Neighbors.DiverseIsSpread | src/index/hnsw.rs:324-339 | no chosen candidate of the first phase is closer to an earlier one than to the query |
| Neighbors.OmittedIsDominated | src/index/hnsw.rs:324-346 | a candidate left out although there was room is dominated by a chosen one |
| Neighbors.GreedyByDistance | src/index/hnsw.rs:324-339 | in the first phase a candidate is taken if and only if fewer than m nearer ones are, and none of these is closer to it than the query |
| Neighbors.QuotaIsNearest | src/index/hnsw.rs:340-347 | no rejected candidate left out is nearer than one the quota took in |
| Hnsw.HnswIndex.Insert | src/index/hnsw.rs:529-600 | for any random level: adds exactly the record or reports the error; the new node is linked in on every level it shares with the entry, after a greedy descent, to the heuristic's choice from a locally optimal search that goes on from all found above; in a small index it keeps every slot reachable from every slot if and only if something was live or the index was empty |
| Wiring.JoinLinksIn | src/index/hnsw.rs:569-592 | on each of these levels its list has no repetition and min(m, found) slots, at least one found, and each of them lists the node back or has a full list |
| Hnsw.HnswIndex.LinkAll | src/index/hnsw.rs:584-588 | linking on a level: the node lists its neighbours, each of their lists is pruned with the node in it, and no other list changes |
| Hnsw.HnswIndex.LinkNode | src/index/hnsw.rs:559-592 | both phases: the descent, then one such round per level, each starting from everything the one above found |
| Wiring.MeshGrows | src/index/hnsw.rs:559-599 | a node that joins at most min(m, ef_construction) slots, all linked to each other on the base layer, is linked both ways to all of them |
| Wiring.KnitJoins | src/index/hnsw.rs:559-599 | so while there are few slots an insert next to a live one keeps the live ones all linked, and every slot reachable from every slot if it was so |
| Wiring.KnitAlone | src/index/hnsw.rs:553-557 | an insert when nothing is live links nothing: then every slot is reachable from every slot only in an index that was empty |
| Wiring.ShrunkMeans | src/index/hnsw.rs:362-380 | pruning drops nothing that fits, and otherwise keeps exactly as many slots as fit |
| Wiring.DroppedForReason | src/index/hnsw.rs:320-380 | a slot is pruned only if one that is kept and no farther from the node is closer to it than the node is, or if everything kept is no farther |
| Hnsw.HnswIndex.ShrinkLinks | src/index/hnsw.rs:362-380 | the one list becomes what pruning makes of it, within its bound and well formed |
| Hnsw.HnswIndex.Delete | src/index/hnsw.rs:609-625 | exactly the record goes; below the threshold ratio the graph stays as it is with one more tombstone, at or above it nothing dead is left |
| Hnsw.HnswIndex.PickNewEntry | src/index/hnsw.rs:636-640 | the entry is the last live node of maximal level, or none exactly when nothing is live |
| Hnsw.HnswIndex.Compact | src/index/hnsw.rs:646-658 | rebuilding from the live records keeps the map and frees every tombstone |
| Hnsw.HnswIndex.SearchWithEf | src/index/hnsw.rs:384-419 | true answers only, the first k of a locally optimal search of the base layer from the end of a greedy descent; the k nearest, up to ties, when that search covers all live slots, and whenever a small index has no more slots than the search is wide |
| Hnsw.HnswIndex.SmallSpans | src/index/hnsw.rs:384-419 | from wherever the descent ends, a search that wide covers a small index |
| Hnsw.HnswIndex.SearchFiltered | src/index/hnsw.rs:442-507 | true allowed answers; min(k, matches) of them unless the budget ran out, exact when the fallback ran, otherwise the first k of the best the search visited; without a budget the k nearest allowed, up to ties, when the width covers the base layer or a small index |
| Hnsw.TiesOnly | src/index/hnsw.rs:384-419 | such an answer has the distances of the brute-force top-k, position by position |
| Hnsw.TieFreeIsExact | src/index/hnsw.rs:384-419 | and without ties it is the brute-force top-k |
| TopK.ReduceIsBest | src/index/bruteforce.rs:196-222 | bounded heaps over any chunking, merged in any tree with each right heap drained in any order, hold the k best of the whole |
| TopK.BestIsBest | src/types.rs:45-51 | everything left out ranks at or after everything returned |
| ExactSearch.AnyListing | src/eval.rs:18-43 | the exact top-k does not depend on the order the records are visited in |
| ExactSearch.ExactMeans | src/eval.rs:18-43 | what the exact top-k is, without any algorithm |
| ExactSearch.QueryIsNormalised | src/index/bruteforce.rs:184-195 | distances are taken from the query in normal form, so a query normalised beforehand gives the same answers |
| ExactSearch.ExactByDistance | src/types.rs:45-51 | by distance, then id: the entries ascend, and whatever is left out comes after all of them |
| BruteForce.BruteForceIndex.Insert | src/index/bruteforce.rs:162-182 | adds exactly the (normalised) record or reports the error |
| BruteForce.BruteForceIndex.Delete | src/index/bruteforce.rs:228-244 | swap-remove on the flat block removes exactly the record |
| BruteForce.BruteForceIndex.Search | src/index/bruteforce.rs:184-226 | serial or parallel, for every thread count, the exact top-k |
| BruteForce.BruteForceIndex.SearchFiltered | src/index/bruteforce.rs:108-132 | the exact top-k of the allowed records |
| BruteForce.ExactTopK | src/eval.rs:18-43 | the reference scan is the exact top-k over positions |
| Meta.KeyIsEquality | src/meta.rs:34-67 | posting keys agree with filter equality for integers f64 represents |
| Meta.KeyMissesSmallestInt | src/meta.rs:56-67 | outside that range they do not: the smallest i64 |
| Meta.OrderedBitsOrder | src/meta.rs:72-79 | the bit projection sorts like the values, apart from the two zeros, and inverts |
| Meta.RangeMeans | src/meta.rs:96-120 | a range accepts numbers of either kind within its endpoints, one-sided ones included, and nothing else |
| Meta.EqMeans | src/meta.rs:34-52 | an equality accepts the same number in either kind, or the same value |
| Meta.MatchesMeans | src/meta.rs:134-150 | a filter is the conjunction of its predicates, each about a field the record has; without metadata only the empty filter matches |
| MetaStore.MetaStore.Insert | src/meta.rs:211-220 | the dictionary-coded store then holds exactly the map put in |
| MetaStore.MetaStore.Get | src/meta.rs:181-184 | reading a field is reading the map |
| MetaStore.MetaStore.Remove | src/meta.rs:230-237 | returns exactly what was put in and drops it |
| MetaStore.MetaStore.Snapshot | src/index/segmented.rs:1548-1554 | the entries written at a checkpoint are exactly what the compact store holds |
| MetaStore.MetaStore.MatchesById | src/meta.rs:142-150 | filter evaluation over the compact form is evaluation over the maps |
| Numeric.NumericFieldIndex.Insert | src/index/numeric.rs:64-79 | adds one pair; the histogram equals a recount within the endpoints, widening and rebuilding included |
| Numeric.NumericFieldIndex.Remove | src/index/numeric.rs:81-94 | removes one stored pair or nothing, the recount still holds |
| Numeric.NumericFieldIndex.Estimate | src/index/numeric.rs:122-136 | for ordered endpoints the interval brackets the true count and is off by entries within one bucket's width of an endpoint at most; nothing exactly when the range misses the span |
| Numeric.NumericFieldIndex.EnumerateUpTo | src/index/numeric.rs:141-154 | the exact ids in range if and only if their count is within the limit |
| Numeric.NumericFieldIndex.EnumerateAll | src/index/numeric.rs:157-162 | the exact ids in range |
| Numeric.NumericFieldIndex.HistogramIsTotal | src/index/numeric.rs:57-108 | the histogram sums to the number of entries |
| Derived.PostingInserted | src/index/segmented.rs:366-370 | keeps the list strictly sorted and adds exactly the id |
| Derived.PostingRemoved | src/index/segmented.rs:373-377 | keeps the list strictly sorted and removes exactly the id |
| Derived.MetadataIndex.IndexPostings | src/index/segmented.rs:623-627 | the first lock of an insert: the posting lists equal a recomputation that includes the record, all else is as before |
| Derived.MetadataIndex.DropPostings | src/index/segmented.rs:1309-1315 | likewise for a delete, past the removal from the metadata store |
| Derived.MetadataIndex.IndexMetadata | src/index/segmented.rs:622-637 | postings, numeric fields and metadata store agree again, with the record |
| Derived.MetadataIndex.Forget | src/index/segmented.rs:1303-1327 | likewise after a delete |
| Derived.MetadataIndex.Rebuild | src/index/segmented.rs:1722-1730 | likewise after reopening from a snapshot |
| Planner.Estimate | src/index/segmented.rs:645-663 | the candidate list misses no match, is exact for a single predicate, and is no longer than any Eq's |
| Planner.Plan | src/index/segmented.rs:677-735 | Empty only when nothing matches; Scan lists cover every match and are within the limit; the graph is searched if every countable predicate matches more than the limit, with a share between that of the rarest and that of any Eq; Legacy if none is countable |
| Planner.Width | src/index/segmented.rs:899-902 | within its bounds, and the rounded-down quotient unless one of them cuts it |
| Planner.OfferedTargets | src/index/segmented.rs:804-812 | while a record is written or deleted, the candidates, filtered or not, are the match set of one version of the metadata: with the record or without it |
| Planner.ScanLayers | src/index/segmented.rs:816-860 | over any source list the source-by-source scan is the exact top-k of the candidates that can be read there |
| Planner.ReadableIff | src/index/segmented.rs:814-815 | over a list with one live copy per id, what can be read is the live map if and only if the newest copy decides |
| Planner.ScanCandidates | src/index/segmented.rs:761-860 | in any state of the store the scan arm is the exact top-k of the matches that can be read; under the newest-copy rule of all that are seen |
| Planner.SearchFiltered | src/index/segmented.rs:874-992 | over the graphs and flat blocks behind the sources, in any state of store and metadata: every planned answer to a filter is min(k, matches) distinct matches at their true distances, sorted, of the records seen (of those readable when a scan answered); exact when nothing or a scan answered; a graph arm returns the best k of matches that include all each source's own search answered, and a match in a source seen in full is missing only if nothing returned is farther; the over-fetching arm returns the best k of the 2k or more it collected, over the width the estimated share calls for; the shortcut is right while the posting lists name seen records only |
| Planner.SearchShared | src/index/segmented.rs:1378-1430 | over any list with one live copy per id: at most k distinct live records at their true distances, sorted; a record of a flat source or covered graph with at most k tombstones is missing only from a full answer with nothing farther; with such sources alone it is the k nearest live records up to ties; with any, the best k of live records that include all each source's own search answered |
| Planner.FullViewIsNearest | src/index/segmented.rs:874-1000 | whatever graph arm answered: when all records wanted lie in sources seen in full the answer is the k nearest of them up to ties |
| Planner.AllSeenIsNearest | src/index/segmented.rs:874-1000 | so when every graph is covered by the arm's width |
| Planner.PlannedIsComplete | src/index/segmented.rs:874-992 | whatever arm answered, k matches or all there are |
| SourceSearch.OverFetchAll | src/index/segmented.rs:903-925 | over any list with one live copy per id, what the over-fetching arm collects from all sources are distinct live matches; from a flat source or a graph its width covers, it leaves one out only if k collected are no farther |
| SourceSearch.TraverseAll | src/index/segmented.rs:958-988 | over any such list, walking every source under the filter collects k distinct live matches or every one there is, and leaves one out of such a source only if k collected are no farther |
| SourceSearch.Searched | src/index/segmented.rs:1397-1421 | one source of the unfiltered search: distinct live records at their true distances; when it has at most k tombstones and is flat or covered, they are all of them or k no farther than any left out |
| SourceSearch.OfferedNext | src/index/segmented.rs:1397-1425 | source after source, whatever live and allowed records an index answered are among the hits, and stay there |
| SourceSearch.FilteredBacked | src/index/segmented.rs:1399-1405 | asking for one more result per tombstone makes up for those the filter drops |
| Planner.EveryoneMatches | src/index/segmented.rs:881-890 | with posting lists that name counted records only, the single-Eq shortcut fires only when every one of them matches |
| Shortcut.StaleIff | src/index/segmented.rs:1303-1327 | at every moment the posting lists name an unseen record exactly when one is in the writer's hand, or erased and not yet dropped |
| Shortcut.ShortcutTrustedIff | src/index/segmented.rs:881-890 | at every moment the shortcut is right for all filters and all metadata if and only if they name none, or nothing is seen, or fewer records are indexed than seen |
| Shortcut.TrustedBetween | src/index/segmented.rs:881-890 | so away from the hand-over and from the middle of a delete it is right |
| Shortcut.TakenMisfires | src/index/segmented.rs:881-890 | a reachable moment of the hand-over in which the test holds and the one record seen does not match |
| Shortcut.ErasedMisfires | src/index/segmented.rs:1304-1310 | likewise in the middle of a delete |
| Quant.Fit | src/index/quant.rs:40-62 | calibration spans exactly the data in every dimension |
| Quant.HalfStep | src/index/quant.rs:70-82 | a calibrated value decodes within half a step, a constant dimension exactly |
| Quant.OutsideClamps | src/index/quant.rs:68-82 | values outside the range go to the nearer end |
| Quant.Dist | src/index/quant.rs:91-144 | the eight-lane kernel computes the distance of the query to the decoded vector |
| Quant.DistanceOne | src/index/quant.rs:113-142 | in one dimension that distance is the negated product, or the squared difference for L2 |
| Quant.DistanceConcat | src/index/quant.rs:91-144 | and dimensions add up, for either metric |
| Quant.Polarised | src/index/quant.rs:91-144 | the L2 distance from dot products alone |
| Quant.UnitsRankAlike | src/index/quant.rs:91-144 | so unit vectors rank alike under both metrics |
| Quant.ZeroIffEqual | src/index/quant.rs:91-144 | L2 distances are not negative, and zero exactly between equal vectors |
| Quant.SelfDistance | src/index/quant.rs:91-144 | the asymmetric L2 distance of a fitted vector to its code is at most the sum of (step/2)^2 |
| Frozen.FromHnsw | src/index/quant.rs:166-189 | the frozen copy has the same graph and every vector within half a step |
| Frozen.SearchWithEf | src/index/quant.rs:255-287 | reports live slots at their asymmetric distance, the first k of a locally optimal search from the end of a descent over live slots; the k nearest reachable ones when the width covers them |
| Frozen.ReportsMeans | src/index/quant.rs:280-287 | what such a report is: min(k, available) entries, ascending, each a slot's id and distance, nothing left out is closer |

## Left out

- Searches whose reads are spread over moments: StoreSearches says which records they find; what the arms do with them is proved for the sources of one moment.
- Tombstones read later than the list of their sources: a search reads both at once here.
- The graph inside a segment file: a loaded graph is an argument of Shelves.Shelf.Opened, and files hold the records alone.
- How near the answers of a graph are that its search does not cover, and how many are left of a source with more than k tombstones: the over-fetch is capped and the graph approximate. What is said of these is which search they come from (Hnsw.HnswIndex.SearchWithEf) and that nothing it answered is lost (SourceSearch.OfferedNext).
- Connectivity of large graphs: pruning can cut edges, so past min(m, ef_construction) + 1 slots exactness is stated for graphs the width covers.
- I/O errors: a failed append, a failed manifest write after rotation and the discarded commit result before a checkpoint; I/O succeeds or the process crashes.
- Floating point: rounding, NaN, infinities as data, negative zero and SIMD rounding (stored values are finite floats, computation is on reals); Eq on integers beyond 2^53 is out of the planner results.
- Serialisation, CRC and file-name formatting internals: codecs are any invertible functions, the checksum any function, names are structured values.
- Loading arbitrary index bytes: `rebuild` does not check neighbour levels, and only well-formed indexes are written.
- Changing the WAL policy or seal threshold at run time, measurement hooks, memory estimates, mmap, timing, HTTP plumbing, datasets, reports.
- The merge ceiling in the machine: merges may start at any time there, which covers the program's trigger for statements about all runs; StoreMergers has the trigger, and StoreHiding.LiveRecordHidden keeps to it.
- Parameters outside m <= m_max0 and ef_construction >= 1: degree bounds need the first and a usable insert the second.
- Planner.SearchFiltered: takes an index behind every source as given, which Live.LiveIndex.Search establishes; promises nothing about the shortcut while the posting lists name an unseen record, because it misfires there (Shortcut.TakenMisfires, Shortcut.ErasedMisfires); that a graph answer is the nearest is said of sources seen in full, because it depends on the graph for the others (Hnsw.HnswIndex.SearchWithEf).
- Segmented.SegmentedIndex.MergeSmallestPair: other workers run between its snapshot and its swap, the writer's deletes do not, because the writer is at rest in these methods; deletes that land there are in the machine (StoreMerge.DiffReplay, StoreRuns.RunRefines). With `guarded` nobody runs in between.
- One class for everything: the writer in `Live` runs the machine's blocks, and `Segmented` shows that the program's methods are made of these; the two are not one class.
- Segmented.SegmentedIndex.DeleteShared: an exact answer is promised for guarded swaps only, because an unguarded one can hide the copy (StoreHiding.LiveRecordHidden).
- Numeric.NumericFieldIndex.Estimate: needs ordered endpoints, because the code slices buckets from low to high and walks an ordered map, which demand them.
- Hnsw.HnswIndex.SearchWithEf: equal to the brute-force answer up to ties, because graph results are ordered by slot and brute force by id among equal distances.
- Segmented.SegmentedIndex.Wait: waits for the sealing side only, because a merge may run on beside a checkpoint without changing what the list holds.
- Writer.Writer.Serve: assumes guarded swaps, because otherwise a logged delete can be refused and log and memory part (Records.LogForgetsExactly says by how much).
- Checkpoint.DataDirectory.Checkpoint: the segment list is an input, because merges may go on beside it; StoreWorkers.SettledSnapshot says what it holds.
- Disk.SameRecovery: an insert record for a live id makes recovery fail here, while the program notices it only in the buffer; no log of the writer contains one (Records.PrefixReplays).
