# LSMEngine: a verified model

LSMEngine is a log-structured merge-tree store with a replicated control plane. This project models the parts whose correctness spans several functions or a whole run, and proves it.

- **Engine.** A state machine over log appends, memtable applies, freezes, the stages of a flush, compactions planned on an earlier snapshot, crashes and replay (`EngineRun`, `EngineInv`, `EngineTheorems`, `EditOrder`, `Replay`). A read looks at the memtables, then at the tables in SeqMax order, and takes the first hit. The invariant that makes this hit the newest version: all sequence numbers of a level are above those of deeper levels, level-0 tables have disjoint sequence ranges, and no key is in two tables of one deeper level. `LevelRanges` shows that key ranges inside a level do not stay disjoint, and when they meet.
- **Compaction.** Planner, k-way merge, runner, what an install does to reads, and exactly when dropping tombstones is visible (`Planner`, `MergeRunner`, `Runner`, `Controller`, `Compaction`, `Tombstones`).
- **Table set and edits.** Live, pending and released tables with pin counts, and the manifest and files beside them (`TableSet`, `TableEdit`).
- **SSTables.** Prefix-compressed blocks with adaptive restarts, index and bloom filter, whole or partitioned, the writer, point reads and range scans, compared with linear search in a sorted list (`BlockFormat` to `TableRoundTrip`), and what a read limit does to reads (`ReadLimit`).
- **Memtables and merges.** The skiplist on the heap, the sharded table built from skiplists, the map table, and the snapshot’s merging iterator (`SkipList`, `ShardedTable`, `MapTable`, `ViewMerge`).
- **Write-ahead log.** Framing, rotation, torn tails, resynchronisation and repair (`WalFormat`, `WalReplay`, `WalDamage`, `WalAppend`).
- **Control plane and commit log.** Routing, transfer, split and drain, the operation window, save and rollback, the committed-apply cursor, and raft proposals (`Routing`, `ControlState` to `ControlPlane`, `CommittedApply`, `RaftProposals`, `RaftRefusals`).

`dafny verify dfyconfig.toml` checks everything. Each mutex-protected section is one step, I/O steps are atomic, and checksums, compression, JSON and key hashes are uninterpreted functions of which only round trips and determinism are used.

## Where the code does not keep a tempting promise

Each of these has a concrete case and an exact condition.

- A memtable pinned by an open snapshot can be flushed after younger ones. Reads and recovery then go wrong for exactly the keys `PinnedFlush.ReadAfterFlushIff` and `PinnedFlush.RecoveryAfterFlushIff` name. The whole-run theorems therefore let flushes proceed in sequence order only.
- Dropping tombstones with more than two levels can bring deleted values back (`Tombstones.DropKeepsVisibleIff`, `Tombstones.DropCanResurrect`). The whole-run theorems cover dropping with size-based planning off.
- Key ranges of one level can overlap (`LevelRanges.OutputMeetsIff`, `LevelRanges.RangesOfALevelCanMeet`).
- The table set and the manifest are updated under separate locks, so two edits whose steps interleave can leave different tables in them (`TableEdit.InterleavedEditsAgreeIff`, `TableEdit.FlushAgainstCompaction`). In the engine this happens exactly when a compaction removes a table whose flush has not reached the manifest and overtakes it there (`EditOrder.CompactionFirstAgreesIff`, with a run in `EditOrder.OvertakenFlush`). The whole-run theorems leave out that one step and cover every other interleaving.
- A control state whose order holds an untrimmed name loads, but its next save loses that shard (`ControlRun.ResaveIff`, `ControlRun.UntrimmedOrderIsLost`). A split at the empty key passes the range test of a shard without a start key and is then refused by the route rebuild (`ControlSplit.SplitIff`, `ControlSplit.EmptyKeyIsRefused`).
- The memory of refused control entries does not survive a restart (`CommittedApply.EveryRunSucceedsIff`, `CommittedApply.RestartForgetsRefusals`). Callers do not see it: they ask only for entries proposed since the start, for which `CommittedApply.ProposerIsTold` holds.
- An error from a raft proposal does not mean that the proposal is not committed (`RaftProposals.LostMayBeCommitted`). Only a refusal before the proposal does, and exactly that (`RaftRefusals.MayBeCommittedIff`).
- A block larger than the configured read limit can be written and then not read (`Reader.StrictGet`, `TableRoundTrip.WriteLargeThenGet`). Point reads then answer not found for that table and go on to older ones, so they can return a stale version (`ReadLimit.EveryRunReadsPastIff`, `ReadLimit.StaleRead`).

## Model

| member | source | states |
|---|---|---|
| `EngineTheorems.EveryRunReadsTheLatest` | pkg/lsm/engine/read_service.go:15-39 | In every run of log appends, memtable applies, freezes, flush stages, compactions planned on earlier snapshots, table edits of both kinds in flight at once, crashes and replays: a serving node reads, for every key, the last write applied, and the manifest with the log above its checkpoint always determines the last logged write; where compactions drop tombstones and only level 0 is planned, the same up to a deleted key reading as absent |
| `EngineTheorems.EveryRunFirstHitIsNewest` | internal/lsm/tableset/set.go:218-229 | In every run the first live table in SeqMax order that holds a key holds its newest version among all live tables, and a key found in none is in none |
| `EngineTheorems.CrashThenReplayServesTheLog` | pkg/lsm/engine/replay.go:43-88 | A crash between any two steps, also with a flush and a compaction both between table set and manifest, followed by any complete replay with or without flushes on the way, serves the last logged write of every key |
| `EngineInv.StepKeepsInv` | pkg/lsm/engine/flush_service.go:65-76 | Every enabled step keeps the engine invariant: frozen and active memtables split the log suffix, live and manifest tables stand for log prefixes, levels are layered |
| `EngineInv.LogKeepsInv` | pkg/lsm/engine/write_service.go:188-211 | A log append keeps the invariant before the memtable has seen the write |
| `EngineInv.ApplyKeepsInv` | pkg/lsm/engine/write_service.go:188-236 | The write reaches the memtable it was assigned to even if that one was frozen meanwhile, and the invariant holds |
| `EngineInv.FreezeKeepsInv` | pkg/lsm/engine/memtable.go:40-54 | Freezing the active memtable keeps the invariant |
| `EngineInv.DropEmptyKeepsInv` | pkg/lsm/engine/memtable.go:115-129 | Removing an empty frozen memtable keeps the invariant, and in-flight writes and flushes still name the right memtable |
| `EngineInv.FlushWriteKeepsInv` | pkg/lsm/engine/flush_service.go:65-76 | Writing the table file of the oldest frozen memtable keeps the invariant |
| `EngineInv.FlushSetKeepsInv` | internal/lsm/tableedit/service.go:47-50 | Adding the flushed table to the table set keeps the invariant while the memtable is still readable, also while a compaction is installed and not yet in the manifest |
| `EngineInv.FlushManifestKeepsInv` | internal/lsm/tableedit/service.go:60-68 | Recording the table and its highest sequence number in the manifest keeps the invariant |
| `EngineInv.FlushPopKeepsInv` | pkg/lsm/engine/memtable.go:140-150 | Dropping the flushed memtable keeps the invariant |
| `EngineInv.MakePlanKeepsInv` | internal/lsm/compaction/strategy/strict_levelled.go:23-76 | Planning on the current tables keeps the invariant; the plan stays executable while flushes go on |
| `EngineInv.CompactSetKeepsInv` | internal/lsm/compaction/runtime/wiring.go:47-67 | Installing a compaction in the table set keeps the invariant, also while a flush is in the table set and not yet in the manifest, and even if the plan removes that table |
| `EngineInv.CompactManifestKeepsInv` | internal/lsm/tableedit/service.go:60-68 | Recording the compaction in the manifest keeps the invariant, unless it overtakes the flush of a table that it removed |
| `EngineInv.CrashKeepsInv` | pkg/lsm/engine/replay.go:43-49 | After a crash at any point, the manifest tables and the log satisfy the invariant of a node about to replay |
| `EngineInv.ReplayKeepsInv` | internal/lsm/bootstrap/replay.go:26-70 | Replaying further log records keeps the invariant |
| `EngineInv.ReplayFlushKeepsInv` | pkg/lsm/engine/replay.go:90-115 | Flushing a full memtable during replay keeps the invariant |
| `EngineInv.ReplayDoneKeepsInv` | pkg/lsm/engine/replay.go:43-88 | A node that has replayed everything may serve |
| `EngineInv.InitInv` | pkg/lsm/engine/replay.go:43-49 | The empty store satisfies the invariant |
| `EngineInv.LiveTables` | internal/lsm/tableedit/service.go:39-68 | The live set stands for a prefix of the log with any flush and any compaction in flight |
| `EngineInv.CompactionTables` | internal/lsm/compaction/runner/runner.go:25-62 | A compaction’s tables stand for the same log prefix, up to deleted keys where tombstones are dropped |
| `EngineInv.InstallsCommuteIff` | internal/lsm/tableedit/service.go:39-68 | A flush and a compaction give the same tables in either order if and only if the compaction does not remove the flushed table |
| `EditOrder.FlushFirstAgrees` | internal/lsm/tableedit/service.go:39-68 | With both edits in flight, the manifest that takes the flush first ends equal to the live set |
| `EditOrder.CompactionFirstAgreesIff` | internal/lsm/tableedit/service.go:39-68 | The manifest that takes the compaction first ends equal to the live set if and only if the compaction did not remove the table in flight; otherwise it lists a table that is not live |
| `EditOrder.OvertakenFlush` | internal/lsm/tableedit/service.go:39-68 | A run of nine steps the source allows that ends with a removed table in the manifest |
| `Replay.Recovery.ReplayWAL` | internal/lsm/bootstrap/replay.go:26-70 | Batched replay above the checkpoint ends in a serving state in which every key reads its last logged write and the sequence counter is above every logged one |
| `Replay.Recovery.Deliver` | internal/lsm/bootstrap/replay.go:52-62 | One record: skipped at or below the checkpoint, batched otherwise, full batches applied; nothing above the checkpoint is lost or repeated |
| `Replay.Recovery.ApplyBatch` | pkg/lsm/engine/replay.go:53-67 | A batch reaches the memtable, a full memtable is flushed, and the counter becomes the maximum seen |
| `Replay.Recovery.FlushMemtable` | pkg/lsm/engine/replay.go:90-115 | The memtable becomes a level-0 table recorded in the manifest, and the replay position still describes the node |
| `PinnedFlush.ReadAfterFlushIff` | pkg/lsm/engine/memtable.go:76-93 | Flushing any frozen memtable, whatever its age: a key then reads its last write if and only if it is not the case that this memtable and an older one hold the key and no younger one does |
| `PinnedFlush.RecoveryAfterFlushIff` | internal/lsm/tableedit/service.go:60-68 | After that flush a restart recovers a key if and only if it is not the case that an older memtable holds it and neither this nor a younger one does |
| `PinnedFlush.OldestFirstIsSafe` | pkg/lsm/engine/memtable.go:76-93 | Flushing in sequence order makes both conditions hold for every key |
| `PinnedFlush.OutOfOrderFlushFails` | pkg/lsm/engine/memtable.go:76-93 | A snapshot-pinned memtable flushed second: a stale read and a lost write, concretely |
| `PinnedFlush.PinnedIsQuiet` | pkg/lsm/engine/memtable.go:56-93 | That situation satisfies the engine invariant and allows the younger flush |
| `Tables.FirstHitIsNewest` | pkg/lsm/engine/read_service.go:27-37 | In a layered set (levels ordered by sequence, level 0 by disjoint sequence ranges, deeper levels by disjoint keys) read in SeqMax order, the first hit is the newest version |
| `Tables.LookupSound` | pkg/lsm/engine/read_service.go:27-37 | A lookup returns the first table that holds the key, and finds nothing only when no table holds it |
| `Tables.SharedKeyOrders` | internal/lsm/tableset/set.go:218-229 | Two layered tables that share a key are ordered by SeqMax as their versions are |
| `Planner.Next` | internal/lsm/compaction/strategy/strict_levelled.go:23-76 | The plan is all of level 0 once the file threshold is met, otherwise all of the first over-target level, plus the overlapping tables of the next level; none otherwise |
| `Planner.NextOversized` | internal/lsm/compaction/strategy/strict_levelled.go:47-75 | The search for an over-target level stops at the first level without tables |
| `Planner.OverLimit` | internal/lsm/compaction/strategy/strict_levelled.go:59-63 | A level is over its limit when its total size exceeds the target and the target did not wrap to zero |
| `Planner.PlanShape` | internal/lsm/compaction/strategy/strict_levelled.go:36-76 | The planner’s inputs, without repetition, are exactly one whole level and the tables of the next level whose range meets one of theirs |
| `Planner.StateFromMetas` | internal/lsm/compaction/state.go:12-25 | Levels ascend, and each lists exactly the tables of that level |
| `Planner.LevelByID` | internal/lsm/compaction/strategy/strict_levelled.go:78-85 | Finds the level, or there is none |
| `Planner.LevelSizeBytes` | internal/lsm/compaction/strategy/strict_levelled.go:87-93 | The sum of table sizes in 64-bit arithmetic |
| `Planner.LevelTargetBytes` | internal/lsm/compaction/strategy/strict_levelled.go:95-104 | base times multiplier to the level minus one, in 64-bit arithmetic |
| `Planner.OverlapTables` | internal/lsm/compaction/strategy/strict_levelled.go:106-120 | Exactly the tables whose range meets an input’s, in order |
| `Planner.OverlappingMembers` | internal/lsm/compaction/strategy/strict_levelled.go:106-120 | A table is listed exactly when its range meets some input’s |
| `Planner.Dedupe` | internal/lsm/compaction/strategy/strict_levelled.go:135-149 | Keeps the first table of each path |
| `Planner.DedupedMembers` | internal/lsm/compaction/strategy/strict_levelled.go:135-149 | Deduplication loses no table and leaves different paths |
| `Planner.NoOverlapNoSharedKey` | internal/lsm/compaction/strategy/strict_levelled.go:122-133 | Tables whose ranges do not meet share no key |
| `Compaction.EditedMembers` | internal/lsm/tableset/set.go:176-229 | An edit leaves exactly the kept and the added tables, in read order |
| `Compaction.FlushKeepsLayers` | pkg/lsm/engine/flush_service.go:65-76 | Installing a newest level-0 table keeps the levels layered |
| `Compaction.FlushLookup` | pkg/lsm/engine/flush_service.go:65-76 | After an in-order flush the new table answers for its keys and every other key reads as before |
| `Compaction.PlanningOk` | internal/lsm/compaction/strategy/strict_levelled.go:23-76 | A plan of the planner can be executed on the tables it was made from |
| `Compaction.FlushKeepsPlan` | internal/lsm/compaction/strategy/strict_levelled.go:23-76 | A pending plan stays executable however many flushes happen before it runs |
| `Compaction.CompactionKeepsLayers` | internal/lsm/compaction/runner/runner.go:25-62 | Installing a compaction keeps the levels layered, with or without dropped tombstones |
| `Compaction.CompactionKeepsReads` | internal/lsm/compaction/runner/runner.go:25-62 | With tombstones kept, a compaction changes no read |
| `Compaction.NewestSurvives` | internal/lsm/compaction/runner/runner.go:109-151 | The newest version of a key survives a compaction unless it is a dropped tombstone |
| `Compaction.SameLookup` | pkg/lsm/engine/read_service.go:27-37 | Two layered sets with the same versions of a key read it the same |
| `LevelRanges.OutputMeetsIff` | internal/lsm/compaction/strategy/strict_levelled.go:106-133 | The output’s key range meets a table that stays at its level if and only if an input met it or inputs lie on both sides of it |
| `LevelRanges.RangesOfALevelCanMeet` | internal/lsm/compaction/strategy/strict_levelled.go:23-76 | Ranges inside a level do not stay disjoint: a planned compaction whose output spans a level-1 table it leaves alone |
| `LevelRanges.OutputCovers` | internal/lsm/compaction/runner/runner.go:109-151 | The output’s range covers every input’s |
| `Tombstones.DropKeepsVisibleIff` | internal/lsm/compaction/runner/runner.go:145-148 | A compaction that drops tombstones keeps what a key shows if and only if the key is not deleted over a visible version outside the plan |
| `Tombstones.TwoLevelDropIsSafe` | internal/lsm/compaction/runtime/wiring.go:47-67 | With only levels 0 and 1 every such compaction keeps what every key shows |
| `Tombstones.DropCanResurrect` | internal/lsm/compaction/runner/runner.go:145-148 | With a deeper level a planned compaction can bring a deleted value back |
| `Tombstones.DeletedReadsOutside` | internal/lsm/compaction/runner/runner.go:145-148 | A deleted key then reads exactly what the tables outside the plan hold |
| `MergeRunner.MergeEntries` | internal/lsm/compaction/runner/runner.go:109-151 | Fails exactly when an input iterator fails; otherwise keys strictly increase and each key of any input has exactly one entry, maximal by sequence and then tombstone, left out only if it is a tombstone and dropping is on |
| `MergeRunner.BestOf` | internal/lsm/compaction/runner/runner.go:129-135 | The newest entry of a group, a tombstone winning a tie |
| `MergeRunner.AdvanceIterator` | internal/lsm/compaction/runner/runner.go:153-169 | Moves past every remaining entry of the key |
| `MergeRunner.AdvanceGroup` | internal/lsm/compaction/runner/runner.go:136-144 | After a round every input has moved past the key and the heap holds the heads of all that have more |
| `MergeHeads.PopGroup` | internal/lsm/compaction/runner/runner.go:121-128 | Pops exactly the heads under the least key; everything left is above it |
| `MergeHeads.OpenAll` | internal/lsm/compaction/runner/runner.go:110-118 | The heap holds the first entry of every non-empty input; an input that fails at once fails the merge |
| `Runner.Run` | internal/lsm/compaction/runner/runner.go:25-62 | Nothing for an empty plan, failure exactly when no table resolves or one cannot be read, otherwise one table with the merge of the inputs at the output level, or none if all was dropped, and every input obsolete |
| `Controller.Merge` | internal/lsm/compaction/controller/controller.go:43-50 | Resolving a plan in the live set and merging gives precisely an output a compaction may install; it fails exactly when a planned table is gone or a picked one cannot be read |
| `Controller.Step` | internal/lsm/compaction/controller/controller.go:28-57 | One cycle: nothing without a plan; otherwise the live set becomes the compacted one and the manifest mirrors it if it did; a failure before the install changes nothing, and one in the save leaves the manifest |
| `Ordering.HeapPop` | internal/lsm/compaction/runner/runner.go:77-107 | Removes a least element and keeps heap order and the other elements |
| `Ordering.HeapPush` | internal/lsm/compaction/runner/runner.go:97-99 | Adds one element and keeps heap order |
| `Ordering.HeapInit` | internal/lsm/compaction/runner/runner.go:118 | Makes a heap of the same elements |
| `Ordering.SortSorts` | internal/lsm/tableset/set.go:218-229 | Sorting by a strict weak order yields a sorted list |
| `Ordering.SortIsPermutation` | internal/lsm/tableset/set.go:218-229 | Sorting is a permutation |
| `TableSet.Set.Apply` | internal/lsm/tableset/set.go:176-216 | The live list becomes the edited one in read order; what leaves is pending while pinned and released otherwise; every table ever added is in exactly one place, released once, and the index matches the list |
| `TableSet.Set.SnapshotAndPin` | internal/lsm/tableset/set.go:92-108 | Hands out the live list and adds one pin per table, keeping every table in its place |
| `TableSet.Set.UnpinPath` | internal/lsm/tableset/set.go:119-135 | Gives one pin back; the table is released exactly when it was pending and this was its last pin |
| `TableSet.Set.Unpin` | internal/lsm/tableset/set.go:111-137 | Gives pins back in any number; what is released was pending and has no pin left, and what stays pending is exactly the rest |
| `TableSet.Set.Resolve` | internal/lsm/tableset/set.go:158-173 | Fails exactly when a path is not live, and otherwise returns the live tables in the order asked for |
| `TableSet.Set.constructor` | internal/lsm/tableset/set.go:36-46 | An empty set with nothing pinned, pending or released |
| `TableSet.FilterInPlace` | internal/lsm/tableset/set.go:186-203 | The in-place filter keeps and removes exactly the tables whose path is not, or is, in the edit, in order |
| `TableSet.BuildIndex` | internal/lsm/tableset/set.go:218-229 | The index maps each path to its position |
| `TableSet.AfterEdit` | internal/lsm/tableset/set.go:176-216 | An edit moves tables between live, pending and released without losing or doubling one |
| `TableSet.PinAll` | internal/lsm/tableset/set.go:102-106 | Pin counts equal the pins held |
| `TableSet.UnpinOne` | internal/lsm/tableset/set.go:120-134 | A returned pin lowers the count, and the count vanishes exactly with the last pin |
| `TableEdit.Service.Apply` | internal/lsm/tableedit/service.go:39-85 | Table set, manifest and files in that order: on success the manifest holds the merged edit, and mirrors the table set if it did before, the checkpoint moves only if given, exactly the unpinned removed files are deleted, and no live or pending table loses its file; a manifest that cannot be saved changes neither manifest nor files |
| `TableEdit.MergeManifestTables` | internal/lsm/tableedit/service.go:127-152 | Sorted by SeqMax and path, and exactly the kept and the last added entry of each path |
| `TableEdit.ManifestMirrors` | internal/lsm/tableedit/service.go:127-152 | Merging an edit into the manifest gives the metadata of the edited table set |
| `TableEdit.InterleavedEditsAgreeIff` | internal/lsm/tableedit/service.go:39-68 | Two edits that reach table set and manifest in different orders leave the same tables in both if and only if neither removes what the other adds |
| `TableEdit.FlushAgainstCompaction` | internal/lsm/tableedit/service.go:39-68 | A flush that adds a table against a compaction that removes it: one order leaves nothing, the other the table |
| `SkipList.SkipList.Upsert` | internal/lsm/memtable/skiplist/skiplist.go:82-109 | The contents become the old run with the entry at its place or over its key; the previous entry and whether it was new are reported; every level stays a sorted sublist and heights stay in 1..18 |
| `SkipList.SkipList.Get` | internal/lsm/memtable/skiplist/skiplist.go:72-78 | Agrees with linear search in the contents |
| `SkipList.SkipList.FindPrev` | internal/lsm/memtable/skiplist/skiplist.go:146-157 | Finds the last node below the key and, on every level, the node whose link passes it |
| `SkipList.SkipList.RandomLevel` | internal/lsm/memtable/skiplist/skiplist.go:111-117 | Heights lie in 1..18 for every generator state |
| `SkipList.SkipList.Insert` | internal/lsm/memtable/skiplist/skiplist.go:91-108 | Links a node of any height in at its place on all its levels |
| `SkipList.SkipList.IterFrom` | internal/lsm/memtable/skiplist/skiplist.go:127-129 | The iterator stands just before the first key at or above the start |
| `SkipList.SkipList.From` | internal/lsm/memtable/skiplist/skiplist.go:127-137 | Driving it yields exactly the entries from the start on, in order |
| `SkipList.Iter.Next` | internal/lsm/memtable/skiplist/skiplist.go:131-137 | Moves to the next node until the end |
| `SkipList.SkipList.constructor` | internal/lsm/memtable/skiplist/skiplist.go:58-66 | An empty list |
| `SkipList.LevelsNest` | internal/lsm/memtable/skiplist/skiplist.go:82-109 | What a level visits is also visited by the level below |
| `SkipList.WalkVisits` | internal/lsm/memtable/skiplist/skiplist.go:146-157 | A level visits exactly the nodes tall enough, in order |
| `Memtable.RunReads` | internal/lsm/memtable/skiplist/skiplist.go:72-109 | The run of a write sequence is sorted and reads back the last write of every key |
| `Memtable.PutFind` | internal/lsm/memtable/skiplist/skiplist.go:82-109 | A write is read back and changes no other key |
| `Memtable.PutLength` | internal/lsm/memtable/skiplist/skiplist.go:82-109 | The length grows exactly for a new key |
| `ShardedTable.Table.ApplyOwned` | internal/lsm/memtable/table/sharded_skiplist_table.go:71-85 | The write is the last of its key; lists, entry and byte counters and total size describe the new run, and the sequence is the maximum |
| `ShardedTable.Table.ApplyBatchOwned` | internal/lsm/memtable/table/sharded_skiplist_table.go:119-152 | A batch applied shard by shard ends in the state of applying its entries one by one in order |
| `ShardedTable.Table.Get` | internal/lsm/memtable/table/sharded_skiplist_table.go:154-160 | Agrees with the last write |
| `ShardedTable.Table.Size` | internal/lsm/memtable/table/sharded_skiplist_table.go:162-164 | The byte size of the run |
| `ShardedTable.Table.Range` | internal/lsm/memtable/table/sharded_skiplist_table.go:219-225 | Exactly the run’s entries in range, in key order |
| `ShardedTable.Table.SnapshotRange` | internal/lsm/memtable/table/sharded_skiplist_table.go:287-309 | Merging the shards’ segments gives the range of the whole run |
| `ShardedTable.Table.Drain` | internal/lsm/memtable/table/sharded_skiplist_table.go:198-213 | Returns the whole run in order and leaves an empty table with the same sequence |
| `ShardedTable.Table.constructor` | internal/lsm/memtable/table/sharded_skiplist_table.go:57-68 | Empty lists, one per shard |
| `ShardedTable.Table.BumpSeq` | internal/lsm/memtable/table/sharded_skiplist_table.go:259-266 | The sequence never decreases and becomes the maximum |
| `ShardedTable.CollectShardEntries` | internal/lsm/memtable/table/sharded_skiplist_table.go:311-324 | A shard’s entries from the start key up to the end key |
| `ShardedTable.MergeEntries` | internal/lsm/memtable/table/sharded_skiplist_table.go:356-378 | The heap merge of disjoint sorted segments is sorted and holds exactly their entries |
| `ShardedTable.Distribute` | internal/lsm/memtable/table/sharded_skiplist_table.go:123-131 | Splits a batch over the shards, keeping order, and finds the highest sequence |
| `ShardedTable.UpsertAt` | internal/lsm/memtable/table/sharded_skiplist_table.go:75-83 | A write to one shard’s list leaves the other lists alone |
| `ShardedTable.SameSharded` | internal/lsm/memtable/table/sharded_skiplist_table.go:119-152 | Writes in another order, the same for every shard, leave the same table |
| `ShardedTable.NextPow2` | internal/lsm/memtable/table/sharded_skiplist_table.go:276-285 | The least power of two at or above the count |
| `ShardedTable.MaskIsRemainder` | internal/lsm/memtable/table/sharded_skiplist_table.go:248-251 | Masking with a power of two less one is the remainder, so the shard exists |
| `MapTable.Table.ApplyOwned` | internal/lsm/memtable/table/map_table.go:47-55 | The write is the last of its key; buckets, keys and size describe the new run |
| `MapTable.Table.ApplyBatchOwned` | internal/lsm/memtable/table/map_table.go:63-73 | A batch is its entries one by one |
| `MapTable.Table.GetByKey` | internal/lsm/memtable/table/map_table.go:208-217 | Agrees with the last write, whatever keys share its hash |
| `MapTable.Table.SetEntry` | internal/lsm/memtable/table/map_table.go:192-206 | Replaces in the bucket or appends, returning the entry it replaced |
| `MapTable.Table.UpdateEntry` | internal/lsm/memtable/table/map_table.go:183-190 | The size stays the byte size of the run |
| `MapTable.Table.Range` | internal/lsm/memtable/table/map_table.go:131-162 | Exactly the run’s entries in range, in key order |
| `MapTable.Table.Size` | internal/lsm/memtable/table/map_table.go:81-85 | The byte size of the run |
| `MapTable.Table.Drain` | internal/lsm/memtable/table/map_table.go:103-125 | Returns the whole run in order and leaves an empty table |
| `MapTable.Table.constructor` | internal/lsm/memtable/table/map_table.go:38-44 | An empty table |
| `RunFacts.SameRuns` | internal/lsm/memtable/table/sharded_skiplist_table.go:71-85 | Equal last writes mean equal runs, so both tables hold the same run after the same writes |
| `ViewMerge.Range` | pkg/lsm/engine/snapshot.go:94-106 | Driving the merge fails exactly when a source fails; otherwise it yields, in strictly increasing key order, under every key what the first source that holds it shows, and nothing for tombstones |
| `ViewMerge.RangeAgreesWithGet` | pkg/lsm/engine/snapshot.go:73-106 | Cutting every source to the range shows under a key in range what a point read shows, and nothing outside |
| `ViewMerge.ViewMerge.Next` | pkg/lsm/engine/view_iterator.go:174-217 | Yields the next shown key with its deciding entry, or has used up every source |
| `ViewMerge.ViewMerge.TakeGroup` | pkg/lsm/engine/view_iterator.go:182-214 | Takes the group of the least key; the least source decides it; tombstones show nothing |
| `ViewMerge.ViewMerge.AdvancePending` | pkg/lsm/engine/view_iterator.go:235-250 | Moves on every source of the last group, lazily |
| `ViewMerge.ViewMerge.constructor` | pkg/lsm/engine/view_iterator.go:148-172 | Opens every source, or reports a failing one |
| `BlockBuilder.Builder.Add` | internal/lsm/sstable/format/block.go:65-81 | The block holds one more entry, restarted exactly at multiples of the interval; the interval changes only at an adaptive restart |
| `BlockBuilder.Builder.NextEntrySizing` | internal/lsm/sstable/format/block.go:125-139 | The shared prefix with the previous key, none at a restart |
| `BlockBuilder.Builder.AdaptRestartInterval` | internal/lsm/sstable/format/block.go:141-158 | The interval stays between its bounds and within one of the minimum plus the compressed share of the span, which is as exact as floating point is |
| `BlockBuilder.Builder.SizeBytes` | internal/lsm/sstable/format/block.go:94-99 | The exact length of the finished block |
| `BlockBuilder.Builder.EstimatedSizeAfter` | internal/lsm/sstable/format/block.go:101-109 | The exact length it would have with one more entry |
| `BlockBuilder.Builder.Finish` | internal/lsm/sstable/format/block.go:111-123 | The encoding of the added entries with their restarts |
| `BlockBuilder.Builder.Reset` | internal/lsm/sstable/format/block.go:83-92 | An empty block at the base interval |
| `BlockBuilder.Builder.constructor` | internal/lsm/sstable/format/block.go:37-63 | Bounds and interval after defaults and clamping |
| `BlockBuilder.CommonPrefixLen` | internal/lsm/sstable/format/block.go:390-401 | The longest common prefix |
| `BlockFormat.ParseEncoded` | internal/lsm/sstable/format/block.go:317-384 | Parsing an encoded entry gives it back, whatever surrounds it |
| `BlockFormat.ParseAt` | internal/lsm/sstable/format/block.go:317-360 | Parsing at an entry’s offset with its predecessor’s key gives the entry and the next offset |
| `BlockFormat.RestartsAre` | internal/lsm/sstable/format/block.go:65-81 | The recorded restart offsets are those of the restarted entries |
| `BlockReader.Decode` | internal/lsm/sstable/format/block.go:188-236 | Accepts exactly the well-formed payloads, and returns their data, restarts and restart keys |
| `BlockReader.DecodePayload` | internal/lsm/sstable/format/block.go:188-236 | Decoding a finished block gives its data, restart offsets and restart keys |
| `BlockReader.Cursor.Next` | internal/lsm/sstable/format/block.go:317-360 | Parses one entry in place; the state moves only with an entry |
| `BlockReader.Cursor.Advance` | internal/lsm/sstable/format/block.go:317-360 | A cursor at entry i yields entry i and stands at i + 1, and ends after the last |
| `BlockReader.Cursor.constructor` | internal/lsm/sstable/format/block.go:304-315 | Limit and offset after clamping |
| `BlockReader.ReadFrom` | internal/lsm/sstable/format/block.go:317-360 | A cursor from any restart reproduces exactly the entries from there on |
| `BlockReader.FindView` | internal/lsm/sstable/format/block.go:246-277 | Restart search plus scan agrees with linear search in the entries |
| `BlockReader.Seek` | internal/lsm/sstable/format/block.go:279-302 | Finds the first entry at or above the key, with a cursor behind it, or says that all are below |
| `BlockReader.SeekRestartFinds` | internal/lsm/sstable/format/block.go:246-262 | The binary search finds the last restart at or below the key |
| `Envelope.SealOpens` | internal/lsm/sstable/format/format.go:74-140 | Decoding an encoded block gives its payload back, compressed or not, and is an error for any other block type |
| `Envelope.FooterReadsBack` | internal/lsm/sstable/format/format.go:150-183 | The footer survives encoding |
| `Envelope.MetaReadsBack` | internal/lsm/sstable/format/meta.go:27-82 | The metadata survives encoding |
| `IndexFormat.EncodeIndex` | internal/lsm/sstable/format/index.go:19-30 | The concatenated index entries |
| `IndexFormat.DecodeIndex` | internal/lsm/sstable/format/index.go:32-55 | The entries the bytes describe, or an error for a cut one |
| `IndexFormat.IndexReadsBack` | internal/lsm/sstable/format/index.go:19-55 | Decoding an encoded index gives it back |
| `IndexFormat.FindBlock` | internal/lsm/sstable/flow_pipeline.go:874-894 | The last block whose first key is at or below the key, or none |
| `Bloom.Filter.Add` | internal/lsm/sstable/bloom/bloom.go:42-53 | The key may be contained from now on, no key is forgotten, and every bit that appears is a probe of the key |
| `Bloom.Filter.MayContain` | internal/lsm/sstable/bloom/bloom.go:55-69 | True exactly when all probes of the key are set |
| `Bloom.Contains` | internal/lsm/sstable/bloom/bloom.go:55-69 | The probe loop on a decoded filter decides the same |
| `Bloom.Filter.constructor` | internal/lsm/sstable/bloom/bloom.go:20-40 | Size and probe count within their bounds, no bit set |
| `Bloom.FilterReadsBack` | internal/lsm/sstable/bloom/bloom.go:71-92 | A filter survives encoding |
| `Writer.Flush` | internal/lsm/sstable/writer.go:90-301 | No file exactly for no entries; otherwise the file holds, at the recorded places, data blocks that cut the sorted entries, index, filters covering every key, metadata with true bounds and counts, and footer |
| `Writer.SortedStays` | internal/lsm/sstable/writer.go:94-106 | Strictly sorted entries are written in their order |
| `Writer.WriteBlocks` | internal/lsm/sstable/writer.go:133-180 | The blocks cut the entries completely and in order, the filter covers them, and the sequence bounds are true |
| `Writer.AddEntry` | internal/lsm/sstable/writer.go:149-172 | Each entry goes into exactly one block, whichever size limit ends a block |
| `Writer.FlushBlock` | internal/lsm/sstable/writer.go:303-325 | The block is appended, its index entry names it, and the builder starts over |
| `Writer.WriteIndexPartitions` | internal/lsm/sstable/writer.go:204-226 | Every partition stores its part of the index and the top index names it by its first key |
| `Writer.WriteIndex` | internal/lsm/sstable/writer.go:204-235 | The stored top index, partitioned or whole |
| `Writer.WritePartitionedFilters` | internal/lsm/sstable/bloom/bloom.go:123-160 | Every partition’s filter covers exactly the entries of its blocks |
| `Writer.FilterOf` | internal/lsm/sstable/bloom/bloom.go:134-144 | The filter of a run of blocks covers all their entries |
| `Writer.WriteFilters` | internal/lsm/sstable/writer.go:185-202 | Whole, partitioned or absent, as configured |
| `Writer.WriteFilterTop` | internal/lsm/sstable/writer.go:237-247 | The stored filter index of a partitioned filter |
| `Writer.FileIsWhole` | internal/lsm/sstable/writer.go:249-285 | Index, metadata and footer make the file one that describes the entries |
| `TableFile.SlotFinds` | internal/lsm/sstable/flow_pipeline.go:544-568 | A key can only be in the block its slot in the index names |
| `TableFile.NotCoveredIsAbsent` | internal/lsm/sstable/flow_pipeline.go:678-709 | A key that a covering filter denies is not in the entries |
| `Reader.Open` | internal/lsm/sstable/reader.go:46-175 | Opens every intact file and recovers its index, metadata and filters |
| `Reader.IndexFind` | internal/lsm/sstable/flow_pipeline.go:544-568 | Names the one block that can hold the key, through one or two index levels, or none when the key is absent |
| `Reader.MayContain` | internal/lsm/sstable/flow_pipeline.go:678-709 | Never denies a key that is there, whole or partitioned filter |
| `Reader.ReadBlockEntry` | internal/lsm/sstable/flow_pipeline.go:208-363 | Gives the decoded block, or an error exactly when it exceeds the read limit |
| `Reader.Process` | internal/lsm/sstable/flow_pipeline.go:186-317 | Each node hands on towards the answer, in decreasing rank |
| `Reader.Get` | internal/lsm/sstable/flow_pipeline.go:186-206 | A point read through filter, index, fetch and decode finds what linear search finds; an error means exactly that the key’s block exceeds the read limit |
| `Reader.OneBlockDecides` | internal/lsm/sstable/flow_pipeline.go:544-568 | Whether a read is blocked depends on the one block that can hold the key |
| `Reader.StrictGet` | internal/lsm/sstable/reader.go:263-280 | A strict point read of a stored key is an error if and only if its block exceeds the read limit, and the entry otherwise |
| `ReadLimit.Handle.GetView` | internal/lsm/sstable/reader.go:235-259 | The legacy read answers not found where the strict one is an error, and under the drop policy from then on for every key |
| `ReadLimit.GetFromTables` | pkg/lsm/engine/read_service.go:27-37 | A read over the tables passes by the silent ones |
| `ReadLimit.PastIsNewest` | pkg/lsm/engine/read_service.go:27-37 | It gives the newest version that the other tables hold |
| `ReadLimit.PastIff` | pkg/lsm/engine/read_service.go:27-37 | It agrees with a read of all tables if and only if the table with the newest version is not silent; otherwise it gives an older version or nothing |
| `ReadLimit.EveryRunReadsPastIff` | pkg/lsm/engine/read_service.go:15-39 | In every run such a read gives what an unlimited one does, the last applied write, if and only if a memtable holds the key or the table with its newest version is not silent |
| `ReadLimit.StaleRead` | internal/lsm/sstable/reader.go:248-254 | Two versions of a key, the newer in a block above the limit: the older is read |
| `TableRoundTrip.WriteThenGet` | internal/lsm/sstable/writer.go:90-301 | Writing any strictly sorted entries with any setting and reading any key gives what linear search gives, sizes within their fields; a stored key is an error instead if and only if its block exceeds the read limit |
| `TableRoundTrip.LargeIsOver` | internal/lsm/sstable/writer.go:156-164 | Without compression, an entry whose value is as long as the read limit lies in a block above it |
| `TableRoundTrip.WriteLargeThenGet` | internal/lsm/sstable/writer.go:156-164 | Such an entry is written, and reading it back fails |
| `RangeScan.Scan` | internal/lsm/sstable/reader.go:324-438 | Driving the iterator to its end yields exactly the entries in [start, end), in order and once each, and terminates |
| `RangeScan.RangeIterator.Next` | internal/lsm/sstable/reader.go:338-411 | Yields the next entry in range exactly while there is one |
| `RangeScan.RangeIterator.LoadPartition` | internal/lsm/sstable/reader.go:413-438 | Loads the partition that holds the start, then the following ones, without a gap |
| `RangeScan.RangeIterator.OpenBlock` | internal/lsm/sstable/reader.go:343-360 | Opens the next block, or all entries are used up |
| `RangeScan.RangeIterator.SeekStart` | internal/lsm/sstable/reader.go:362-381 | Places the cursor at the first key at or above the start, possibly in the next block |
| `RangeScan.RangeIterator.OpenCursor` | internal/lsm/sstable/reader.go:361-386 | Later blocks are read from their first entry |
| `RangeScan.RangeIterator.Take` | internal/lsm/sstable/reader.go:387-409 | Yields the held-back or next entry, stops at the end key, and moves on after a block |
| `RangeScan.RangeIterator.constructor` | internal/lsm/sstable/reader.go:324-336 | A scan that has not started |
| `RangeScan.PlanNext` | internal/lsm/sstable/flow_pipeline.go:600-635 | The first partition is the start’s, each later call gives the next one, and the end is reported once all are given |
| `RangeScan.SelectIsSlice` | internal/lsm/sstable/reader.go:338-411 | In sorted entries the range is one stretch |
| `WalFormat.BlockReadsBack` | internal/lsm/wal/codec/block.go:17-93 | A written block decodes to its records, whatever follows it |
| `WalFormat.TornBlock` | internal/lsm/wal/codec/block.go:46-93 | A block cut anywhere is damage that ends at the end of the data |
| `WalFormat.RecordsReadBack` | internal/lsm/wal/codec/record.go:46-165 | Encoded records decode to the same entries |
| `WalFormat.DecodeRecords` | internal/lsm/wal/codec/record.go:83-165 | The records the payload describes, or an error |
| `WalFormat.HeaderReadsBack` | internal/lsm/wal/codec/segment.go:22-59 | The segment header survives encoding |
| `WalAppend.Log.AppendLocked` | internal/lsm/wal/wal_append.go:83-100 | An admissible entry is accepted in order, a block it does not fit being ended first; any other is refused without a trace |
| `WalAppend.Log.FlushBlock` | internal/lsm/wal/wal_append.go:128-145 | The block under construction is appended to the segment, which rotates when full; nothing accepted is lost |
| `WalAppend.Log.Rotate` | internal/lsm/wal/wal_append.go:273-300 | A new segment with the next id; what was written stays |
| `WalAppend.Log.ProcessBatch` | internal/lsm/wal/wal_append.go:174-211 | Exactly the admissible entries of a batch are logged, in order, and all of it is in segments afterwards |
| `WalAppend.Log.Replay` | internal/lsm/wal/wal_replay.go:21-54 | After a cut of the active segment replay delivers all rotated segments and the whole blocks before the cut, reports damage exactly when bytes remain, and the repair offset is the end of the last whole block |
| `WalAppend.Log.constructor` | internal/lsm/wal/wal_append.go:273-300 | An empty log with a segment header |
| `WalAppend.CleanSegment` | internal/lsm/wal/wal_replay.go:92-170 | An uncut segment replays in full and without damage |
| `WalReplay.TornTail` | internal/lsm/wal/wal_replay.go:92-170 | Any cut at or past the header: exactly the records of the whole blocks before it, in order; truncating at the repair offset makes a second replay clean and identical |
| `WalReplay.ReplaySegment` | internal/lsm/wal/wal_replay.go:92-170 | The segment loop, with resynchronisation after damage |
| `WalReplay.ReplayFromResync` | internal/lsm/wal/wal_replay.go:252-275 | The loop that looks for the next block that decodes after damage; what it recovers is in the next three rows |
| `WalDamage.ResyncRecovers` | internal/lsm/wal/wal_replay.go:252-275 | When no block magic lies between the point where reading stopped and the next whole block, that block is delivered |
| `WalDamage.DamageIsSkipped` | internal/lsm/wal/wal_replay.go:92-170 | From damage on, that block and all later whole blocks are delivered |
| `WalDamage.BothSidesAreDelivered` | internal/lsm/wal/wal_replay.go:92-170 | Blocks, damage, blocks: the records of both sides, in order, and the repair offset behind them |
| `WalReplay.ResyncBlock` | internal/lsm/wal/codec/block.go:96-116 | The sliding window finds the first magic at or after a position |
| `Routing.BuildShardRoutes` | pkg/lsm/engine/control_plane.go:897-951 | Accepts exactly the layouts whose order lists every shard once with valid, ascending, disjoint ranges, and returns their routes |
| `Routing.RouteForKey` | pkg/lsm/engine/control_plane.go:480-497 | The binary search over accepted routes agrees with the linear scan |
| `Routing.RangesApart` | pkg/lsm/engine/control_plane.go:897-951 | Accepted ranges do not overlap |
| `Routing.OneRange` | pkg/lsm/server/server.go:768-779 | At most one accepted range contains a key |
| `ControlState.OwnerIff` | pkg/lsm/server/server.go:768-779 | A shard owns a key if and only if its range contains it |
| `ControlState.OneOwner` | pkg/lsm/server/server.go:768-779 | No key has two owners |
| `ControlState.OrderIsKeys` | pkg/lsm/engine/control_plane.go:897-951 | The accepted order names exactly the shards |
| `ControlState.TransferKeepsOk` | pkg/lsm/engine/control_payload.go:45-68 | A transfer keeps the layout accepted |
| `ControlState.TransferMoves` | pkg/lsm/engine/control_payload.go:45-68 | The target leads the shard, alone among its replicas and added if it was none; ranges and other shards stay |
| `ControlState.DrainKeepsOk` | pkg/lsm/engine/control_payload.go:106-146 | A drain keeps the layout accepted |
| `ControlState.DrainMoves` | pkg/lsm/engine/control_payload.go:106-146 | Every shard led by the node goes to a healthy replica elsewhere, every other shard and all ranges stay, and draining is set only on the node itself |
| `ControlSplit.SplitIff` | pkg/lsm/engine/control_payload.go:70-104 | A split strictly inside a shard’s range succeeds if and only if the key is not empty, and keeps the layout accepted |
| `ControlSplit.EmptyKeyIsRefused` | pkg/lsm/engine/control_payload.go:70-104 | A single unbounded shard cannot be split at the empty key, which is inside its range |
| `ControlSplit.SplitOwners` | pkg/lsm/engine/control_payload.go:70-104 | Every key of the split shard goes to exactly one half, with the same leader; every other key keeps its shard |
| `ControlSplit.SplitKeepsCover` | pkg/lsm/engine/control_payload.go:70-104 | A key is covered after the split if and only if it was before |
| `ControlSplit.UniqueShardID` | pkg/lsm/engine/control_plane.go:499-509 | The numbering loop ends with a name no shard has |
| `ControlSplit.HalfNames` | pkg/lsm/engine/control_payload.go:84-87 | The halves get different fresh names |
| `ControlLog.StepIsShared` | pkg/lsm/engine/control_plane.go:574-624 | From states that differ only in draining, any entry has the same outcome on every node and leaves states that differ only in draining |
| `ControlLog.RejectedMovesOnlyIndex` | pkg/lsm/engine/control_plane.go:574-624 | A rejected entry moves nothing but the applied index |
| `ControlLog.StepKeepsOk` | pkg/lsm/engine/control_plane.go:574-624 | Every entry keeps the state well formed |
| `ControlLog.NoteKeepsOps` | pkg/lsm/engine/control_plane.go:642-665 | The window keeps the newest operations, each once, and no more than its bound |
| `ControlLog.RetryIsNoop` | pkg/lsm/engine/control_plane.go:626-640 | Retrying an operation in the window changes nothing but the applied index |
| `ControlLog.AppliedIsRemembered` | pkg/lsm/engine/control_plane.go:642-665 | An applied operation is the newest in the window |
| `ControlRun.SavedReturns` | pkg/lsm/engine/control_plane.go:776-871 | Saving and loading a well-formed state gives it back, and the load accepts it |
| `ControlRun.ResaveIff` | pkg/lsm/engine/control_plane.go:776-871 | A loaded state is saved in loadable form again if and only if its order names are trimmed |
| `ControlRun.UntrimmedOrderIsLost` | pkg/lsm/engine/control_plane.go:819-841 | A state with an untrimmed order name loads but is saved with an empty shard |
| `ControlNode.EveryRunFoldsTheLog` | pkg/lsm/engine/commitlog.go:60-65 | Over every run of applies, lost saves and restarts the node’s state is one fold over a prefix of the control log, what it has saved passes load validation, and at the end of the log memory and disk are the fold of all of it |
| `ControlNode.ReplicasAgree` | pkg/lsm/engine/commitlog.go:60-65 | Two nodes from equal layouts that have applied the same log differ only in draining, whatever their crashes and lost saves |
| `ControlNode.EventKeepsGood` | pkg/lsm/engine/control_plane.go:574-624 | Every apply, with its save kept or lost, and every restart keeps memory and disk a fold of the log |
| `ControlPlane.Control.ApplyCommitted` | pkg/lsm/engine/control_plane.go:574-624 | One committed entry: applied and saved, refused with only the index moved and saved, or undone when the save fails |
| `ControlPlane.Control.ApplyPayload` | pkg/lsm/engine/control_payload.go:32-43 | Succeeds exactly when the mutation applies, and then leaves the mutated state with rebuilt routes |
| `ControlPlane.Control.ApplyTransferLeader` | pkg/lsm/engine/control_payload.go:45-68 | The transferred state, or no change |
| `ControlPlane.Control.ApplySplit` | pkg/lsm/engine/control_payload.go:70-104 | The split state with its routes, exactly when the split is possible |
| `ControlPlane.Control.ApplyDrain` | pkg/lsm/engine/control_payload.go:106-146 | The drained state, or no change when a shard has no healthy alternative |
| `ControlPlane.Control.NoteOperationApplied` | pkg/lsm/engine/control_plane.go:642-665 | Revision and window after an operation |
| `ControlPlane.Control.SaveWithRollback` | pkg/lsm/engine/control_plane.go:745-753 | A lost save puts the earlier state back, routes included |
| `ControlPlane.Control.SaveState` | pkg/lsm/engine/control_plane.go:685-743 | The disk changes unless the save is lost before the rename |
| `ControlPlane.Control.SnapshotState` | pkg/lsm/engine/control_plane.go:819-841 | The saved form of the state |
| `ControlPlane.Control.ApplyState` | pkg/lsm/engine/control_plane.go:843-871 | Loads a saved state and succeeds exactly when its layout is accepted |
| `ControlPlane.Control.ShardForKey` | pkg/lsm/engine/control_plane.go:480-497 | The shard that owns the key, by linear scan of the layout |
| `ControlPlane.DrainTargets` | pkg/lsm/engine/control_payload.go:107-125 | Every shard led by the node gets a healthy alternative, or the drain is impossible; an alternative with an empty id counts as none |
| `ControlPlane.MoveLeaders` | pkg/lsm/engine/control_payload.go:126-141 | Exactly the shards led by the node change |
| `CommittedApply.EveryRunAppliesAPrefix` | pkg/lsm/engine/commitlog_apply.go:52-94 | Over every interleaving of commits, drains, failures, quiesce and restarts that open or do not, the data and control entries that took effect in an open store are precisely the log up to the cursor; a store that did not open holds the first entries of each kind |
| `CommittedApply.FailStop` | pkg/lsm/engine/commitlog_apply.go:52-94 | After a latched failure or stop nothing is applied, however long the run goes on without a restart |
| `CommittedApply.SuccessIsApplied` | pkg/lsm/engine/commitlog_apply.go:90-93 | A drain reports success only for entries that took effect |
| `CommittedApply.SuccessIff` | pkg/lsm/engine/commitlog_apply.go:52-94 | A drain reports success for an entry of the log if and only if the store is open, no entry fails and the entry, if this drain applies it, is not refused, or, if it was applied before, was not refused since the start |
| `CommittedApply.EveryRunSucceedsIff` | pkg/lsm/engine/commitlog_apply.go:90-93 | In every run: success if and only if the store is open, nothing fails and the entry was not rejected or was applied before this process started |
| `CommittedApply.ProposerIsTold` | pkg/lsm/engine/write_service.go:167-172 | In every run a caller that asks for an entry committed since the start is told of success if and only if the store is open, nothing fails and the entry was not rejected |
| `CommittedApply.DrainKeeps` | pkg/lsm/engine/commitlog_apply.go:52-94 | A drain applies the log in order from the cursor: all that is committed, or up to the entry that fails |
| `CommittedApply.RestartCompletes` | pkg/lsm/engine/commitlog.go:35-57 | A restart meets every entry of the log: it opens with all of it in effect, each entry once and in order, whatever had survived, or, an entry failing, does not open |
| `CommittedApply.RestartForgetsRefusals` | pkg/lsm/engine/commitlog_apply.go:23-41 | A run: a control entry is refused and its caller told; after a restart the same question would be answered with success |
| `CommittedApply.Applier.constructor` | pkg/lsm/engine/commitlog_apply.go:23-41 | The applier starts with the cursor at the end of the recovered log and no results, as a restart that opens leaves it |
| `CommittedApply.Applier.Drain` | pkg/lsm/engine/commitlog_apply.go:52-94 | The drain loop with its cursor, failure latch and results |
| `CommittedApply.Applier.Quiesce` | pkg/lsm/engine/commitlog_apply.go:96-101 | Stops every later drain |
| `RaftProposals.SuccessIsCommitted` | internal/lsm/commitlog/etcdraft.go:549-600 | Over every interleaving of proposers, batches, timeouts and errors, a proposer is told of success only through an applied entry that is its own payload byte for byte, and is told its own mutation at that entry’s place |
| `RaftProposals.OneEntryOneWinner` | internal/lsm/commitlog/etcdraft.go:569-581 | No entry wakes two proposers |
| `RaftProposals.FailureWakesAll` | internal/lsm/commitlog/etcdraft.go:417-428 | After a terminal failure every waiting proposer’s channel is closed and its next look answers it |
| `RaftProposals.FailureIsFinal` | internal/lsm/commitlog/etcdraft.go:411-414 | After a terminal failure nothing is applied, acknowledged or newly proposed |
| `RaftProposals.EveryRunAppliesAPrefix` | internal/lsm/commitlog/etcdraft.go:463-467 | Every run applies a prefix of the raft log and hands on what that prefix commits |
| `RaftProposals.NodesAgree` | internal/lsm/commitlog/etcdraft.go:463-467 | Two nodes on one raft log hand on the same entries as far as both have come |
| `RaftProposals.MatchingEntryWakes` | internal/lsm/commitlog/etcdraft.go:573-581 | An applied entry that is a pending payload wakes its proposer, whatever else its batch holds |
| `RaftProposals.LostMayBeCommitted` | internal/lsm/commitlog/etcdraft.go:349-352 | A proposer can be told of an error although its entry is committed and applied |
| `RaftRefusals.EveryRunOrigins` | internal/lsm/commitlog/etcdraft.go:315-333 | In every run each registered payload was handed to raft by a request of the run, and each committed entry is such a payload or comes from elsewhere |
| `RaftRefusals.RefusedIsNeverCommitted` | pkg/lsm/engine/commitlog.go:25-33 | In every run a request refused before the proposal, because the log has failed, this node is not the leader or raft drops it, is never committed |
| `RaftRefusals.MayBeCommittedIff` | pkg/lsm/engine/commitlog.go:25-33 | Until the log fails, a request is or may become committed if and only if raft took it, whatever its proposer was told |
| `RaftRefusals.AnyLossMayBeCommitted` | internal/lsm/commitlog/etcdraft.go:335-363 | From every state without failure, every proposer without an answer can still be told of an error and have its entry committed |
| `RaftProposals.Consensus.ApplyCommittedEntry` | internal/lsm/commitlog/etcdraft.go:549-600 | Index and term always move; a normal entry commits what it parses to and wakes only its own proposer; a malformed one is an error |
| `RaftProposals.Consensus.WakeProposer` | internal/lsm/commitlog/etcdraft.go:573-581 | Closes an open channel of the matching proposer, once |
| `RaftProposals.Consensus.Latch` | internal/lsm/commitlog/etcdraft.go:417-428 | Closes each pending open channel once |
| `RaftProposals.Consensus.AdvanceOneReady` | internal/lsm/commitlog/etcdraft.go:411-468 | A stored batch is applied in order up to its first malformed entry; any error latches |
| `RaftProposals.Consensus.ProposeMutation` | internal/lsm/commitlog/etcdraft.go:293-333 | A fresh id and payload are registered exactly when this is the leader, nothing has failed and raft takes them |
| `RaftProposals.Consensus.Look` | internal/lsm/commitlog/etcdraft.go:335-363 | Done before failure before deadline; otherwise the channel is open and still registered |
| `RaftProposals.Consensus.Abandon` | internal/lsm/commitlog/etcdraft.go:349-352 | A proposer whose own advance fails leaves with the error |
| `RaftProposals.Consensus.constructor` | internal/lsm/commitlog/etcdraft.go:148-160 | No proposal, nothing committed |

## Left out

- EngineTheorems.EveryRunReadsTheLatest: flushes install tables in sequence order, a compaction does not reach the manifest before the flush of a table it removed, tombstones are dropped only with size-based planning off, and no block is above the read limit, each with its exact condition in the section above; one writer at a time; one flush and one compaction at a time; sequence numbers do not reach 2^64.
- Replay.Recovery.ReplayWAL: the manifest is authoritative; the fallback scan of the directory and manifest log lines cut by a crash are not modelled.
- TableSet.Set.Apply: paths are unique over a run and each holder returns each pin once, as its callers arrange; a second return of a pin is not described.
- TableEdit.Service.Apply: closing and deleting files is taken to succeed; failures there are only logged by the source.
- BlockBuilder.Builder.AdaptRestartInterval: floating-point rounding is any error of at most one, which holds for spans below 2^51.
- ReadLimit.Handle.GetView: the files are intact; the only error is the read limit.
- RaftRefusals.RefusedIsNeverCommitted: nonces are fresh, and raft commits only payloads it was handed.
- Runner.Run: cancelled contexts and partially resolved plans beyond the error result.
- Writer.Flush: keys are not empty, because the engine and the log refuse empty keys; the filter’s bit count does not wrap in 32 bits; temporary file, rename and sync are one step.
- Reader.Get: says nothing about damaged files beyond not crashing; duplicate keys in one table are outside the model, as memtables and compactions do not produce them.
- Reader.Open: caches, prefetching, mmap and buffer pools.
- RangeScan.Scan: only the policy that stops at damage; skip and drop policies, prefetching.
- BlockReader.Cursor.Next: keys are values; the reused scratch buffer and views into block data are not modelled.
- Envelope.MetaReadsBack: decoding adds lengths in 32 bits and can fail on a slice bound in the source; the model reports an error there.
- SkipList.SkipList.Upsert: the arena that owns keys and values.
- ShardedTable.Table.ApplyOwned: one locked section at a time; concurrent writers to different shards interleave whole sections. Reset, statistics, writer counts and the arena are left out.
- ShardedTable.NextPow2: the shift does not overflow.
- MapTable.Table.SetEntry: a bucket is a value that is stored back, not a shared slice.
- WalAppend.Log.ProcessBatch: write and sync errors, the asynchronous queue and its channels.
- WalReplay.ReplaySegment: callbacks that return errors.
- Routing.BuildShardRoutes: the white space trimmed from names is that of Latin-1.
- ControlLog.NoteKeepsOps: the revision counter does not wrap at 64 bits; operations are identified by their fingerprint text, which different ids with a colon can share.
- ControlSplit.SplitOwners: replica lists are values; the shared backing slice of the two halves is not modelled.
- ControlPlane.Control.SaveState: JSON text, temporary file and rename are one save that is kept, lost before or lost after it reached the disk.
- CommittedApply.Applier.Drain: applying one entry is a step that succeeds, is refused or fails.
- RaftProposals.Consensus.AdvanceOneReady: elections, quorums and message contents belong to the raft library; proposals are named by their id instead of a shared record; the step limit and timeouts are arbitrary failures.
- Not modelled at all: HTTP server, gateway, CLI, configuration, events and metrics, file backends, trash, the single-list memtable, statistics.
