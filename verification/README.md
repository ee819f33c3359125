# LevelDB and nanopb, modelled and proved

The iOS application in this repository carries two libraries as source: LevelDB, a log-structured store, and nanopb,
a table-driven Protocol Buffers codec. This project models the parts of them that have to be right for data to
survive, and proves that they are.

Three themes run through it.

**The store as a state machine.** `DbFormat`, `Versions`, `Picking`, `Compacting` and `Edits` model entries, files,
levels, the choice of compaction inputs, the rule by which a compaction drops entries, and version edits. `Engine*`
puts them together: writes, memtable switches, flushes (also into a running compaction), compactions, trivial moves
and snapshots are steps, and one invariant says why looking from the newest source to the oldest and stopping at the
first hit is right. The main theorem is `EngineRuns.GetReadsMap`: over every run, Get answers like a multi-version map
that knows nothing of levels. `Durable`, `Manifest`, `Recovery`, `Disk` and `DurableRuns` add logs, the MANIFEST, table files,
garbage collection and crashes; `DurableRuns.ReadsSurvivingGroups` and `SyncedGroupsStay` say that what a reader sees
after any number of crashes is a prefix of what was written, with everything that was synced. `Disk` takes recovery from
nothing but files: MANIFEST records that name files by number, logs by number, and tables by number. `DbImpl` has the
operations as methods of a class whose fields are those of `DBImpl`; each method is proved to be a step.
`Installs` opens the window in which LogAndApply frees the mutex. `WriteQueue` has the concurrent callers of Write, each with
its own place in the code, and proves that together they do what `GroupCommit` says: one leader at a time, the head of the
queue, writes for a group, and no wake-up is lost.

**Structures that speed up a sorted sequence or a map.** Each is a class with the fields of the source, proved against
the plain sequence, set or map: the skip list (`SkipList`, with readers running between any two stores of the writer),
the user-facing iterator (`DbIter`), merging and two-level iterators (`Merger`, `TwoLevel`), prefix-compressed blocks
(`BlockBuilder`, `Block`), tables with shortened index keys and Bloom filters (`Bytewise`, `Bloom`, `FilterBlock`,
`TableBuilder`, `Table`), and the cache with its own hash table (`HandleTable`, `Cache`).

**Formats that undo each other.** The log with its fragments and torn tails (`LogWriter`, `LogReader`,
`LogRoundTrip`), checksums (`Crc32c`), varints (`Varints`), write batches (`WriteBatches`), version edits
(`VersionEdits`), and nanopb messages of static fields (`PbEncode`, `PbDecode`, `PbPartial`, `PbMessage`), which follow the "Base 128
Varints", "Signed Integers" and "Packed Repeated Fields" sections of the Protocol Buffers Encoding specification.

Where the code does not do what it is for on all inputs, the exact condition is proved: trivial moves (below), version
edits (they decode if and only if all their levels exist), and nanopb strings (a string that fills its array is encoded
but refused by the decoder, which wants a byte for its end: `PbMessage.RoundTrip` and `PbMessage.FullStringIsLost`), and
entries of damaged blocks (they lie inside the block if and only if the sum of their lengths fits 32 bits:
`Block.InsideExactly` and `Block.WrappingEntryPasses`).

These hypotheses are part of the theorems and are stated where they are used.

- `Engine.BoundaryClean`, about compactions, and `MoveClean`, about trivial moves: no file left behind at the
  compaction's level holds an older entry of a key that is written, and none left at either level holds one of a tombstone
  that is dropped. The program does not make sure of this: it splits output files at any entry and picks files by position.
  At level 0 it is not a hypothesis but part of `Picking.PickIsSound`. `Boundary.EndsAreEnough` gives a condition on file
  ends alone, and `QuietRuns` proves that it always holds when no snapshot is held whenever a compaction starts.
  `MoveIsInvisibleExactly`, `StaysRecentExactly` and `CompactionIsInvisibleExactly` in `Boundary` say exactly when a move or
  a compaction goes right, and `BoundaryExamples` has two runs from the empty store, one that loses an update and one in
  which a deleted value comes back.
- Sequence numbers stay below their maximum (2^56 - 1); with a smallest snapshot equal to the maximum a compaction would
  drop everything.
- Storage (`Disk.CrashLeaves`): MANIFEST records and finished tables are on stable storage when they are installed. Log
  appends become durable in order: a crash leaves a prefix of each log, and a younger log only if the older ones are whole;
  synced records are there. Recoveries that are cut off leave what they have written so far (`Disk.CutOff`).
- The CRC tables are any that the recurrence gives (`Crc32c.AreTables`); `BuildTables` builds them.

User keys in the engine are elements of a total order (real numbers, into which every countable total order embeds),
since the engine looks at them only through a comparator; in the formats they are bytes. Some methods carry ghost
parameters that say what is encoded at the place they read; the contract then has one part for any bytes and one for
those bytes. Ghost results say where the parts of the input lie, ghost fields what a structure stands for, as the time
at which a cache entry was given up.

A definition written `forall k :: k == N && Unfold(k) ==> ...`, with N one of the constants in `Wrappers`, is that definition without the guard; the guard
only keeps the verifier from looking inside where it need not.

## Model

| member | source | states |
|---|---|---|
| DbFormat.PackedTagOrdersBySequence | happybets/Pods/leveldb-library/db/dbformat.cc:50-66 | comparing packed tags is comparing sequence numbers, whatever the types |
| DbFormat.SeekGetIsLatest | happybets/Pods/leveldb-library/db/memtable.cc:108-143 | the first entry at or after the lookup key (u, s) of a sorted run is the newest entry of u visible at s, if there is one |
| DbFormat.LatestOfOverlay | happybets/Pods/leveldb-library/db/version_set.cc:332-429 | a layer all of whose entries are newer, key by key, answers alone when it has a visible entry and not at all otherwise |
| DbFormat.InsertSorted | happybets/Pods/leveldb-library/db/memtable.cc:82-106 | adding an entry at its place keeps a memtable in internal key order |
| Versions.FindFile | happybets/Pods/leveldb-library/db/version_set.cc:86-105 | binary search returns the one split point: all files before it end before the target, none from it on does |
| Versions.SomeFileOverlapsRange | happybets/Pods/leveldb-library/db/version_set.cc:121-158 | true if and only if some file meets the range, by scan in level 0 and by one binary search in a disjoint level |
| Versions.FileAtIndexAnswersForLevel | happybets/Pods/leveldb-library/db/version_set.cc:373-390 | in a disjoint level the one file FindFile leads to holds the newest visible entry of the whole level, even when a key spans several files |
| Versions.SearchLevel0 | happybets/Pods/leveldb-library/db/version_set.cc:357-372 | trying level-0 files from the newest number down and stopping at the first hit yields the newest visible entry of all of them |
| Versions.Get | happybets/Pods/leveldb-library/db/version_set.cc:332-429 | the level-by-level loop computes Search, the model of stopping at the first source with a visible entry |
| Versions.SearchFindsLatest | happybets/Pods/leveldb-library/db/version_set.cc:332-429 | when smaller levels hold newer entries, stopping early returns the newest visible entry of all levels |
| Picking.GetOverlappingInputs | happybets/Pods/leveldb-library/db/version_set.cc:531-572 | the restart loop terminates; at level 0 the result is the least overlap-closed set of files around the range, elsewhere exactly the files that meet it |
| Picking.OverlappingIsUnique | happybets/Pods/leveldb-library/db/version_set.cc:531-572 | that specification determines the result |
| Picking.Widen | happybets/Pods/leveldb-library/db/version_set.cc:553-568 | each restart is forced, keeps the range joined, and leaves fewer file ends outside: the loop terminates |
| Picking.PickLevelForMemTableOutput | happybets/Pods/leveldb-library/db/version_set.cc:502-528 | the level chosen for a flushed table: every level above it is clear of its range, and it stops where the code stops (next level hit, grandparents too large, level 2) |
| Picking.MemTableLevelIsClear | happybets/Pods/leveldb-library/db/version_set.cc:502-528 | no file of the chosen level or any above meets the range, if it is not level 0 |
| Picking.GrowInputs | happybets/Pods/leveldb-library/db/version_set.cc:1360-1402 | the attempt to grow the inputs is taken exactly when it adds files, fits the byte limit and leaves the number of next-level files the same |
| Picking.SetupOtherInputs | happybets/Pods/leveldb-library/db/version_set.cc:1345-1411 | the second inputs are exactly the next-level files that meet the hull of the first, also after growing |
| Picking.PickCompaction | happybets/Pods/leveldb-library/db/version_set.cc:1291-1343 | the pick for any starting file: level 0 takes the overlap closure of it |
| Picking.Level0Overlap | happybets/Pods/leveldb-library/db/version_set.cc:1329-1338 | a level-0 overlap set holds every file that meets its own range, and its ranges together with the parents leave no gap in the hull |
| Picking.ExpansionIsSound | happybets/Pods/leveldb-library/db/version_set.cc:1360-1402 | the grown inputs are still exactly closed under overlap with the next level, because the number of parents did not change |
| Picking.PickIsSound | happybets/Pods/leveldb-library/db/version_set.cc:1291-1411 | every automatic pick: first inputs closed under overlap at level 0, second inputs exactly those that meet the hull of the first, and all input ranges together leave no gap |
| Compacting.BaseLevelScan.IsBaseLevelForKey | happybets/Pods/leveldb-library/db/version_set.cc:1484-1503 | the advancing file pointers answer, for keys asked in ascending order, whether any level below the output has a file over the key |
| Compacting.ShouldDrop | happybets/Pods/leveldb-library/db/db_impl.cc:945-972 | dropped if and only if a newer entry of its key is at or below the snapshot, or it is a tombstone at or below the snapshot and no file below the output level spans its key |
| Compacting.DoCompactionWork | happybets/Pods/leveldb-library/db/db_impl.cc:887-1008 | an input entry is written if and only if no newer one of its key is at or below the snapshot, and it is no tombstone at or below the snapshot, unless a file below the output level spans its key; the order stays, and two entries are in one table if and only if neither ShouldStopBefore nor the size test asks for a cut between them |
| Compacting.KeptExactly | happybets/Pods/leveldb-library/db/db_impl.cc:945-972 | that rule, stated on the output alone, for the rule (A) and the tombstone rule of the loop |
| Compacting.DeletedKeyVanishes | happybets/Pods/leveldb-library/db/db_impl.cc:958-969 | no tombstone at or below the snapshot is written unless a deeper file spans its key; where the newest entry of a key is such a tombstone and no deeper file spans it, nothing of the key is written |
| Compacting.KeptIsTheRest | happybets/Pods/leveldb-library/db/db_impl.cc:930-1008 | the output is sorted and has an entry if and only if it is an input entry that is not dropped |
| Compacting.PiecesInOrder | happybets/Pods/leveldb-library/db/db_impl.cc:983-1005 | any cut of a sorted run into non-empty pieces gives pieces that follow each other |
| Compacting.DropIsInvisibleExactly | happybets/Pods/leveldb-library/db/db_impl.cc:945-972 | dropping changes no answer for any key at any snapshot from the smallest live one on if and only if no value outside the input comes out from under a dropped tombstone that readers find |
| Compacting.NewestDropped | happybets/Pods/leveldb-library/db/db_impl.cc:955-969 | if what a reader would have found is dropped, it is a tombstone for every snapshot, and of its key only entries outside the input stay visible |
| EngineWrites.WriteKeepsInv | happybets/Pods/leveldb-library/db/db_impl.cc:1194-1267 | a write group adds exactly its entries to the multi-version map, all newer than everything before, and keeps the invariant |
| EngineWrites.FlushKeepsInv | happybets/Pods/leveldb-library/db/db_impl.cc:488-565 | flushing the immutable memtable, into a level below 0 where that is allowed and also beside a running compaction, keeps the invariant and the map |
| EngineWrites.PlacedAvoidsInputs | happybets/Pods/leveldb-library/db/db_impl.cc:918-927 | a table flushed below level 0 while a compaction runs lies beside the whole input range of the compaction, as that range has no gaps |
| EngineCompact.StaysIsNewer | happybets/Pods/leveldb-library/db/db_impl.cc:866-885 | whatever stays at or above the level of the compaction, files flushed since the start included, is newer key by key than what it writes |
| EngineCompact.NothingUnder | happybets/Pods/leveldb-library/db/db_impl.cc:958-969 | nothing comes out from under the tombstones that a compaction drops, flushes since its start included |
| EngineCompact.SmallestIsLeast | happybets/Pods/leveldb-library/db/db_impl.cc:897-905 | the snapshot of a compaction is the least of those held, and the last sequence number if none is held |
| EngineCompact.AfterDisjoint | happybets/Pods/leveldb-library/db/version_set.cc:603-773 | however the outputs were cut, the output level stays sorted and disjoint |
| EngineCompact.AfterAgrees | happybets/Pods/leveldb-library/db/db_impl.cc:866-1008 | installing a compaction changes no answer at or above its smallest snapshot, and only removes entries |
| EngineCompact.FinishKeepsInv | happybets/Pods/leveldb-library/db/db_impl.cc:866-1008 | finishing a compaction keeps the invariant and the multi-version map |
| EngineCompact.MoveKeepsInv | happybets/Pods/leveldb-library/db/db_impl.cc:716-738 | a trivial move keeps both, if no file left in the level holds older entries of a key of the moved file |
| Engine.LookupReadsHistory | happybets/Pods/leveldb-library/db/db_impl.cc:1109-1154 | memtable, immutable memtable, level 0, then one file per level answer like the multi-version map at every snapshot from the compaction floor on |
| EngineRuns.NextKeepsInv | happybets/Pods/leveldb-library/db/db_impl.cc:686-769 | every step (write, switch, flush, start and finish of a compaction, trivial move, snapshot taken or released) keeps the invariant, and only writes change the map |
| EngineRuns.RunHoldsMap | happybets/Pods/leveldb-library/db/db_impl.cc:1194-1267 | after any run the engine holds exactly the entries of the operations written, numbered consecutively |
| EngineRuns.GetReadsMap | happybets/Pods/leveldb-library/db/db_impl.cc:1109-1154 | over all runs, Get at a live snapshot or at the last sequence number equals the multi-version map lookup |
| EngineRuns.LaterWritesUnseen | happybets/Pods/leveldb-library/db/db_impl.cc:1109-1154 | operations written later cannot be seen at an older sequence number |
| EngineRuns.SnapshotIsStable | happybets/Pods/leveldb-library/db/db_impl.cc:1175-1184 | a snapshot reads at any later step what it read when it was taken |
| QuietRuns.KeptOnce | happybets/Pods/leveldb-library/db/db_impl.cc:945-957 | such a compaction writes at most one entry for each user key |
| QuietRuns.FinishKeepsApart | happybets/Pods/leveldb-library/db/db_impl.cc:866-1008 | a compaction of entries that all readers may see, flushes during it included, leaves no user key in two files of its output level |
| QuietRuns.QuietRunIsRun | happybets/Pods/leveldb-library/db/db_impl.cc:686-769 | in such a run no user key ever lies in two files of one level below 0, and every pick meets the hypothesis of the run theorems |
| QuietRuns.QuietGetReadsMap | happybets/Pods/leveldb-library/db/db_impl.cc:1109-1154 | over all runs in which no snapshot is held when a compaction starts (or none older than its input), Get equals the multi-version map lookup, with no hypothesis about picks |
| Boundary.MoveIsInvisibleExactly | happybets/Pods/leveldb-library/db/version_set.cc:1305-1317 | a trivial move from a level >= 1 changes no answer if and only if the next file of the level does not begin with the key the moved one ends with; the code does not look |
| Boundary.EndsAreEnough | happybets/Pods/leveldb-library/db/version_set.cc:1345-1411 | a pick whose keys end with its files, at both levels, meets the hypothesis of the run theorems |
| Boundary.StaysRecentExactly | happybets/Pods/leveldb-library/db/db_impl.cc:866-1008 | any sound compaction, flushes during it included: newer data stays in smaller levels if and only if no file left at its level holds an older entry of a key that it writes |
| Boundary.CompactionIsInvisibleExactly | happybets/Pods/leveldb-library/db/db_impl.cc:866-1008 | then all answers from the smallest snapshot on are kept if and only if no value comes out from under a dropped tombstone |
| BoundaryExamples.MoveLosesUpdate | happybets/Pods/leveldb-library/db/db_impl.cc:716-738 | a run from the empty store, within the hypothesis up to the last step, to two files of level 2 that share a key; the program picks and moves the first of them, and from then on Get returns the older value, whatever the update was |
| BoundaryExamples.DeletionUndone | happybets/Pods/leveldb-library/db/db_impl.cc:716-769 | a run from the empty store in which the program picks a file and its parents and finishes the compaction: Get of a deleted key answered nothing before and answers the old value after, because a file beside the second inputs goes on with the key of the dropped tombstone |
| DbImpl.DBImpl.Get | happybets/Pods/leveldb-library/db/db_impl.cc:1109-1154 | the value of the multi-version map at the snapshot |
| DbImpl.DBImpl.GetSnapshot | happybets/Pods/leveldb-library/db/db_impl.cc:1175-1178 | the last sequence number joins the snapshot list; answers stay |
| DbImpl.DBImpl.ReleaseSnapshot | happybets/Pods/leveldb-library/db/db_impl.cc:1180-1183 | one snapshot leaves the list; answers at the others stay |
| DbImpl.DBImpl.Write | happybets/Pods/leveldb-library/db/db_impl.cc:1212-1246 | entries and last sequence number after a write: one step of the state machine |
| DbImpl.DBImpl.SwitchMemTable | happybets/Pods/leveldb-library/db/db_impl.cc:1354-1375 | the memtable becomes the immutable one, unseen by readers |
| DbImpl.WriteLevel0Table | happybets/Pods/leveldb-library/db/db_impl.cc:488-532 | the new table at the level that PickLevelForMemTableOutput chooses; an empty memtable makes none |
| DbImpl.DBImpl.CompactMemTable | happybets/Pods/leveldb-library/db/db_impl.cc:534-565 | one flush step; the map is the same after it |
| DbImpl.DBImpl.MoveFile | happybets/Pods/leveldb-library/db/db_impl.cc:716-738 | one move step exactly when the pick is a trivial move, else nothing changes |
| DbImpl.DBImpl.StartCompaction | happybets/Pods/leveldb-library/db/db_impl.cc:716-769 | one start step: picks the inputs, merges them, and records both with the smallest snapshot and the version they are from; the map is the same after it if the pick meets the hypothesis |
| DbImpl.DBImpl.BackgroundCompaction | happybets/Pods/leveldb-library/db/db_impl.cc:686-769 | a trivial move or the start of a compaction: one step of the state machine in either case |
| InputMerge.PickedOnce | happybets/Pods/leveldb-library/db/version_set.cc:1291-1411 | no pick lists a file twice |
| InputMerge.MergeRuns | happybets/Pods/leveldb-library/table/merger.cc:155-168 | always taking the smallest entry that is left merges any sorted runs without a common internal key |
| InputMerge.MergeInputs | happybets/Pods/leveldb-library/db/version_set.cc:1258-1289 | reading the input iterator to its end gives all entries of the picked files in internal key order |
| DbImpl.DBImpl.FinishCompaction | happybets/Pods/leveldb-library/db/db_impl.cc:887-1053 | one finish step for some outputs; the map is the same after it |
| DbImpl.IsTrivial | happybets/Pods/leveldb-library/db/version_set.cc:1466-1474 | one input file, none below, and not too many grandparent bytes |
| DbImpl.InsertInto | happybets/Pods/leveldb-library/db/write_batch.cc:112-134 | operations enter the memtable in order with consecutive sequence numbers |
| DbImpl.ApplyEdit | happybets/Pods/leveldb-library/db/version_set.cc:820-850 | the version after an edit: deleted files out, added ones in at their places |
| Edits.SaveLevel | happybets/Pods/leveldb-library/db/version_set.cc:711-757 | the merge of base and added files is in order and holds exactly the undeleted ones of both |
| Edits.SavedIsUnique | happybets/Pods/leveldb-library/db/version_set.cc:711-757 | order and contents determine the list |
| Edits.InsertFileInOrder | happybets/Pods/leveldb-library/db/version_set.cc:603-625 | the ordered set of added files: insertion keeps it in order and adds exactly the file |
| Manifest.Builder.Apply | happybets/Pods/leveldb-library/db/version_set.cc:665-708 | the builder state after an edit: files deleted now are not added, files added now are not deleted |
| Manifest.Builder.SaveTo | happybets/Pods/leveldb-library/db/version_set.cc:711-757 | every level of the saved version |
| Manifest.BuilderDescribesChain | happybets/Pods/leveldb-library/db/version_set.cc:665-757 | after any number of valid edits the builder describes the version that saving after each edit would have reached |
| Manifest.RebuiltIsLast | happybets/Pods/leveldb-library/db/version_set.cc:905-1025 | what one builder makes of all edits is determined: the version after the last edit |
| Manifest.Replay | happybets/Pods/leveldb-library/db/version_set.cc:905-1025 | applying all edits of a MANIFEST in one builder and saving once gives the version that saving after every edit had arrived at |
| Durable.HistoryIsGroups | happybets/Pods/leveldb-library/db/db_impl.cc:1222-1245 | at every moment the multi-version map is what the write groups in logs and tables say |
| Durable.LoggedWriteKeepsInv | happybets/Pods/leveldb-library/db/db_impl.cc:1222-1245 | log first, then memtable: the groups grow by exactly this one |
| Durable.LoggedSwitchKeepsInv | happybets/Pods/leveldb-library/db/db_impl.cc:1355-1375 | a new log for the new memtable; no group is lost |
| Durable.LoggedFlushKeepsInv | happybets/Pods/leveldb-library/db/db_impl.cc:534-565 | the record of a flush retires the old log; its groups are in tables by then (the window in which the mutex is free is in Installs) |
| Durable.LoggedFinishKeepsInv | happybets/Pods/leveldb-library/db/db_impl.cc:866-885 | a compaction installed in the MANIFEST keeps everything recovery needs |
| Durable.LoggedMoveKeepsInv | happybets/Pods/leveldb-library/db/db_impl.cc:716-738 | so does a trivial move (under the boundary condition) |
| Durable.CollectGarbageKeepsInv | happybets/Pods/leveldb-library/db/db_impl.cc:218-272 | deleting obsolete files deletes no log or table that recovery or a reader needs; readers of one version are counted |
| Durable.GarbageIsGone | happybets/Pods/leveldb-library/db/db_impl.cc:218-272 | what is left has a use: logs from the current number on, and tables of versions that are current, held by a reader or being compacted, or that are being written |
| Recovery.RecoverLogFile | happybets/Pods/leveldb-library/db/db_impl.cc:365-486 | replaying a log into memtables that spill into tables yields runs that hold exactly its records, in order, and the largest sequence number; two records are in one table if and only if the memtable does not fill up between them |
| Recovery.AddLevel0Settles | happybets/Pods/leveldb-library/db/db_impl.cc:274-363 | adding the recovered tables at level 0, oldest first, keeps newer data in earlier sources |
| Recovery.RestartKeepsInv | happybets/Pods/leveldb-library/db/db_impl.cc:1490-1532 | going on with the version and the surviving records in level-0 tables, a new log and a new MANIFEST keeps the invariant |
| Recovery.SnapshotChain | happybets/Pods/leveldb-library/db/version_set.cc:1102-1130 | the snapshot record with which a MANIFEST begins replays to the version it describes |
| Disk.OutlineIsChain | happybets/Pods/leveldb-library/db/version_set.cc:905-1025 | the MANIFEST holds only number, size and end keys of files; its versions follow each other as the real ones do |
| Disk.VersionComesBack | happybets/Pods/leveldb-library/db/db_impl.cc:305-324 | with the tables on disk that it names, a version comes back whole from what the MANIFEST says of it, and none is missing |
| Disk.ManifestComesBack | happybets/Pods/leveldb-library/db/version_set.cc:905-1025 | replaying the MANIFEST that is on disk gives the outline of the version that was current, and no other |
| Disk.LogsComeBack | happybets/Pods/leveldb-library/db/db_impl.cc:305-345 | the logs with numbers from the one in the MANIFEST on, in order, hold a prefix of the records whose entries were not in tables |
| Disk.ReadsWhatWasThere | happybets/Pods/leveldb-library/db/db_impl.cc:274-363 | whatever recovery reads from MANIFEST, logs and tables alone is the version that was current, a prefix of the write groups with every synced one, and the right numbers |
| Disk.CutOffReadsSame | happybets/Pods/leveldb-library/db/db_impl.cc:1490-1532 | what a recovery that was cut off leaves, an empty log and tables with new numbers, changes nothing of what the next one reads |
| Disk.CutOffAgain | happybets/Pods/leveldb-library/db/db_impl.cc:1490-1532 | recoveries that are cut off one after the other leave no more than one may leave |
| Disk.RecoverLogs | happybets/Pods/leveldb-library/db/db_impl.cc:326-345 | replays all needed logs in the order of their numbers into runs that hold exactly their records |
| Disk.Recover | happybets/Pods/leveldb-library/db/db_impl.cc:274-363 | after a crash at any moment, and recoveries that were cut off, recovery succeeds, finds every table, and reads the version that was current and the surviving records |
| Disk.CrashKeepsInv | happybets/Pods/leveldb-library/db/db_impl.cc:274-363 | a crash at any moment, any number of recoveries that are cut off by further crashes, and one that is not: the invariant holds again, and the groups are a prefix of those before that includes every synced one |
| DurableRuns.SysRunKeepsInv | happybets/Pods/leveldb-library/db/db_impl.cc:274-565 | the invariant over all runs, crashes (also during recovery), half-written tables and garbage collection included |
| DurableRuns.TablesAreThere | happybets/Pods/leveldb-library/db/db_impl.cc:218-272 | at any point of any run with garbage collection the tables of the current version and of every version that still has a reader are on disk |
| DurableRuns.ReadsSurvivingGroups | happybets/Pods/leveldb-library/db/db_impl.cc:1109-1154 | at any point of any run with crashes, a reader sees the multi-version map of the groups that are still there |
| DurableRuns.SyncedGroupsStay | happybets/Pods/leveldb-library/db/db_impl.cc:1224-1242 | a write group once synced keeps its place for the rest of the run |
| DurableRuns.SyncWriteSyncs | happybets/Pods/leveldb-library/db/db_impl.cc:1224-1242 | after a write with the sync option all groups so far are synced |
| Installs.StoreNextKeepsInv | happybets/Pods/leveldb-library/db/version_set.cc:820-903 | every step, in the window or not: beginning and ending an installation, writes, switches, snapshots and references in between, and a crash that finds the record or does not |
| Installs.ReadsInWindow | happybets/Pods/leveldb-library/db/version_set.cc:820-903 | at any point of any run a reader sees the multi-version map of the surviving groups, also while LogAndApply has freed the mutex and writes go on with the old version |
| Installs.WindowIsInvisible | happybets/Pods/leveldb-library/db/version_set.cc:820-903 | the version being installed answers every reader as the one that is still current |
| Installs.TablesInWindow | happybets/Pods/leveldb-library/db/version_set.cc:803-818 | the tables of the old version, of the new one and of all that have readers are there as long as they may be read |
| Installs.SyncedGroupsStayInWindow | happybets/Pods/leveldb-library/db/version_set.cc:820-903 | a synced write group keeps its place through crashes in the window, with the record on disk or not |
| DbIter.LiveIsTheMap | happybets/Pods/leveldb-library/db/db_iter.cc:173-203 | the live list is strictly ascending and has (u, v) if and only if reading u at the snapshot gives v |
| DbIter.IterationShowsHistory | happybets/Pods/leveldb-library/db/db_impl.cc:1056-1096 | over the memtables and files of a version the list is the multi-version map at the snapshot |
| DbIter.DBIter.FindNextUserEntry | happybets/Pods/leveldb-library/db/db_iter.cc:173-203 | the scan stops at the next shown entry, past tombstones, hidden and too new entries |
| DbIter.DBIter.FindPrevUserEntry | happybets/Pods/leveldb-library/db/db_iter.cc:232-272 | the backward scan stops with the newest visible value of the previous live key saved |
| DbIter.DBIter.Seek | happybets/Pods/leveldb-library/db/db_iter.cc:274-286 | the first live pair at or after the target, or the end |
| DbIter.DBIter.SeekToFirst | happybets/Pods/leveldb-library/db/db_iter.cc:288-297 | the first live pair |
| DbIter.DBIter.SeekToLast | happybets/Pods/leveldb-library/db/db_iter.cc:299-304 | the last live pair |
| DbIter.DBIter.Next | happybets/Pods/leveldb-library/db/db_iter.cc:146-171 | one place forward in the live list, from either direction |
| DbIter.DBIter.Prev | happybets/Pods/leveldb-library/db/db_iter.cc:205-230 | one place back in the live list, from either direction |
| DbIter.DBIter.Key | happybets/Pods/leveldb-library/db/db_iter.cc:66-69 | the key of the pair the cursor is on, from the iterator or from the saved copy |
| DbIter.DBIter.Value | happybets/Pods/leveldb-library/db/db_iter.cc:70-73 | its value likewise |
| GroupCommit.BuildBatchGroup | happybets/Pods/leveldb-library/db/db_impl.cc:1269-1314 | the group is the longest run of waiting writers that may join (no sync writer behind a non-sync leader, size limit by the first batch), and the batch holds their operations in order |
| GroupCommit.GroupSize | happybets/Pods/leveldb-library/db/db_impl.cc:1279-1304 | a group of several has at most 1 MiB, and at most 128 KiB more than a small first write; it ends at a sync write behind one that is not, or because the next batch would make it too large |
| GroupCommit.NextKeepsInv | happybets/Pods/leveldb-library/db/db_impl.cc:1194-1267 | every step of the leader of a group, of callers that join and of readers keeps the invariant; WriteQueue has the callers themselves |
| GroupCommit.LoggedOnceInOrder | happybets/Pods/leveldb-library/db/db_impl.cc:1194-1267 | over all runs: the log holds the operations of finished writers once each in queue order, plus at most the group in progress; memtable entries carry consecutive sequence numbers in the same order |
| GroupCommit.SyncedWhenDone | happybets/Pods/leveldb-library/db/db_impl.cc:1224-1242 | when Write returns to a caller that asked for a sync, its operations are in a synced record |
| GroupCommit.BatchesAreAtomic | happybets/Pods/leveldb-library/db/db_impl.cc:1222-1245 | a reader whose snapshot is the last sequence number sees all of a batch or nothing of it |
| GroupCommit.SnapshotIsComplete | happybets/Pods/leveldb-library/db/db_impl.cc:1233-1245 | every entry up to a snapshot is in the memtable |
| WriteQueue.NextKeepsInv | happybets/Pods/leveldb-library/db/db_impl.cc:1194-1267 | every step of every caller keeps the invariant of queue, mutex, done flags and places in the code |
| WriteQueue.NextRefines | happybets/Pods/leveldb-library/db/db_impl.cc:1194-1267 | each step of the callers, with their own places in the code, done flags, signals and spurious wake-ups, is a step of the group commit or changes nothing of it |
| WriteQueue.OneLeader | happybets/Pods/leveldb-library/db/db_impl.cc:1202-1266 | at most one caller is past the wait loop and not yet out; until it takes its group off the queue it is at the front |
| WriteQueue.OnlyHeadWrites | happybets/Pods/leveldb-library/db/db_impl.cc:1202-1245 | log, memtable and last sequence number change only in steps of the caller at the front of the queue |
| WriteQueue.AbsorbedNeverActs | happybets/Pods/leveldb-library/db/db_impl.cc:1202-1207 | a caller whose work was done for it never gets past the wait to act: it wakes up and returns |
| WriteQueue.ReturnedIsDone | happybets/Pods/leveldb-library/db/db_impl.cc:1247-1266 | whoever has returned has left the queue, either as the leader of a group or with its work done by one |
| WriteQueue.LoggedOnceInOrder | happybets/Pods/leveldb-library/db/db_impl.cc:1194-1267 | over all runs of the callers the log holds the operations of the calls that are done, once each and in the order in which they joined, and at most the group in progress |
| WriteQueue.SyncedWhenReturned | happybets/Pods/leveldb-library/db/db_impl.cc:1194-1267 | when Write returns to a caller that asked for a sync, as leader or not, its operations are in a synced record |
| WriteQueue.BatchesAreAtomic | happybets/Pods/leveldb-library/db/db_impl.cc:1222-1245 | a reader at the last sequence number or at a snapshot sees all of a batch or nothing of it, over all runs of the callers |
| WriteQueue.NobodyIsForgotten | happybets/Pods/leveldb-library/db/db_impl.cc:1194-1267 | no wake-up is lost: as long as a call has not returned, some caller can go on, and not only because a wait may end without a signal |
| SkipList.PublishAdds | happybets/Pods/leveldb-library/db/skiplist.h:363-369 | a key appears in the list exactly with the store at level 0 |
| SkipList.NextKeepsInv | happybets/Pods/leveldb-library/db/skiplist.h:261-370 | every single load or store, of the writer or of any reader, keeps the invariant; the list only grows |
| SkipList.EveryStepSound | happybets/Pods/leveldb-library/db/skiplist.h:261-369 | in every state of every run each level is sorted and a sublist of the one below, no reader is about to follow an unset link, and what a finished search found skips no key that was there when it began |
| SkipList.SearchFinds | happybets/Pods/leveldb-library/db/skiplist.h:261-280 | a search for a key present when it began ends on that key |
| SkipList.SkipList.RandomHeight | happybets/Pods/leveldb-library/db/skiplist.h:242-253 | one more than the number of calls of the generator in a row that give a multiple of 4, at most 12 |
| SkipList.SkipList.FindGreaterOrEqual | happybets/Pods/leveldb-library/db/skiplist.h:261-280 | the first node not before the key, and on every level the last node before it |
| SkipList.SkipList.Contains | happybets/Pods/leveldb-library/db/skiplist.h:372-381 | true if and only if the key is in the list |
| SkipList.SkipList.Insert | happybets/Pods/leveldb-library/db/skiplist.h:336-370 | adds exactly the key; the trail of shared memory after each of its stores is a run of the state machine that readers see |
| SkipList.SkipList.CopyNext | happybets/Pods/leveldb-library/db/skiplist.h:367 | this store sets the link of the new node and touches nothing else: the copying step of the state machine, which comes before the node is published |
| SkipList.SkipList.SetNext | happybets/Pods/leveldb-library/db/skiplist.h:368 | this store publishes the node at one level: the publishing step, allowed only once the link of the node at that level is set |
| BlockBuilder.BlockBuilder.Add | happybets/Pods/leveldb-library/table/block_builder.cc:73-107 | the shape of the block grows by exactly this pair; every interval-th entry is a restart point with a whole key, and every other key shares the longest common prefix with the one before |
| BlockBuilder.BlockBuilder.Finish | happybets/Pods/leveldb-library/table/block_builder.cc:63-71 | a block with all entries, restart offsets and their count at the end |
| Block.DecodeEntry | happybets/Pods/leveldb-library/table/block.cc:53-74 | on any bytes it lets pass what the test on 32-bit numbers lets pass, by the one-byte path or by varints; for a block shorter than 2^32 bytes the entry then lies inside the limit if and only if the sum of its lengths is below 2^32 |
| Block.AcceptsCode | happybets/Pods/leveldb-library/table/block.cc:53-74 | an entry that the builder wrote passes, lies inside, and is read as it was written |
| Block.InsideExactly | happybets/Pods/leveldb-library/table/block.cc:70-72 | an entry that passes lies inside the limit if and only if the sum of its lengths does not wrap |
| Block.WrappingEntryPasses | happybets/Pods/leveldb-library/table/block.cc:70-72 | bytes of an entry that passes at the very end of a block, with a key of 2^32 - 1 bytes: the 32-bit sum of its lengths is 0 |
| Block.BlockIter.ParseNextKey | happybets/Pods/leveldb-library/table/block.cc:226-253 | the next entry with its whole key; on any bytes it moves on inside the block exactly if an entry passes and the sum of its lengths does not wrap, and else ends invalid or at the end |
| Block.BlockIter.Next | happybets/Pods/leveldb-library/table/block.cc:139-142 | from entry i to entry i + 1 |
| Block.BlockIter.Prev | happybets/Pods/leveldb-library/table/block.cc:144-163 | from entry i to entry i - 1: it undoes Next |
| Block.BlockIter.Seek | happybets/Pods/leveldb-library/table/block.cc:165-203 | the first entry with a key at or after the target, by binary search over restart points and a scan |
| Block.BlockIter.SeekToFirst | happybets/Pods/leveldb-library/table/block.cc:205-208 | the first entry |
| Block.BlockIter.SeekToLast | happybets/Pods/leveldb-library/table/block.cc:210-215 | the last entry |
| Block.Open | happybets/Pods/leveldb-library/table/block.cc:18-38 | the place and length of the restart array of a finished block come from its last word; a number of restarts that does not fit is refused |
| BlockRoundTrip.BuildBlock | happybets/Pods/leveldb-library/table/block_builder.cc:63-107 | a block for any pairs whose sizes fit 32-bit offsets, with restart points and shared prefixes as above |
| BlockRoundTrip.RoundTrip | happybets/Pods/leveldb-library/table/block.cc:18-268 | for any pairs and restart interval, reading the block in either direction, from nothing but its bytes, yields exactly the pairs |
| Merger.MergingIterator.SeekToFirst | happybets/Pods/leveldb-library/table/merger.cc:35-41 | the first item of the merge |
| Merger.MergingIterator.SeekToLast | happybets/Pods/leveldb-library/table/merger.cc:43-49 | the last item of the merge |
| Merger.MergingIterator.Seek | happybets/Pods/leveldb-library/table/merger.cc:51-57 | the first item of the merge at or after the target |
| Merger.MergingIterator.TurnForward | happybets/Pods/leveldb-library/table/merger.cc:60-78 | after a switch to forward every other child stands just after the current item |
| Merger.MergingIterator.TurnBack | happybets/Pods/leveldb-library/table/merger.cc:86-107 | after a switch to reverse every other child stands just before the current item |
| Merger.MergingIterator.Next | happybets/Pods/leveldb-library/table/merger.cc:59-83 | one place forward in the merge, from either direction: no item is skipped or repeated |
| Merger.MergingIterator.Prev | happybets/Pods/leveldb-library/table/merger.cc:85-112 | one place back in the merge, from either direction |
| TwoLevel.TwoLevelIterator.SkipEmptyDataBlocksForward | happybets/Pods/leveldb-library/table/two_level_iterator.cc:125-136 | terminates at the next item of the concatenation, however many blocks are empty |
| TwoLevel.TwoLevelIterator.SkipEmptyDataBlocksBackward | happybets/Pods/leveldb-library/table/two_level_iterator.cc:138-149 | terminates at the previous item likewise |
| TwoLevel.TwoLevelIterator.InitDataBlock | happybets/Pods/leveldb-library/table/two_level_iterator.cc:156-170 | the block of the index entry is open afterwards, reused if it is the same one |
| TwoLevel.TwoLevelIterator.Current | happybets/Pods/leveldb-library/table/two_level_iterator.cc:37-44 | the item of the concatenation that the cursor is at |
| TwoLevel.TwoLevelIterator.Seek | happybets/Pods/leveldb-library/table/two_level_iterator.cc:91-96 | the first item of the concatenation at or after the target |
| TwoLevel.TwoLevelIterator.SeekToFirst | happybets/Pods/leveldb-library/table/two_level_iterator.cc:98-103 | the first item |
| TwoLevel.TwoLevelIterator.SeekToLast | happybets/Pods/leveldb-library/table/two_level_iterator.cc:105-110 | the last item |
| TwoLevel.TwoLevelIterator.Next | happybets/Pods/leveldb-library/table/two_level_iterator.cc:112-116 | one place forward in the concatenation |
| TwoLevel.TwoLevelIterator.Prev | happybets/Pods/leveldb-library/table/two_level_iterator.cc:118-122 | one place back in the concatenation |
| Coding.Check | happybets/Pods/leveldb-library/db/log_reader.cc:253-257 | the stored checksum is accepted if and only if it seals type and payload |
| Coding.Seal | happybets/Pods/leveldb-library/db/log_writer.cc:95-97 | the checksum the writer stores seals type and payload |
| LogWriter.LogWriter.AddRecord | happybets/Pods/leveldb-library/db/log_writer.cc:36-82 | afterwards the file is the log of one record more, whatever the place in the block; empty records and 6-byte trailers included; a fragment that does not end its record fills its block |
| LogReader.LogReader.ReadPhysicalRecord | happybets/Pods/leveldb-library/db/log_reader.cc:199-281 | on any bytes, the next fragment, end of file or bad record, with the corruption reported |
| LogReader.LogReader.ReadRecord | happybets/Pods/leveldb-library/db/log_reader.cc:60-182 | on any bytes, the next logical record with fragments reassembled and corruptions counted; a record that is returned is made of fragments, one after the other in the part of the file just read, each with a checksum that seals its type and payload |
| LogReader.LogicalIsSealed | happybets/Pods/leveldb-library/db/log_reader.cc:60-281 | that, for the reader in any state on any file |
| LogReader.LogReader.ReadAll | happybets/Pods/leveldb-library/db/db_impl.cc:411-426 | the replay loop reads records until there is none |
| LogRoundTrip.TornLogRoundTrip | happybets/Pods/leveldb-library/db/log_reader.cc:60-281 | a log cut off at any byte: reading returns exactly the records wholly inside, in order, then the end of the file, and reports no corruption |
| Bytewise.FindShortestSeparator | happybets/Pods/leveldb-library/util/comparator.cc:29-51 | exactly the shortened key the code makes; it lies at or after start and before limit |
| Bytewise.FindShortSuccessor | happybets/Pods/leveldb-library/util/comparator.cc:53-65 | the first byte that can be raised is raised and the rest dropped; the result is not before the key |
| Bytewise.LessTotal | happybets/Pods/leveldb-library/util/comparator.cc:25-27 | the bytewise order is total |
| Bytewise.FindShortestInternalSeparator | happybets/Pods/leveldb-library/db/dbformat.cc:68-85 | divides start from limit: a shortened separator has a user key that no entry from limit on has; it is shortened exactly where raising the first differing byte drops something |
| Bytewise.FindShortInternalSuccessor | happybets/Pods/leveldb-library/db/dbformat.cc:87-99 | not before the key; shortened exactly where raising the first byte that can be raised drops something |
| Bloom.CreateFilter | happybets/Pods/leveldb-library/util/bloom.cc:35-61 | sets exactly the bits of the probes of the keys, so that every key matches, for any hash |
| Bloom.KeyMayMatch | happybets/Pods/leveldb-library/util/bloom.cc:63-87 | false exactly if a probed bit is clear (or the filter is too short); reserved encodings match |
| FilterBlock.FilterBlockBuilder.StartBlock | happybets/Pods/leveldb-library/table/filter_block.cc:22-28 | one filter for every 2 KiB range passed, empty ones included |
| FilterBlock.FilterBlockBuilder.AddKey | happybets/Pods/leveldb-library/table/filter_block.cc:30-34 | the key is due in the filter of the current block |
| FilterBlock.FilterMatches | happybets/Pods/leveldb-library/util/bloom.cc:35-87 | a filter matches a key if and only if every probe of it falls on a probe of one of the keys the filter is for; an empty filter matches nothing |
| FilterBlock.RangeEnds | happybets/Pods/leveldb-library/table/filter_block.cc:52-77 | writing the filter of the keys of the present range leaves the filters before as they are |
| FilterBlock.FilterBlockBuilder.Finish | happybets/Pods/leveldb-library/table/filter_block.cc:36-50 | in the finished filter block a key may be in the block at an offset if and only if every probe of it falls on a probe of some key added in the same 2 KiB range, or the range has no filter; so every added key matches at its offset, and nothing matches in a range without keys |
| FilterBlock.ReadsBack | happybets/Pods/leveldb-library/table/filter_block.cc:78-110 | the reader asks the filter that the builder wrote for the range of a block offset, and takes a range without one to match |
| FilterBlock.KeyMayMatch | happybets/Pods/leveldb-library/table/filter_block.cc:95-110 | the answer of the filter for the block; a damaged filter matches |
| TableBuilder.TableBuilder.Add | happybets/Pods/leveldb-library/table/table_builder.cc:92-121 | adds exactly the entry; the finished block, if one waits, gets the short separator between its last key and the new one; the block is written exactly when it is full |
| TableBuilder.TableBuilder.Flush | happybets/Pods/leveldb-library/table/table_builder.cc:123-137 | the block is stored at the offset the pending index entry will name |
| TableBuilder.TableBuilder.Finish | happybets/Pods/leveldb-library/table/table_builder.cc:199-254 | a table whose sections hold exactly the entries added, with index keys that divide them and a filter that knows every key and lets another key pass only where its probes fall on probes of entries in the same 2 KiB |
| TableBuilder.FinishTight | happybets/Pods/leveldb-library/table/filter_block.cc:36-50 | the filter has got the user keys of the entries and nothing else |
| Table.InternalGet | happybets/Pods/leveldb-library/table/table.cc:226-255 | hands over the newest entry of the user key at or below the sequence number if there is one, and otherwise none of that user key |
| Table.WantedInSection | happybets/Pods/leveldb-library/table/table.cc:230-233 | the block that the index leads to holds an entry that can be seen, if any block does |
| Table.FilteredOut | happybets/Pods/leveldb-library/table/table.cc:234-240 | when the filter rules the key out, the table has no entry of it that can be seen |
| Table.LookupSees | happybets/Pods/leveldb-library/db/dbformat.cc:121-138 | a lookup key sees exactly the entries with a sequence number of at most its own |
| HandleTable.HandleTable.Lookup | happybets/Pods/leveldb-library/util/cache.cc:76-78 | the handle for the key, or the knowledge that there is none |
| HandleTable.HandleTable.Insert | happybets/Pods/leveldb-library/util/cache.cc:80-94 | replaces the handle of an equal key or adds one; there are at least as many buckets as handles afterwards |
| HandleTable.HandleTable.Remove | happybets/Pods/leveldb-library/util/cache.cc:96-104 | removes exactly the handle for the key |
| HandleTable.HandleTable.Resize | happybets/Pods/leveldb-library/util/cache.cc:125-149 | every handle is found in the larger table, whose length is the smallest power of two that is enough, 4 at least |
| Cache.ReferencedAgrees | happybets/Pods/leveldb-library/util/cache.cc:221-227 | taking a reference keeps counts, lists and usage in agreement |
| Cache.ReleasedAgrees | happybets/Pods/leveldb-library/util/cache.cc:229-240 | giving one up does, too; an entry is freed only with its last reference, and one that no client holds any more is the last of the LRU list, which is in the order in which entries were given up |
| Cache.ErasedAgrees | happybets/Pods/leveldb-library/util/cache.cc:307-316 | so does taking an entry out of the cache while clients may still hold it |
| Cache.AddedAgrees | happybets/Pods/leveldb-library/util/cache.cc:285-291 | so does adding a new entry |
| Cache.EvictionTakesOldest | happybets/Pods/leveldb-library/util/cache.cc:293-300 | eviction removes and frees a run of oldest entries that no client holds, and touches nothing else |
| Cache.EvictionIsNeeded | happybets/Pods/leveldb-library/util/cache.cc:293-300 | without the last eviction the charges would not fit |
| Cache.EvictedWereGivenUpFirst | happybets/Pods/leveldb-library/util/cache.cc:293-300 | every entry that is evicted was given up by its last client before every free entry that stays |
| Cache.LRUCache.Lookup | happybets/Pods/leveldb-library/util/cache.cc:255-262 | finds the cached entry of the key and takes a reference, or knows there is none |
| Cache.LRUCache.Release | happybets/Pods/leveldb-library/util/cache.cc:264-267 | one reference less; if it was the last a client had, this is the time at which the entry was given up |
| Cache.LRUCache.Erase | happybets/Pods/leveldb-library/util/cache.cc:318-321 | exactly the entry of the key leaves the cache |
| Cache.LRUCache.Insert | happybets/Pods/leveldb-library/util/cache.cc:269-303 | the new entry is in, held by the caller; the one with its key is out, free ones are evicted until usage <= capacity or nothing is evictable, and what is evicted was given up before every free entry that stays |
| Crc32c.Extend | happybets/Pods/leveldb-library/util/crc32c.cc:299-347 | at any alignment, the alignment prologue, sixteen- and four-byte steps through the tables compute the bit-by-bit checksum (section 12.1 of RFC 3720) |
| Crc32c.ExtendSplits | happybets/Pods/leveldb-library/util/crc32c.cc:299-347 | extending over a and then b is extending over a followed by b |
| Crc32c.WordShifts | happybets/Pods/leveldb-library/util/crc32c.cc:313-320 | dividing a word by four bytes is dividing each byte of it by those that follow |
| Crc32c.BuildTables | happybets/Pods/leveldb-library/util/crc32c.cc:18-282 | tables by the recurrence exist: this builds them |
| Crc32c.TableSamples | happybets/Pods/leveldb-library/util/crc32c.cc:18-282 | their first words are those listed in the program |
| Crc32c.UnmaskUndoesMask | happybets/Pods/leveldb-library/util/crc32c.h:31-40 | Mask and Unmask undo each other on all 32-bit values |
| Random.Random.Next | happybets/Pods/leveldb-library/util/random.h:25-45 | the shift-and-add reduction is seed * 16807 modulo 2^31 - 1, without overflow, and never leaves 1..2^31 - 2 |
| Random.StepBack | happybets/Pods/leveldb-library/util/random.h:25-45 | multiplying by 1407677000 leads back |
| Random.StepInjective | happybets/Pods/leveldb-library/util/random.h:25-45 | no two seeds step to the same |
| Random.Random.constructor | happybets/Pods/leveldb-library/util/random.h:19-24 | seeds 0 and 2^31 - 1 are avoided |
| Varints.EncodeVarint32 | happybets/Pods/leveldb-library/util/coding.cc:47-73 | the case-by-case encoder writes the seven-bit code |
| Varints.EncodeVarint64 | happybets/Pods/leveldb-library/util/coding.cc:81-90 | so does the loop |
| Varints.GetVarint32 | happybets/Pods/leveldb-library/util/coding.cc:112-131 | on any bytes the low 32 bits of the groups of seven bits up to the first without the top bit, at most five of them, and the place after them |
| Varints.NumberOfCode | happybets/Pods/leveldb-library/util/coding.cc:112-131 | the code of any 32-bit number is read back as that number |
| Varints.GetVarint64 | happybets/Pods/leveldb-library/util/coding.cc:143-170 | the number that comes at a place of any bytes, or the knowledge that none does |
| Varints.GetVarint64Ptr | happybets/Pods/leveldb-library/util/coding.cc:143-158 | on any bytes the low 64 bits of the groups of seven bits up to the first without the top bit, at most ten of them, and the place after them |
| Varints.VarintOfCode | happybets/Pods/leveldb-library/util/coding.cc:143-170 | the code of any 64-bit number is read back as that number, and as nothing else |
| Varints.GetPrefixed | happybets/Pods/leveldb-library/util/coding.cc:182-192 | the length-prefixed string that comes at a place of any bytes, or the knowledge that none does |
| Varints.SliceOfCode | happybets/Pods/leveldb-library/util/coding.cc:182-192 | the code of any string is read back as that string |
| Varints.FixedRoundTrip | happybets/Pods/leveldb-library/util/coding.cc:9-18 | a fixed-width number reads back |
| WriteBatches.WriteBatch.Put | happybets/Pods/leveldb-library/db/write_batch.cc:98-103 | the batch holds one more operation, and counts it |
| WriteBatches.WriteBatch.Delete | happybets/Pods/leveldb-library/db/write_batch.cc:105-109 | likewise |
| WriteBatches.WriteBatch.Append | happybets/Pods/leveldb-library/db/write_batch.cc:141-145 | the operations of the other batch follow those of this one |
| WriteBatches.WriteBatch.SetSequence | happybets/Pods/leveldb-library/db/write_batch.cc:94-96 | only the sequence number changes |
| WriteBatches.WriteBatch.Iterate | happybets/Pods/leveldb-library/db/write_batch.cc:42-80 | on any bytes, the handler gets the operations whose records come one after the other from the header on, up to the first place where there is none; success is reported if and only if that place is the end and the header has the right count |
| WriteBatches.RecordsBack | happybets/Pods/leveldb-library/db/write_batch.cc:42-80 | in a well-formed batch those are exactly its operations |
| WriteBatches.WriteBatch.InsertInto | happybets/Pods/leveldb-library/db/write_batch.cc:112-134 | adds the operations with consecutive sequence numbers from that of the batch on |
| WriteBatches.Appended | happybets/Pods/leveldb-library/db/write_batch.cc:98-145 | replacing the count and appending records is appending operations |
| VersionEdits.ItemsBack | happybets/Pods/leveldb-library/db/version_edit.cc:41-86 | setting the items that encoding writes, in its order, gives the edit back |
| VersionEdits.InsertPairKeepsOrder | happybets/Pods/leveldb-library/db/version_edit.cc:174-181 | the set of deleted files stays in order and gains exactly the pair |
| VersionEdits.VersionEdit.Clear | happybets/Pods/leveldb-library/db/version_edit.cc:26-39 | everything is forgotten except the compaction pointers |
| VersionEdits.VersionEdit.EncodeTo | happybets/Pods/leveldb-library/db/version_edit.cc:41-86 | appends the codes of exactly the items of the edit, in tag order |
| VersionEdits.VersionEdit.DecodeFrom | happybets/Pods/leveldb-library/db/version_edit.cc:109-210 | on any bytes, the edit gets the items that come one after the other, up to the first place where there is none, and decoding succeeds if and only if that place is the end; an encoded edit decodes if and only if all its levels exist, and then to itself, behind the compaction pointers held before (none in a fresh edit) |
| VersionEdits.ItemsOfCode | happybets/Pods/leveldb-library/db/version_edit.cc:109-210 | of an encoding exactly the items before the first whose level does not exist are there to read |
| PbEncode.EncodeVarint | happybets/Pods/nanopb/pb_encode.c:574-594 | writes the base-128 code; it succeeds exactly if that fits |
| PbEncode.EncodeItem | happybets/Pods/nanopb/pb_encode.c:734-869 | every static item type: it succeeds exactly if sizes are within what the field allows and the payload fits, and then writes the payload |
| PbEncode.EncodeSubmessage | happybets/Pods/nanopb/pb_encode.c:682-730 | the size measured first is the size written; a submessage that cannot be encoded is refused before anything is written |
| PbEncode.EncodeArray | happybets/Pods/nanopb/pb_encode.c:126-211 | packed or one tag per item; refused if there are more items than the field has room for |
| PbEncode.EncodeField | happybets/Pods/nanopb/pb_encode.c:307-394 | a required, optional, repeated or oneof field |
| PbEncode.Encode | happybets/Pods/nanopb/pb_encode.c:494-516 | succeeds if and only if sizes and counts are within what the fields allow, everywhere in the message, and the stream is a sizing one or has room for the encoding; then exactly the encoding is appended |
| PbCommon.OkFits | happybets/Pods/nanopb/pb_encode.c:307-394 | a well-formed message is one that can be encoded |
| PbEncode.GetEncodedSize | happybets/Pods/nanopb/pb_encode.c:533-543 | the size of the encoding, or none if the message cannot be encoded |
| PbEncode.FixedSize | happybets/Pods/nanopb/pb_encode.c:143-152 | fixed-width arrays need no measuring pass |
| PbDecode.DecodeVarint | happybets/Pods/nanopb/pb_decode.c:250-270 | on any bytes the low 64 bits of the groups up to the first without the top bit, refused if there is none within ten; the code of any 64-bit number reads back |
| PbDecode.DecodeVarint32 | happybets/Pods/nanopb/pb_decode.c:182-247 | on any bytes what is accepted is the low 32 bits of the number that comes; every code of a 32-bit number is accepted, with zeros behind it too |
| PbDecode.AddByte | happybets/Pods/nanopb/pb_decode.c:203-222 | from the sixth byte on only zeros and the bytes of a sign are accepted |
| PbDecode.VarintBack | happybets/Pods/nanopb/pb_decode.c:1289-1324 | a signed number survives the trip through its unsigned 64-bit form, also in narrower fields |
| PbDecode.ZigZagBack | happybets/Pods/nanopb/pb_decode.c:1240-1252 | zigzag numbers read back |
| PbDecode.DecodeNumber | happybets/Pods/nanopb/pb_decode.c:1289-1372 | integer fields of every width read back; on any bytes the result fits the field |
| PbDecode.DecodeFixed | happybets/Pods/nanopb/pb_decode.c:1254-1287 | fixed-width fields read back |
| PbDecode.DecodeData | happybets/Pods/nanopb/pb_decode.c:1391-1508 | strings, bytes and fixed-length bytes read back, except exactly a string that fills its array; on any bytes the result fits the array |
| PbMessage.IterNext | happybets/Pods/nanopb/pb_common.c:20-76 | the next field, or around to the first, with the index of required fields kept |
| PbMessage.IterFind | happybets/Pods/nanopb/pb_common.c:78-97 | finds the field of a tag from any starting place, or knows there is none |
| PbMessage.MakeSubstream | happybets/Pods/nanopb/pb_decode.c:367-380 | a substream of just the length-delimited content |
| PbMessage.DecodePacked | happybets/Pods/nanopb/pb_decode.c:420-448 | a packed array reads back whole |
| PbMessage.DecodeField | happybets/Pods/nanopb/pb_decode.c:401-475 | the next item of a required, optional, repeated or oneof field goes to its place, or is refused if a string in it has no room for its end or a submessage lacks a required field; on any bytes there are never more items than the field has room for |
| PbMessage.AssignElsewhere | happybets/Pods/nanopb/pb_decode.c:461-470 | setting a field of a oneof leaves the other fields of a well-formed message as they are |
| PbMessage.SkipField | happybets/Pods/nanopb/pb_decode.c:273-327 | passes over exactly one item, whatever its type |
| PbMessage.DecodeOne | happybets/Pods/nanopb/pb_decode.c:919-997 | one round of the loop: the next item goes to its place and the rest is left to read, or it fails exactly because a string has no room for its end; a field whose tag the table lacks is passed over and changes nothing |
| PbMessage.IsUnknownNext | happybets/Pods/nanopb/pb_decode.c:931-958 | what counts as such a field: any well-formed one with a tag of its own, whatever its type |
| PbMessage.Numbered | happybets/Pods/nanopb/pb_decode.c:988-993 | required fields are numbered without gaps |
| PbMessage.CheckRequired | happybets/Pods/nanopb/pb_decode.c:1006-1046 | true if and only if every required field that is tracked (the first 64) was seen |
| PbMessage.Decode | happybets/Pods/nanopb/pb_decode.c:901-1049 | a message that is well-formed but for missing required fields, here or in submessages, with any unknown fields put in between its items, decodes if and only if every string leaves room for its end and none of the required fields that are tracked (the first 64 of each message) is missing; then to that message with defaults for what is missing.  On any bytes it ends inside the stream, and no number, string, array or oneof ever goes beyond what the structure has room for |
| PbPartial.OkSlots | happybets/Pods/nanopb/pb_decode.c:1006-1046 | in a well-formed message nothing is missing, so that it decodes to itself exactly if its strings leave room for their ends |
| PbMessage.NextPiece | happybets/Pods/nanopb/pb_decode.c:919-997 | in a message with unknown fields put in anywhere, each round meets the next item or one of those fields |
| PbMessage.RoundTrip | happybets/Pods/nanopb/pb_decode.c:1051-1063 | encoding into n bytes succeeds if and only if the message keeps to its field table and n is at least the encoded size; what was written decodes if and only if every string leaves room for its end, and then to the message |
| PbMessage.FullStringIsLost | happybets/Pods/nanopb/pb_encode.c:831-855 | a message that is well-formed and encodes but has a string without room for its end, so that it does not decode |

## Left out

- Manual range compactions (`CompactRange`), reads with NULL bounds, and interleaving them with flushes.
- The scores that choose a level and the seek counts that choose a file: the starting file of a pick is any file of any level.
- ShouldStopBefore and the output size test are arbitrary functions of the place in the input; tables end exactly where they say, and the theorems hold for every cut. The cost of grandparent overlap is not stated.
- The input of a compaction is merged file by file (`InputMerge`), where the source concatenates the files of a level below 0 first; `Merger` and `TwoLevel` prove those iterators separately.
- The memtable of the engine is a sorted run; `SkipList` proves the skip list separately. Arena memory, and the byte layout of a memtable entry, are not modelled.
- Versions in the engine hold their entries directly; that a table file reads back is proved in `Table` and `Block` and is not linked file by file.
- A flush and the files of a compaction draw their numbers when their record is written (`Durable.LoggedFlush`), not when the table is begun; no other thread draws one in between, and a table that is there early is one of those that `Disk.CutOff` allows. In `Durable` and `DurableRuns` writing a record and installing its version are one step; `Installs` separates them. The CURRENT file is not modelled.
- I/O errors and background errors; `reuse_logs`; `repair.cc`; file names; options; statistics; environment and threads.
- Weak memory ordering: every load and store is one atomic step.
- SnapshotList as a linked list: the engine has a sequence of snapshots.
- WriteQueue and GroupCommit have no memtable switch inside: making room, which may free the mutex any number of times, has no effect on log and memtable. Switches are steps in `Durable`. Errors of the log are not modelled.
- DBIter: status and corrupted internal keys, read sampling, and the release of a large saved value.
- Merging iterators have children with pairwise distinct keys, and keys from a total order; errors of children are not modelled. The same holds for the blocks of a two-level iterator.
- Block.BlockIter.ParseNextKey: where an entry reaches past the block the program goes on with what lies there; the model stops the cursor and says so (status `Overran`).
- Block.BlockIter.Seek: the comparator is a map into an order; on a corrupted block only memory bounds, as far as `Overran` tells, and termination are stated.
- The log reader starts at offset 0 (`initial_offset` and resyncing are out); of a log with bytes changed rather than cut off it is proved that what comes back has the right checksums, not how much of it comes back.
- The SSE form of CRC32C; the 1024 table words are not repeated, `Crc32c.TableSamples` compares some.
- Tables: block bytes, compression, footer and block cache are abstracted to a map from offsets to entries; the block's own bytes are in `Block`.
- TableBuilder.TableBuilder.Finish: says nothing about a filter block of 4 GiB or more, whose offsets would not fit.
- Bloom: the number of probes is a parameter (the source derives it from the bits per key by a factor of 0.69) and the hash is any function.
- Bloom.CreateFilter: the false-positive rate is not stated.
- Cache: capacity 0 (no caching), Prune, the sixteen shards, and the pointers of the circular lists, which are sequences here; the deleter is a ghost set of freed entries.
- HandleTable: the elements of a bucket are a sequence instead of a chain.
- WriteBatches.WriteBatch.Iterate: which message belongs to which damage is not stated; the count of calls is an unbounded integer.
- VersionEdits.VersionEdit.DecodeFrom: which error message belongs to which damaged item is not stated.
- Edits in `Manifest` and `Durable` are values; their bytes are in `VersionEdits`, and the log that holds them in `LogRoundTrip`.
- nanopb: callbacks, extensions, pointer fields, fixed-count arrays, proto3 fields without presence, delimited and null-terminated variants, and raw struct offsets. Values and field tables are data types.
- PbDecode.DecodeVarint32: the bit position is an unbounded counter (8 bits in the source), which matters only for codes longer than 36 bytes.
- PbMessage.Decode: an encoding with fields in another order, repeated submessages that merge, or unknown fields inside a submessage is decoded by the same code, but has no theorem of its own.
- Swift code, Firebase and the other pods have no part in this model.
