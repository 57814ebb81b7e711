# Verification of the LevelDB storage engine and of nanopb

The iOS application in this repository vendors two libraries with hard properties: LevelDB, a
log-structured storage engine, and nanopb, an encoder and decoder of protocol buffers.  This
project models both and proves what they are for.

LevelDB refines one object: a map from a user key and a sequence number to a value or a deletion
marker, read as the newest entry at or below a snapshot (`Keys.Read`).  The project follows it
through every layer.

- `Keys`, `Version`, `CompactionInputs`, `CompactionWork`, `CompactionReads`, `Install` and
  `VersionBuilder` are one version of the file set: searches, picking and closing the inputs of a
  compaction, the drop rules, and edits.
- `Lsm` is the database as a state machine with the history of all writes, and `DbImpl` the
  object whose methods take its steps.
- `VersionLists` and `Snapshots` are the two circular lists, `Durable` is the system with disk,
  logs, manifest, the phases of the background thread, reference counts and garbage collection,
  `Recovery` is DB::Open, `Lives` are whole lives through crashes and openings, and `Garbage` is
  which files go.
- `WriteQueue`, `WriteBatches`, `LogFormat`, `Wal` and `WalReads` are the write path: group commit,
  batches, the log in 32 KB blocks, how they fit the database, and what reads make of them.
- `SkipLists` has the memtable index as interleaved stores and loads, `MemTables` as an object.
- `Coding`, `Comparators`, `DbFormat`, `Blocks`, `FilterBlocks`, `BloomFilters`, `TableFormat`,
  `Tables` and `TableReads` are the table files in bytes, from the first block to the footer,
  and `Formats` has one example of each format byte for byte.
- `Merger`, `DbIter` and `DbCursor` are the cursors.
- `CompactionHazard`, `HazardRun`, `CompactionRace` and `RaceRun` are what goes wrong, and when.
- `PbCommon`, `PbEncode`, `PbDecode`, `PbRoundTrip` and `PbLaws` are nanopb: the code, decoding
  what was encoded, and what other programs rely on.

Code that changes state step by step is a class with methods or a loop, proved against functions;
protocols between threads, and between crashes, are state machines over their steps.

## Findings

Properties that the code does not have on all inputs, with an input and the exact condition.

| property | fails at | holds exactly when |
|---|---|---|
| A compaction keeps every read at or above the smallest snapshot | `CompactionHazard.BoundaryFileResurrects`, reached by the run of `HazardRun.DeletedValueComesBack`: a user key is split over two lower files, the marker's file is an input, and the older value's file is not | `CompactionReads.CompactionKeepsReads`, `Lsm.ReadsStep`: no deletion marker of the lower inputs, visible and with nothing below, hides a value in a lower file that was left out.  `CompactionReads.BoundaryGuardSuffices` and `Lsm.GuardedRunIsSafe` give a guard on file bounds: boundary files would have to be added to the lower inputs as they are to the upper ones |
| A memtable flushed in the middle of a compaction keeps the levels disjoint | `RaceRun.WriteIsHidden`: a manual compaction of level 1 with the files of keys 1 and 3, and key 2 flushed to level 2 meanwhile; the output spans it, and a search for key 2 looks into the output | `CompactionRace.FlushDuringCompaction`: no output spans the flushed file at the output level.  `CompactionRace.OutsideIsSafe`: a flush outside the range of the upper inputs is safe.  `CompactionRace.GaplessIsSafe`: inputs without a gap are safe, and those are all that `CompactionInputs.PickCompaction` picks around one file, so only manual ranges over a gap (`RaceRun.TheGap`) are at risk |
| One builder fed all edits saves what saving after each edit does | `VersionBuilder.ReaddingDuplicates`: a file deleted from a level and added there again is listed twice | `VersionBuilder.FoldEqualsSteps`: for every file, its number ends deleted, or was never deleted and added at most once, or was added once more often than the base holds it since it was last deleted.  `Manifest.Appends` shows that the database keeps this guard |
| Decoding an edit gives the edit back | `VersionEdits.HeldPointerStays`: an object that already holds a compaction pointer, which `Clear` does not remove | `VersionEdits.EditRoundTrip`: all other fields come back, and the pointers follow those held before, so the edit comes back exactly when there were none |
| A message without one of its required fields is refused | `PbLaws.SixtyFifthIsNotMissed`: 65 required fields, the last one missing | `PbLaws.RequiredFieldIsMissed`: the field is among the first 64 required ones |
| Decoding an encoded message gives the message back | `PbRoundTrip.FullStringIsLost`: a string of one byte in an array of one byte is written without its terminator, and the decoder refuses it | `PbRoundTrip.RoundTrip`: every string written has its terminator |

## Model

| member | source | states |
|---|---|---|
| `Version.FindFile` | ios/job_qa/Pods/leveldb-library/db/version_set.cc:87-105 | The binary search over a sorted level returns the place where files stop ending before the key: every file before it ends before the key, and none from it on does. |
| `Version.SomeFileOverlapsRange` | ios/job_qa/Pods/leveldb-library/db/version_set.cc:121-156 | True exactly when some file of the level meets the user-key range, with open ends, whether the level is scanned or searched. |
| `Version.GetOverlappingInputs` | ios/job_qa/Pods/leveldb-library/db/version_set.cc:498-538 | At level 0 the restarting search ends with the least range that contains the one asked for and is closed under file overlap; at every level the result is exactly the files meeting the final range. |
| `Version.PickLevelForMemTableOutput` | ios/job_qa/Pods/leveldb-library/db/version_set.cc:470-495 | The deepest level, at most 2, that a new table reaches without meeting a file on the way or too many grandparent bytes. |
| `Version.SearchLevel0` | ios/job_qa/Pods/leveldb-library/db/version_set.cc:281-306 | Searching overlapping level-0 files from the newest number down and stopping at the first hit answers for all files of the level. |
| `Version.SearchSortedLevel` | ios/job_qa/Pods/leveldb-library/db/version_set.cc:308-321 | In a sorted level the one file found by binary search answers for the whole level. |
| `Version.Get` | ios/job_qa/Pods/leveldb-library/db/version_set.cc:324-400 | Level 0 newest first, then one file per deeper level, stopping at the first hit, answers with the newest entry at or below the sequence number over the union of all levels of any well-formed version. |
| `DbImpl.DBImpl.Get` | ios/job_qa/Pods/leveldb-library/db/db_impl.cc:1110-1155 | Looking into the memtable, then the immutable one, then the current version, and stopping at the first hit, returns what the full history holds at the snapshot or at the last sequence number, in every state that keeps the invariant. |
| `Lsm.SnapshotsAreStable` | ios/job_qa/Pods/leveldb-library/include/leveldb/db.h:98-102 | In a safe run, a sequence number that was current at one state and is still protected at a later one reads there exactly what had been written by the earlier state. |
| `Lsm.StructureStep` | ios/job_qa/Pods/leveldb-library/db/db_impl.cc:697-776 | Every write, memtable switch, flush, move, compaction, snapshot and release keeps levels sorted and disjoint, shallower entries newer than deeper ones, and higher level-0 numbers newer. |
| `Lsm.ReadsStep` | ios/job_qa/Pods/leveldb-library/db/db_impl.cc:887-1046 | A step keeps every protected read equal to the history if and only if it is not a compaction that resurrects a value left out of its lower inputs. |
| `Lsm.GuardedRunIsSafe` | ios/job_qa/Pods/leveldb-library/db/version_set.cc:1380-1439 | A run is safe when at every compaction no file left out of the lower inputs begins with the user key at which a lower input ends: a guard on file bounds alone. |
| `Install.InstallKeepsVersion` | ios/job_qa/Pods/leveldb-library/db/version_set.cc:777-860 | Installing the outputs of a compaction or trivial move with closed inputs keeps the version invariant. |
| `CompactionInputs.AddBoundaryInputs` | ios/job_qa/Pods/leveldb-library/db/version_set.cc:1355-1378 | Terminates, and leaves no file at the level that begins with the user key at which the inputs end and lies after them; in a sorted level the inputs stay a run of neighbours. |
| `CompactionInputs.SetupOtherInputs` | ios/job_qa/Pods/leveldb-library/db/version_set.cc:1380-1439 | The upper inputs are closed under boundaries, the lower inputs are exactly the next-level files meeting their user-key range, and the optional growth leaves the lower inputs as they were. |
| `CompactionInputs.PickBySize` | ios/job_qa/Pods/leveldb-library/db/version_set.cc:1257-1271 | The file chosen by size is the first that ends after the compaction pointer, and the first of the level if there is none. |
| `CompactionInputs.PickCompaction` | ios/job_qa/Pods/leveldb-library/db/version_set.cc:1247-1299 | Around a chosen file the picked inputs form a legal compaction that contains it, and leave no gap: every user key from one of them to another lies in one. |
| `CompactionInputs.CompactRange` | ios/job_qa/Pods/leveldb-library/db/version_set.cc:1441-1472 | A manual compaction is refused exactly when no file of the level meets the range; otherwise it is legal and takes the files that meet the range, all of them at level 0, and above in order up to the one with which they reach the size limit. |
| `CompactionReads.NoOlderLeftBehind` | ios/job_qa/Pods/leveldb-library/db/version_set.cc:1341-1378 | Closing the upper inputs leaves no older piece of an input user key behind at that level. |
| `DbImpl.InputIsMerged` | ios/job_qa/Pods/leveldb-library/db/version_set.cc:1214-1245 | The children of the input iterator have pairwise distinct keys, and their sorted union holds exactly the entries of the input files. |
| `CompactionWork.Compaction.IsBaseLevelForKey` | ios/job_qa/Pods/leveldb-library/db/version_set.cc:1510-1529 | For user keys asked in ascending order, the scan that never moves its pointers back decides what a full scan of the deeper levels would. |
| `CompactionWork.DoCompactionWork` | ios/job_qa/Pods/leveldb-library/db/db_impl.cc:887-1017 | The output files together hold in order exactly the entries that survive the two drop rules; each reaches the size limit only with its last entry and passes no more than the allowed grandparent bytes, and where all grandparents are within that limit none but the last is cut before it is full. |
| `Lsm.OutputsAreLean` | ios/job_qa/Pods/leveldb-library/db/db_impl.cc:951-985 | Of the entries of a user key visible at the snapshot a compaction used, its outputs hold at most one, and a deletion marker only if a deeper file may have the key. |
| `CompactionReads.CompactionKeepsReads` | ios/job_qa/Pods/leveldb-library/db/db_impl.cc:951-985 | For every sequence number from the smallest snapshot on, a compaction keeps every read if and only if no deletion marker dropped from the lower inputs hid a value in a file left out of them. |
| `CompactionReads.BoundaryGuardSuffices` | ios/job_qa/Pods/leveldb-library/db/version_set.cc:1384-1387 | When no file left out at the next level begins with the user key at which a lower input ends, a compaction keeps every read. |
| `DbImpl.DBImpl.BackgroundCompaction` | ios/job_qa/Pods/leveldb-library/db/db_impl.cc:697-776 | An immutable memtable is flushed, to the deepest free level; else nothing is done exactly if a manual range meets no file; else the inputs hold the file asked for or take the range in order up to the size limit, one file asked for that meets nothing at the next level and little enough below is moved, and everything else is compacted into outputs cut as they should be. Each is a step of the state machine. |
| `DbImpl.DBImpl.CompactMemTable` | ios/job_qa/Pods/leveldb-library/db/db_impl.cc:544-575 | The memtable becomes one table at the deepest level, at most 2, that it reaches without meeting a file on the way or too many bytes below, and nothing else changes. |
| `CompactionRace.FlushDuringCompaction` | ios/job_qa/Pods/leveldb-library/db/db_impl.cc:917-928 | When a memtable is flushed while a compaction runs, the version invariant holds after both installs if and only if no output of the compaction spans the flushed file at the output level. |
| `CompactionRace.OutsideIsSafe` | ios/job_qa/Pods/leveldb-library/db/db_impl.cc:917-928 | A file flushed outside the user-key range of the upper inputs is safe. |
| `CompactionRace.GaplessIsSafe` | ios/job_qa/Pods/leveldb-library/db/db_impl.cc:917-928 | A flush in the middle of a compaction whose inputs leave no gap is safe, and so no compaction picked around one file can span a flushed file. |
| `CompactionHazard.BoundaryFileResurrects` | ios/job_qa/Pods/leveldb-library/db/version_set.cc:1384-1387 | A well-formed version and inputs that SetupOtherInputs may choose, for which a deleted value becomes readable. |
| `HazardRun.DeletedValueComesBack` | ios/job_qa/Pods/leveldb-library/db/db_impl.cc:887-1046 | From an empty database, a run of eleven steps whose last makes a deleted value readable again. |
| `HazardRun.OnlyTheLastHarms` | ios/job_qa/Pods/leveldb-library/db/db_impl.cc:887-1046 | All steps of that run but the last are safe. |
| `RaceRun.WriteIsHidden` | ios/job_qa/Pods/leveldb-library/db/db_impl.cc:917-928 | From an empty database, a run after which a manual compaction with a flush in between leaves a level whose search looks into a file beside the one that holds the key. |
| `VersionBuilder.SaveLevel` | ios/job_qa/Pods/leveldb-library/db/version_set.cc:672-730 | Merging added files into base files with upper_bound gives all of both, ordered by smallest key and number, without the deleted numbers. |
| `VersionBuilder.FoldEqualsSteps` | ios/job_qa/Pods/leveldb-library/db/version_set.cc:566-730 | One builder fed all edits saves the same level as saving a version after each edit, if and only if every file named keeps the per-number guard. |
| `VersionBuilder.ReaddingDuplicates` | ios/job_qa/Pods/leveldb-library/db/version_set.cc:657-668 | Deleting a file from a level and adding it there again breaks the guard, so the builder lists it twice. |
| `Manifest.Appends` | ios/job_qa/Pods/leveldb-library/db/version_set.cc:777-860 | A record whose files are new, or come down from a shallower level, keeps the manifest one of the version it installs. |
| `Manifest.Replays` | ios/job_qa/Pods/leveldb-library/db/version_set.cc:893-969 | One builder fed every edit of such a manifest saves exactly the version in force. |
| `Recovery.SnapshotManifest` | ios/job_qa/Pods/leveldb-library/db/version_set.cc:1064-1092 | The snapshot at the head of a new manifest stands for all the edits before it. |
| `VersionEdits.EditRoundTrip` | ios/job_qa/Pods/leveldb-library/db/version_edit.cc:41-203 | Decoding an encoded edit gives back every field, and in front of its compaction pointers those that the object held before. |
| `VersionEdits.HeldPointerStays` | ios/job_qa/Pods/leveldb-library/db/version_edit.cc:27-38 | An edit with a log number, decoded into an object that holds one compaction pointer, comes back with that pointer. |
| `VersionEdits.VersionEdit.EncodeTo` | ios/job_qa/Pods/leveldb-library/db/version_edit.cc:41-84 | Appends exactly the bytes of the items of the edit, in order. |
| `VersionEdits.VersionEdit.DecodeFrom` | ios/job_qa/Pods/leveldb-library/db/version_edit.cc:105-203 | Succeeds exactly when parsing does, and leaves the edit that parsing gives. |
| `VersionEdits.DecodedIsValid` | ios/job_qa/Pods/leveldb-library/db/version_edit.cc:86-203 | Whatever the bytes, an edit that is decoded can be encoded: its levels exist, its keys are not empty and its sizes fit. |
| `VersionEdits.DecodedComesBack` | ios/job_qa/Pods/leveldb-library/db/version_edit.cc:41-203 | What was decoded from any bytes into a new object is encoded and decoded to the same edit again. |
| `VersionLists.RefKeeps` | ios/job_qa/Pods/leveldb-library/db/version_set.cc:453-453 | Taking the current version keeps the list equal to the referenced versions and counts one holder more. |
| `VersionLists.UnrefKeeps` | ios/job_qa/Pods/leveldb-library/db/version_set.cc:455-462 | Giving a reference back keeps the list equal to the versions with a reference; the live files only shrink. |
| `VersionLists.AppendKeeps` | ios/job_qa/Pods/leveldb-library/db/version_set.cc:760-775 | A new current version takes its reference and the old one loses one; every version that somebody holds stays in the list with its files. |
| `VersionLists.VersionSet.AppendVersion` | ios/job_qa/Pods/leveldb-library/db/version_set.cc:760-775 | The circular list of versions ends with the new one, without the old current one if nobody held it. |
| `VersionLists.VersionSet.Unref` | ios/job_qa/Pods/leveldb-library/db/version_set.cc:455-462 | Takes one reference away, and unlinks the version with its last. |
| `VersionLists.VersionSet.AddLiveFiles` | ios/job_qa/Pods/leveldb-library/db/version_set.cc:1144-1154 | One walk around the list adds exactly the file numbers of the versions in it. |
| `VersionLists.ObsoleteFiles` | ios/job_qa/Pods/leveldb-library/db/db_impl.cc:222-274 | Dooms of the directory the tables and temporary files that are neither live nor pending, the logs below the log number but the previous one, the manifests below the current number, and nothing else. |
| `Garbage.RemoveObsoleteFiles` | ios/job_qa/Pods/leveldb-library/db/db_impl.cc:222-287 | In a running system the tables and logs chosen are exactly those of the event Collect; no log that an opening would replay is among them, nor the log of either memtable. |
| `Snapshots.SnapshotList.Oldest` | ios/job_qa/Pods/leveldb-library/db/snapshot.h:47-50 | The snapshot after the dummy head has the smallest sequence number in the list. |
| `Snapshots.LinkIn` | ios/job_qa/Pods/leveldb-library/db/snapshot.h:57-70 | Linking a new node before the dummy head keeps the circle, with the node last. |
| `Snapshots.LinkOut` | ios/job_qa/Pods/leveldb-library/db/snapshot.h:79-86 | Unlinking a node joins its neighbours and leaves every other link of the circle. |
| `Durable.EventKeeps` | ios/job_qa/Pods/leveldb-library/db/db_impl.cc:222-287 | Every event of the running system, the phases of background work, garbage collection and version references included, keeps the invariant that ties memory, manifest, logs and table files together. |
| `Durable.WorkIsStep` | ios/job_qa/Pods/leveldb-library/db/version_set.cc:777-860 | Installing what the background thread set out to do is a step of the state machine, although writes and snapshots went on beside it. |
| `Durable.ReadSnapshotCovers` | ios/job_qa/Pods/leveldb-library/db/db_impl.cc:899-903 | The snapshot number a compaction read at its start never exceeds a live snapshot or one still to be taken. |
| `Durable.LiveTablesExist` | ios/job_qa/Pods/leveldb-library/db/db_impl.cc:222-287 | The table files of every version that somebody holds are there with their entries, and none is chosen for deletion. |
| `Recovery.LogsAreThePlan` | ios/job_qa/Pods/leveldb-library/db/db_impl.cc:307-372 | The logs at or above the log number of the manifest, in ascending order, hold exactly the entries that are in no table and the group in flight. |
| `Recovery.Opening.RecoverLogFile` | ios/job_qa/Pods/leveldb-library/db/db_impl.cc:380-498 | Every record of a log goes into a memtable and every memtable into a level-0 table; the state grows by exactly the entries of the log. |
| `Recovery.Recover` | ios/job_qa/Pods/leveldb-library/db/db_impl.cc:289-378 | The manifest and the logs it needs, replayed, give the history with every acknowledged write and the group in flight, and a file number past every log. |
| `Recovery.Open` | ios/job_qa/Pods/leveldb-library/db/db_impl.cc:1478-1519 | On what any crash or unfinished opening left, opening gives back every acknowledged write, at most the group in flight besides, and a state that keeps the invariant; stopping it anywhere leaves the same database with other garbage. |
| `Recovery.ReplayManifest` | ios/job_qa/Pods/leveldb-library/db/version_set.cc:862-969 | Reading the records in order gives the files that one builder saves and the counters of the last record. |
| `Lives.CrashKeeps` | ios/job_qa/Pods/leveldb-library/db/db_impl.cc:289-378 | A crash at any step, also between the manifest record and the install, leaves a state that can be opened. |
| `Lives.LivesKeep` | ios/job_qa/Pods/leveldb-library/db/db_impl.cc:1478-1519 | Through any number of crashes, failed openings and openings, the invariant holds at every moment. |
| `Lives.HeldTablesExist` | ios/job_qa/Pods/leveldb-library/db/version_set.cc:1144-1154 | At every moment of a whole life, no table file of a version in use is missing, overwritten or about to be deleted. |
| `Lives.InstallReads` | ios/job_qa/Pods/leveldb-library/db/db_impl.cc:869-885 | An install keeps reads equal to the history exactly when its step is safe. |
| `Lives.LivesRead` | ios/job_qa/Pods/leveldb-library/db/db_impl.cc:289-498 | Through any number of crashes and openings, as long as every compaction that takes effect is safe, every read at or above the smallest snapshot finds what the acknowledged history holds. |
| `Lives.AcknowledgedIsRead` | ios/job_qa/Pods/leveldb-library/db/db_impl.cc:289-498 | What was written by one moment of such a life is read back at every later moment at which its sequence number is protected. |
| `WriteQueue.BuildBatchGroup` | ios/job_qa/Pods/leveldb-library/db/db_impl.cc:1270-1316 | The group is the longest admissible run of writers from the front, its batch is their batches in queue order, and a sync write is in it only if its leader is one. |
| `WriteQueue.GroupFits` | ios/job_qa/Pods/leveldb-library/db/db_impl.cc:1270-1316 | A group of well-formed batches can be encoded: its count fits the field. |
| `WriteQueue.WritersEndInOrder` | ios/job_qa/Pods/leveldb-library/db/db_impl.cc:1195-1266 | In every run, calls of Write end in the order they arrived, each at most once. |
| `WriteQueue.BatchesAreApplied` | ios/job_qa/Pods/leveldb-library/db/db_impl.cc:1195-1266 | In every run, the memtables hold exactly the operations of the successful batches, each once, in queue order and consecutively numbered, and the done part of the current group. |
| `WriteQueue.SnapshotsCutBetweenBatches` | ios/job_qa/Pods/leveldb-library/db/db_impl.cc:1195-1266 | No value ever readable as the last sequence number falls inside a batch. |
| `WriteQueue.SnapshotsAreStable` | ios/job_qa/Pods/leveldb-library/db/db_impl.cc:1195-1266 | What a sequence number shows never changes: it is the successful batches that had ended when it was read. |
| `WriteQueue.WritesAreAtomic` | ios/job_qa/Pods/leveldb-library/db/db_impl.cc:1235-1247 | Seen through the last sequence number, a group takes effect at once when it finishes, and no other step shows. |
| `WriteQueue.InsertedIsLogged` | ios/job_qa/Pods/leveldb-library/db/db_impl.cc:1220-1234 | Every operation in a memtable is in a record of the log. |
| `WriteQueue.SyncWritesAreOnDisk` | ios/job_qa/Pods/leveldb-library/db/db_impl.cc:1220-1234 | In every run, the operations of a sync write that ended well are in records that were synced, whoever led its group. |
| `Wal.QueueStepIsEvent` | ios/job_qa/Pods/leveldb-library/db/db_impl.cc:1195-1266 | Every step of the write queue that does not fail is an event of the database or none: logging a group, then applying it as a whole. |
| `Wal.TornRecordIsAbsent` | ios/job_qa/Pods/leveldb-library/db/log_reader.cc:56-174 | A record that was only partly written is absent when the log is read, and all records before it are there. |
| `Wal.ReadLog` | ios/job_qa/Pods/leveldb-library/db/db_impl.cc:419-462 | Reading back a log file cut anywhere gives the batches whose records are complete, with their first sequence numbers. |
| `WalReads.RecordIsRead` | ios/job_qa/Pods/leveldb-library/db/write_batch.cc:118-136 | After a logged batch, a key reads as the last operation on it says: the value of a put, and nothing after a deletion. |
| `WalReads.ReplayFile` | ios/job_qa/Pods/leveldb-library/db/db_impl.cc:419-462 | After replaying a log file that ends anywhere, every key reads as the last operation on it in a complete record says. |
| `WalReads.GroupIsRead` | ios/job_qa/Pods/leveldb-library/db/db_impl.cc:1235-1247 | When a group is applied, every key it wrote reads at the new last sequence number as its last operation says, and no other key reads otherwise than before. |
| `WriteBatches.WriteBatch.Put` | ios/job_qa/Pods/leveldb-library/db/write_batch.cc:98-103 | Adds one operation at the end of the batch and to its count. |
| `WriteBatches.WriteBatch.Append` | ios/job_qa/Pods/leveldb-library/db/write_batch.cc:144-148 | Appends the operations of the other batch and adds up the counts. |
| `WriteBatches.WriteBatch.Iterate` | ios/job_qa/Pods/leveldb-library/db/write_batch.cc:42-80 | Finds exactly the operations that were put in, in order, with an OK status. |
| `WriteBatches.IterateBytes` | ios/job_qa/Pods/leveldb-library/db/write_batch.cc:42-80 | On any bytes, finds what parsing gives and reports the error the code reports. |
| `LogFormat.Writer.AddRecord` | ios/job_qa/Pods/leveldb-library/db/log_writer.cc:34-80 | However often the log was reopened, the file is the layout of all its records. |
| `LogFormat.Reader.ReadRecord` | ios/job_qa/Pods/leveldb-library/db/log_reader.cc:56-174 | Where the file goes on with a record, gives that record if it is there in full and the end otherwise, without a report; from any file, with checksums on, gives only records made up of fragments that are stored one after the other with checksums that fit. |
| `LogFormat.ReadAll` | ios/job_qa/Pods/leveldb-library/db/log_reader.cc:56-174 | Reading any byte prefix of a log gives exactly the records whose last byte lies in the prefix, in order, and reports no corruption; reading any file with checksums gives no record that is not stored in it. |
| `SkipLists.LevelsAreSorted` | ios/job_qa/Pods/leveldb-library/db/skiplist.h:337-368 | At every moment between two stores of concurrent inserts and searches, each level is in key order and a sublist of the level below. |
| `SkipLists.SearchLinearizes` | ios/job_qa/Pods/leveldb-library/db/skiplist.h:262-322 | A search beside inserts answers what is right for the list at its last load. |
| `SkipLists.SearchMissesNothing` | ios/job_qa/Pods/leveldb-library/db/skiplist.h:262-281 | A key that was in the list at any time before a search ends is not missed by it. |
| `MemTables.SkipList.Insert` | ios/job_qa/Pods/leveldb-library/db/skiplist.h:337-368 | Its stores are the writer steps of the concurrent model, and the list ends with exactly one entry more. |
| `MemTables.MemTable.Add` | ios/job_qa/Pods/leveldb-library/db/memtable.cc:76-99 | The table holds one entry more, in key order, whatever height the node gets. |
| `MemTables.MemTable.Get` | ios/job_qa/Pods/leveldb-library/db/memtable.cc:101-135 | Answers with the newest entry at or below the sequence number over all entries of the table. |
| `Blocks.DecodeEncoded` | ios/job_qa/Pods/leveldb-library/table/block.cc:55-75 | Decoding at the start of an entry gives back the lengths and bytes that were encoded. |
| `Blocks.BlockBuilder.Add` | ios/job_qa/Pods/leveldb-library/table/block_builder.cc:71-105 | The buffer grows by the prefix-compressed entry, which shares the longest prefix with the key before, or nothing at a restart, and the block holds the pair after all pairs before. |
| `Blocks.BlockBuilder.Finish` | ios/job_qa/Pods/leveldb-library/table/block_builder.cc:61-69 | The finished bytes are a block of all pairs added, if they are under 4 GB. |
| `Blocks.BlockIter.Seek` | ios/job_qa/Pods/leveldb-library/table/block.cc:164-202 | Lands on the first pair whose key is at or after the target. |
| `Blocks.BlockIter.Next` | ios/job_qa/Pods/leveldb-library/table/block.cc:138-141 | Goes to the next pair. |
| `Blocks.BlockIter.Prev` | ios/job_qa/Pods/leveldb-library/table/block.cc:143-162 | Goes back to the pair before, which undoes Next. |
| `Tables.TableBuilder.Add` | ios/job_qa/Pods/leveldb-library/table/table_builder.cc:94-123 | The table holds one pair more, finished blocks get their index key only now, and a block ends with the pair that brings it to the block size. |
| `Tables.TableBuilder.Finish` | ios/job_qa/Pods/leveldb-library/table/table_builder.cc:198-253 | The bytes of the file are a table of all pairs added: blocks, filter, a metaindex that names the filter, an index of separators, and a footer that leads to both. |
| `TableFormat.FooterRoundTrip` | ios/job_qa/Pods/leveldb-library/table/format.cc:31-62 | The footer reads back: the padded handles and the magic number give the two handles that were written. |
| `TableFormat.BadChecksumIsRefused` | ios/job_qa/Pods/leveldb-library/table/format.cc:64-110 | With verification on, a block whose checksum does not fit is not read. |
| `Tables.ReadMeta` | ios/job_qa/Pods/leveldb-library/table/table.cc:83-132 | The metaindex block of a finished table gives the filter of the policy with that name exactly if one was written, and the reader reads its filters. |
| `Tables.IndexFinds` | ios/job_qa/Pods/leveldb-library/table/table.cc:214-242 | Although a separator may lie beyond every key of its block, a lookup of a user key that is there is never sent to another block. |
| `Tables.Table.InternalGet` | ios/job_qa/Pods/leveldb-library/table/table.cc:214-242 | Hands over nothing but the first pair at or after the key, and hands it over whenever it has the user key looked up, filter or not. |
| `Tables.Open` | ios/job_qa/Pods/leveldb-library/table/table.cc:38-132 | A finished table is opened from its bytes alone, by its footer, finds its filter exactly if it has one and a policy is given, and reads as the table that was written. |
| `TableReads.TableGet` | ios/job_qa/Pods/leveldb-library/db/table_cache.cc:100-112 | On a finished table that holds the entries of a file, the lookup with SaveValue answers what the newest entry of the user key at or below the sequence number says. |
| `TableReads.HandedAnswers` | ios/job_qa/Pods/leveldb-library/db/version_set.cc:262-275 | The pair handed over, or silence, decides the read of the user key over all entries of the table. |
| `TableReads.BuildTable` | ios/job_qa/Pods/leveldb-library/db/builder.cc:17-77 | Sorted entries become a finished table that holds them, with the first and last key as the bounds of the file. |
| `FilterBlocks.FilterBlockBuilder.Finish` | ios/job_qa/Pods/leveldb-library/table/filter_block.cc:35-49 | The filter block holds a filter for every 2 KB of offsets, made of the keys added there. |
| `FilterBlocks.FilterBlockReader.AcceptsMatch` | ios/job_qa/Pods/leveldb-library/table/filter_block.cc:90-104 | The reader accepts a key at an offset exactly if the filter made for that offset accepts it. |
| `FilterBlocks.FilterBlockReader.AcceptsAdded` | ios/job_qa/Pods/leveldb-library/table/filter_block.cc:21-104 | A key added while the block at an offset was built is accepted there, even by the last filter. |
| `BloomFilters.BloomHasNoFalseNegatives` | ios/job_qa/Pods/leveldb-library/util/bloom.cc:28-80 | The built-in filter accepts every key it was made from, whatever the hash and the parameters. |
| `BloomFilters.BloomIsExact` | ios/job_qa/Pods/leveldb-library/util/bloom.cc:28-80 | A key is accepted exactly if every bit it is probed at is one that a key of the filter set. |
| `BloomFilters.CreateFilter` | ios/job_qa/Pods/leveldb-library/util/bloom.cc:28-54 | The in-place loop computes the filter that the accepted keys are stated of. |
| `DbFormat.CompareEncoded` | ios/job_qa/Pods/leveldb-library/db/dbformat.cc:47-63 | On encoded keys the comparator is the order by user key and then by descending tag. |
| `DbFormat.SeparatorSeparates` | ios/job_qa/Pods/leveldb-library/db/dbformat.cc:65-82 | The separator is the key itself or has a user key strictly between the two. |
| `DbFormat.MemTableEntryRoundTrip` | ios/job_qa/Pods/leveldb-library/db/memtable.cc:76-135 | An entry of the memtable arena is read back as the key and value it was made from. |
| `DbFormat.ParseEncoded` | ios/job_qa/Pods/leveldb-library/db/dbformat.h:171-181 | Parsing an encoded internal key gives its parts back. |
| `Comparators.BytewiseOk` | ios/job_qa/Pods/leveldb-library/util/comparator.cc:27-66 | The default comparator is a total order, its separators lie in [start, limit) and its successors are not before the key. |
| `Comparators.RankOrders` | ios/job_qa/Pods/leveldb-library/util/comparator.cc:27-29 | The default order of byte strings embeds in the real numbers. |
| `Coding.VarintRoundTrip` | ios/job_qa/Pods/leveldb-library/util/coding.cc:21-143 | Reading back a varint that fits gives the value and takes exactly its bytes. |
| `Formats.InternalKeyBytes` | ios/job_qa/Pods/leveldb-library/db/dbformat.h:62-80 | An internal key is the user key, a byte 1 for a value or 0 for a deletion, and the sequence number in seven bytes, lowest first. |
| `Formats.BatchBytes` | ios/job_qa/Pods/leveldb-library/db/write_batch.cc:5-15 | A batch is a sequence number, a count, and its records with their tags and lengths, byte for byte. |
| `Formats.RecordBytes` | ios/job_qa/Pods/leveldb-library/db/log_writer.cc:82-108 | A record of two bytes is its masked checksum, the length, the type and the bytes. |
| `Formats.FooterBytes` | ios/job_qa/Pods/leveldb-library/table/format.h:73-76 | A table ends with the eight bytes of its magic number. |
| `Formats.EditBytes` | ios/job_qa/Pods/leveldb-library/db/version_edit.cc:14-25 | The items of a version edit begin with their numbers. |
| `Merger.MergingIterator.Seek` | ios/job_qa/Pods/leveldb-library/table/merger.cc:47-53 | The merged cursor stands on the first entry of the sorted union at or after the target. |
| `Merger.MergingIterator.Next` | ios/job_qa/Pods/leveldb-library/table/merger.cc:55-79 | The merged cursor goes to the next entry of the sorted union, also right after moving backwards. |
| `Merger.MergingIterator.Prev` | ios/job_qa/Pods/leveldb-library/table/merger.cc:81-108 | The merged cursor goes to the entry before in the sorted union, also right after moving forwards. |
| `DbIter.LiveIsRead` | ios/job_qa/Pods/leveldb-library/db/db_iter.cc:177-207 | The list the cursor walks holds a key with a value exactly when a read of the key at the sequence number finds that value. |
| `DbIter.LiveSorted` | ios/job_qa/Pods/leveldb-library/db/db_iter.cc:177-207 | The list the cursor walks is strictly ascending in user keys. |
| `DbIter.DBIter.Seek` | ios/job_qa/Pods/leveldb-library/db/db_iter.cc:278-290 | Stands on the first live key at or after the target. |
| `DbIter.DBIter.Next` | ios/job_qa/Pods/leveldb-library/db/db_iter.cc:141-175 | Moves one place up the list of live keys, with any change of direction. |
| `DbIter.DBIter.Prev` | ios/job_qa/Pods/leveldb-library/db/db_iter.cc:209-234 | Moves one place down the list of live keys, with any change of direction. |
| `DbIter.DBIter.SeekToFirst` | ios/job_qa/Pods/leveldb-library/db/db_iter.cc:292-301 | Stands on the first live key, if there is one. |
| `DbIter.DBIter.SeekToLast` | ios/job_qa/Pods/leveldb-library/db/db_iter.cc:303-308 | Stands on the last live key, if there is one. |
| `DbCursor.ChildrenMerge` | ios/job_qa/Pods/leveldb-library/db/db_impl.cc:1072-1097 | In every well-formed state the children of the internal iterator have distinct keys, and their union is exactly what is stored. |
| `DbCursor.CursorWalksHistory` | ios/job_qa/Pods/leveldb-library/db/db_impl.cc:1157-1167 | The cursor of a database at a protected sequence number walks exactly the keys that a read finds in the history, with the values read, in ascending order. |
| `PbEncode.PackVarint` | ios/job_qa/Pods/nanopb/pb_encode.c:608-628 | Ten bytes are enough for every 64-bit value, and the loop writes its varint. |
| `PbEncode.Encode` | ios/job_qa/Pods/nanopb/pb_encode.c:528-550 | Succeeds exactly when arrays and byte strings are within their declared sizes and the stream has room, and then the stream has grown by the bytes of the message, for a sizing and for a writing stream. |
| `PbEncode.EncodeSubmessage` | ios/job_qa/Pods/nanopb/pb_encode.c:717-765 | The size found by the first pass is the size of the second, at any depth. |
| `PbDecode.DecodeVarint` | ios/job_qa/Pods/nanopb/pb_decode.c:255-275 | Reads exactly what the definition of a 64-bit varint gives, errors included. |
| `PbDecode.DecodeVarint32` | ios/job_qa/Pods/nanopb/pb_decode.c:187-247 | Reads exactly what the definition of a 32-bit varint gives, with sign-extended tails and errors. |
| `PbDecode.Decode` | ios/job_qa/Pods/nanopb/pb_decode.c:934-1096 | Whatever the bytes, the outcome is the one the field-by-field definition gives: the message, or a refusal. |
| `PbRoundTrip.RoundTrip` | ios/job_qa/Pods/nanopb/pb_decode.c:934-1082 | Decoding what the encoder wrote gives the message back, at any depth, exactly if every string written has its terminator, and is refused otherwise. |
| `PbRoundTrip.Read64Of` | ios/job_qa/Pods/nanopb/pb_decode.c:255-275 | The 64-bit varint reader gives back what the writer wrote. |
| `PbDecode.ZigZagRoundTrip` | ios/job_qa/Pods/nanopb/pb_decode.c:1285-1297 | Zig-zag numbers come back, the most negative one included. |
| `PbRoundTrip.FullStringIsLost` | ios/job_qa/Pods/nanopb/pb_encode.c:873-897 | A string that fills its array to the last byte is written, and refused when it is read. |
| `PbLaws.UnknownFieldIsSkipped` | ios/job_qa/Pods/nanopb/pb_decode.c:278-338 | A field with a number the reader does not know and any payload its wire type allows makes no difference, whatever was read before and follows. |
| `PbLaws.UnknownWireTypeIsRefused` | ios/job_qa/Pods/nanopb/pb_decode.c:321-332 | A field of unknown number with one of the four other wire types makes the message refused. |
| `PbLaws.UnknownFieldRoundTrip` | ios/job_qa/Pods/nanopb/pb_decode.c:968-1000 | An unknown field between two fields of an encoded message does not hinder the round trip. |
| `PbLaws.ZeroEndsMessage` | ios/job_qa/Pods/nanopb/pb_decode.c:298-319 | A zero in place of a key ends the message. |
| `PbLaws.EmptyMessage` | ios/job_qa/Pods/nanopb/pb_decode.c:1036-1082 | No bytes are refused exactly if the message has a required field, and give all defaults otherwise. |
| `PbLaws.RequiredFieldIsMissed` | ios/job_qa/Pods/nanopb/pb_decode.c:1018-1082 | An encoded message without one of its required fields is refused exactly if that field is among the first 64 required ones; otherwise the field has its default. |
| `PbLaws.SixtyFifthIsNotMissed` | ios/job_qa/Pods/nanopb/pb_decode.c:1018-1082 | A message of 65 required fields without the last of them is accepted. |
| `PbLaws.LastValueStays` | ios/job_qa/Pods/nanopb/pb_decode.c:406-421 | A field with one value takes the value that comes last, the other fields of its union go, and no other field changes. |
| `PbLaws.ItemIsAdded` | ios/job_qa/Pods/nanopb/pb_decode.c:423-463 | An item with a key of its own is added to its array, also of numbers, until the array is full; then the message is refused. |
| `PbLaws.SubmessageIsMerged` | ios/job_qa/Pods/nanopb/pb_decode.c:1525-1547 | A submessage that comes again is read into what is there. |
| `PbLaws.AnyVarint` | ios/job_qa/Pods/nanopb/pb_decode.c:1345-1428 | Any 64-bit varint is to a field of integers the number it stands for if the field can hold it, and an error otherwise; fields of 32 bits and less take the low half. |
| `PbLaws.NothingAbove` | ios/job_qa/Pods/nanopb/pb_decode.c:187-247 | A 32-bit varint that is read has nothing above bit 31 but the sign: five bytes end below bit 32, and every byte from the sixth to the tenth is void or all ones. |
| `PbLaws.AnyBytes` | ios/job_qa/Pods/nanopb/pb_decode.c:1447-1570 | Any length-prefixed bytes are stored if there is room, a string up to its first zero and with room for a terminator, bytes of a fixed length whole or as zeros, and refused otherwise. |
| `PbLaws.DecodedIsBounded` | ios/job_qa/Pods/nanopb/pb_decode.c:934-1096 | Whatever the bytes, byte strings, terminated strings and arrays that the decoder stores are within their declared sizes, at any depth. |
| `PbLaws.DecodedComesBack` | ios/job_qa/Pods/nanopb/pb_decode.c:934-1096 | What was decoded from any bytes can be encoded, and decodes to the same message again. |
| `PbLaws.OneValueIsWritten` | ios/job_qa/Pods/nanopb/pb_encode.c:341-447 | A field with one value is its key and the value: a required one always, an optional one if it is there, a singular one unless it holds a default that is left out. |
| `PbLaws.ArrayIsWritten` | ios/job_qa/Pods/nanopb/pb_encode.c:147-236 | An array of numbers is a key, a length and the values, any other array a key and a value for each item, and an empty one nothing. |
| `PbLaws.DefaultIsLeftOut` | ios/job_qa/Pods/nanopb/pb_encode.c:240-336 | A singular field makes no difference to the bytes exactly if it holds its default and is not of a type that is always written, bytes of a fixed length or a message with a required field; otherwise it adds at least two bytes. |
| `PbLaws.AllLeftOut` | ios/job_qa/Pods/nanopb/pb_encode.c:240-336 | A message of singular fields that all hold such defaults is empty. |
| `PbLaws.PositionIsWritten` | ios/job_qa/Pods/nanopb/pb_encode.c:341-447 | A position at latitude 0 and longitude 1 is nine bytes: the key of the longitude and its double, lowest byte first. |
| `PbLaws.OversizedIsRefused` | ios/job_qa/Pods/nanopb/pb_encode.c:852-871 | A byte string over its capacity or an array over its size makes the encoder refuse the message. |
| `PbCommon.FieldIter.Find` | ios/job_qa/Pods/nanopb/pb_common.c:87-104 | Around the circle of fields from anywhere, finds a field with the tag if there is one. |

## Left out

- A memtable flush in the middle of a compaction, inside the state machines `Lsm` and `Durable`: there each flush, move and compaction is installed before the next begins; `CompactionRace` states what the interleaving does to a version.
- `Keys.UserKey`: user keys are real numbers at the layers above the table files, ranks under the user comparator; `Comparators.RankOrders` gives the rank for the default order, and any order on byte strings has one since there are countably many.
- `Version.FindFile`: indices are unbounded, where the code uses 32 bits, so lists of 4 billion files are not modelled.
- `Lsm.SnapshotsAreStable`: assumes a safe run, since the property is false of unsafe ones (see Findings).
- `Lives.LivesRead`: assumes safe compactions for the same reason, and says nothing of sequence numbers below the smallest snapshot.
- `Durable.EventKeeps`: manifest and temporary file numbers are not counted, and the CURRENT file is switched in one step with the record of the new manifest.
- `CompactionInputs.SetupOtherInputs`: that the upper inputs do grow when they may is not stated, only that growing is safe.
- `Recovery.Open`: every memtable becomes a table, as with reuse_logs off; a new manifest is always written; paranoid_checks is off; corrupt records in the middle of a log are not modelled.
- `Recovery.SnapshotManifest`: compaction pointers in the snapshot record are not modelled.
- `DbImpl.DBImpl.Write`: the queue, the log and the memtable are one step here; `WriteQueue`, `Wal` and `Durable` take them apart.
- `WriteQueue.InsertedIsLogged`: a group whose log write or sync fails ends with an error, and what a later opening finds of it is not stated.
- `Wal.QueueStepIsEvent`: leaves out the steps in which the log fails.
- `Lives.LivesKeep`: creating a new database (NewDB) is one step; disk errors while running are not modelled.
- `Tables.Table.InternalGet`: checksums and compression are functions of the bytes, block caches and read-ahead are not modelled.
- `TableReads.TableGet`: the cache of open tables is not modelled.
- `BloomFilters.BloomHasNoFalseNegatives`: the number of bits for n keys is any function of n, where the code multiplies by bits_per_key.
- `SkipLists.SearchLinearizes`: loads and stores interleave in one order; C++ memory orderings are not modelled.
- `MemTables.MemTable.Add`: memory use and the arena are not modelled, and heights are parameters from 1 to 12.
- `CompactionWork.DoCompactionWork`: table sizes are a function of the entries, keys that cannot be parsed are not modelled.
- `CompactionInputs.PickCompaction`: which level and file to compact, by size or by seeks, is a parameter.
- `LogFormat.ReadAll`: the initial offset is 0, and which records behind a corrupt one are still found is not stated.
- `Snapshots.SnapshotList.New`: addresses are numbers.
- `PbRoundTrip.RoundTrip`: messages and descriptors are datatypes; callback, pointer, extension and fixed-count fields, default values other than zero and streams with custom callbacks are not modelled.
- `PbEncode.Encode`: stream sizes stay below the range of size_t.
- Keys and values of 4 GB and more, whose lengths would be cut to 32 bits in memtables and blocks.
- Seek statistics, sampling of reads, level summaries, approximate sizes and other reports.
- Repair, the C bindings, and opening with other options than those named here.
- The Flask backend and the Swift screens, which are thin.
