/** What is on disk, and what a crash leaves: the log, the manifest and the table files as the
    database runs (db/db_impl.cc, db/version_set.cc).

    A crash between two steps loses memory and keeps file contents; a record that was only
    partly written reads as absent (Wal.TornRecordIsAbsent). */
module Durable {
  import opened Keys
  import opened Version
  import opened VersionBuilder
  import opened CompactionReads
  import opened Install
  import opened Lsm
  import opened DbImpl
  import opened Manifest
  import opened VersionLists
  import opened Snapshots

  // ------------------------------------------------------------------ logs

  // A record of the write-ahead log: a batch and the number of its first update.
  datatype LogBatch = LogBatch(first: nat, batch: seq<Update>)

  ghost function LogEntries(log: seq<LogBatch>): set<Entry> {
    if |log| == 0 then {}
    else LogEntries(log[..|log| - 1]) + Contents(BatchEntries(log[|log| - 1].first, log[|log| - 1].batch))
  }

  // The last sequence number of a log that begins after `start`.
  function EndOf(log: seq<LogBatch>, start: nat): nat {
    if |log| == 0 then start else EndOf(log[..|log| - 1], start) + |log[|log| - 1].batch|
  }

  ghost predicate Consecutive(log: seq<LogBatch>, start: nat) {
    forall k :: 0 <= k < |log| ==> log[k].first == EndOf(log[..k], start) + 1
  }

  lemma LogGrows(log: seq<LogBatch>, start: nat, b: LogBatch)
    ensures LogEntries(log + [b]) == LogEntries(log) + Contents(BatchEntries(b.first, b.batch))
    ensures EndOf(log + [b], start) == EndOf(log, start) + |b.batch|
    ensures Consecutive(log, start) && b.first == EndOf(log, start) + 1 ==> Consecutive(log + [b], start)
  {
    var all := log + [b];
    assert all[..|log|] == log;
    assert forall k :: 0 <= k < |log| ==> all[..k] == log[..k];
  }

  // ------------------------------------------------------------------ the system

  // A record of the manifest; LogAndApply writes the counters with every edit, and the
  // snapshot at the head of a new manifest has none.
  datatype Counters = Counters(logNumber: nat, nextFile: nat, lastSequence: nat)

  datatype Record = Record(edit: VersionEdit, counters: Option<Counters>)

  // The table files are there with what was written to them so far.
  datatype Disk = Disk(manifest: seq<Record>, logs: map<nat, seq<LogBatch>>, tables: map<nat, seq<Entry>>)

  /** The background thread.  DoCompactionWork reads the smallest snapshot and then writes its
      outputs; once the table files are complete, LogAndApply reads the counters, lets go of the
      mutex while it writes the record, and installs the version; CleanupCompaction comes last.
      `from` is the counter in the manifest's last record when the files were complete. */
  datatype Work =
    | Resting
    | Merging(ss: nat)
    | Built(step: Step, edit: VersionEdit, version: Levels, from: nat)
    | Applying(step: Step, edit: VersionEdit, version: Levels, from: nat, counters: Counters)
    | Recorded(step: Step, edit: VersionEdit, version: Levels, from: nat, counters: Counters)
    | Cleaning
  {
    predicate Planned() {
      Built? || Applying? || Recorded?
    }
  }

  /** `writing` is a batch that is in the log and not yet in the memtable.  `versions` is the
      list of referenced versions, `holders` those that readers and the background thread hold,
      `pending` is pending_outputs_, and the doomed files are those that RemoveObsoleteFiles has
      chosen and is deleting without the mutex.  The last two say where the logs begin:
      `flushed` is the sequence number up to which everything is in tables, `switched` the one
      at which the current log began. */
  datatype Sys = Sys(db: Db, disk: Disk, logNumber: nat, memLog: nat, immLog: nat, writing: Option<seq<Update>>,
                     work: Work, versions: Versions, holders: multiset<nat>, pending: set<nat>,
                     doomedTables: set<nat>, doomedLogs: set<nat>, flushed: nat, switched: nat)

  ghost function InFlight(s: Sys): set<Entry> {
    if s.writing.Some? then Contents(BatchEntries(s.db.lastSequence + 1, s.writing.value)) else {}
  }

  function InFlightSize(s: Sys): nat {
    if s.writing.Some? then |s.writing.value| else 0
  }

  ghost function Edits(manifest: seq<Record>): (r: seq<VersionEdit>)
    ensures |r| == |manifest|
  {
    seq(|manifest|, i requires 0 <= i < |manifest| => manifest[i].edit)
  }

  // The file number counter in the last record.
  function LastNext(manifest: seq<Record>): nat {
    if |manifest| > 0 && manifest[|manifest| - 1].counters.Some? then manifest[|manifest| - 1].counters.value.nextFile
      else 0
  }

  function EditNumbers(edit: VersionEdit): set<nat> {
    set a | a in edit.added :: a.1.number
  }

  // The state once the background work is installed.
  function Installs(db: Db, w: Work): Db
    requires w.Planned()
  {
    db.(imm := if w.step.Flush? then None else db.imm, version := w.version)
  }

  // The version the manifest describes, and the state that goes with it.
  function Landed(s: Sys): Db {
    if s.work.Recorded? then Installs(s.db, s.work) else s.db
  }

  // ------------------------------------------------------------------ background work

  // What CompactMemTable, a trivial move and DoCompactionWork set out to do.
  ghost predicate WorkShape(db: Db, w: Work)
    requires w.Planned()
  {
    && SavedAll(db.version, w.edit, w.version)
    && match w.step
       case Flush(level, f) =>
         && db.imm.Some?
         && if |db.imm.value| == 0 then w.edit == VersionEdit({}, []) && w.version == db.version
            else
              && level < NUM_LEVELS && w.edit == FlushEdit(level, f) && FileOk(f) && f.entries == db.imm.value
              && (level > 0 ==> forall l :: 0 <= l <= level ==>
                !OverlapInLevel(db.version, l, f.smallest.user, f.largest.user))
       case Move(level, in0, outputs) =>
         && w.edit == CompactionEdit(level, in0, [], outputs) && Moves(in0, [], outputs) && |in0| == 1
         && InputsSound(db.version, level, in0, []) && OutputsOk(in0, [], outputs)
       case Compact(level, in0, in1, outputs, ss) =>
         && w.edit == CompactionEdit(level, in0, in1, outputs) && Merges(db, level, in0, in1, outputs, ss)
         && InputsSound(db.version, level, in0, in1) && OutputsOk(in0, in1, outputs)
       case _ => false
  }

  // New files have numbers that were pending; a move takes its file along.
  ghost predicate Numbered(w: Work, pending: set<nat>)
    requires w.Planned()
  {
    match w.step
    case Flush(level, f) => |w.edit.added| > 0 ==> f.number in pending
    case Compact(level, in0, in1, outputs, ss) =>
      && (forall f :: f in outputs ==> f.number in pending)
      && forall i, j :: 0 <= i < j < |outputs| ==> outputs[i].number != outputs[j].number
    case _ => true
  }

  // The new numbers lie between the manifest's counter and the counter that goes with the edit.
  ghost predicate WorkNumbers(v: Levels, w: Work, bound: nat)
    requires w.Planned()
  {
    && w.from <= bound && NumbersOk(v, w.from)
    && match w.step
       case Flush(level, f) => |w.edit.added| > 0 ==> w.from <= f.number < bound
       case Compact(level, in0, in1, outputs, ss) =>
         && (forall f :: f in outputs ==> w.from <= f.number < bound)
         && forall i, j :: 0 <= i < j < |outputs| ==> outputs[i].number != outputs[j].number
       case _ => true
  }

  function Bound(db: Db, w: Work): nat
    requires w.Planned()
  {
    if w.Built? then db.nextFile else w.counters.nextFile
  }

  ghost predicate WorkOk(db: Db, w: Work)
    requires w.Planned()
  {
    WorkShape(db, w) && WorkNumbers(db.version, w, Bound(db, w)) && Bound(db, w) <= db.nextFile
  }

  // The parts of a compaction or move that its edit depends on.
  ghost predicate EditParts(v: Levels, w: Work, bound: nat, level: nat, in0: seq<File>, in1: seq<File>,
                            outputs: seq<File>)
    requires w.Planned()
  {
    && level + 1 < NUM_LEVELS && SavedAll(v, w.edit, w.version) && NumbersOk(v, w.from)
    && w.edit == CompactionEdit(level, in0, in1, outputs) && OutputNumbers(v, w.from, bound, in0, outputs)
    && (forall f :: f in in0 ==> f in v[level]) && (forall f :: f in in1 ==> f in v[level + 1])
  }

  lemma MoveParts(db: Db, w: Work)
    requires w.Planned() && WorkOk(db, w) && w.step.Move?
    ensures EditParts(db.version, w, Bound(db, w), w.step.level, w.step.in0, [], w.step.outputs)
  {
    hide SavedAll, CompactionEdit, OutputsOk, NewerFile, NumbersOk;
  }

  lemma CompactParts(db: Db, w: Work)
    requires w.Planned() && WorkOk(db, w) && w.step.Compact?
    ensures EditParts(db.version, w, Bound(db, w), w.step.level, w.step.in0, w.step.in1, w.step.outputs)
  {
    hide SavedAll, CompactionEdit, OutputsOk, NewerFile, Merges, NumbersOk;
  }

  lemma PartsInstall(v: Levels, w: Work, bound: nat, level: nat, in0: seq<File>, in1: seq<File>, outputs: seq<File>)
    requires w.Planned() && EditParts(v, w, bound, level, in0, in1, outputs)
    ensures Installed(v, level, in0, in1, outputs, w.version) && NumbersOk(w.version, bound)
  {
    hide SavedAll, NumbersOk, Installed, OutputNumbers;
    CompactionInstalls(v, w.from, bound, level, in0, in1, outputs, w.version);
  }

  lemma NumbersGrow(v: Levels, a: nat, b: nat)
    requires NumbersOk(v, a) && a <= b
    ensures NumbersOk(v, b)
  {
    hide StrictlyOrdered;
  }

  /** Installing the work is a step of the database. */
  lemma WorkIsStep(db: Db, w: Work)
    requires w.Planned() && WorkOk(db, w)
    ensures Next(db, w.step, Installs(db, w))
  {
    OnlyThree(db, w);
    hide VersionOk, NumbersOk, EditParts, Installed, OutputsOk, InputsSound, SavedAll, OutputNumbers, Merges, WorkOk;
    match w.step {
      case Flush(level, f) => FlushIsStep(db, w);
      case Move(level, in0, outputs) =>
        MoveParts(db, w);
        PartsInstall(db.version, w, Bound(db, w), level, in0, [], outputs);
        MoveIsStep(db, w);
      case Compact(level, in0, in1, outputs, ss) =>
        CompactParts(db, w);
        PartsInstall(db.version, w, Bound(db, w), level, in0, in1, outputs);
        CompactIsStep(db, w);
    }
  }

  lemma FlushIsStep(db: Db, w: Work)
    requires w.Planned() && WorkOk(db, w) && w.step.Flush?
    ensures Next(db, w.step, Installs(db, w))
  {
    hide SavedAll, OverlapInLevel, FileOk, StrictlyOrdered;
    if |db.imm.value| > 0 {
      var level, f := w.step.level, w.step.file;
      assert w.edit.added == [(level, f)];
      FlushInstalls(db.version, w.from, level, f, w.version);
      hide Added;
      assert NewNumber(db.version, f.number, db.nextFile);
    }
  }

  lemma MoveIsStep(db: Db, w: Work)
    requires w.Planned() && WorkOk(db, w) && w.step.Move? && NumbersOk(w.version, Bound(db, w))
    requires w.step.level + 1 < NUM_LEVELS
    requires Installed(db.version, w.step.level, w.step.in0, [], w.step.outputs, w.version)
    ensures Next(db, w.step, Installs(db, w))
  {
    NumbersGrow(w.version, Bound(db, w), db.nextFile);
    hide SavedAll, NumbersOk, Installed, OutputsOk, InputsSound, CompactionEdit;
  }

  lemma CompactIsStep(db: Db, w: Work)
    requires w.Planned() && WorkOk(db, w) && w.step.Compact? && NumbersOk(w.version, Bound(db, w))
    requires w.step.level + 1 < NUM_LEVELS
    requires Installed(db.version, w.step.level, w.step.in0, w.step.in1, w.step.outputs, w.version)
    ensures Next(db, w.step, Installs(db, w))
  {
    NumbersGrow(w.version, Bound(db, w), db.nextFile);
    hide SavedAll, NumbersOk, Installed, OutputsOk, InputsSound, CompactionEdit, Merges;
  }

  lemma WorkIsFresh(db: Db, w: Work)
    requires w.Planned() && WorkOk(db, w)
    ensures FreshEdit(db.version, w.from, w.edit, Bound(db, w)) && Effect(db.version, w.edit, w.version, Bound(db, w))
  {
    OnlyThree(db, w);
    hide FreshEdit, Effect, NumbersOk, EditParts, WorkOk;
    match w.step {
      case Flush(level, f) => FlushWorkFresh(db, w);
      case Move(level, in0, outputs) =>
        MoveParts(db, w);
        CompactFresh(db.version, level, in0, [], outputs, w, Bound(db, w));
      case Compact(level, in0, in1, outputs, ss) =>
        CompactParts(db, w);
        CompactFresh(db.version, level, in0, in1, outputs, w, Bound(db, w));
    }
  }

  lemma OnlyThree(db: Db, w: Work)
    requires w.Planned() && WorkOk(db, w)
    ensures w.step.Flush? || w.step.Move? || w.step.Compact?
  {
    hide SavedAll, NumbersOk;
  }

  lemma FlushWorkFresh(db: Db, w: Work)
    requires w.Planned() && WorkOk(db, w) && w.step.Flush?
    ensures FreshEdit(db.version, w.from, w.edit, Bound(db, w)) && Effect(db.version, w.edit, w.version, Bound(db, w))
  {
    hide FreshEdit, Effect, NumbersOk, SavedAll, OverlapInLevel, FileOk;
    if |db.imm.value| > 0 {
      assert w.edit.added == [(w.step.level, w.step.file)];
      FlushFresh(db.version, w.from, w.step.level, w.step.file, w.version, Bound(db, w));
    } else {
      NothingFresh(db.version, w.from, w.edit, Bound(db, w));
    }
  }

  lemma NumbersPart(db: Db)
    requires Structure(db)
    ensures NumbersOk(db.version, db.nextFile)
  {
    hide VersionOk, NewerThan, HistoryOk;
  }

  lemma NothingFresh(v: Levels, from: nat, edit: VersionEdit, bound: nat)
    requires NumbersOk(v, from) && from <= bound && edit == VersionEdit({}, []) && SavedAll(v, edit, v)
    ensures FreshEdit(v, from, edit, bound) && Effect(v, edit, v, bound)
  {
    NumbersGrow(v, from, bound);
    hide NumbersOk, SavedAll;
  }

  lemma FlushedNumbers(v: Levels, from: nat, level: nat, f: File, v': Levels, bound: nat)
    requires NumbersOk(v, from) && level < NUM_LEVELS && from <= f.number < bound && Added(v, level, f, v')
    ensures NumbersOk(v', bound)
  {
  }

  lemma FlushFresh(v: Levels, from: nat, level: nat, f: File, v': Levels, bound: nat)
    requires NumbersOk(v, from) && level < NUM_LEVELS && from <= f.number < bound
    requires SavedAll(v, FlushEdit(level, f), v')
    ensures FreshEdit(v, from, FlushEdit(level, f), bound) && Effect(v, FlushEdit(level, f), v', bound)
  {
    hide NumbersOk, SavedAll;
    FlushInstalls(v, from, level, f, v');
    FlushedNumbers(v, from, level, f, v', bound);
    var edit := FlushEdit(level, f);
    assert edit.added[0] == (level, f);
    assert forall a :: a in edit.added ==> a == (level, f);
    forall m, g | 0 <= m < NUM_LEVELS && g in v'[m] ensures g in v[m] || (m, g) in edit.added {
    }
  }

  lemma EditIsValid(level: nat, in0: seq<File>, in1: seq<File>, outputs: seq<File>)
    requires level + 1 < NUM_LEVELS
    ensures CompactionEdit(level, in0, in1, outputs).Valid()
  {
  }

  lemma CompactFresh(v: Levels, level: nat, in0: seq<File>, in1: seq<File>, outputs: seq<File>, w: Work, bound: nat)
    requires w.Planned() && EditParts(v, w, bound, level, in0, in1, outputs)
    ensures FreshEdit(v, w.from, w.edit, bound) && Effect(v, w.edit, w.version, bound)
  {
    hide NumbersOk, SavedAll;
    PartsInstall(v, w, bound, level, in0, in1, outputs);
    InAdded(level, in0, in1, outputs);
    EditIsValid(level, in0, in1, outputs);
    hide FreshEdit;
    CompactEditFresh(v, w.from, level, in0, in1, outputs, w.edit, bound);
    hide CompactionEdit, OutputNumbers;
    forall m, f | 0 <= m < NUM_LEVELS && f in w.version[m] ensures f in v[m] || (m, f) in w.edit.added {
    }
    forall a | a in w.edit.added ensures a.0 < NUM_LEVELS && a.1 in w.version[a.0] {
    }
  }

  lemma CompactEditFresh(v: Levels, from: nat, level: nat, in0: seq<File>, in1: seq<File>, outputs: seq<File>,
                         edit: VersionEdit, bound: nat)
    requires level + 1 < NUM_LEVELS && edit.Valid() && NumbersOk(v, from)
    requires OutputNumbers(v, from, bound, in0, outputs) && forall f :: f in in0 ==> f in v[level]
    requires forall a :: a in edit.added ==> a.0 == level + 1 && a.1 in outputs
    ensures FreshEdit(v, from, edit, bound)
  {
    forall a | a in edit.added
      ensures a.1.number < bound && (from <= a.1.number || exists m :: 0 <= m < a.0 && a.1 in v[m]) {
      if outputs == in0 {
        assert a.1 in v[level] && a.0 == level + 1;
      }
    }
    hide NumbersOk;
    forall a, b | a in edit.added && b in edit.added && a.1.number == b.1.number ensures a.1 == b.1 {
      var i :| 0 <= i < |outputs| && outputs[i] == a.1;
      var j :| 0 <= j < |outputs| && outputs[j] == b.1;
    }
  }

  /** Foreground steps do not disturb the background thread: the snapshot number it read stays
      at or below every live and future snapshot, and its edit still fits. */
  lemma WorkStays(db: Db, db': Db, w: Work)
    requires w.Planned() && WorkOk(db, w) && db'.version == db.version && db.nextFile <= db'.nextFile
    requires (w.step.Flush? ==> db'.imm == db.imm) && SmallestSnapshot(db) <= SmallestSnapshot(db')
    ensures WorkOk(db', w)
  {
    ShapeStays(db, db', w);
    NumbersStay(db.version, w, Bound(db, w), Bound(db', w));
    hide WorkShape, WorkNumbers, SmallestSnapshot;
  }

  lemma NumbersStay(v: Levels, w: Work, a: nat, b: nat)
    requires w.Planned() && WorkNumbers(v, w, a) && a <= b
    ensures WorkNumbers(v, w, b)
  {
    hide NumbersOk;
  }

  lemma ShapeStays(db: Db, db': Db, w: Work)
    requires w.Planned() && WorkShape(db, w) && db'.version == db.version
    requires (w.step.Flush? ==> db'.imm == db.imm) && SmallestSnapshot(db) <= SmallestSnapshot(db')
    ensures WorkShape(db', w)
  {
    hide SavedAll, FileOk, OverlapInLevel, Merges, InputsSound, OutputsOk, CompactionEdit, FlushEdit,
      SmallestSnapshot, Moves;
    if w.step.Compact? {
      MergesStay(db, db', w.step.level, w.step.in0, w.step.in1, w.step.outputs, w.step.ss);
    }
  }

  lemma MergesStay(db: Db, db': Db, level: nat, in0: seq<File>, in1: seq<File>, outputs: seq<File>, ss: nat)
    requires Merges(db, level, in0, in1, outputs, ss) && db'.version == db.version
    requires SmallestSnapshot(db) <= SmallestSnapshot(db')
    ensures Merges(db', level, in0, in1, outputs, ss)
  {
    hide MergedInput, CompactionWork.Flatten, CompactionWork.Survivors;
  }

  // ------------------------------------------------------------------ the invariant

  // The logs from the log number on hold exactly what is not in tables; besides those of the
  // memtables there may be empty ones that an unfinished opening left.
  ghost predicate LogsOk(db: Db, logs: map<nat, seq<LogBatch>>, logNumber: nat, memLog: nat, immLog: nat,
                         inFlight: set<Entry>, size: nat, flushed: nat, switched: nat) {
    && memLog in logs && memLog < db.nextFile && flushed <= switched <= db.lastSequence
    && Consecutive(logs[memLog], switched) && EndOf(logs[memLog], switched) == db.lastSequence + size
    && LogEntries(logs[memLog]) == Contents(db.mem) + inFlight
    && (if db.imm.Some? then
          && immLog in logs && immLog < memLog && logNumber == immLog
          && Consecutive(logs[immLog], flushed) && EndOf(logs[immLog], flushed) == switched
          && LogEntries(logs[immLog]) == Contents(db.imm.value)
        else logNumber == memLog && flushed == switched)
    && (forall n :: n in logs && n >= logNumber ==> n == memLog || (db.imm.Some? && n == immLog) || logs[n] == [])
    && (forall n :: n in logs ==> 0 < n < db.nextFile)
    && SplitAt(db, flushed, switched)
  }

  // Everything up to `flushed` is in tables or gone, what came after it is in the memtables,
  // and what came after `switched` is in the current one.
  ghost predicate SplitAt(db: Db, flushed: nat, switched: nat) {
    && (forall e :: e in AllEntries(db.version) ==> e.key.sequence <= flushed)
    && (forall e :: e in ImmEntries(db) ==> e.key.sequence <= switched)
    && (forall e :: e in db.history && e.key.sequence > flushed ==> e in Front(db))
    && (forall e :: e in db.history && e.key.sequence > switched ==> e in Contents(db.mem))
  }

  // The manifest describes this version; its last record gives the log number.
  ghost predicate ManifestPart(manifest: seq<Record>, v: Levels, nextFile: nat, logNumber: nat, low: nat, high: nat) {
    && |manifest| > 0 && manifest[|manifest| - 1].counters.Some?
    && var r := manifest[|manifest| - 1].counters.value;
       && ManifestOk(Edits(manifest), v, r.nextFile) && r.nextFile <= nextFile
       && r.logNumber == logNumber < r.nextFile && low <= r.lastSequence <= high
  }

  // The table file of a version's file is there, with the entries.
  ghost predicate HasFile(tables: map<nat, seq<Entry>>, f: File) {
    f.number in tables && tables[f.number] == f.entries
  }

  ghost predicate HasVersion(tables: map<nat, seq<Entry>>, v: Levels) {
    forall l, f :: 0 <= l < NUM_LEVELS && f in v[l] ==> HasFile(tables, f)
  }

  ghost predicate HasEdit(tables: map<nat, seq<Entry>>, edit: VersionEdit) {
    forall a :: a in edit.added ==> HasFile(tables, a.1)
  }

  // Every file of every version that anybody holds.
  ghost predicate HasVersions(tables: map<nat, seq<Entry>>, l: Versions) {
    forall p :: p in l.nodes && p in l.files ==> HasVersion(tables, l.files[p])
  }

  ghost predicate TablesPart(tables: map<nat, seq<Entry>>, l: Versions, w: Work, nextFile: nat) {
    HasVersions(tables, l) && (w.Planned() ==> HasEdit(tables, w.edit)) && forall n :: n in tables ==> n < nextFile
  }

  ghost predicate VersionsPart(l: Versions, holders: multiset<nat>, v: Levels) {
    ListOk(l) && Counted(l, holders) && l.files[l.current] == v
  }

  ghost predicate WorkPart(db: Db, w: Work) {
    (w.Merging? ==> w.ss <= SmallestSnapshot(db)) && (w.Planned() ==> WorkOk(db, w))
  }

  predicate Flushing(w: Work) {
    w.Recorded? && w.step.Flush?
  }

  // What LogAndApply read from the counters still fits when its record is written.
  predicate CountersPart(last: nat, w: Work, logNumber: nat, memLog: nat, flushed: nat, switched: nat) {
    w.Applying? || w.Recorded? ==>
      && w.counters.logNumber == (if w.step.Flush? then memLog else logNumber) < w.counters.nextFile
      && (if w.step.Flush? then switched else flushed) <= w.counters.lastSequence <= last
  }

  // Pending numbers are new: past what the manifest knows, and in no version before the install.
  ghost predicate PendingPart(l: Versions, w: Work, pending: set<nat>, low: nat, nextFile: nat) {
    && (forall n :: n in pending ==> n < nextFile)
    && (!w.Recorded? && !w.Cleaning? ==> forall n :: n in pending ==> low <= n)
    && (w.Resting? || w.Merging? ==> pending !! LiveFiles(l))
    && (w.Built? || w.Applying? ==> w.from == low)
    && (w.Planned() && !w.step.Compact? && !w.Built? ==> pending == {})
    && (w.Planned() && w.step.Compact? ==> Numbered(w, pending))
  }

  // What is being deleted is in no version, not pending, and not about to be installed.
  ghost predicate GarbagePart(l: Versions, w: Work, pending: set<nat>, doomed: set<nat>, nextFile: nat) {
    && doomed !! LiveFiles(l) && doomed !! pending && (w.Planned() ==> doomed !! EditNumbers(w.edit))
    && forall n :: n in doomed ==> n < nextFile
  }

  ghost predicate SysInv(s: Sys) {
    && Structure(s.db) && s.db.lastSequence + InFlightSize(s) < MAX_SEQUENCE
    && LogsOk(s.db, s.disk.logs, s.logNumber, s.memLog, s.immLog, InFlight(s), InFlightSize(s), s.flushed, s.switched)
    && ManifestPart(s.disk.manifest, Landed(s).version, s.db.nextFile, if Flushing(s.work) then s.memLog
      else s.logNumber,
                    if Flushing(s.work) then s.switched else s.flushed, s.db.lastSequence)
    && VersionsPart(s.versions, s.holders, s.db.version)
    && TablesPart(s.disk.tables, s.versions, s.work, s.db.nextFile)
    && WorkPart(s.db, s.work)
    && CountersPart(s.db.lastSequence, s.work, s.logNumber, s.memLog, s.flushed, s.switched)
    && PendingPart(s.versions, s.work, s.pending, LastNext(s.disk.manifest), s.db.nextFile)
    && GarbagePart(s.versions, s.work, s.pending, s.doomedTables, s.db.nextFile)
    && forall n :: n in s.doomedLogs ==> n < s.logNumber
  }

  // A new database: NewDB and the first log.
  ghost predicate NewSys(s: Sys) {
    && Init(s.db)
      && s.disk == Disk([Record(VersionEdit({}, []), Some(Counters(s.memLog, s.db.nextFile, 0)))], map[s.memLog := []],
                        map[])
    && 0 < s.memLog < s.db.nextFile && s.logNumber == s.memLog && s.writing.None? && s.flushed == 0 && s.switched == 0
    && Fresh(s)
  }

  // Nothing in the background, and one version that nobody but the version set holds.
  ghost predicate Fresh(s: Sys) {
    && s.work.Resting? && s.versions == OneVersion(s.db.version) && s.holders == multiset{}
    && s.pending == {} && s.doomedTables == {} && s.doomedLogs == {}
  }

  function OneVersion(v: Levels): Versions {
    Versions([1], map[1 := 1], map[1 := v], 1)
  }

  // ------------------------------------------------------------------ events

  datatype Event =
    | LogWrite(batch: seq<Update>)     // AddRecord of a group
    | ApplyWrite                       // InsertInto and SetLastSequence
    | SwitchLog                        // a new log and memtable
    | Snap                             // GetSnapshot
    | Unsnap(index: nat)               // ReleaseSnapshot
    | RefVersion                       // a reader or a compaction takes the current version
    | UnrefVersion(pointer: nat)       // and lets go of it
    | BeginMerge                       // DoCompactionWork reads the smallest snapshot
    | NewOutput                        // NewFileNumber into pending_outputs_, and an empty file
    | Build(work: Work, tables: map<nat, seq<Entry>>)   // the table files are complete
    | EraseOutput(number: nat)         // out of pending_outputs_
    | BeginApply                       // LogAndApply reads the counters
    | RecordEdit                       // its record is in the manifest
    | Install(pointer: nat)            // AppendVersion and the log number
    | CleanUp                          // the end of CleanupCompaction
    | Collect                          // RemoveObsoleteFiles chooses
    | DropTable(number: nat)           // and deletes
    | DropLog(number: nat)

  // The files of the edit are complete; no other file is touched.
  ghost predicate Wrote(tables: map<nat, seq<Entry>>, edit: VersionEdit, tables': map<nat, seq<Entry>>) {
    && HasEdit(tables', edit) && tables'.Keys == tables.Keys + EditNumbers(edit)
    && forall n :: n in tables && n !in EditNumbers(edit) ==> tables'[n] == tables[n]
  }

  // When the thread that was at `from` may have completed the files of `w`.
  predicate Follows(from: Work, w: Work)
    requires w.Planned()
  {
    if w.step.Compact? then from == Merging(w.step.ss) else from.Resting?
  }

  ghost predicate Happens(s: Sys, e: Event, s': Sys) {
    match e
    case LogWrite(batch) =>
      && s.writing.None? && s.memLog in s.disk.logs && s.db.lastSequence + |batch| < MAX_SEQUENCE
      && s' == s.(writing := Some(batch),
                  disk := s.disk.(logs :=
                    s.disk.logs[s.memLog := s.disk.logs[s.memLog] + [LogBatch(s.db.lastSequence + 1, batch)]]))
    case ApplyWrite =>
      s.writing.Some? && WriteStep(s.db, s.writing.value, s'.db) && s' == s.(db := s'.db, writing := None)
    case SwitchLog =>
      && s.writing.None? && SwitchStep(s.db, s'.db)
      && s' == s.(db := s'.db, immLog := s.memLog, memLog := s.db.nextFile, switched := s.db.lastSequence,
                  disk := s.disk.(logs := s.disk.logs[s.db.nextFile := []]))
    case Snap => SnapshotStep(s.db, s'.db) && s' == s.(db := s'.db)
    case Unsnap(i) => ReleaseStep(s.db, i, s'.db) && s' == s.(db := s'.db)
    case RefVersion =>
      s' == s.(versions := RefTo(s.versions, s.versions.current), holders := s.holders + multiset{s.versions.current})
    case UnrefVersion(p) =>
      p in s.holders && s' == s.(versions := UnrefOf(s.versions, p), holders := s.holders - multiset{p})
    case BeginMerge => s.work.Resting? && s' == s.(work := Merging(SmallestSnapshot(s.db)))
    case NewOutput =>
      && (s.work.Resting? || s.work.Merging?)
      && s' == s.(db := s.db.(nextFile := s.db.nextFile + 1), pending := s.pending + {s.db.nextFile},
                  disk := s.disk.(tables := s.disk.tables[s.db.nextFile := []]))
    case Build(w, tables) =>
      && w.Built? && Follows(s.work, w) && WorkShape(s.db, w) && Numbered(w, s.pending)
        && w.from == LastNext(s.disk.manifest)
      && (if w.step.Move? then tables == s.disk.tables else Wrote(s.disk.tables, w.edit, tables))
      && s' == s.(work := w, disk := s.disk.(tables := tables))
    case EraseOutput(n) => (s.work.Planned() ==> s.work.step.Flush?) && s' == s.(pending := s.pending - {n})
    case BeginApply =>
      && s.work.Built? && (!s.work.step.Compact? ==> s.pending == {})
      && var w := s.work;
         s' == s.(work := Applying(w.step, w.edit, w.version, w.from,
                                   Counters(if w.step.Flush? then s.memLog
                                     else s.logNumber, s.db.nextFile, s.db.lastSequence)))
    case RecordEdit =>
      && s.work.Applying?
      && var w := s.work;
         s' == s.(work := Recorded(w.step, w.edit, w.version, w.from, w.counters),
                  disk := s.disk.(manifest := s.disk.manifest + [Record(w.edit, Some(w.counters))]))
    case Install(p) =>
      && s.work.Recorded? && p !in s.versions.nodes && p != HEAD
      && s' == s.(db := Installs(s.db, s.work), work := if s.work.step.Compact? then Cleaning else Resting,
                  versions := Append(s.versions, p, s.work.version),
                  logNumber := if s.work.step.Flush? then s.memLog else s.logNumber,
                  flushed := if s.work.step.Flush? then s.switched else s.flushed)
    case CleanUp => s.work.Cleaning? && s.pending == {} && s' == s.(work := Resting)
    case Collect =>
      && (s.work.Planned() ==> !s.work.step.Flush?)
      && s' == s.(doomedTables := s.disk.tables.Keys - s.pending - LiveFiles(s.versions),
                  doomedLogs := set n | n in s.disk.logs && n < s.logNumber)
    case DropTable(n) =>
      n in s.doomedTables
        && s' == s.(doomedTables := s.doomedTables - {n}, disk := s.disk.(tables := s.disk.tables - {n}))
    case DropLog(n) =>
      n in s.doomedLogs && s' == s.(doomedLogs := s.doomedLogs - {n}, disk := s.disk.(logs := s.disk.logs - {n}))
  }

  // ------------------------------------------------------------------ a new database

  lemma NewSysInv(s: Sys)
    requires NewSys(s)
    ensures SysInv(s)
  {
    hide Structure, ManifestPart, VersionsPart, LiveFiles, SplitAt, HasVersions;
    NewParts(s);
    NewManifest(s.memLog, s.db.nextFile, s.disk.manifest);
    OneVersionOk(s.db.version);
  }

  lemma NewParts(s: Sys)
    requires NewSys(s)
    ensures Structure(s.db) && SplitAt(s.db, 0, 0) && s.db.version == NO_FILES
    ensures HasVersions(map[], OneVersion(NO_FILES))
    ensures Contents(s.db.mem) == {}
  {
    InitInv(s.db);
    hide Structure;
    assert AllEntries(s.db.version) == {} && Contents(s.db.mem) == {};
  }

  lemma NewManifest(memLog: nat, nextFile: nat, manifest: seq<Record>)
    requires memLog < nextFile && manifest == [Record(VersionEdit({}, []), Some(Counters(memLog, nextFile, 0)))]
    ensures ManifestPart(manifest, NO_FILES, nextFile, memLog, 0, 0)
  {
    hide ManifestOk;
    var edit := VersionEdit({}, []);
    EmptyManifest(nextFile);
    forall l | 0 <= l < NUM_LEVELS ensures Saved([], ApplyLevel(EMPTY, edit, l), []) {
    }
    Appends([], NO_FILES, nextFile, edit, NO_FILES, nextFile);
    assert Edits(manifest) == [] + [edit];
  }

  lemma OneVersionOk(v: Levels)
    ensures VersionsPart(OneVersion(v), multiset{}, v) && LiveFiles(OneVersion(v)) == FileNumbers(v)
  {
    hide FileNumbers;
  }

  // ------------------------------------------------------------------ writers and snapshots

  predicate Foreground(step: Step) {
    step.Write? || step.Switch? || step.TakeSnapshot? || step.Release?
  }

  lemma ForegroundFacts(db: Db, step: Step, db': Db)
    requires Structure(db) && Next(db, step, db') && Foreground(step)
    ensures db'.version == db.version && db.nextFile <= db'.nextFile && db.lastSequence <= db'.lastSequence
    ensures SmallestSnapshot(db) <= SmallestSnapshot(db')
    ensures if step.Switch? then db.imm.None? else db'.imm == db.imm
  {
    hide VersionOk, NumbersOk, NewerThan, HistoryOk, Sorted;
  }

  lemma WorkBeside(db: Db, step: Step, db': Db, w: Work)
    requires Structure(db) && Next(db, step, db') && Foreground(step) && WorkPart(db, w)
    ensures WorkPart(db', w) && (step.Switch? && w.Planned() ==> !w.step.Flush?)
  {
    ForegroundFacts(db, step, db');
    hide Structure, Next, SmallestSnapshot;
    if w.Planned() {
      FlushHasImm(db, w);
      hide WorkOk;
      WorkStays(db, db', w);
    }
  }

  lemma FlushHasImm(db: Db, w: Work)
    requires w.Planned() && WorkOk(db, w)
    ensures w.step.Flush? ==> db.imm.Some?
  {
    hide SavedAll, NumbersOk, Merges, InputsSound, OutputsOk;
  }

  lemma LogFacts(db: Db, logs: map<nat, seq<LogBatch>>, logNumber: nat, memLog: nat, immLog: nat,
                 inFlight: set<Entry>, size: nat, flushed: nat, switched: nat)
    requires LogsOk(db, logs, logNumber, memLog, immLog, inFlight, size, flushed, switched)
    ensures flushed <= switched <= db.lastSequence && logNumber <= memLog < db.nextFile
    ensures SplitAt(db, flushed, switched)
    ensures db.imm.None? ==> logNumber == memLog && flushed == switched
  {
    hide Consecutive, EndOf, LogEntries, SplitAt;
  }

  lemma BoundsGrow(tables: map<nat, seq<Entry>>, l: Versions, w: Work, pending: set<nat>, doomed: set<nat>, low: nat,
                   n: nat, n': nat)
    requires TablesPart(tables, l, w, n) && PendingPart(l, w, pending, low, n)
    requires GarbagePart(l, w, pending, doomed, n) && n <= n'
    ensures TablesPart(tables, l, w, n') && PendingPart(l, w, pending, low, n')
    ensures GarbagePart(l, w, pending, doomed, n')
  {
    hide HasVersions, HasEdit, LiveFiles, EditNumbers, Numbered;
  }

  lemma ManifestBounds(m: seq<Record>, v: Levels, n: nat, log: nat, low: nat, high: nat, n': nat, high': nat)
    requires ManifestPart(m, v, n, log, low, high) && n <= n' && high <= high'
    ensures ManifestPart(m, v, n', log, low, high')
  {
    hide ManifestOk, Edits;
  }

  // The parts that say nothing of the logs.
  ghost predicate Beside(s: Sys) {
    && ManifestPart(s.disk.manifest, Landed(s).version, s.db.nextFile, if Flushing(s.work) then s.memLog
      else s.logNumber,
                    if Flushing(s.work) then s.switched else s.flushed, s.db.lastSequence)
    && VersionsPart(s.versions, s.holders, s.db.version)
    && TablesPart(s.disk.tables, s.versions, s.work, s.db.nextFile)
    && WorkPart(s.db, s.work)
    && CountersPart(s.db.lastSequence, s.work, s.logNumber, s.memLog, s.flushed, s.switched)
    && PendingPart(s.versions, s.work, s.pending, LastNext(s.disk.manifest), s.db.nextFile)
    && GarbagePart(s.versions, s.work, s.pending, s.doomedTables, s.db.nextFile)
  }

  lemma BesideSplits(s: Sys)
    requires SysInv(s)
    ensures Structure(s.db) && Beside(s) && s.db.lastSequence + InFlightSize(s) < MAX_SEQUENCE
    ensures forall n :: n in s.doomedLogs ==> n < s.logNumber
    ensures LogsOk(s.db, s.disk.logs, s.logNumber, s.memLog, s.immLog, InFlight(s), InFlightSize(s), s.flushed,
                   s.switched)
  {
    hide Structure, LogsOk, ManifestPart, VersionsPart, TablesPart, WorkPart, CountersPart, PendingPart, GarbagePart,
      InFlight, Landed;
  }

  lemma BesideJoins(s: Sys)
    requires Structure(s.db) && s.db.lastSequence + InFlightSize(s) < MAX_SEQUENCE && Beside(s)
    requires LogsOk(s.db, s.disk.logs, s.logNumber, s.memLog, s.immLog, InFlight(s), InFlightSize(s), s.flushed,
                    s.switched)
    requires forall n :: n in s.doomedLogs ==> n < s.logNumber
    ensures SysInv(s)
  {
    hide Structure, LogsOk, ManifestPart, VersionsPart, TablesPart, WorkPart, CountersPart, PendingPart, GarbagePart,
      InFlight, Landed;
  }

  lemma BesideGrows(s: Sys, step: Step, s': Sys)
    requires Structure(s.db) && Beside(s) && Next(s.db, step, s'.db) && Foreground(step)
    requires s' == s.(db := s'.db, writing := s'.writing, memLog := s'.memLog, immLog := s'.immLog,
                      switched := s'.switched, disk := s.disk.(logs := s'.disk.logs))
    requires !step.Switch? ==> s'.memLog == s.memLog && s'.switched == s.switched
    ensures Beside(s')
  {
    hide Structure, Next, ManifestPart, VersionsPart, TablesPart, WorkPart, PendingPart, GarbagePart;
    ForegroundFacts(s.db, step, s'.db);
    WorkBeside(s.db, step, s'.db, s.work);
    BoundsGrow(s.disk.tables, s.versions, s.work, s.pending, s.doomedTables, LastNext(s.disk.manifest), s.db.nextFile,
               s'.db.nextFile);
    ManifestBounds(s.disk.manifest, Landed(s).version, s.db.nextFile, if Flushing(s.work) then s.memLog
      else s.logNumber,
                   if Flushing(s.work) then s.switched
                     else s.flushed, s.db.lastSequence, s'.db.nextFile, s'.db.lastSequence);
  }

  /** Beside the background thread, writes and snapshots need only keep the logs right. */
  lemma ForegroundKeeps(s: Sys, step: Step, s': Sys)
    requires SysInv(s) && Next(s.db, step, s'.db) && Foreground(step)
    requires s'.db.lastSequence + InFlightSize(s') < MAX_SEQUENCE
    requires s' == s.(db := s'.db, writing := s'.writing, memLog := s'.memLog, immLog := s'.immLog,
                      switched := s'.switched, disk := s.disk.(logs := s'.disk.logs))
    requires !step.Switch? ==> s'.memLog == s.memLog && s'.switched == s.switched
    requires LogsOk(s'.db, s'.disk.logs, s'.logNumber, s'.memLog, s'.immLog, InFlight(s'), InFlightSize(s'), s'.flushed,
                    s'.switched)
    ensures SysInv(s')
  {
    hide SysInv, Structure, Next, LogsOk, Beside, InFlight;
    BesideSplits(s);
    StructureStep(s.db, step, s'.db);
    BesideGrows(s, step, s');
    BesideJoins(s');
  }

  lemma LogWriteKeeps(s: Sys, batch: seq<Update>, s': Sys)
    requires SysInv(s) && Happens(s, LogWrite(batch), s')
    ensures SysInv(s')
  {
    hide Structure, ManifestPart, VersionsPart, TablesPart, WorkPart, CountersPart, PendingPart, GarbagePart, SplitAt,
      Consecutive, LogEntries, EndOf, BatchEntries;
    LogGrows(s.disk.logs[s.memLog], s.switched, LogBatch(s.db.lastSequence + 1, batch));
  }

  lemma ApplyWriteKeeps(s: Sys, s': Sys)
    requires SysInv(s) && Happens(s, ApplyWrite, s')
    ensures SysInv(s')
  {
    hide Structure, ManifestPart, VersionsPart, TablesPart, WorkPart, CountersPart, PendingPart, GarbagePart, LogsOk,
      BatchEntries, Contents, Sorted;
    LogsAfterInsert(s.db, s.writing.value, s'.db, s.disk.logs, s.logNumber, s.memLog, s.immLog, InFlight(s), s.flushed,
                    s.switched);
    ForegroundKeeps(s, Step.Write(s.writing.value), s');
  }

  lemma LogsAfterInsert(db: Db, batch: seq<Update>, db': Db, logs: map<nat, seq<LogBatch>>, logNumber: nat, memLog: nat,
                        immLog: nat, inFlight: set<Entry>, flushed: nat, switched: nat)
    requires LogsOk(db, logs, logNumber, memLog, immLog, inFlight, |batch|, flushed, switched)
    requires WriteStep(db, batch, db') && inFlight == Contents(BatchEntries(db.lastSequence + 1, batch))
    ensures LogsOk(db', logs, logNumber, memLog, immLog, {}, 0, flushed, switched)
  {
    SplitAfterWrite(db, batch, db', flushed, switched);
    hide SplitAt, Consecutive, LogEntries, EndOf, BatchEntries, Sorted;
    assert Contents(db'.mem) + {} == Contents(db.mem) + inFlight;
  }

  lemma SplitAfterWrite(db: Db, batch: seq<Update>, db': Db, flushed: nat, switched: nat)
    requires WriteStep(db, batch, db') && SplitAt(db, flushed, switched)
    ensures SplitAt(db', flushed, switched)
  {
  }

  lemma SwitchKeeps(s: Sys, s': Sys)
    requires SysInv(s) && Happens(s, SwitchLog, s')
    ensures SysInv(s')
  {
    hide Structure, ManifestPart, VersionsPart, TablesPart, WorkPart, CountersPart, PendingPart, GarbagePart, LogsOk;
    LogsAfterSwitch(s, s');
    ForegroundKeeps(s, Switch, s');
  }

  lemma LogsAfterSwitch(s: Sys, s': Sys)
    requires SysInv(s) && Happens(s, SwitchLog, s')
    ensures LogsOk(s'.db, s'.disk.logs, s'.logNumber, s'.memLog, s'.immLog, InFlight(s'), InFlightSize(s'), s'.flushed,
                   s'.switched)
  {
    hide Structure, ManifestPart, VersionsPart, TablesPart, WorkPart, CountersPart, PendingPart, GarbagePart, SplitAt,
      BatchEntries;
    SplitAfterSwitch(s.db, s'.db, s.flushed, s.switched);
    assert Contents(s.db.mem) + {} == Contents(s.db.mem) && Contents(s'.db.mem) + {} == {};
  }

  lemma SplitAfterSwitch(db: Db, db': Db, flushed: nat, switched: nat)
    requires Structure(db) && SwitchStep(db, db') && SplitAt(db, flushed, switched)
    ensures SplitAt(db', flushed, db.lastSequence)
  {
    hide VersionOk, NumbersOk, SnapshotsOk, NewerThan, Sorted;
    assert Front(db') == Front(db);
    assert ImmEntries(db') <= StoredIn(db);
  }

  lemma SnapKeeps(s: Sys, e: Event, s': Sys)
    requires SysInv(s) && (e.Snap? || e.Unsnap?) && Happens(s, e, s')
    ensures SysInv(s')
  {
    hide Structure, ManifestPart, VersionsPart, TablesPart, WorkPart, CountersPart, PendingPart, GarbagePart,
      Consecutive, EndOf, LogEntries, BatchEntries;
    ForegroundKeeps(s, if e.Snap? then TakeSnapshot else Release(e.index), s');
  }

  // ------------------------------------------------------------------ versions and garbage

  // Fewer versions, or the same ones, with the same files.
  ghost predicate Fewer(l: Versions, l': Versions) {
    (forall p :: p in l'.nodes ==> p in l.nodes) && l'.files == l.files && l'.current == l.current
      && LiveFiles(l') <= LiveFiles(l)
  }

  lemma FewerVersions(tables: map<nat, seq<Entry>>, l: Versions, l': Versions, w: Work, pending: set<nat>,
                      doomed: set<nat>, low: nat, n: nat)
    requires TablesPart(tables, l, w, n) && PendingPart(l, w, pending, low, n)
    requires GarbagePart(l, w, pending, doomed, n) && Fewer(l, l')
    ensures TablesPart(tables, l', w, n) && PendingPart(l', w, pending, low, n)
    ensures GarbagePart(l', w, pending, doomed, n)
  {
    hide HasVersion, HasEdit, LiveFiles, EditNumbers, Numbered;
  }

  lemma RefEventKeeps(s: Sys, e: Event, s': Sys)
    requires SysInv(s) && (e.RefVersion? || e.UnrefVersion?) && Happens(s, e, s')
    ensures SysInv(s')
  {
    hide SysInv, Happens, Structure, LogsOk, Beside;
    RefEventParts(s, e, s');
    BesideSplits(s);
    BesideFewer(s, s');
    BesideJoins(s');
  }

  lemma BesideFewer(s: Sys, s': Sys)
    requires Beside(s) && s' == s.(versions := s'.versions, holders := s'.holders)
    requires VersionsPart(s'.versions, s'.holders, s.db.version) && Fewer(s.versions, s'.versions)
    ensures Beside(s')
  {
    hide ManifestPart, VersionsPart, TablesPart, WorkPart, CountersPart, PendingPart, GarbagePart, Fewer, LastNext,
      Landed, Flushing;
    FewerVersions(s.disk.tables, s.versions, s'.versions, s.work, s.pending, s.doomedTables, LastNext(s.disk.manifest),
                  s.db.nextFile);
    assert Landed(s').version == Landed(s).version by { SameLanded(s, s'); }
  }

  lemma SameLanded(s: Sys, s': Sys)
    requires s'.db == s.db && s'.work == s.work
    ensures Landed(s') == Landed(s)
  {
  }

  lemma RefEventParts(s: Sys, e: Event, s': Sys)
    requires SysInv(s) && (e.RefVersion? || e.UnrefVersion?) && Happens(s, e, s')
    ensures s' == s.(versions := s'.versions, holders := s'.holders)
    ensures VersionsPart(s'.versions, s'.holders, s.db.version) && Fewer(s.versions, s'.versions)
  {
    hide VersionsPart, Fewer, UnrefOf, RefTo, Structure, LogsOk, ManifestPart, WorkPart, CountersPart, TablesPart,
      PendingPart, GarbagePart;
    RefEventVersions(s.versions, s.holders, e, s'.versions, s'.holders, s.db.version);
  }

  lemma RefEventVersions(l: Versions, holders: multiset<nat>, e: Event, l': Versions, holders': multiset<nat>,
                         v: Levels)
    requires VersionsPart(l, holders, v)
    requires (e.RefVersion? && l' == RefTo(l, l.current) && holders' == holders + multiset{l.current})
          || (e.UnrefVersion? && e.pointer in holders && l' == UnrefOf(l, e.pointer)
            && holders' == holders - multiset{e.pointer})
    ensures VersionsPart(l', holders', v) && Fewer(l, l')
  {
    hide ListOk, Counted, LiveFiles, Remove;
    if e.RefVersion? {
      RefKeeps(l, holders);
    } else {
      UnrefKeeps(l, holders, e.pointer);
      RemainingNodes(l, e.pointer);
    }
  }

  lemma RemainingNodes(l: Versions, p: nat)
    ensures forall q :: q in UnrefOf(l, p).nodes ==> q in l.nodes
  {
  }

  // A file of a version in use, by its number.
  lemma LiveHasFile(tables: map<nat, seq<Entry>>, l: Versions, n: nat)
    requires HasVersions(tables, l) && n in LiveFiles(l)
    ensures n in tables
  {
    var p :| p in l.nodes && p in l.files && n in FileNumbers(l.files[p]);
    hide HasVersions;
    assert HasVersion(tables, l.files[p]) by { HasNode(tables, l, p); }
    var k, f :| 0 <= k < NUM_LEVELS && f in l.files[p][k] && f.number == n;
    assert HasFile(tables, f);
  }

  lemma HasNode(tables: map<nat, seq<Entry>>, l: Versions, p: nat)
    requires HasVersions(tables, l) && p in l.nodes && p in l.files
    ensures HasVersion(tables, l.files[p])
  {
    hide HasVersion;
  }

  // Changes to other files than those in use do not matter.
  lemma OthersChange(tables: map<nat, seq<Entry>>, tables': map<nat, seq<Entry>>, l: Versions)
    requires HasVersions(tables, l) && forall n :: n in LiveFiles(l) && n in tables ==>
      n in tables' && tables'[n] == tables[n]
    ensures HasVersions(tables', l)
  {
    hide HasVersion;
    forall p | p in l.nodes && p in l.files ensures HasVersion(tables', l.files[p]) {
      LiveNode(l, p);
      OtherFiles(tables, tables', l.files[p], LiveFiles(l));
    }
  }

  lemma LiveNode(l: Versions, p: nat)
    requires p in l.nodes && p in l.files
    ensures FileNumbers(l.files[p]) <= LiveFiles(l)
  {
    hide FileNumbers;
  }

  lemma OtherFiles(tables: map<nat, seq<Entry>>, tables': map<nat, seq<Entry>>, v: Levels, live: set<nat>)
    requires HasVersion(tables, v) && FileNumbers(v) <= live
    requires forall n :: n in live && n in tables ==> n in tables' && tables'[n] == tables[n]
    ensures HasVersion(tables', v)
  {
    forall k: nat, f | k < NUM_LEVELS && f in v[k] ensures HasFile(tables', f) {
      assert HasFile(tables, f) && f.number in FileNumbers(v);
    }
  }

  lemma EditFiles(tables: map<nat, seq<Entry>>, tables': map<nat, seq<Entry>>, edit: VersionEdit)
    requires HasEdit(tables, edit) && forall n :: n in EditNumbers(edit) && n in tables ==>
      n in tables' && tables'[n] == tables[n]
    ensures HasEdit(tables', edit)
  {
    forall a | a in edit.added ensures HasFile(tables', a.1) {
      assert HasFile(tables, a.1) && a.1.number in EditNumbers(edit);
    }
  }

  lemma CollectKeeps(s: Sys, s': Sys)
    requires SysInv(s) && Happens(s, Collect, s')
    ensures SysInv(s')
  {
    hide Structure, LogsOk, ManifestPart, WorkPart, CountersPart, VersionsPart, TablesPart, PendingPart, GarbagePart,
      LiveFiles;
    if s.work.Planned() {
      PlannedIsKept(s);
    }
    Collected(s.disk.tables, s.versions, s.work, s.pending, s'.doomedTables, s.db.nextFile);
  }

  lemma Collected(tables: map<nat, seq<Entry>>, l: Versions, w: Work, pending: set<nat>, doomed: set<nat>, n: nat)
    requires TablesPart(tables, l, w, n) && doomed == tables.Keys - pending - LiveFiles(l)
    requires w.Planned() ==> EditNumbers(w.edit) <= pending + LiveFiles(l)
    ensures GarbagePart(l, w, pending, doomed, n)
  {
    hide HasVersions, HasEdit, LiveFiles, EditNumbers;
  }

  // The numbers of a compaction are pending, and a moved file is in the current version.
  lemma PlannedIsKept(s: Sys)
    requires SysInv(s) && s.work.Planned() && !s.work.step.Flush?
    ensures EditNumbers(s.work.edit) <= s.pending + LiveFiles(s.versions)
  {
    HeldIsLive(s.versions, s.holders, s.versions.current);
    hide Structure, LogsOk, ManifestPart, CountersPart, TablesPart, GarbagePart, LiveFiles, Counted, ListOk;
    PlannedNumbers(s.db, s.work, s.pending);
  }

  lemma PlannedNumbers(db: Db, w: Work, pending: set<nat>)
    requires w.Planned() && WorkOk(db, w) && !w.step.Flush? && (w.step.Compact? ==> Numbered(w, pending))
    ensures EditNumbers(w.edit) <= pending + FileNumbers(db.version)
  {
    OnlyThree(db, w);
    if w.step.Move? {
      MoveParts(db, w);
      hide WorkOk;
      AddedNumbers(db.version, w, w.step.level, w.step.in0, [], w.step.outputs);
    } else {
      CompactParts(db, w);
      hide WorkOk;
      AddedNumbers(db.version, w, w.step.level, w.step.in0, w.step.in1, w.step.outputs);
    }
  }

  lemma AddedNumbers(v: Levels, w: Work, level: nat, in0: seq<File>, in1: seq<File>, outputs: seq<File>)
    requires w.Planned() && level + 1 < NUM_LEVELS && w.edit == CompactionEdit(level, in0, in1, outputs)
    ensures forall n :: n in EditNumbers(w.edit) ==> exists f :: f in outputs && f.number == n
  {
    InAdded(level, in0, in1, outputs);
  }

  lemma DropTableKeeps(s: Sys, n: nat, s': Sys)
    requires SysInv(s) && Happens(s, DropTable(n), s')
    ensures SysInv(s')
  {
    hide Structure, LogsOk, ManifestPart, WorkPart, CountersPart, VersionsPart, HasVersions, LiveFiles, HasEdit,
      Numbered, EditNumbers;
    OthersChange(s.disk.tables, s'.disk.tables, s.versions);
    if s.work.Planned() {
      EditFiles(s.disk.tables, s'.disk.tables, s.work.edit);
    }
  }

  lemma DropLogKeeps(s: Sys, n: nat, s': Sys)
    requires SysInv(s) && Happens(s, DropLog(n), s')
    ensures SysInv(s')
  {
    hide Structure, ManifestPart, WorkPart, CountersPart, VersionsPart, TablesPart, PendingPart, GarbagePart, SplitAt,
      BatchEntries,
      Consecutive, EndOf, LogEntries;
  }

  // ------------------------------------------------------------------ the background thread

  // The thread goes on, and nothing else changes but pending outputs.
  lemma WorkMoves(s: Sys, s': Sys)
    requires SysInv(s) && s' == s.(work := s'.work, pending := s'.pending, disk := s.disk.(tables := s'.disk.tables))
    requires !s.work.Recorded? && !s'.work.Recorded?
    requires TablesPart(s'.disk.tables, s.versions, s'.work, s.db.nextFile) && WorkPart(s.db, s'.work)
    requires CountersPart(s.db.lastSequence, s'.work, s.logNumber, s.memLog, s.flushed, s.switched)
    requires PendingPart(s.versions, s'.work, s'.pending, LastNext(s.disk.manifest), s.db.nextFile)
    requires GarbagePart(s.versions, s'.work, s'.pending, s.doomedTables, s.db.nextFile)
    ensures SysInv(s')
  {
    hide Structure, LogsOk, ManifestPart, VersionsPart, TablesPart, WorkPart, CountersPart, PendingPart, GarbagePart;
  }

  lemma BeginMergeKeeps(s: Sys, s': Sys)
    requires SysInv(s) && Happens(s, BeginMerge, s')
    ensures SysInv(s')
  {
    hide Structure, LogsOk, ManifestPart, VersionsPart, HasVersions, LiveFiles, SmallestSnapshot, LastNext;
    WorkMoves(s, s');
  }

  lemma EraseKeeps(s: Sys, n: nat, s': Sys)
    requires SysInv(s) && Happens(s, EraseOutput(n), s')
    ensures SysInv(s')
  {
    hide Structure, LogsOk, ManifestPart, VersionsPart, TablesPart, WorkPart, CountersPart, LiveFiles, EditNumbers,
      LastNext, Numbered;
  }

  lemma CleanUpKeeps(s: Sys, s': Sys)
    requires SysInv(s) && Happens(s, CleanUp, s')
    ensures SysInv(s')
  {
    hide Structure, LogsOk, ManifestPart, VersionsPart, HasVersions, LiveFiles, SmallestSnapshot, LastNext;
    WorkMoves(s, s');
  }

  lemma RaiseNext(b: Db, n: nat)
    requires Structure(b) && b.nextFile <= n
    ensures Structure(b.(nextFile := n)) && StoredIn(b.(nextFile := n)) == StoredIn(b)
  {
    assert Front(b.(nextFile := n)) == Front(b);
  }

  lemma RaiseLogs(db: Db, n: nat, logs: map<nat, seq<LogBatch>>, logNumber: nat, memLog: nat, immLog: nat,
                  inFlight: set<Entry>, size: nat, flushed: nat, switched: nat)
    requires LogsOk(db, logs, logNumber, memLog, immLog, inFlight, size, flushed, switched) && db.nextFile <= n
    ensures LogsOk(db.(nextFile := n), logs, logNumber, memLog, immLog, inFlight, size, flushed, switched)
  {
    assert SplitAt(db.(nextFile := n), flushed, switched);
    hide SplitAt, Consecutive, EndOf, LogEntries;
  }

  lemma NewOutputFiles(tables: map<nat, seq<Entry>>, l: Versions, w: Work, pending: set<nat>, doomed: set<nat>,
                       low: nat, n: nat)
    requires TablesPart(tables, l, w, n) && PendingPart(l, w, pending, low, n) && GarbagePart(l, w, pending, doomed, n)
    requires (w.Resting? || w.Merging?) && low <= n
    ensures TablesPart(tables[n := []], l, w, n + 1) && PendingPart(l, w, pending + {n}, low, n + 1)
    ensures GarbagePart(l, w, pending + {n}, doomed, n + 1)
  {
    hide HasVersions, LiveFiles, EditNumbers;
    assert n !in LiveFiles(l) by {
      if n in LiveFiles(l) {
        LiveHasFile(tables, l, n);
      }
    }
    OthersChange(tables, tables[n := []], l);
  }

  lemma NewOutputKeeps(s: Sys, s': Sys)
    requires SysInv(s) && Happens(s, NewOutput, s')
    ensures SysInv(s')
  {
    hide SysInv, Structure, LogsOk, TablesPart, PendingPart, GarbagePart, VersionsPart, SmallestSnapshot;
    BesideSplits(s);
    hide ManifestOk;
    var n := s.db.nextFile;
    NewOutputFiles(s.disk.tables, s.versions, s.work, s.pending, s.doomedTables, LastNext(s.disk.manifest), n);
    RaiseNext(s.db, n + 1);
    RaiseLogs(s.db, n + 1, s.disk.logs, s.logNumber, s.memLog, s.immLog, InFlight(s), InFlightSize(s), s.flushed,
              s.switched);
    assert SmallestSnapshot(s'.db) == SmallestSnapshot(s.db) by { NewOutputQuiet(s.db); }
    BesideJoins(s');
  }

  lemma NewOutputQuiet(db: Db)
    ensures SmallestSnapshot(db.(nextFile := db.nextFile + 1)) == SmallestSnapshot(db)
  {
  }

  // The numbers of the version are below the counter in the manifest.
  lemma VersionBounded(edits: seq<VersionEdit>, v: Levels, bound: nat, other: nat)
    requires ManifestOk(edits, v, bound) && NumbersOk(v, other)
    ensures forall n :: n >= bound ==> NumbersOk(v, n)
  {
    hide ManifestOk;
    forall l: nat, f | l < NUM_LEVELS && f in v[l] ensures f.number < bound {
      VersionNamed(edits, v, bound, l, f);
    }
  }

  lemma BuiltWorkOk(db: Db, manifest: seq<Record>, w: Work, l: Versions, from: Work, pending: set<nat>, logNumber: nat,
                    low: nat)
    requires Structure(db) && ManifestPart(manifest, db.version, db.nextFile, logNumber, low, db.lastSequence)
    requires PendingPart(l, from, pending, LastNext(manifest), db.nextFile) && (from.Resting? || from.Merging?)
    requires w.Built? && WorkShape(db, w) && Numbered(w, pending) && w.from == LastNext(manifest)
    ensures WorkOk(db, w)
  {
    hide Structure, WorkShape, LiveFiles, ManifestPart, Numbered, NumbersOk, PendingPart;
    KnownNumbers(db, manifest, logNumber, low);
    BuiltWorkNumbers(db.version, w, l, from, pending, db.nextFile);
  }

  lemma KnownNumbers(db: Db, manifest: seq<Record>, logNumber: nat, low: nat)
    requires Structure(db) && ManifestPart(manifest, db.version, db.nextFile, logNumber, low, db.lastSequence)
    ensures NumbersOk(db.version, LastNext(manifest)) && LastNext(manifest) <= db.nextFile
  {
    hide Structure, ManifestOk, Edits, NumbersOk;
    NumbersPart(db);
    var r := manifest[|manifest| - 1].counters.value;
    VersionBounded(Edits(manifest), db.version, r.nextFile, db.nextFile);
  }

  lemma BuiltWorkNumbers(v: Levels, w: Work, l: Versions, from: Work, pending: set<nat>, n: nat)
    requires w.Planned() && PendingPart(l, from, pending, w.from, n) && (from.Resting? || from.Merging?)
    requires NumbersOk(v, w.from) && w.from <= n && Numbered(w, pending)
    ensures WorkNumbers(v, w, n)
  {
    hide NumbersOk, LiveFiles;
  }

  // The numbers of the new files are pending.
  lemma NewNumbers(db: Db, w: Work, pending: set<nat>)
    requires w.Planned() && WorkOk(db, w) && !w.step.Move? && Numbered(w, pending)
    ensures EditNumbers(w.edit) <= pending
  {
    OnlyThree(db, w);
    if w.step.Flush? {
      FlushAdds(db, w);
    } else {
      CompactParts(db, w);
      hide WorkOk;
      AddedNumbers(db.version, w, w.step.level, w.step.in0, w.step.in1, w.step.outputs);
    }
  }

  lemma FlushAdds(db: Db, w: Work)
    requires w.Planned() && WorkOk(db, w) && w.step.Flush?
    ensures forall a :: a in w.edit.added ==> a.1 == w.step.file
  {
    hide SavedAll, FileOk, NumbersOk, OverlapInLevel;
  }

  lemma BuiltTables(tables: map<nat, seq<Entry>>, l: Versions, from: Work, pending: set<nat>, low: nat, n: nat,
                    w: Work, tables': map<nat, seq<Entry>>)
    requires TablesPart(tables, l, from, n) && PendingPart(l, from, pending, low, n) && (from.Resting? || from.Merging?)
    requires w.Planned() && EditNumbers(w.edit) <= pending && Wrote(tables, w.edit, tables')
    ensures TablesPart(tables', l, w, n)
  {
    hide HasVersions, HasEdit, LiveFiles, EditNumbers;
    OthersChange(tables, tables', l);
  }

  lemma MovedTables(tables: map<nat, seq<Entry>>, l: Versions, from: Work, n: nat, db: Db, w: Work,
                    holders: multiset<nat>)
    requires TablesPart(tables, l, from, n) && VersionsPart(l, holders, db.version) && w.Planned() && WorkOk(db, w)
    requires w.step.Move?
    ensures TablesPart(tables, l, w, n)
  {
    hide WorkOk, ListOk, Counted, HasVersions;
    assert HasVersion(tables, db.version) by { CurrentHasFiles(tables, l, holders, db.version); }
    MoveParts(db, w);
    InAdded(w.step.level, w.step.in0, [], w.step.outputs);
    MovedAre(db, w);
    hide EditParts, HasFile;
    forall a | a in w.edit.added ensures HasFile(tables, a.1) {
    }
  }

  lemma MovedAre(db: Db, w: Work)
    requires w.Planned() && WorkOk(db, w) && w.step.Move?
    ensures w.step.level + 1 < NUM_LEVELS && w.edit == CompactionEdit(w.step.level, w.step.in0, [], w.step.outputs)
    ensures forall f :: f in w.step.outputs ==> f in db.version[w.step.level]
  {
    hide SavedAll, NumbersOk, OutputsOk, CompactionEdit;
  }

  lemma CurrentHasFiles(tables: map<nat, seq<Entry>>, l: Versions, holders: multiset<nat>, v: Levels)
    requires HasVersions(tables, l) && VersionsPart(l, holders, v)
    ensures HasVersion(tables, v)
  {
    hide HasVersion, Counted;
  }

  lemma BuildKeeps(s: Sys, w: Work, tables: map<nat, seq<Entry>>, s': Sys)
    requires SysInv(s) && Happens(s, Build(w, tables), s')
    ensures SysInv(s')
  {
    hide Structure, LogsOk, ManifestPart, VersionsPart, TablesPart, WorkPart, CountersPart, PendingPart, GarbagePart,
      WorkShape, Numbered, LastNext, Wrote;
    BuiltWorkOk(s.db, s.disk.manifest, w, s.versions, s.work, s.pending, s.logNumber, s.flushed);
    BuiltFiles(s, w, tables);
    BuiltPending(s.versions, s.work, w, s.pending, LastNext(s.disk.manifest), s.db.nextFile);
    WorkMoves(s, s');
  }

  lemma BuiltPending(l: Versions, from: Work, w: Work, pending: set<nat>, low: nat, n: nat)
    requires PendingPart(l, from, pending, low, n) && (from.Resting? || from.Merging?) && w.Built? && w.from == low
    requires Numbered(w, pending)
    ensures PendingPart(l, w, pending, low, n)
  {
    hide LiveFiles, Numbered;
  }

  lemma BuiltFiles(s: Sys, w: Work, tables: map<nat, seq<Entry>>)
    requires SysInv(s) && (s.work.Resting? || s.work.Merging?) && w.Built? && WorkOk(s.db, w) && Numbered(w, s.pending)
    requires if w.step.Move? then tables == s.disk.tables else Wrote(s.disk.tables, w.edit, tables)
    ensures TablesPart(tables, s.versions, w, s.db.nextFile) && WorkPart(s.db, w)
    ensures CountersPart(s.db.lastSequence, w, s.logNumber, s.memLog, s.flushed, s.switched)
    ensures GarbagePart(s.versions, w, s.pending, s.doomedTables, s.db.nextFile)
  {
    hide Structure, LogsOk, ManifestPart, VersionsPart, TablesPart, PendingPart, GarbagePart, WorkOk, Numbered,
      LastNext, Wrote;
    if w.step.Move? {
      MovedTables(s.disk.tables, s.versions, s.work, s.db.nextFile, s.db, w, s.holders);
      PlannedNumbers(s.db, w, s.pending);
      CurrentIsLive(s.versions, s.holders, s.db.version);
    } else {
      NewNumbers(s.db, w, s.pending);
      BuiltTables(s.disk.tables, s.versions, s.work, s.pending, LastNext(s.disk.manifest), s.db.nextFile, w, tables);
    }
    BuiltGarbage(s.versions, s.work, w, s.pending, s.doomedTables, s.db.nextFile);
  }

  lemma CurrentIsLive(l: Versions, holders: multiset<nat>, v: Levels)
    requires VersionsPart(l, holders, v)
    ensures FileNumbers(v) <= LiveFiles(l)
  {
    hide FileNumbers, LiveFiles;
    HeldIsLive(l, holders, l.current);
  }

  lemma BuiltGarbage(l: Versions, from: Work, w: Work, pending: set<nat>, doomed: set<nat>, n: nat)
    requires GarbagePart(l, from, pending, doomed, n) && w.Planned() && EditNumbers(w.edit) <= pending + LiveFiles(l)
    ensures GarbagePart(l, w, pending, doomed, n)
  {
    hide LiveFiles, EditNumbers;
  }

  lemma BeginApplyKeeps(s: Sys, s': Sys)
    requires SysInv(s) && Happens(s, BeginApply, s')
    ensures SysInv(s')
  {
    hide Structure, LogsOk, ManifestPart, VersionsPart, TablesPart, WorkPart, CountersPart, PendingPart, GarbagePart,
      LastNext;
    ApplyParts(s.disk.tables, s.versions, s.db, s.work, s'.work, s.pending, s.doomedTables, LastNext(s.disk.manifest));
    ApplyCounters(s, s');
    WorkMoves(s, s');
  }

  // LogAndApply takes the same edit along.
  predicate SameEdit(w: Work, w': Work)
    requires w.Planned() && w'.Planned()
  {
    w'.step == w.step && w'.edit == w.edit && w'.version == w.version && w'.from == w.from
  }

  lemma SameWork(db: Db, w: Work, w': Work)
    requires w.Planned() && w'.Planned() && WorkOk(db, w) && SameEdit(w, w') && Bound(db, w') == Bound(db, w)
    ensures WorkOk(db, w')
  {
    assert WorkShape(db, w') by { SameShape(db, w, w'); }
    assert WorkNumbers(db.version, w', Bound(db, w')) by { SameNumbers(db.version, w, w', Bound(db, w)); }
    hide WorkShape, WorkNumbers;
  }

  lemma SameShape(db: Db, w: Work, w': Work)
    requires w.Planned() && w'.Planned() && WorkShape(db, w) && SameEdit(w, w')
    ensures WorkShape(db, w')
  {
    hide SavedAll, FileOk, OverlapInLevel, Merges, InputsSound, OutputsOk, CompactionEdit, FlushEdit, Moves;
  }

  lemma SameNumbers(v: Levels, w: Work, w': Work, bound: nat)
    requires w.Planned() && w'.Planned() && WorkNumbers(v, w, bound) && SameEdit(w, w')
    ensures WorkNumbers(v, w', bound)
  {
    hide NumbersOk;
  }

  lemma ApplyParts(tables: map<nat, seq<Entry>>, l: Versions, db: Db, w: Work, w': Work, pending: set<nat>,
                   doomed: set<nat>, low: nat)
    requires w.Built? && w'.Applying? && SameEdit(w, w') && w'.counters.nextFile == db.nextFile
    requires (!w.step.Compact? ==> pending == {})
    requires TablesPart(tables, l, w, db.nextFile) && WorkPart(db, w) && PendingPart(l, w, pending, low, db.nextFile)
    requires GarbagePart(l, w, pending, doomed, db.nextFile)
    ensures TablesPart(tables, l, w', db.nextFile) && WorkPart(db, w') && PendingPart(l, w', pending, low, db.nextFile)
    ensures GarbagePart(l, w', pending, doomed, db.nextFile)
  {
    hide HasVersions, HasEdit, LiveFiles, EditNumbers, WorkOk;
    SameWork(db, w, w');
  }

  lemma ApplyCounters(s: Sys, s': Sys)
    requires SysInv(s) && Happens(s, BeginApply, s')
    ensures CountersPart(s.db.lastSequence, s'.work, s.logNumber, s.memLog, s.flushed, s.switched)
  {
    hide Structure, LogsOk, ManifestPart, VersionsPart, TablesPart, WorkPart, PendingPart, GarbagePart;
    LogFacts(s.db, s.disk.logs, s.logNumber, s.memLog, s.immLog, InFlight(s), InFlightSize(s), s.flushed, s.switched);
  }

  lemma RecordKeeps(s: Sys, s': Sys)
    requires SysInv(s) && Happens(s, RecordEdit, s')
    ensures SysInv(s')
  {
    hide SysInv, Structure, LogsOk, ManifestPart, VersionsPart, TablesPart, WorkPart, CountersPart, PendingPart,
      GarbagePart, LastNext, Edits;
    BesideSplits(s);
    RecordedManifest(s, s');
    RecordedParts(s.disk.tables, s.versions, s.db, s.work, s'.work, s.pending, s.doomedTables,
                  LastNext(s.disk.manifest), LastNext(s'.disk.manifest));
    RecordedCounters(s.db.lastSequence, s.work, s'.work, s.logNumber, s.memLog, s.flushed, s.switched);
    BesideJoins(s');
  }

  lemma RecordedCounters(last: nat, w: Work, w': Work, logNumber: nat, memLog: nat, flushed: nat, switched: nat)
    requires w.Applying? && w'.Recorded? && SameEdit(w, w') && w'.counters == w.counters
    requires CountersPart(last, w, logNumber, memLog, flushed, switched)
    ensures CountersPart(last, w', logNumber, memLog, flushed, switched)
  {
  }

  lemma RecordedParts(tables: map<nat, seq<Entry>>, l: Versions, db: Db, w: Work, w': Work, pending: set<nat>,
                      doomed: set<nat>, low: nat, low': nat)
    requires w.Applying? && w'.Recorded? && SameEdit(w, w') && w'.counters == w.counters
    requires TablesPart(tables, l, w, db.nextFile) && WorkPart(db, w) && PendingPart(l, w, pending, low, db.nextFile)
    requires GarbagePart(l, w, pending, doomed, db.nextFile)
    ensures TablesPart(tables, l, w', db.nextFile) && WorkPart(db, w') && PendingPart(l, w', pending, low', db.nextFile)
    ensures GarbagePart(l, w', pending, doomed, db.nextFile)
  {
    hide HasVersions, HasEdit, LiveFiles, EditNumbers, WorkOk;
    SameWork(db, w, w');
  }

  /** The record keeps the manifest one of the version to be installed. */
  lemma RecordedManifest(s: Sys, s': Sys)
    requires Beside(s) && Happens(s, RecordEdit, s')
    ensures ManifestPart(s'.disk.manifest, s.work.version, s.db.nextFile, if s.work.step.Flush? then s.memLog
      else s.logNumber,
                         if s.work.step.Flush? then s.switched else s.flushed, s.db.lastSequence)
  {
    hide VersionsPart, TablesPart, GarbagePart, LiveFiles, Numbered, Structure, WorkOk, ManifestOk, FreshEdit, Effect,
      Edits;
    var w, m := s.work, s.disk.manifest;
    var r := m[|m| - 1].counters.value;
    WorkIsFresh(s.db, w);
    Appends(Edits(m), s.db.version, r.nextFile, w.edit, w.version, w.counters.nextFile);
    MoreEdits(m, Record(w.edit, Some(w.counters)));
    BoundBelow(s.db, w);
  }

  lemma BoundBelow(db: Db, w: Work)
    requires w.Planned() && WorkOk(db, w)
    ensures Bound(db, w) <= db.nextFile
  {
    hide WorkShape, WorkNumbers;
  }

  lemma MoreEdits(m: seq<Record>, r: Record)
    ensures Edits(m + [r]) == Edits(m) + [r.edit]
  {
  }

  lemma InstallKeeps(s: Sys, p: nat, s': Sys)
    requires SysInv(s) && Happens(s, Event.Install(p), s')
    ensures SysInv(s')
  {
    hide SysInv, Structure, LogsOk, Beside, Next, WorkOk;
    BesideSplits(s);
    InstalledDb(s, p, s');
    LogsAfterInstall(s, p, s');
    InstalledBeside(s, p, s');
    InstalledLogs(s, p, s');
    BesideJoins(s');
  }

  lemma InstalledDb(s: Sys, p: nat, s': Sys)
    requires Structure(s.db) && Beside(s) && Happens(s, Event.Install(p), s')
    ensures Structure(s'.db) && SmallestSnapshot(s'.db) == SmallestSnapshot(s.db)
  {
    hide Structure, WorkOk, ManifestPart, VersionsPart, TablesPart, GarbagePart, PendingPart, CountersPart, Next;
    WorkIsStep(s.db, s.work);
    StructureStep(s.db, s.work.step, s'.db);
  }

  lemma InstalledLogs(s: Sys, p: nat, s': Sys)
    requires SysInv(s) && Happens(s, Event.Install(p), s')
    ensures forall n :: n in s'.doomedLogs ==> n < s'.logNumber
    ensures s'.db.lastSequence + InFlightSize(s') < MAX_SEQUENCE
  {
    hide Structure, ManifestPart, VersionsPart, TablesPart, GarbagePart, PendingPart, CountersPart, WorkPart, LogsOk;
    LogFacts(s.db, s.disk.logs, s.logNumber, s.memLog, s.immLog, InFlight(s), InFlightSize(s), s.flushed, s.switched);
  }

  lemma LogsAfterInstall(s: Sys, p: nat, s': Sys)
    requires SysInv(s) && Happens(s, Event.Install(p), s')
    ensures LogsOk(s'.db, s'.disk.logs, s'.logNumber, s'.memLog, s'.immLog, InFlight(s'), InFlightSize(s'), s'.flushed,
                   s'.switched)
  {
    hide Structure, WorkOk, ManifestPart, VersionsPart, TablesPart, GarbagePart, PendingPart, CountersPart, Next,
      SplitAt, BatchEntries,
      Consecutive, EndOf, LogEntries;
    WorkIsStep(s.db, s.work);
    OnlyThree(s.db, s.work);
    SplitAfterInstall(s.db, s.work, s'.db, s.flushed, s.switched);
    FlushHasImm(s.db, s.work);
  }

  lemma SplitAfterInstall(db: Db, w: Work, db': Db, flushed: nat, switched: nat)
    requires w.Planned() && WorkOk(db, w) && Next(db, w.step, db') && db' == Installs(db, w)
    requires SplitAt(db, flushed, switched) && flushed <= switched
    ensures SplitAt(db', if w.step.Flush? then switched else flushed, switched)
  {
    hide WorkOk, FlushStep, CompactStep, SplitAt, Merges;
    OnlyThree(db, w);
    match w.step {
      case Flush(level, f) => SplitAfterFlush(db, level, f, db', flushed, switched);
      case Move(level, in0, outputs) => SplitAfterCompact(db, level, in0, [], outputs, db', flushed, switched);
      case Compact(level, in0, in1, outputs, ss) =>
        SplitAfterCompact(db, level, in0, in1, outputs, db', flushed, switched);
    }
  }

  lemma SplitAfterFlush(db: Db, level: nat, f: File, db': Db, flushed: nat, switched: nat)
    requires FlushStep(db, level, f, db') && SplitAt(db, flushed, switched) && flushed <= switched
    ensures SplitAt(db', switched, switched)
  {
    hide FlushStep, AllEntries, StoredIn;
    FlushedEntries(db, level, f, db');
    FlushChanges(db, level, f, db');
  }

  lemma FlushChanges(db: Db, level: nat, f: File, db': Db)
    requires FlushStep(db, level, f, db')
    ensures db'.imm.None? && db'.history == db.history && db'.mem == db.mem
  {
    hide Added, OverlapInLevel, FileOk, NewNumber;
  }

  lemma SplitAfterCompact(db: Db, level: nat, in0: seq<File>, in1: seq<File>, outputs: seq<File>, db': Db,
                          flushed: nat, switched: nat)
    requires CompactStep(db, level, in0, in1, outputs, db') && SplitAt(db, flushed, switched)
    ensures SplitAt(db', flushed, switched)
  {
    hide InputsSound, OutputsOk, Installed, NumbersOk, AllEntries;
    CompactedEntries(db.version, level, in0, in1, outputs, db'.version);
  }

  lemma InstalledBeside(s: Sys, p: nat, s': Sys)
    requires SysInv(s) && Happens(s, Event.Install(p), s')
    ensures Beside(s')
  {
    hide Structure, LogsOk, WorkPart, HasVersions, LiveFiles, ManifestOk, HasEdit, TablesPart, GarbagePart,
      VersionsPart, Edits, Append;
    InstalledFiles(s, p, s');
    InstalledVersions(s.versions, s.holders, s.db.version, p, s.work.version);
    BackToRest(s'.db, s'.work);
  }

  lemma BackToRest(db: Db, w: Work)
    requires w.Resting? || w.Cleaning?
    ensures WorkPart(db, w)
  {
  }

  lemma InstalledVersions(l: Versions, holders: multiset<nat>, v: Levels, p: nat, v': Levels)
    requires VersionsPart(l, holders, v) && p !in l.nodes && p != HEAD
    ensures VersionsPart(Append(l, p, v'), holders, v')
    ensures LiveFiles(Append(l, p, v')) <= LiveFiles(l) + FileNumbers(v')
    ensures forall q :: q in Append(l, p, v').nodes ==> q == p || q in l.nodes
    ensures Append(l, p, v').files == l.files[p := v']
  {
    hide ListOk, Counted, LiveFiles, FileNumbers;
    AppendKeeps(l, holders, p, v');
  }

  // What is installed is there already, and nothing of it is being deleted.
  lemma InstalledFiles(s: Sys, p: nat, s': Sys)
    requires SysInv(s) && Happens(s, Event.Install(p), s')
    ensures TablesPart(s'.disk.tables, s'.versions, s'.work, s'.db.nextFile)
    ensures GarbagePart(s'.versions, s'.work, s'.pending, s'.doomedTables, s'.db.nextFile)
  {
    hide Structure, LogsOk, ManifestPart, VersionsPart, TablesPart, GarbagePart, PendingPart, CountersPart, WorkOk,
      Append;
    WorkIsFresh(s.db, s.work);
    InstalledVersions(s.versions, s.holders, s.db.version, p, s.work.version);
    InstalledHas(s.disk.tables, s.versions, s.holders, s.db, s.work, p, s'.versions, s'.work);
    InstalledGarbage(s.versions, s.holders, s.db, s.work, p, s'.versions, s'.work, s.pending, s.doomedTables);
  }

  lemma InstalledHas(tables: map<nat, seq<Entry>>, l: Versions, holders: multiset<nat>, db: Db, w: Work, p: nat,
                     l': Versions, w': Work)
    requires TablesPart(tables, l, w, db.nextFile) && VersionsPart(l, holders, db.version) && w.Planned()
    requires !w'.Planned()
    requires Effect(db.version, w.edit, w.version, Bound(db, w))
    requires l'.files == l.files[p := w.version] && forall q :: q in l'.nodes ==> q == p || q in l.nodes
    ensures TablesPart(tables, l', w', db.nextFile)
  {
    hide HasVersion, ListOk, Counted, HasEdit, Effect;
    CurrentHasFiles(tables, l, holders, db.version);
    VersionAfter(tables, db.version, w.edit, w.version, Bound(db, w));
  }

  lemma VersionAfter(tables: map<nat, seq<Entry>>, v: Levels, edit: VersionEdit, v': Levels, bound: nat)
    requires HasVersion(tables, v) && HasEdit(tables, edit) && Effect(v, edit, v', bound)
    ensures HasVersion(tables, v') && FileNumbers(v') <= FileNumbers(v) + EditNumbers(edit)
  {
    hide SavedAll, NumbersOk, HasFile;
    forall m: nat, f | m < NUM_LEVELS && f in v'[m] ensures HasFile(tables, f) {
      assert f in v[m] || (m, f) in edit.added;
    }
    NumbersFrom(v, edit, v', bound);
  }

  lemma NumbersFrom(v: Levels, edit: VersionEdit, v': Levels, bound: nat)
    requires Effect(v, edit, v', bound)
    ensures FileNumbers(v') <= FileNumbers(v) + EditNumbers(edit)
  {
    hide SavedAll, NumbersOk;
    forall n | n in FileNumbers(v') ensures n in FileNumbers(v) + EditNumbers(edit) {
      var l, f :| 0 <= l < NUM_LEVELS && f in v'[l] && f.number == n;
      assert f in v[l] || (l, f) in edit.added;
    }
  }

  lemma InstalledGarbage(l: Versions, holders: multiset<nat>, db: Db, w: Work, p: nat, l': Versions, w': Work,
                         pending: set<nat>, doomed: set<nat>)
    requires GarbagePart(l, w, pending, doomed, db.nextFile) && VersionsPart(l, holders, db.version) && w.Planned()
    requires !w'.Planned()
    requires Effect(db.version, w.edit, w.version, Bound(db, w))
    requires LiveFiles(l') <= LiveFiles(l) + FileNumbers(w.version)
    ensures GarbagePart(l', w', pending, doomed, db.nextFile)
  {
    hide ListOk, Counted, Effect, LiveFiles, FileNumbers, EditNumbers, VersionsPart;
    CurrentIsLive(l, holders, db.version);
    NumbersFrom(db.version, w.edit, w.version, Bound(db, w));
  }

  /** Every event keeps the invariant: logs and manifest hold what memory holds, the list of
      versions is what its holders say, and no file of a version in it is gone, overwritten or
      about to be deleted. */
  lemma EventKeeps(s: Sys, e: Event, s': Sys)
    requires SysInv(s) && Happens(s, e, s')
    ensures SysInv(s')
  {
    hide SysInv, Happens;
    match e {
      case LogWrite(batch) => LogWriteKeeps(s, batch, s');
      case ApplyWrite => ApplyWriteKeeps(s, s');
      case SwitchLog => SwitchKeeps(s, s');
      case Snap => SnapKeeps(s, e, s');
      case Unsnap(i) => SnapKeeps(s, e, s');
      case RefVersion => RefEventKeeps(s, e, s');
      case UnrefVersion(p) => RefEventKeeps(s, e, s');
      case BeginMerge => BeginMergeKeeps(s, s');
      case NewOutput => NewOutputKeeps(s, s');
      case Build(w, tables) => BuildKeeps(s, w, tables, s');
      case EraseOutput(n) => EraseKeeps(s, n, s');
      case BeginApply => BeginApplyKeeps(s, s');
      case RecordEdit => RecordKeeps(s, s');
      case Install(p) => InstallKeeps(s, p, s');
      case CleanUp => CleanUpKeeps(s, s');
      case Collect => CollectKeeps(s, s');
      case DropTable(n) => DropTableKeeps(s, n, s');
      case DropLog(n) => DropLogKeeps(s, n, s');
    }
  }

  /** No file of a version that is referenced is chosen for deletion or missing, at any moment. */
  lemma LiveTablesExist(s: Sys, p: nat)
    requires SysInv(s) && (p in s.holders || p == s.versions.current)
    ensures p in s.versions.nodes && p in s.versions.files && HasVersion(s.disk.tables, s.versions.files[p])
    ensures FileNumbers(s.versions.files[p]) !! s.doomedTables
  {
    hide Structure, LogsOk, ManifestPart, WorkPart, CountersPart, PendingPart, LiveFiles, FileNumbers, Counted,
      HasVersion;
    HeldIsLive(s.versions, s.holders, p);
  }

  // The snapshot number that a compaction has read.
  function ReadSnapshot(w: Work): Option<nat> {
    if w.Merging? then Some(w.ss) else if w.Planned() && w.step.Compact? then Some(w.step.ss) else None
  }

  /** It never exceeds a live snapshot, nor one that is still to be taken: that will get the
      last sequence number of its time. */
  lemma ReadSnapshotCovers(s: Sys, n: nat)
    requires SysInv(s) && ReadSnapshot(s.work).Some?
    requires n in s.db.snapshots || n >= s.db.lastSequence
    ensures ReadSnapshot(s.work).value <= n
  {
    hide LogsOk, ManifestPart, VersionsPart, TablesPart, CountersPart, PendingPart, GarbagePart, VersionOk, NumbersOk,
      NewerThan, HistoryOk;
    if s.work.Planned() {
      CompactReads(s.db, s.work);
    }
    assert s.db.snapshots != [] ==> s.db.snapshots[0] <= s.db.lastSequence;
  }

  lemma CompactReads(db: Db, w: Work)
    requires w.Planned() && WorkOk(db, w) && w.step.Compact?
    ensures w.step.ss <= SmallestSnapshot(db)
  {
    hide SavedAll, NumbersOk, InputsSound, OutputsOk, CompactionEdit, SmallestSnapshot;
  }
}
