/** Opening a database after a crash (DBImpl::Recover, RecoverLogFile and DB::Open in
    db/db_impl.cc, VersionSet::Recover in db/version_set.cc). */
module Recovery {
  import opened Keys
  import opened Version
  import opened VersionBuilder
  import opened VersionLists
  import opened Lsm
  import opened DbImpl
  import opened Manifest
  import opened Durable

  // ------------------------------------------------------------------ the manifest

  // VersionSet::Recover: one builder takes all the edits; the last counters count.
  method ReplayManifest(manifest: seq<Record>) returns (v: Levels, counters: Option<Counters>)
    requires forall i :: 0 <= i < |manifest| ==> manifest[i].edit.Valid()
    ensures forall l :: 0 <= l < NUM_LEVELS ==> Saved([], ApplyAll(EMPTY, Edits(manifest), l), v[l])
    ensures |manifest| > 0 && manifest[|manifest| - 1].counters.Some? ==> counters == manifest[|manifest| - 1].counters
  {
    var builder := new Builder(NO_FILES);
    counters := None;
    for i := 0 to |manifest|
      invariant builder.Valid() && builder.base == NO_FILES
      invariant forall l :: 0 <= l < NUM_LEVELS ==> builder.levels[l] == ApplyAll(EMPTY, Edits(manifest[..i]), l)
      invariant i > 0 && manifest[i - 1].counters.Some? ==> counters == manifest[i - 1].counters
    {
      assert Edits(manifest[..i + 1])[..i] == Edits(manifest[..i]);
      builder.Apply(manifest[i].edit);
      if manifest[i].counters.Some? {
        counters := manifest[i].counters;
      }
    }
    assert manifest[..|manifest|] == manifest;
    v := builder.SaveTo();
  }

  // WriteSnapshot: every file of a version, level by level.
  function FilesAt(level: nat, files: seq<File>): (r: seq<(nat, File)>)
    ensures |r| == |files|
  {
    seq(|files|, i requires 0 <= i < |files| => (level, files[i]))
  }

  function SnapshotFiles(v: Levels, level: nat): seq<(nat, File)>
    requires level <= NUM_LEVELS
  {
    if level == 0 then [] else SnapshotFiles(v, level - 1) + FilesAt(level - 1, v[level - 1])
  }

  function SnapshotEdit(v: Levels): VersionEdit {
    VersionEdit({}, SnapshotFiles(v, NUM_LEVELS))
  }

  lemma {:induction false} InSnapshot(v: Levels, level: nat)
    requires level <= NUM_LEVELS
    ensures forall l: nat, f: File :: l < level && f in v[l] ==> (l, f) in SnapshotFiles(v, level)
    ensures forall a :: a in SnapshotFiles(v, level) ==> a.0 < level && a.1 in v[a.0]
  {
    if level > 0 {
      var k := level - 1;
      InSnapshot(v, k);
      var more := FilesAt(k, v[k]);
      forall f | f in v[k] ensures (k, f) in more {
        var i :| 0 <= i < |v[k]| && v[k][i] == f;
        assert more[i] == (k, f);
      }
    }
  }

  /** The new manifest: a snapshot of the version stands for all the edits before it. */
  lemma SnapshotManifest(v: Levels, bound: nat)
    requires NumbersOk(v, bound)
    ensures ManifestOk([SnapshotEdit(v)], v, bound)
  {
    var edit := SnapshotEdit(v);
    InSnapshot(v, NUM_LEVELS);
    EmptyManifest(0);
    forall l | 0 <= l < NUM_LEVELS ensures Saved(NO_FILES[l], ApplyLevel(EMPTY, edit, l), v[l]) {
      SnapshotSaves(v, bound, l);
    }
    assert SavedAll(NO_FILES, edit, v);
    assert FreshEdit(NO_FILES, 0, edit, bound);
    assert Effect(NO_FILES, edit, v, bound);
    Appends([], NO_FILES, 0, edit, v, bound);
    assert [] + [edit] == [edit];
  }

  lemma SnapshotSaves(v: Levels, bound: nat, l: nat)
    requires NumbersOk(v, bound) && l < NUM_LEVELS
    ensures Saved([], ApplyLevel(EMPTY, SnapshotEdit(v), l), v[l])
  {
    var edit, files := SnapshotEdit(v), AllFiles(v);
    InSnapshot(v, NUM_LEVELS);
    var st := ApplyLevel(EMPTY, edit, l);
    AddAllNamed(DeleteAll(EMPTY, edit.deleted, l), edit.added, l, files);
    hide SnapshotEdit, NumbersOk, ApplyLevel;
    NumbersParts(v, bound);
    forall f ensures multiset(v[l])[f] == Copies([], st, f) {
      StrictMultiplicity(v[l], f);
      if f in files {
        SnapshotSavesOne(v, edit, files, l, f);
      } else {
        assert f !in st.added && f !in v[l];
      }
    }
  }

  lemma NumbersParts(v: Levels, bound: nat)
    requires NumbersOk(v, bound)
    ensures NamesOne(AllFiles(v)) && forall l :: 0 <= l < NUM_LEVELS ==> StrictlyOrdered(v[l]) && Ordered(v[l])
  {
    forall f, g | f in AllFiles(v) && g in AllFiles(v) && f.number == g.number ensures f == g {
      var l :| 0 <= l < NUM_LEVELS && f in v[l];
      var m :| 0 <= m < NUM_LEVELS && g in v[m];
    }
  }

  lemma SnapshotSavesOne(v: Levels, edit: VersionEdit, files: set<File>, l: nat, f: File)
    requires l < NUM_LEVELS && files == AllFiles(v) && NamesOne(files) && f in files && StrictlyOrdered(v[l])
    requires edit.deleted == {} && Mentions(edit, l, files)
    requires (f in v[l] ==> (l, f) in edit.added) && forall a :: a in edit.added ==> a.0 < NUM_LEVELS && a.1 in v[a.0]
    ensures Copies([], ApplyLevel(EMPTY, edit, l), f) == if f in v[l] then 1 else 0
  {
    var st := ApplyLevel(EMPTY, edit, l);
    ApplyEffect(EMPTY, edit, l, files, f);
    StrictMultiplicity(st.added, f);
    if AddsNumber(edit, l, f.number) {
      var a :| a in edit.added && a.0 == l && a.1.number == f.number;
      assert a == (l, f);
    }
  }

  // ------------------------------------------------------------------ the logs

  // The version with the level-0 tables written so far.
  ghost predicate WithTables(base: Levels, from: nat, added: seq<(nat, File)>, v: Levels) {
    && (forall l :: 0 < l < NUM_LEVELS ==> v[l] == base[l])
    && (forall f :: f in v[0] <==> f in base[0] || (0, f) in added)
    && (forall a :: a in added ==> a.0 == 0 && a.1 in v[0] && from <= a.1.number)
  }

  class Opening {
    const base: Levels
    ghost const from: nat            // numbers from here on are new
    var added: seq<(nat, File)>      // the edit that DB::Open applies at the end
    var nextFile: nat
    var maxSequence: nat
    var mem: Option<seq<Entry>>
    var tables: map<nat, seq<Entry>> // the table files of the directory
    ghost const found: map<nat, seq<Entry>>   // those that were there
    ghost var b: Db                  // the database as recovered so far
    ghost var any: bool              // some record has been read

    ghost predicate Valid()
      reads this
    {
      && Structure(b) && b.imm.None? && b.snapshots == [] && b.nextFile == nextFile >= from
      && b.mem == (if mem.Some? then mem.value else [])
      && NumbersOk(base, from) && WithTables(base, from, added, b.version)
      && maxSequence == (if any then b.lastSequence else 0)
      && HasVersion(tables, b.version) && Wrote(found, VersionEdit({}, added), tables)
    }

    constructor (base: Levels, nextFile: nat, tables: map<nat, seq<Entry>>, ghost b: Db)
      requires Structure(b) && b.imm.None? && b.snapshots == [] && b.nextFile == nextFile && b.mem == []
      requires b.version == base
      requires HasVersion(tables, base)
      ensures Valid() && this.b == b && this.base == base && from == nextFile && !any && mem.None? && found == tables
    {
      hide VersionOk, NumbersOk, NewerThan, HistoryOk;
      NumbersPart(b);
      this.base, this.from, this.nextFile, this.b := base, nextFile, nextFile, b;
      this.tables, found := tables, tables;
      added, maxSequence, mem, any := [], 0, None, false;
    }

    // The state after a batch is inserted.
    ghost predicate After(before: Db, log: LogBatch)
      reads this
    {
      && b.lastSequence == before.lastSequence + |log.batch|
      && b.history == before.history + Contents(BatchEntries(log.first, log.batch))
      && StoredIn(b) == StoredIn(before) + Contents(BatchEntries(log.first, log.batch))
    }

    // InsertInto and max_sequence
    method AddBatch(log: LogBatch)
      requires Valid() && log.first == b.lastSequence + 1 && b.lastSequence + |log.batch| < MAX_SEQUENCE
      modifies this
      ensures Valid() && After(old(b), log) && any && mem.Some? && nextFile == old(nextFile)
    {
      hide Structure, NumbersOk, WithTables, Sorted, HistoryOk, BatchEntries, StoredIn, HasVersion, Wrote;
      if mem.None? {
        mem := Some([]);
      }
      HistoryPart(b);
      var table := InsertInto(b, log.batch, log.first, mem.value);
      ghost var b' := BatchWritten(b, log, table);
      mem := Some(table);
      b, any := b', true;
      var lastSeq := log.first + |log.batch| - 1;
      if lastSeq > maxSequence {
        maxSequence := lastSeq;
      }
    }

    // WriteLevel0Table without a base version: always level 0.
    method WriteLevel0Table(fileSize: seq<Entry> -> nat)
      requires Valid() && mem.Some?
      modifies this
      ensures Valid() && mem.None? && any == old(any)
      ensures b.lastSequence == old(b.lastSequence) && b.history == old(b.history) && StoredIn(b) == old(StoredIn(b))
      ensures nextFile == old(nextFile) + 1
    {
      hide Structure, NumbersOk, StoredIn, HasVersion, Wrote, WithTables, Sorted;
      var number := nextFile;
      nextFile := nextFile + 1;
      var entries := mem.value;
      if |entries| > 0 {
        var f := File(number, fileSize(entries), entries[0].key, entries[|entries| - 1].key, entries);
        ghost var b' := TableWritten(b, f);
        TablesGrow(base, from, added, b.version, f, b'.version);
        NumbersPart(b);
        FileWritten(found, tables, base, from, added, b.version, f, b'.version);
        tables := tables[number := entries];
        added := added + [(0, f)];
        b := b';
      } else {
        b := NothingWritten(b);
      }
      mem := None;
    }

    // What a log adds to the state.
    ghost predicate Added(before: Db, end: nat, entries: set<Entry>)
      reads this
    {
      b.lastSequence == end && b.history == before.history + entries && StoredIn(b) == StoredIn(before) + entries
    }

    /** RecoverLogFile: every record goes into a memtable, and every memtable into a table. */
    method RecoverLogFile(log: seq<LogBatch>, tooBig: seq<Entry> -> bool, fileSize: seq<Entry> -> nat)
      requires Valid() && mem.None? && Consecutive(log, b.lastSequence) && EndOf(log, b.lastSequence) < MAX_SEQUENCE
      modifies this
      ensures Valid() && mem.None? && nextFile >= old(nextFile) && (any <==> old(any) || |log| > 0)
      ensures Added(old(b), EndOf(log, old(b.lastSequence)), LogEntries(log))
    {
      hide Valid, Structure, BatchEntries, StoredIn, EndOf, LogEntries;
      ghost var start := b;
      NoRecords(log, start.lastSequence);
      for i := 0 to |log|
        invariant Valid() && nextFile >= old(nextFile) && (any <==> old(any) || i > 0)
        invariant Added(start, EndOf(log[..i], start.lastSequence), LogEntries(log[..i]))
      {
        NextRecord(log, start.lastSequence, i);
        AddBatch(log[i]);
        if tooBig(mem.value) {
          WriteLevel0Table(fileSize);
        }
      }
      assert log[..|log|] == log;
      if mem.Some? {
        WriteLevel0Table(fileSize);
      }
    }

    // MarkFileNumberUsed
    method MarkFileNumberUsed(number: nat)
      requires Valid()
      modifies this`nextFile, this`b
      ensures Valid() && b == old(b).(nextFile := nextFile) && nextFile >= old(nextFile) && nextFile > number
    {
      hide Structure, NumbersOk, WithTables, StoredIn, HasVersion, Wrote;
      if nextFile <= number {
        RaiseNext(b, number + 1);
        nextFile := number + 1;
        b := b.(nextFile := number + 1);
      }
    }
  }

  lemma NoRecords(log: seq<LogBatch>, start: nat)
    ensures EndOf(log[..0], start) == start && LogEntries(log[..0]) == {}
  {
  }

  lemma NextRecord(log: seq<LogBatch>, start: nat, i: nat)
    requires i < |log| && Consecutive(log, start)
    ensures log[i].first == EndOf(log[..i], start) + 1
    ensures EndOf(log[..i + 1], start) == EndOf(log[..i], start) + |log[i].batch| <= EndOf(log, start)
    ensures LogEntries(log[..i + 1]) == LogEntries(log[..i]) + Contents(BatchEntries(log[i].first, log[i].batch))
  {
    assert log[..i + 1][..i] == log[..i];
    EndsGrow(log, start, i + 1);
  }

  lemma {:induction false} EndsGrow(log: seq<LogBatch>, start: nat, i: nat)
    requires i <= |log|
    ensures start <= EndOf(log[..i], start) <= EndOf(log, start)
    decreases |log|
  {
    if i < |log| {
      assert log[..|log| - 1][..i] == log[..i];
      EndsGrow(log[..|log| - 1], start, i);
    } else {
      assert log[..i] == log;
      if |log| > 0 {
        EndsGrow(log[..|log| - 1], start, |log| - 1);
        assert log[..|log| - 1][..|log| - 1] == log[..|log| - 1];
      }
    }
  }

  lemma HistoryPart(b: Db)
    requires Structure(b)
    ensures HistoryOk(b) && Sorted(b.mem)
  {
  }

  lemma BatchWritten(b: Db, log: LogBatch, table: seq<Entry>) returns (b': Db)
    requires Structure(b) && log.first == b.lastSequence + 1 && b.lastSequence + |log.batch| < MAX_SEQUENCE
    requires Sorted(table) && Contents(table) == Contents(b.mem) + Contents(BatchEntries(log.first, log.batch))
    ensures Structure(b') && b'.mem == table
    ensures b' == b.(mem := table, lastSequence := b.lastSequence + |log.batch|,
                     history := b.history + Contents(BatchEntries(log.first, log.batch)))
    ensures StoredIn(b') == StoredIn(b) + Contents(BatchEntries(log.first, log.batch))
  {
    hide Structure, BatchEntries;
    b' := b.(mem := table, lastSequence := b.lastSequence + |log.batch|,
             history := b.history + Contents(BatchEntries(log.first, log.batch)));
    StructureStep(b, Step.Write(log.batch), b');
  }

  // The memtable set aside, and flushed to level 0.
  lemma TableWritten(b: Db, f: File) returns (b': Db)
    requires Structure(b) && b.imm.None? && |b.mem| > 0 && f.number == b.nextFile
    requires f.entries == b.mem && f.smallest == b.mem[0].key && f.largest == b.mem[|b.mem| - 1].key
    ensures Structure(b') && b'.imm.None? && b'.mem == [] && b'.snapshots == b.snapshots
    ensures b'.nextFile == b.nextFile + 1
    ensures b'.lastSequence == b.lastSequence && b'.history == b.history && StoredIn(b') == StoredIn(b)
    ensures b'.version == b.version[0 := InsertFile(b.version[0], f)] && f in b'.version[0]
  {
    var aside := b.(mem := [], imm := Some(b.mem));
    SetAside(b, aside);
    var v' := b.version[0 := InsertFile(b.version[0], f)];
    b' := aside.(imm := None, version := v', nextFile := b.nextFile + 1);
    InsertedNew(b.version, b.nextFile, f);
    NumbersPart(b);
    hide Structure, VersionOk, NumbersOk, NewerThan;
    assert FlushStep(aside, 0, f, b');
    FlushKeepsInv(aside, 0, f, b');
    FlushedEntries(aside, 0, f, b');
  }

  lemma InsertedNew(v: Levels, nextFile: nat, f: File)
    requires f.number == nextFile
    ensures NumbersOk(v, nextFile) ==> Added(v, 0, f, v[0 := InsertFile(v[0], f)])
  {
  }

  lemma SetAside(b: Db, aside: Db)
    requires Structure(b) && b.imm.None? && aside == b.(mem := [], imm := Some(b.mem))
    ensures Structure(aside) && StoredIn(aside) == StoredIn(b)
  {
    assert Front(aside) == Front(b);
  }

  lemma NothingWritten(b: Db) returns (b': Db)
    requires Structure(b) && b.imm.None? && |b.mem| == 0
    ensures b' == b.(nextFile := b.nextFile + 1, mem := []) && Structure(b') && StoredIn(b') == StoredIn(b)
  {
    hide VersionOk, Functional;
    b' := b.(nextFile := b.nextFile + 1, mem := []);
    assert b.mem == [];
  }

  lemma FileWritten(found: map<nat, seq<Entry>>, tables: map<nat, seq<Entry>>, base: Levels, from: nat,
                    added: seq<(nat, File)>,
                    v: Levels, f: File, v': Levels)
    requires WithTables(base, from, added, v) && NumbersOk(v, f.number) && v' == v[0 := InsertFile(v[0], f)]
    requires HasVersion(tables, v) && Wrote(found, VersionEdit({}, added), tables)
    ensures HasVersion(tables[f.number := f.entries], v')
    ensures Wrote(found, VersionEdit({}, added + [(0, f)]), tables[f.number := f.entries])
  {
    hide NumbersOk, EditNumbers, HasVersion, Wrote, StrictlyOrdered, WithTables;
    AddedBelow(base, from, added, v, f.number);
    VersionWritten(tables, v, f, v');
    EditWritten(found, tables, added, f);
  }

  lemma AddedBelow(base: Levels, from: nat, added: seq<(nat, File)>, v: Levels, n: nat)
    requires WithTables(base, from, added, v) && NumbersOk(v, n)
    ensures forall a :: a in added ==> a.1.number < n
  {
  }

  lemma VersionWritten(tables: map<nat, seq<Entry>>, v: Levels, f: File, v': Levels)
    requires HasVersion(tables, v) && NumbersOk(v, f.number) && v' == v[0 := InsertFile(v[0], f)]
    ensures HasVersion(tables[f.number := f.entries], v')
  {
    BelowNext(v, f.number);
    hide NumbersOk;
    forall l: nat, g | l < NUM_LEVELS && g in v'[l] ensures HasFile(tables[f.number := f.entries], g) {
      assert g in v[l] || g == f;
      assert g in v[l] ==> HasFile(tables, g);
    }
  }

  lemma EditWritten(found: map<nat, seq<Entry>>, tables: map<nat, seq<Entry>>, added: seq<(nat, File)>, f: File)
    requires Wrote(found, VersionEdit({}, added), tables) && forall a :: a in added ==> a.1.number < f.number
    ensures Wrote(found, VersionEdit({}, added + [(0, f)]), tables[f.number := f.entries])
  {
    OneMoreNumber(added, f);
    hide EditNumbers;
    forall a | a in added + [(0, f)] ensures HasFile(tables[f.number := f.entries], a.1) {
      assert a in added ==> HasFile(tables, a.1);
    }
  }

  lemma BelowNext(v: Levels, n: nat)
    requires NumbersOk(v, n)
    ensures forall l, g :: 0 <= l < NUM_LEVELS && g in v[l] ==> g.number < n
  {
  }

  lemma OneMoreNumber(added: seq<(nat, File)>, f: File)
    ensures EditNumbers(VersionEdit({}, added + [(0, f)])) == EditNumbers(VersionEdit({}, added)) + {f.number}
  {
    var all := added + [(0, f)];
    assert (0, f) in all && forall a :: a in all <==> a in added || a == (0, f);
  }

  lemma TablesGrow(base: Levels, from: nat, added: seq<(nat, File)>, v: Levels, f: File, v': Levels)
    requires WithTables(base, from, added, v) && f.number >= from
    requires v' == v[0 := InsertFile(v[0], f)] && f in v'[0]
    ensures WithTables(base, from, added + [(0, f)], v')
  {
  }

  // ------------------------------------------------------------------ which logs, and what they give

  lemma {:induction false} SmallestExists(s: set<nat>) returns (m: nat)
    requires s != {}
    ensures m in s && forall k :: k in s ==> m <= k
  {
    var x :| x in s;
    if s == {x} {
      m := x;
    } else {
      var rest := s - {x};
      assert s == rest + {x};
      assert rest != {};
      m := SmallestExists(rest);
      if x < m {
        m := x;
      }
    }
  }

  // std::sort on the log numbers
  method SortNumbers(s: set<nat>) returns (r: seq<nat>)
    ensures forall n :: n in r <==> n in s
    ensures forall i, j :: 0 <= i < j < |r| ==> r[i] < r[j]
  {
    r := [];
    var todo := s;
    while todo != {}
      invariant todo <= s && forall n :: n in r <==> n in s && n !in todo
      invariant forall i, j :: 0 <= i < j < |r| ==> r[i] < r[j]
      invariant forall i, n :: 0 <= i < |r| && n in todo ==> r[i] < n
      decreases todo
    {
      ghost var least := SmallestExists(todo);
      var m :| m in todo && forall k :: k in todo ==> m <= k;
      r := r + [m];
      todo := todo - {m};
    }
  }

  // The logs can be replayed in this order, and where they end.
  ghost predicate PlanOk(logs: map<nat, seq<LogBatch>>, order: seq<nat>, start: nat) {
    |order| > 0 ==>
      && order[0] in logs && Consecutive(logs[order[0]], start)
      && PlanOk(logs, order[1..], EndOf(logs[order[0]], start))
  }

  ghost function PlanEnd(logs: map<nat, seq<LogBatch>>, order: seq<nat>, start: nat): nat {
    if |order| == 0 || order[0] !in logs then start else PlanEnd(logs, order[1..], EndOf(logs[order[0]], start))
  }

  ghost function PlanEntries(logs: map<nat, seq<LogBatch>>, order: seq<nat>): set<Entry> {
    if |order| == 0 || order[0] !in logs then {} else LogEntries(logs[order[0]]) + PlanEntries(logs, order[1..])
  }

  lemma {:induction false} PlanGrows(logs: map<nat, seq<LogBatch>>, order: seq<nat>, start: nat)
    ensures start <= PlanEnd(logs, order, start)
  {
    if |order| > 0 && order[0] in logs {
      var log := logs[order[0]];
      EndsGrow(log, start, |log|);
      assert log[..|log|] == log;
      PlanGrows(logs, order[1..], EndOf(log, start));
    }
  }

  // Logs that hold nothing.
  ghost predicate Empties(logs: map<nat, seq<LogBatch>>, order: seq<nat>) {
    forall i :: 0 <= i < |order| ==> order[i] in logs && logs[order[i]] == []
  }

  ghost predicate Increasing(order: seq<nat>) {
    forall i, j :: 0 <= i < j < |order| ==> order[i] < order[j]
  }

  lemma {:induction false} NoPlan(logs: map<nat, seq<LogBatch>>, order: seq<nat>, start: nat)
    requires Empties(logs, order)
    ensures PlanOk(logs, order, start) && PlanEnd(logs, order, start) == start && PlanEntries(logs, order) == {}
  {
    if |order| > 0 {
      NoPlan(logs, order[1..], start);
    }
  }

  // One log with entries, and empty ones around it.
  lemma {:induction false} OnePlan(logs: map<nat, seq<LogBatch>>, order: seq<nat>, a: nat, start: nat)
    requires a in logs && Consecutive(logs[a], start) && a in order && Increasing(order)
    requires forall n :: n in order && n != a ==> n in logs && logs[n] == []
    ensures PlanOk(logs, order, start) && PlanEnd(logs, order, start) == EndOf(logs[a], start)
    ensures PlanEntries(logs, order) == LogEntries(logs[a])
  {
    hide Consecutive;
    assert Consecutive([], start) by { NothingConsecutive(start); }
    if order[0] == a {
      assert Empties(logs, order[1..]);
      NoPlan(logs, order[1..], EndOf(logs[a], start));
    } else {
      assert order[0] in order && order == [order[0]] + order[1..];
      OnePlan(logs, order[1..], a, start);
    }
  }

  lemma NothingConsecutive(start: nat)
    ensures Consecutive([], start)
  {
  }

  lemma {:induction false} TwoPlan(logs: map<nat, seq<LogBatch>>, order: seq<nat>, a: nat, b: nat, start: nat)
    requires a in logs && b in logs && Consecutive(logs[a], start) && Consecutive(logs[b], EndOf(logs[a], start))
    requires a < b && a in order && b in order && Increasing(order)
    requires forall n :: n in order && n != a && n != b ==> n in logs && logs[n] == []
    ensures PlanOk(logs, order, start) && PlanEnd(logs, order, start) == EndOf(logs[b], EndOf(logs[a], start))
    ensures PlanEntries(logs, order) == LogEntries(logs[a]) + LogEntries(logs[b])
  {
    hide Consecutive, PlanOk, PlanEnd, PlanEntries, EndOf, LogEntries;
    NothingConsecutive(start);
    EmptyLog(start);
    assert order == [order[0]] + order[1..] && order[0] in order;
    if order[0] == a {
      PlanSteps(logs, order, start);
      OnePlan(logs, order[1..], b, EndOf(logs[a], start));
    } else {
      assert order[0] != b by { FirstIsLeast(order, a); }
      PlanSteps(logs, order, start);
      TwoPlan(logs, order[1..], a, b, start);
    }
  }

  lemma PlanSteps(logs: map<nat, seq<LogBatch>>, order: seq<nat>, start: nat)
    requires |order| > 0 && order[0] in logs
    ensures var end := EndOf(logs[order[0]], start);
      && (PlanOk(logs, order, start) <==> Consecutive(logs[order[0]], start) && PlanOk(logs, order[1..], end))
      && PlanEnd(logs, order, start) == PlanEnd(logs, order[1..], end)
      && PlanEntries(logs, order) == LogEntries(logs[order[0]]) + PlanEntries(logs, order[1..])
  {
    hide Consecutive, EndOf, LogEntries;
  }

  lemma EmptyLog(start: nat)
    ensures EndOf([], start) == start && LogEntries([]) == {}
  {
  }

  lemma FirstIsLeast(order: seq<nat>, n: nat)
    requires Increasing(order) && n in order
    ensures order[0] <= n
  {
  }

  // ------------------------------------------------------------------ after a crash

  /** Nothing is running: memory is gone, and the disk is as the crash or an unfinished
      opening left it.  The state says what the disk holds. */
  ghost predicate IsDown(s: Sys) {
    SysInv(s) && Fresh(s) && s.db.snapshots == []
  }

  // What has been written, counting the group that is in the log already.
  ghost function Written(s: Sys): set<Entry> {
    s.db.history + InFlight(s)
  }

  function WrittenEnd(s: Sys): nat {
    s.db.lastSequence + InFlightSize(s)
  }

  /** The logs at or above the manifest's log number hold exactly the entries that are in no
      table, and the group in flight. */
  lemma LogsAreThePlan(s: Sys, order: seq<nat>)
    requires SysInv(s) && Increasing(order) && forall n :: n in order <==> n in s.disk.logs && n >= s.logNumber
    ensures PlanOk(s.disk.logs, order, s.flushed) && PlanEnd(s.disk.logs, order, s.flushed) == WrittenEnd(s)
    ensures PlanEntries(s.disk.logs, order) == Front(s.db) + InFlight(s) && order != []
  {
    hide Structure, ManifestPart, VersionsPart, TablesPart, WorkPart, CountersPart, PendingPart, GarbagePart,
      Consecutive, LogEntries, EndOf, BatchEntries, SplitAt, PlanOk, PlanEnd, PlanEntries;
    assert s.memLog in order;
    if s.db.imm.Some? {
      TwoPlan(s.disk.logs, order, s.immLog, s.memLog, s.flushed);
    } else {
      OnePlan(s.disk.logs, order, s.memLog, s.switched);
    }
  }

  // ------------------------------------------------------------------ the state recovery starts from

  ghost function Base(s: Sys, v: Levels, nextFile: nat): Db {
    Db([], None, v, s.flushed, nextFile, [], set e | e in Written(s) && e.key.sequence <= s.flushed)
  }

  lemma WrittenOk(s: Sys)
    requires SysInv(s)
    ensures Functional(Written(s)) && s.db.history <= Written(s)
    ensures forall e :: e in Written(s) ==> e.key.sequence <= WrittenEnd(s)
  {
    hide LogsOk, ManifestPart, VersionsPart, TablesPart, WorkPart, CountersPart, PendingPart, GarbagePart, VersionOk,
      NumbersOk, NewerThan,
      BatchEntries;
    if s.writing.Some? {
      BatchIsNew(s.db, s.writing.value);
    } else {
      assert Written(s) == s.db.history;
    }
  }

  lemma BaseOk(s: Sys, nextFile: nat)
    requires SysInv(s) && NumbersOk(s.db.version, nextFile)
    ensures var b := Base(s, s.db.version, nextFile);
      Structure(b) && StoredIn(b) == AllEntries(b.version)
  {
    hide Structure, LogsOk, ManifestPart, VersionsPart, TablesPart, WorkPart, CountersPart, PendingPart, GarbagePart,
      NumbersOk, SplitAt,
      Written, WrittenEnd, InFlight;
    LogFacts(s.db, s.disk.logs, s.logNumber, s.memLog, s.immLog, InFlight(s), InFlightSize(s), s.flushed, s.switched);
    WrittenOk(s);
    BaseStructure(s.db, Written(s), s.flushed, s.switched, nextFile, Base(s, s.db.version, nextFile));
  }

  lemma BaseStructure(landed: Db, written: set<Entry>, start: nat, switched: nat, nextFile: nat, b: Db)
    requires Structure(landed) && SplitAt(landed, start, switched) && start <= landed.lastSequence
    requires NumbersOk(landed.version, nextFile)
    requires Functional(written) && landed.history <= written
    requires b == Db([], None, landed.version, start, nextFile, [], set e | e in written && e.key.sequence <= start)
    ensures Structure(b) && StoredIn(b) == AllEntries(b.version)
  {
    assert Front(b) == {};
    assert forall e :: e in AllEntries(landed.version) ==> e in StoredIn(landed);
  }

  // ------------------------------------------------------------------ opening

  /** What opening must give: everything that was acknowledged, the group that was in the log
      already, and nothing else. */
  ghost predicate Recovered(s: Sys, r: Sys) {
    && SysInv(r) && r.writing.None? && Fresh(r) && r.db.snapshots == []
    && r.db.history == Written(s) && r.db.lastSequence == WrittenEnd(s)
    && StoredIn(r.db) == StoredIn(s.db) + InFlight(s)
  }

  // Where the replay stands with these logs to go.
  ghost predicate Replaying(s: Sys, b: Db, todo: seq<nat>) {
    && PlanOk(s.disk.logs, todo, b.lastSequence) && PlanEnd(s.disk.logs, todo, b.lastSequence) == WrittenEnd(s)
    && b.history + PlanEntries(s.disk.logs, todo) == Written(s)
    && StoredIn(b) + PlanEntries(s.disk.logs, todo) == StoredIn(s.db) + InFlight(s)
  }

  lemma ReplayBegins(s: Sys, order: seq<nat>, b: Db)
    requires SysInv(s) && PlanOk(s.disk.logs, order, s.flushed)
    requires PlanEnd(s.disk.logs, order, s.flushed) == WrittenEnd(s)
    requires PlanEntries(s.disk.logs, order) == Front(s.db) + InFlight(s)
    requires b.lastSequence == s.flushed && b.history == (set e | e in Written(s) && e.key.sequence <= s.flushed)
    requires StoredIn(b) == AllEntries(s.db.version)
    ensures Replaying(s, b, order)
  {
    hide Structure, LogsOk, ManifestPart, VersionsPart, TablesPart, WorkPart, CountersPart, PendingPart, GarbagePart,
      SplitAt,
      PlanOk, PlanEnd, PlanEntries, Front, AllEntries, InFlight;
    LogFacts(s.db, s.disk.logs, s.logNumber, s.memLog, s.immLog, InFlight(s), InFlightSize(s), s.flushed, s.switched);
    LandedFront(s.db, s.flushed, s.switched, InFlight(s), b.history);
  }

  lemma LandedFront(landed: Db, start: nat, switched: nat, inFlight: set<Entry>, history: set<Entry>)
    requires Structure(landed) && SplitAt(landed, start, switched)
    requires history == set e | e in landed.history + inFlight && e.key.sequence <= start
    ensures history + (Front(landed) + inFlight) == landed.history + inFlight
  {
    assert Front(landed) <= landed.history;
  }

  lemma ReplaySteps(s: Sys, before: Db, b: Db, todo: seq<nat>)
    requires Replaying(s, before, todo) && |todo| > 0 && todo[0] in s.disk.logs
    requires var log := s.disk.logs[todo[0]];
      && b.lastSequence == EndOf(log, before.lastSequence) && b.history == before.history + LogEntries(log)
      && StoredIn(b) == StoredIn(before) + LogEntries(log)
    ensures Replaying(s, b, todo[1..])
  {
    hide StoredIn, LogEntries, EndOf, InFlight;
  }

  lemma NextLog(s: Sys, b: Db, todo: seq<nat>)
    requires Replaying(s, b, todo) && |todo| > 0 && WrittenEnd(s) < MAX_SEQUENCE
    ensures todo[0] in s.disk.logs && Consecutive(s.disk.logs[todo[0]], b.lastSequence)
    ensures EndOf(s.disk.logs[todo[0]], b.lastSequence) <= WrittenEnd(s) < MAX_SEQUENCE
  {
    PlanGrows(s.disk.logs, todo[1..], EndOf(s.disk.logs[todo[0]], b.lastSequence));
  }

  lemma ReplayEnds(s: Sys, b: Db)
    requires Replaying(s, b, [])
    ensures b.lastSequence == WrittenEnd(s) && b.history == Written(s) && StoredIn(b) == StoredIn(s.db) + InFlight(s)
  {
  }

  // One level-0 edit at the end is the same as a version after every table.
  lemma EditIsTables(base: Levels, from: nat, added: seq<(nat, File)>, v: Levels, bound: nat, r: Levels)
    requires NumbersOk(base, from) && NumbersOk(v, bound) && WithTables(base, from, added, v)
    requires SavedAll(base, VersionEdit({}, added), r)
    ensures r == v
  {
    var edit, files := VersionEdit({}, added), AllFiles(v);
    NumbersParts(v, bound);
    NumbersParts(base, from);
    forall l: nat | l < NUM_LEVELS ensures r[l] == v[l] {
      OneLevelSame(base, from, added, v, files, edit, r, l);
    }
  }

  lemma OneLevelSame(base: Levels, from: nat, added: seq<(nat, File)>, v: Levels, files: set<File>, edit: VersionEdit,
                     r: Levels, l: nat)
    requires NumbersOk(base, from) && WithTables(base, from, added, v) && files == AllFiles(v) && NamesOne(files)
    requires l < NUM_LEVELS && StrictlyOrdered(base[l]) && StrictlyOrdered(v[l])
    requires edit == VersionEdit({}, added) && SavedAll(base, edit, r)
    ensures r[l] == v[l]
  {
    assert forall f :: f in base[l] ==> f.number < from;
    assert forall a :: a in added && a.0 == l ==> a.1 !in base[l] && a.1 in files;
    forall f | f in base[l] ensures f in files {
      assert f in v[l];
    }
    hide NumbersOk, AllFiles;
    SavedIsSet(base[l], edit, l, r[l], files);
    forall f ensures f in r[l] <==> f in v[l] {
      assert (l, f) in added ==> l == 0;
    }
    StrictSame(r[l], v[l], files);
  }

  // RemoveObsoleteFiles on the table files.
  function Kept(tables: map<nat, seq<Entry>>, live: set<nat>): (r: map<nat, seq<Entry>>)
    ensures r.Keys == tables.Keys * live
  {
    map n | n in tables && n in live :: tables[n]
  }

  // The system an opening leaves behind: `tables` are the files before the obsolete ones are removed.
  ghost function Reopened(b: Db, v: Levels, edit: VersionEdit, newLog: nat, tables: map<nat, seq<Entry>>): Sys {
    Sys(b.(nextFile := newLog + 1),
        Disk([Record(SnapshotEdit(v), None), Record(edit, Some(Counters(newLog, newLog + 1, b.lastSequence)))],
             map[newLog := []], Kept(tables, FileNumbers(b.version))),
        newLog, newLog, 0, None, Resting, OneVersion(b.version), multiset{}, {}, {}, {}, b.lastSequence, b.lastSequence)
  }

  lemma ReopenedOk(v: Levels, b: Db, from: nat, added: seq<(nat, File)>, newLog: nat, tables: map<nat, seq<Entry>>)
    requires NumbersOk(v, from) && from <= newLog && newLog > 0 && HasVersion(tables, b.version)
    requires Structure(b) && b.imm.None? && b.mem == [] && b.snapshots == [] && b.nextFile == newLog
    requires WithTables(v, from, added, b.version) && SavedAll(v, VersionEdit({}, added), b.version)
    ensures var r := Reopened(b, v, VersionEdit({}, added), newLog, tables);
      SysInv(r) && Fresh(r) && StoredIn(r.db) == StoredIn(b)
  {
    hide SysInv, Structure, ManifestOk, LogsOk, SnapshotEdit, NumbersOk, WithTables, SavedAll, HasVersion, Kept,
      FileNumbers;
    var edit := VersionEdit({}, added);
    var r := Reopened(b, v, edit, newLog, tables);
    RaiseNext(b, newLog + 1);
    NumbersPart(b);
    ReopenedManifest(v, from, added, b.version, newLog);
    ReopenedLogs(r.db, newLog);
    assert Edits(r.disk.manifest) == [SnapshotEdit(v), edit];
    LiveIsKept(tables, b.version, newLog);
    SmallEnough(b);
    IsSysInv(r);
  }

  lemma SmallEnough(b: Db)
    requires Structure(b)
    ensures b.lastSequence < MAX_SEQUENCE
  {
    hide VersionOk, NumbersOk, NewerThan;
  }

  lemma LiveIsKept(tables: map<nat, seq<Entry>>, v: Levels, n: nat)
    requires HasVersion(tables, v) && NumbersOk(v, n)
    ensures HasVersion(Kept(tables, FileNumbers(v)), v) && forall k :: k in Kept(tables, FileNumbers(v)) ==> k < n
  {
    BelowNext(v, n);
    hide NumbersOk;
    forall l: nat, f | l < NUM_LEVELS && f in v[l] ensures HasFile(Kept(tables, FileNumbers(v)), f) {
      assert HasFile(tables, f) && f.number in FileNumbers(v);
    }
  }

  lemma IsSysInv(r: Sys)
    requires Fresh(r) && r.writing.None? && r.flushed == r.db.lastSequence == r.switched
    requires Structure(r.db) && r.db.lastSequence < MAX_SEQUENCE
    requires LogsOk(r.db, r.disk.logs, r.logNumber, r.memLog, r.immLog, {}, 0, r.flushed, r.switched)
    requires |r.disk.manifest| > 0 && ManifestOk(Edits(r.disk.manifest), r.db.version, r.db.nextFile)
    requires r.disk.manifest[|r.disk.manifest| - 1].counters
      == Some(Counters(r.logNumber, r.db.nextFile, r.db.lastSequence))
    requires r.logNumber < r.db.nextFile && HasVersion(r.disk.tables, r.db.version)
      && forall n :: n in r.disk.tables ==> n < r.db.nextFile
    ensures SysInv(r)
  {
    hide Structure, LogsOk, ManifestOk, Edits, HasVersion, VersionsPart, LiveFiles;
    FreshParts(r);
  }

  // A single version and nothing in the background.
  lemma FreshParts(r: Sys)
    requires Fresh(r) && HasVersion(r.disk.tables, r.db.version) && forall n :: n in r.disk.tables ==> n < r.db.nextFile
    ensures VersionsPart(r.versions, r.holders, r.db.version)
    ensures TablesPart(r.disk.tables, r.versions, r.work, r.db.nextFile)
    ensures WorkPart(r.db, r.work)
    ensures CountersPart(r.db.lastSequence, r.work, r.logNumber, r.memLog, r.flushed, r.switched)
    ensures forall low :: PendingPart(r.versions, r.work, r.pending, low, r.db.nextFile)
    ensures GarbagePart(r.versions, r.work, r.pending, r.doomedTables, r.db.nextFile)
  {
    OneVersionOk(r.db.version);
    hide HasVersion, LiveFiles, VersionsPart;
  }

  lemma ReopenedManifest(v: Levels, from: nat, added: seq<(nat, File)>, v': Levels, newLog: nat)
    requires NumbersOk(v, from) && NumbersOk(v', newLog) && from <= newLog && WithTables(v, from, added, v')
    requires SavedAll(v, VersionEdit({}, added), v')
    ensures ManifestOk([SnapshotEdit(v), VersionEdit({}, added)], v', newLog + 1)
  {
    hide NumbersOk, WithTables, SavedAll, ManifestOk, SnapshotEdit, FreshEdit, Effect;
    var edit := VersionEdit({}, added);
    SnapshotManifest(v, from);
    TablesAreFresh(v, from, added, v', newLog);
    TablesTakeEffect(v, from, added, v', newLog);
    Appends([SnapshotEdit(v)], v, from, edit, v', newLog + 1);
    assert [SnapshotEdit(v)] + [edit] == [SnapshotEdit(v), edit];
  }

  lemma TablesAreFresh(v: Levels, from: nat, added: seq<(nat, File)>, v': Levels, newLog: nat)
    requires NumbersOk(v', newLog) && from <= newLog && WithTables(v, from, added, v')
    ensures FreshEdit(v, from, VersionEdit({}, added), newLog + 1)
  {
    hide StrictlyOrdered;
    forall a, b | a in added && b in added && a.1.number == b.1.number ensures a.1 == b.1 {
      assert a.1 in v'[0] && b.1 in v'[0];
    }
  }

  lemma TablesTakeEffect(v: Levels, from: nat, added: seq<(nat, File)>, v': Levels, newLog: nat)
    requires NumbersOk(v', newLog) && WithTables(v, from, added, v') && SavedAll(v, VersionEdit({}, added), v')
    ensures Effect(v, VersionEdit({}, added), v', newLog + 1)
  {
    hide StrictlyOrdered, SavedAll;
  }

  lemma ReopenedLogs(db: Db, newLog: nat)
    requires Structure(db) && db.mem == [] && db.imm.None? && db.nextFile == newLog + 1 && newLog > 0
    ensures LogsOk(db, map[newLog := []], newLog, newLog, 0, {}, 0, db.lastSequence, db.lastSequence)
  {
    hide VersionOk, NumbersOk, NewerThan;
    assert AllEntries(db.version) <= StoredIn(db);
  }

  // ------------------------------------------------------------------ openings that do not finish

  /** The same database with other garbage on disk: tables that no version names, logs before
      the log number, and empty logs; more file numbers may be used up. */
  ghost predicate OtherGarbage(s: Sys, s': Sys) {
    && s' == s.(db := s.db.(nextFile := s'.db.nextFile),
                disk := s.disk.(logs := s'.disk.logs, tables := s'.disk.tables))
    && s.db.nextFile <= s'.db.nextFile && HasVersion(s'.disk.tables, s.db.version)
    && (forall n :: n in s'.disk.tables ==> n < s'.db.nextFile)
    && (forall n :: n in s.disk.logs && n >= s.logNumber ==> n in s'.disk.logs && s'.disk.logs[n] == s.disk.logs[n])
    && (forall n :: n in s'.disk.logs && n >= s.logNumber && n !in s.disk.logs ==> s'.disk.logs[n] == [])
    && forall n :: n in s'.disk.logs ==> 0 < n < s'.db.nextFile
  }

  lemma GarbageIsDown(s: Sys, s': Sys)
    requires IsDown(s) && OtherGarbage(s, s')
    ensures IsDown(s')
  {
    hide Structure, ManifestPart, VersionsPart, TablesPart, WorkPart, CountersPart, PendingPart, GarbagePart, LogsOk,
      HasVersion;
    GarbageLogs(s, s');
    RaiseNext(s.db, s'.db.nextFile);
    FreshParts(s');
    ManifestBounds(s.disk.manifest, s.db.version, s.db.nextFile, s.logNumber, s.flushed, s.db.lastSequence,
                   s'.db.nextFile, s'.db.lastSequence);
  }

  lemma GarbageLogs(s: Sys, s': Sys)
    requires IsDown(s) && OtherGarbage(s, s')
    ensures LogsOk(s'.db, s'.disk.logs, s'.logNumber, s'.memLog, s'.immLog, InFlight(s'), InFlightSize(s'), s'.flushed,
                   s'.switched)
  {
    hide Structure, ManifestPart, VersionsPart, TablesPart, WorkPart, CountersPart, PendingPart, GarbagePart,
      HasVersion, SplitAt,
      Consecutive, EndOf, LogEntries, BatchEntries;
    SameSplit(s.db, s'.db, s.flushed, s.switched);
  }

  lemma SameSplit(db: Db, db': Db, flushed: nat, switched: nat)
    requires SplitAt(db, flushed, switched) && db'.mem == db.mem && db'.imm == db.imm && db'.version == db.version
    requires db'.history == db.history
    ensures SplitAt(db', flushed, switched)
  {
    hide AllEntries;
    assert Front(db') == Front(db);
  }

  // Before the new manifest is in force: some of the new tables, whole or in part, and perhaps the new log.
  ghost predicate Midway(disk: Disk, edit: VersionEdit, newLog: nat, d: Disk) {
    && d.manifest == disk.manifest && (d.logs == disk.logs || d.logs == disk.logs[newLog := []])
    && (forall n :: n in d.tables ==> n in disk.tables || n in EditNumbers(edit))
    && forall n :: n in disk.tables && n !in EditNumbers(edit) ==> n in d.tables && d.tables[n] == disk.tables[n]
  }

  // And after: some of the obsolete files are gone.
  ghost predicate Sweeping(disk: Disk, tables: map<nat, seq<Entry>>, r: Sys, d: Disk) {
    && d.manifest == r.disk.manifest && r.memLog in d.logs
    && (forall n :: n in d.logs ==> if n == r.memLog then d.logs[n] == [] else n in disk.logs)
    && (forall n :: n in d.tables ==> n in tables && d.tables[n] == tables[n])
    && forall n :: n in r.disk.tables ==> n in d.tables
  }

  function StoppedAt(s: Sys, d: Disk, nextFile: nat): Sys {
    s.(disk := d, db := s.db.(nextFile := if s.db.nextFile < nextFile then nextFile else s.db.nextFile))
  }

  lemma MidwayIsGarbage(s: Sys, edit: VersionEdit, from: nat, newLog: nat, d: Disk)
    requires IsDown(s) && Midway(s.disk, edit, newLog, d) && NumbersOk(s.db.version, from)
    requires forall n :: n in EditNumbers(edit) ==> from <= n < newLog
    requires forall n :: n in s.disk.logs ==> n < newLog
    ensures OtherGarbage(s, StoppedAt(s, d, newLog + 1))
  {
    hide Structure, ManifestPart, WorkPart, CountersPart, PendingPart, GarbagePart, LogsOk, EditNumbers, HasVersions,
      Counted, ListOk;
    LogNumbers(s);
    CurrentHasFiles(s.disk.tables, s.versions, s.holders, s.db.version);
    MidwayTables(s.disk.tables, d.tables, EditNumbers(edit), s.db.version, from);
    hide HasVersion;
  }

  lemma LogNumbers(s: Sys)
    requires SysInv(s)
    ensures s.memLog in s.disk.logs && forall n :: n in s.disk.logs ==> 0 < n < s.db.nextFile
  {
    hide Structure, ManifestPart, VersionsPart, TablesPart, WorkPart, CountersPart, PendingPart, GarbagePart, SplitAt,
      Consecutive, EndOf, LogEntries, BatchEntries;
  }

  lemma MidwayTables(tables: map<nat, seq<Entry>>, tables': map<nat, seq<Entry>>, more: set<nat>, v: Levels, from: nat)
    requires HasVersion(tables, v) && NumbersOk(v, from) && forall n :: n in more ==> from <= n
    requires forall n :: n in tables && n !in more ==> n in tables' && tables'[n] == tables[n]
    ensures HasVersion(tables', v)
  {
    BelowNext(v, from);
    hide NumbersOk;
    forall l: nat, f | l < NUM_LEVELS && f in v[l] ensures HasFile(tables', f) {
      assert HasFile(tables, f);
    }
  }

  lemma SweepingIsGarbage(s: Sys, tables: map<nat, seq<Entry>>, r: Sys, edit: VersionEdit, d: Disk)
    requires IsDown(s) && IsDown(r) && Sweeping(s.disk, tables, r, d) && r.logNumber == r.memLog
    requires r.disk.logs == map[r.memLog := []]
    requires HasVersion(r.disk.tables, r.db.version) && r.db.nextFile == r.memLog + 1
    requires r.disk.tables == Kept(tables, FileNumbers(r.db.version))
    requires tables.Keys == s.disk.tables.Keys + EditNumbers(edit)
    requires forall n :: n in EditNumbers(edit) ==> n < r.memLog
    requires forall n :: n in s.disk.logs ==> n < r.memLog
    ensures OtherGarbage(r, StoppedAt(r, d, s.db.nextFile))
  {
    hide Structure, ManifestPart, WorkPart, CountersPart, PendingPart, GarbagePart, LogsOk, EditNumbers, HasVersions,
      VersionsPart, FileNumbers;
    LogNumbers(s);
    LogNumbers(r);
    OtherFilesSwept(r.disk.tables, d.tables, r.db.version);
    hide HasVersion;
  }

  lemma OtherFilesSwept(tables: map<nat, seq<Entry>>, tables': map<nat, seq<Entry>>, v: Levels)
    requires HasVersion(tables, v) && forall n :: n in tables ==> n in tables' && tables'[n] == tables[n]
    ensures HasVersion(tables', v)
  {
    forall l: nat, f | l < NUM_LEVELS && f in v[l] ensures HasFile(tables', f) {
      assert HasFile(tables, f);
    }
  }

  // ------------------------------------------------------------------ DB::Open

  ghost predicate Readable(m: seq<Record>) {
    |m| > 0 && m[|m| - 1].counters.Some? && forall i :: 0 <= i < |m| ==> m[i].edit.Valid()
  }

  // What the manifest says of the state.
  ghost predicate Describes(m: seq<Record>, c: Counters, s: Sys) {
    && Readable(m) && m[|m| - 1].counters == Some(c)
    && ManifestOk(Edits(m), s.db.version, c.nextFile) && c.nextFile <= s.db.nextFile
    && c.logNumber == s.logNumber < c.nextFile && s.flushed <= c.lastSequence <= s.db.lastSequence
  }

  lemma ManifestReads(s: Sys)
    requires IsDown(s)
    ensures Readable(s.disk.manifest)
    ensures var m := s.disk.manifest; Describes(m, m[|m| - 1].counters.value, s)
    ensures HasVersion(s.disk.tables, s.db.version) && WrittenEnd(s) < MAX_SEQUENCE
  {
    hide Structure, LogsOk, WorkPart, CountersPart, PendingPart, GarbagePart, HasVersions, HasVersion, Counted, ListOk;
    var m := s.disk.manifest;
    ValidEdits(Edits(m), s.db.version, m[|m| - 1].counters.value.nextFile);
    CurrentHasFiles(s.disk.tables, s.versions, s.holders, s.db.version);
    hide ManifestOk;
    forall i | 0 <= i < |m| ensures m[i].edit.Valid() {
      assert Edits(m)[i] == m[i].edit;
    }
  }

  lemma ValidEdits(edits: seq<VersionEdit>, v: Levels, bound: nat)
    requires ManifestOk(edits, v, bound)
    ensures forall i :: 0 <= i < |edits| ==> edits[i].Valid()
  {
  }

  // VersionSet::Recover
  method RecoverVersion(disk: Disk, ghost s: Sys) returns (v: Levels, c: Counters)
    requires IsDown(s) && disk == s.disk
    ensures v == s.db.version && disk.manifest[|disk.manifest| - 1].counters == Some(c)
    ensures Describes(disk.manifest, c, s)
  {
    hide IsDown, ManifestOk;
    ManifestReads(s);
    var version, counters := ReplayManifest(disk.manifest);
    Replays(Edits(disk.manifest), s.db.version, counters.value.nextFile, version);
    v, c := version, counters.value;
  }

  // DBImpl::Recover: the logs at or above the log number, in order.
  method RecoverLogs(o: Opening, logs: map<nat, seq<LogBatch>>, order: seq<nat>, tooBig: seq<Entry> -> bool,
                     fileSize: seq<Entry> -> nat,
                     ghost s: Sys)
    requires logs == s.disk.logs && WrittenEnd(s) < MAX_SEQUENCE && o.Valid() && o.mem.None?
    requires Replaying(s, o.b, order) && !o.any
    requires o.b.lastSequence == s.flushed
    modifies o
    ensures o.Valid() && o.mem.None? && Replaying(s, o.b, []) && (forall n :: n in order ==> n < o.nextFile)
    ensures o.nextFile >= old(o.nextFile)
    ensures !o.any ==> o.b.lastSequence == s.flushed
  {
    hide Opening.Valid, Replaying, Consecutive, EndOf, LogEntries, StoredIn, InFlight;
    for i := 0 to |order|
      invariant o.Valid() && o.mem.None? && Replaying(s, o.b, order[i..])
      invariant o.nextFile >= old(o.nextFile) && forall k :: 0 <= k < i ==> order[k] < o.nextFile
      invariant !o.any ==> o.b.lastSequence == s.flushed
    {
      ghost var before := o.b;
      assert order[i..][0] == order[i] && order[i..][1..] == order[i + 1..];
      NextLog(s, o.b, order[i..]);
      o.RecoverLogFile(logs[order[i]], tooBig, fileSize);
      NothingEnds(logs[order[i]], before.lastSequence);
      ReplaySteps(s, before, o.b, order[i..]);
      ghost var after := o.b;
      o.MarkFileNumberUsed(order[i]);
      SameReplay(s, after, o.b, order[i + 1..]);
    }
    assert order[|order|..] == [];
  }

  lemma NothingEnds(log: seq<LogBatch>, start: nat)
    ensures |log| == 0 ==> EndOf(log, start) == start
  {
  }

  lemma SameReplay(s: Sys, a: Db, b: Db, todo: seq<nat>)
    requires Replaying(s, a, todo) && b == a.(nextFile := b.nextFile)
    ensures Replaying(s, b, todo)
  {
    hide PlanOk, PlanEnd, PlanEntries;
    assert StoredIn(a) == StoredIn(b);
  }

  // DBImpl::Recover: reads the manifest and the logs that it needs.
  method Recover(disk: Disk, tooBig: seq<Entry> -> bool, fileSize: seq<Entry> -> nat, ghost s: Sys)
    returns (o: Opening, lastSequence: nat)
    requires IsDown(s) && disk == s.disk
    ensures fresh(o) && o.Valid() && o.mem.None? && o.found == disk.tables
    ensures o.base == s.db.version && NumbersOk(o.base, o.from) && forall n :: n in disk.logs ==> n < o.nextFile
    ensures lastSequence == o.b.lastSequence == WrittenEnd(s)
    ensures o.b.history == Written(s) && StoredIn(o.b) == StoredIn(s.db) + InFlight(s)
  {
    hide IsDown, SysInv, Structure, ManifestOk, Replaying, Opening.Valid, PlanOk, PlanEnd, PlanEntries, NumbersOk,
      Written,
      WrittenEnd, StoredIn, HasVersion, InFlight;
    ManifestReads(s);
    var v, c := RecoverVersion(disk, s);
    DownParts(s);
    VersionBounded(Edits(disk.manifest), v, c.nextFile, s.db.nextFile);
    var order := SortNumbers(set n | n in disk.logs && n >= c.logNumber);
    LogsAreThePlan(s, order);
    BaseOk(s, c.nextFile + 1);
    ReplayBegins(s, order, Base(s, v, c.nextFile + 1));
    o := new Opening(v, c.nextFile + 1, disk.tables, Base(s, v, c.nextFile + 1));
    RecoverLogs(o, disk.logs, order, tooBig, fileSize, s);
    ReplayEnds(s, o.b);
    lastSequence := if c.lastSequence < o.maxSequence then o.maxSequence else c.lastSequence;
    OpeningParts(o);
    EndReached(s, c.lastSequence, o.b.lastSequence);
    LogsBelow(s, order, c.logNumber, o.nextFile);
  }

  /** DB::Open on what any crash or unfinished opening left: nothing acknowledged is lost, at
      most the group in flight comes on top, and the database can go on from there.  Wherever
      the opening stops, what it leaves is the same database with other garbage. */
  method Open(disk: Disk, tooBig: seq<Entry> -> bool, fileSize: seq<Entry> -> nat, ghost s: Sys)
    returns (version: Levels, lastSequence: nat, nextFile: nat, logNumber: nat, edit: VersionEdit,
             tables: map<nat, seq<Entry>>, ghost r: Sys)
    requires IsDown(s) && disk == s.disk
    ensures Recovered(s, r)
    ensures version == r.db.version && lastSequence == r.db.lastSequence && nextFile == r.db.nextFile
    ensures logNumber == r.memLog
    ensures r == Reopened(r.db.(nextFile := logNumber), s.db.version, edit, logNumber, tables)
    ensures forall d :: Midway(disk, edit, logNumber, d) ==> OtherGarbage(s, StoppedAt(s, d, nextFile))
    ensures forall d :: Sweeping(disk, tables, r, d) ==> OtherGarbage(r, StoppedAt(r, d, s.db.nextFile))
  {
    hide IsDown, SysInv, Structure, Opening.Valid, Reopened, SavedAll, WithTables, NumbersOk, Written, WrittenEnd,
      StoredIn, HasVersion, InFlight, Wrote, Midway, Sweeping, OtherGarbage, EditNumbers, Fresh;
    var o;
    o, lastSequence := Recover(disk, tooBig, fileSize, s);
    DownParts(s);
    OpeningParts(o);
    logNumber := o.nextFile;
    nextFile := logNumber + 1;
    edit := VersionEdit({}, o.added);
    tables := o.tables;
    version := SaveTables(o.base, edit, o.from);
    EditIsTables(o.base, o.from, o.added, o.b.version, o.nextFile, version);
    ReopenedOk(o.base, o.b, o.from, o.added, logNumber, tables);
    r := Reopened(o.b, o.base, edit, logNumber, tables);
    ReopenedParts(o.b, o.base, edit, logNumber, tables);
    NowDown(r);
    OpeningStops(s, edit, o.from, logNumber, tables, r);
  }

  lemma DownParts(s: Sys)
    requires IsDown(s)
    ensures SysInv(s) && NumbersOk(s.db.version, s.db.nextFile) && exists n :: n in s.disk.logs
  {
    LogNumbers(s);
    hide LogsOk, ManifestPart, VersionsPart, TablesPart, WorkPart, CountersPart, PendingPart, GarbagePart, NumbersOk;
  }

  lemma NowDown(r: Sys)
    requires SysInv(r) && Fresh(r) && r.db.snapshots == []
    ensures IsDown(r)
  {
  }

  lemma LogsBelow(s: Sys, order: seq<nat>, logNumber: nat, newLog: nat)
    requires forall n :: n in order <==> n in s.disk.logs && n >= logNumber
    requires (forall n :: n in order ==> n < newLog) && logNumber <= newLog
    ensures forall n :: n in s.disk.logs ==> n < newLog
  {
    forall n | n in s.disk.logs ensures n < newLog {
      assert n >= logNumber ==> n in order;
    }
  }

  lemma EndReached(s: Sys, recorded: nat, end: nat)
    requires IsDown(s) && recorded <= s.db.lastSequence && end == WrittenEnd(s)
    ensures recorded <= end
  {
    hide SysInv;
  }

  lemma OpeningStops(s: Sys, edit: VersionEdit, from: nat, newLog: nat, tables: map<nat, seq<Entry>>, r: Sys)
    requires IsDown(s) && IsDown(r) && NumbersOk(s.db.version, from) && Wrote(s.disk.tables, edit, tables)
    requires forall n :: n in EditNumbers(edit) ==> from <= n < newLog
    requires forall n :: n in s.disk.logs ==> n < newLog
    requires r.memLog == newLog == r.logNumber && r.disk.logs == map[newLog := []] && r.db.nextFile == newLog + 1
    requires r.disk.tables == Kept(tables, FileNumbers(r.db.version))
    ensures forall d :: Midway(s.disk, edit, newLog, d) ==> OtherGarbage(s, StoppedAt(s, d, newLog + 1))
    ensures forall d :: Sweeping(s.disk, tables, r, d) ==> OtherGarbage(r, StoppedAt(r, d, s.db.nextFile))
  {
    ManifestReads(r);
    hide IsDown, Midway, Sweeping, OtherGarbage, StoppedAt, NumbersOk, HasEdit, EditNumbers, Kept, FileNumbers,
      Describes, Readable;
    forall d | Midway(s.disk, edit, newLog, d) ensures OtherGarbage(s, StoppedAt(s, d, newLog + 1)) {
      MidwayIsGarbage(s, edit, from, newLog, d);
    }
    forall d | Sweeping(s.disk, tables, r, d) ensures OtherGarbage(r, StoppedAt(r, d, s.db.nextFile)) {
      SweepingIsGarbage(s, tables, r, edit, d);
    }
  }

  lemma OpeningParts(o: Opening)
    requires o.Valid()
    ensures Structure(o.b) && o.b.imm.None? && o.b.snapshots == [] && o.b.nextFile == o.nextFile >= o.from
    ensures o.mem.None? ==> o.b.mem == []
    ensures NumbersOk(o.b.version, o.nextFile) && WithTables(o.base, o.from, o.added, o.b.version)
    ensures o.maxSequence == if o.any then o.b.lastSequence else 0
    ensures VersionEdit({}, o.added).Valid() && HasVersion(o.tables, o.b.version)
    ensures Wrote(o.found, VersionEdit({}, o.added), o.tables)
    ensures forall n :: n in EditNumbers(VersionEdit({}, o.added)) ==> o.from <= n < o.nextFile
  {
    hide Structure, HasVersion, Wrote;
    NumbersPart(o.b);
  }

  // LogAndApply of the edit that recovery collected.
  method SaveTables(v: Levels, edit: VersionEdit, ghost bound: nat) returns (version: Levels)
    requires NumbersOk(v, bound) && edit.Valid()
    ensures SavedAll(v, edit, version)
  {
    NumbersParts(v, bound);
    var builder := new Builder(v);
    builder.Apply(edit);
    version := builder.SaveTo();
  }

  lemma ReopenedParts(b: Db, v: Levels, edit: VersionEdit, newLog: nat, tables: map<nat, seq<Entry>>)
    requires b.nextFile == newLog && b.snapshots == []
    ensures var r := Reopened(b, v, edit, newLog, tables);
      && r.db == b.(nextFile := newLog + 1) && r.memLog == newLog == r.logNumber && r.writing.None?
        && r.db.snapshots == []
      && r.disk.logs == map[newLog := []] && r.disk.tables == Kept(tables, FileNumbers(r.db.version))
      && r == Reopened(r.db.(nextFile := newLog), v, edit, newLog, tables)
  {
  }
}
