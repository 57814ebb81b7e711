/** The database as a state machine: every step keeps the invariant, and every read at a
    live snapshot agrees with the full history of writes (db/db_impl.cc). */
module Lsm {
  import opened Keys
  import opened Version
  import opened CompactionWork
  import opened CompactionReads
  import opened VersionBuilder
  import opened Install

  // mem_, imm_, the current version, the counters and the snapshot list; `history` is the
  // set of all entries ever written, which only the specification mentions.
  datatype Db = Db(mem: seq<Entry>, imm: Option<seq<Entry>>, version: Levels,
                   lastSequence: nat, nextFile: nat, snapshots: seq<nat>, history: set<Entry>)

  function ImmEntries(s: Db): set<Entry> {
    if s.imm.Some? then Contents(s.imm.value) else {}
  }

  function Front(s: Db): set<Entry> {
    Contents(s.mem) + ImmEntries(s)
  }

  ghost function StoredIn(s: Db): set<Entry> {
    Front(s) + AllEntries(s.version)
  }

  // DoCompactionWork: the oldest snapshot, or the last sequence number when there is none.
  function SmallestSnapshot(s: Db): nat {
    if |s.snapshots| == 0 then s.lastSequence else s.snapshots[0]
  }

  // File numbers name one file each, and the counter is past all of them.
  ghost predicate NumbersOk(v: Levels, nextFile: nat) {
    && (forall l, f :: 0 <= l < NUM_LEVELS && f in v[l] ==> f.number < nextFile)
    && (forall l, m, f, g ::
          0 <= l < NUM_LEVELS && 0 <= m < NUM_LEVELS && f in v[l] && g in v[m] && f.number == g.number ==>
            l == m && f == g)
    && (forall l :: 0 <= l < NUM_LEVELS ==> StrictlyOrdered(v[l]))
  }

  ghost predicate SnapshotsOk(s: Db) {
    && (forall i, j :: 0 <= i < j < |s.snapshots| ==> s.snapshots[i] <= s.snapshots[j])
    && forall i :: 0 <= i < |s.snapshots| ==> s.snapshots[i] <= s.lastSequence
  }

  ghost predicate HistoryOk(s: Db) {
    && Functional(s.history) && StoredIn(s) <= s.history && s.lastSequence < MAX_SEQUENCE
    && forall e :: e in s.history ==> e.key.sequence <= s.lastSequence
  }

  // The structural invariant.
  ghost predicate Structure(s: Db) {
    && Sorted(s.mem) && (s.imm.Some? ==> Sorted(s.imm.value))
    && VersionOk(s.version) && NumbersOk(s.version, s.nextFile)
    && NewerThan(Contents(s.mem), ImmEntries(s)) && NewerThan(Front(s), AllEntries(s.version))
    && SnapshotsOk(s) && HistoryOk(s)
  }

  // Every read at or above the smallest snapshot sees what the full history holds.
  ghost predicate ReadsAgree(s: Db) {
    forall user, q :: q >= SmallestSnapshot(s) ==> Read(StoredIn(s), user, q) == Read(s.history, user, q)
  }

  ghost predicate Inv(s: Db) {
    Structure(s) && ReadsAgree(s)
  }

  ghost predicate Init(s: Db) {
    && s.mem == [] && s.imm == None && s.snapshots == [] && s.history == {} && s.lastSequence == 0
    && forall l :: 0 <= l < NUM_LEVELS ==> s.version[l] == []
  }

  lemma NoFiles(v: Levels, n: nat)
    requires forall l :: 0 <= l < NUM_LEVELS ==> v[l] == []
    ensures VersionOk(v) && NumbersOk(v, n)
  {
  }

  lemma NoEntries(v: Levels)
    requires forall l :: 0 <= l < NUM_LEVELS ==> v[l] == []
    ensures AllEntries(v) == {}
  {
  }

  lemma InitInv(s: Db)
    requires Init(s)
    ensures Inv(s)
  {
    NoEntries(s.version);
    NoFiles(s.version, s.nextFile);
    hide VersionOk, NumbersOk, AllEntries;
  }

  // ------------------------------------------------------------------ writes

  // WriteBatch: MemTableInserter numbers the updates consecutively.
  datatype Update = Update(kind: Kind, user: UserKey, value: Bytes)

  function BatchEntries(first: nat, batch: seq<Update>): (r: seq<Entry>)
    ensures |r| == |batch|
    ensures forall i :: 0 <= i < |r| ==> r[i] == Entry(IKey(batch[i].user, first + i, batch[i].kind), batch[i].value)
  {
    if |batch| == 0 then []
    else
      var n := |batch| - 1;
      BatchEntries(first, batch[..n]) + [Entry(IKey(batch[n].user, first + n, batch[n].kind), batch[n].value)]
  }

  ghost predicate WriteStep(s: Db, batch: seq<Update>, s': Db) {
    var added := Contents(BatchEntries(s.lastSequence + 1, batch));
    && s.lastSequence + |batch| < MAX_SEQUENCE
    && Sorted(s'.mem) && Contents(s'.mem) == Contents(s.mem) + added
    && s' == s.(mem := s'.mem, lastSequence := s.lastSequence + |batch|, history := s.history + added)
  }

  // MakeRoomForWrite: the full memtable becomes immutable and a fresh log gets a number.
  ghost predicate SwitchStep(s: Db, s': Db) {
    s.imm.None? && s' == s.(mem := [], imm := Some(s.mem), nextFile := s.nextFile + 1)
  }

  // ------------------------------------------------------------------ background work

  ghost predicate Added(v: Levels, level: nat, f: File, v': Levels)
    requires level < NUM_LEVELS
  {
    && (forall l :: 0 <= l < NUM_LEVELS && l != level ==> v'[l] == v[l])
    && (forall g :: g in v'[level] <==> g in v[level] || g == f)
    && StrictlyOrdered(v'[level])
  }

  // A number past those of the version; it was taken from the counter when the file was begun.
  ghost predicate NewNumber(v: Levels, n: nat, nextFile: nat) {
    n < nextFile && forall l, g :: 0 <= l < NUM_LEVELS && g in v[l] ==> g.number < n
  }

  // CompactMemTable
  ghost predicate FlushStep(s: Db, level: nat, f: File, s': Db) {
    && s.imm.Some?
    && (|s.imm.value| == 0 ==> s'.version == s.version)
    && (|s.imm.value| > 0 ==>
          && level < NUM_LEVELS && FileOk(f) && f.entries == s.imm.value && NewNumber(s.version, f.number, s'.nextFile)
          && (level > 0 ==> forall l :: 0 <= l <= level ==>
            !OverlapInLevel(s.version, l, f.smallest.user, f.largest.user))
          && Added(s.version, level, f, s'.version))
    && s' == s.(imm := None, version := s'.version, nextFile := s'.nextFile) && s.nextFile <= s'.nextFile
  }

  // BackgroundCompaction, either way: inputs leave, outputs arrive at the next level.
  ghost predicate CompactStep(s: Db, level: nat, in0: seq<File>, in1: seq<File>, outputs: seq<File>, s': Db) {
    && InputsSound(s.version, level, in0, in1) && OutputsOk(in0, in1, outputs)
    && Installed(s.version, level, in0, in1, outputs, s'.version)
    && NumbersOk(s'.version, s'.nextFile)
    && s' == s.(version := s'.version, nextFile := s'.nextFile)
  }

  // A trivial move takes its one file along; a compaction writes the surviving entries.
  ghost predicate Moves(in0: seq<File>, in1: seq<File>, outputs: seq<File>) {
    in1 == [] && outputs == in0
  }

  // The snapshot number was read when the compaction began: it may be smaller by now.
  ghost predicate Merges(s: Db, level: nat, in0: seq<File>, in1: seq<File>, outputs: seq<File>, ss: nat) {
    && ss <= SmallestSnapshot(s)
    && exists input ::
         MergedInput(input, in0, in1) && Flatten(outputs) == Survivors(s.version, level, input, ss, |input|)
  }

  /** The outputs of a merge: of the entries of a user key that are visible at the snapshot it
      used there is at most one, and a deletion marker only if a deeper file may have the key. */
  lemma OutputsAreLean(s: Db, level: nat, in0: seq<File>, in1: seq<File>, outputs: seq<File>, ss: nat, d: Entry,
                       e: Entry)
    requires Merges(s, level, in0, in1, outputs, ss) && d in Entries(outputs) && e in Entries(outputs)
    requires d.key.user == e.key.user && d.key.sequence <= ss && e.key.sequence <= ss
    ensures d == e
    ensures e.key.kind.Deletion? ==>
      exists l, f :: level + 2 <= l < NUM_LEVELS && f in s.version[l] && f.smallest.user <= e.key.user <= f.largest.user
  {
    hide Survivors, Sorted, Flatten, Entries;
    var input :| MergedInput(input, in0, in1) && Flatten(outputs) == Survivors(s.version, level, input, ss, |input|);
    FlattenEntries(outputs);
    LittleStays(s.version, level, input, ss, d, e);
  }

  // ------------------------------------------------------------------ snapshots

  ghost predicate SnapshotStep(s: Db, s': Db) {
    s' == s.(snapshots := s.snapshots + [s.lastSequence])
  }

  ghost predicate ReleaseStep(s: Db, i: nat, s': Db) {
    i < |s.snapshots| && s' == s.(snapshots := s.snapshots[..i] + s.snapshots[i + 1..])
  }

  // ------------------------------------------------------------------ each step keeps the invariant

  lemma BatchIsNew(s: Db, batch: seq<Update>)
    requires Structure(s)
    ensures var added := Contents(BatchEntries(s.lastSequence + 1, batch));
      && (forall e :: e in added ==> s.lastSequence < e.key.sequence <= s.lastSequence + |batch|)
      && NewerThan(added, s.history) && Functional(s.history + added)
  {
    assert HistoryOk(s);
    hide Structure, HistoryOk, BatchEntries;
    var all := BatchEntries(s.lastSequence + 1, batch);
    assert forall e :: e in s.history ==> e.key.sequence <= s.lastSequence by { HistoryBelow(s); }
    FunctionalWith(s.history, all, s.lastSequence);
  }

  lemma HistoryBelow(s: Db)
    requires HistoryOk(s)
    ensures Functional(s.history) && forall e :: e in s.history ==> e.key.sequence <= s.lastSequence
  {
  }

  lemma FunctionalWith(es: set<Entry>, all: seq<Entry>, last: nat)
    requires Functional(es) && forall e :: e in es ==> e.key.sequence <= last
    requires forall i :: 0 <= i < |all| ==> all[i].key.sequence == last + 1 + i
    ensures NewerThan(Contents(all), es) && Functional(es + Contents(all))
  {
    forall a, b | a in all && b in all && a.key.sequence == b.key.sequence ensures a == b {
      var i :| 0 <= i < |all| && all[i] == a;
      var j :| 0 <= j < |all| && all[j] == b;
    }
  }

  // Adding the same newer entries on both sides keeps reads equal.
  lemma SameReadsGrow(a: set<Entry>, b: set<Entry>, added: set<Entry>, user: UserKey, q: nat)
    requires Functional(a + added) && Functional(b + added) && NewerThan(added, a) && NewerThan(added, b)
    requires Read(a, user, q) == Read(b, user, q)
    ensures Read(a + added, user, q) == Read(b + added, user, q)
  {
    if d :| d in added && d.key.user == user && d.key.sequence <= q {
      var n := NewestExists(added, user, q, d);
      assert Newest(a + added, user, q, n) && Newest(b + added, user, q, n);
      ReadNewest(a + added, user, q, n);
      ReadNewest(b + added, user, q, n);
    } else {
      ReadUnaffected(a, added, user, q);
      ReadUnaffected(b, added, user, q);
    }
  }

  // Entries that are not visible do not matter.
  lemma ReadUnaffected(a: set<Entry>, added: set<Entry>, user: UserKey, q: nat)
    requires Functional(a + added)
    requires forall d :: d in added && d.key.user == user ==> d.key.sequence > q
    ensures Read(a + added, user, q) == Read(a, user, q)
  {
    if d :| d in a && d.key.user == user && d.key.sequence <= q {
      var n := NewestExists(a, user, q, d);
      assert Newest(a + added, user, q, n);
      ReadNewest(a, user, q, n);
      ReadNewest(a + added, user, q, n);
    } else {
      ReadAbsent(a, user, q);
      ReadAbsent(a + added, user, q);
    }
  }

  lemma WriteKeepsInv(s: Db, batch: seq<Update>, s': Db)
    requires Structure(s) && WriteStep(s, batch, s')
    ensures Structure(s')
    ensures ReadsAgree(s) ==> ReadsAgree(s')
  {
    WriteKeepsStructure(s, batch, s');
    if ReadsAgree(s) {
      WriteKeepsReads(s, batch, s');
    }
    hide *;
  }

  lemma WriteKeepsStructure(s: Db, batch: seq<Update>, s': Db)
    requires Structure(s) && WriteStep(s, batch, s')
    ensures Structure(s')
  {
    hide VersionOk, NumbersOk, Sorted, BatchEntries;
    BatchIsNew(s, batch);
    var added := Contents(BatchEntries(s.lastSequence + 1, batch));
    assert Front(s') == Front(s) + added && Front(s) <= s.history && AllEntries(s.version) <= s.history;
    hide AllEntries;
  }

  lemma WriteKeepsReads(s: Db, batch: seq<Update>, s': Db)
    requires Structure(s) && WriteStep(s, batch, s') && ReadsAgree(s)
    ensures ReadsAgree(s')
  {
    hide VersionOk, NumbersOk, Sorted, BatchEntries, NewerThan, Read;
    BatchIsNew(s, batch);
    var added := Contents(BatchEntries(s.lastSequence + 1, batch));
    assert StoredIn(s') == StoredIn(s) + added;
    hide AllEntries;
    forall user, q | q >= SmallestSnapshot(s') ensures Read(StoredIn(s'), user, q) == Read(s'.history, user, q) {
      SameReadsGrow(StoredIn(s), s.history, added, user, q);
    }
  }

  lemma SwitchKeepsInv(s: Db, s': Db)
    requires Structure(s) && SwitchStep(s, s')
    ensures Structure(s')
    ensures ReadsAgree(s) ==> ReadsAgree(s')
  {
    assert Front(s') == Front(s);
  }

  lemma SnapshotKeepsInv(s: Db, s': Db)
    requires Structure(s) && SnapshotStep(s, s')
    ensures Structure(s')
    ensures ReadsAgree(s) ==> ReadsAgree(s')
  {
    assert Front(s') == Front(s);
  }

  lemma ReleaseKeepsInv(s: Db, i: nat, s': Db)
    requires Structure(s) && ReleaseStep(s, i, s')
    ensures Structure(s')
    ensures ReadsAgree(s) ==> ReadsAgree(s')
  {
    assert Front(s') == Front(s);
    assert SmallestSnapshot(s) <= SmallestSnapshot(s');
  }

  // ------------------------------------------------------------------ flushes

  lemma AddedEntries(v: Levels, level: nat, f: File, v': Levels)
    requires level < NUM_LEVELS && Added(v, level, f, v')
    ensures Entries(v'[level]) == Entries(v[level]) + Contents(f.entries)
    ensures AllEntries(v') == AllEntries(v) + Contents(f.entries)
  {
    forall e ensures e in Entries(v'[level]) <==> e in Entries(v[level]) + Contents(f.entries) {
    }
    forall e | e in AllEntries(v) ensures e in AllEntries(v') {
      var l :| 0 <= l < NUM_LEVELS && e in Entries(v[l]);
      assert e in Entries(v'[l]);
    }
    forall e | e in AllEntries(v') ensures e in AllEntries(v) + Contents(f.entries) {
      var l :| 0 <= l < NUM_LEVELS && e in Entries(v'[l]);
      assert e in Entries(v[l]) || e in Contents(f.entries);
    }
    forall e | e in Contents(f.entries) ensures e in AllEntries(v') {
      assert e in Entries(v'[level]);
    }
  }

  // No file of the level holds a user key of the new file.
  lemma NoSharedKey(v: Levels, l: nat, f: File)
    requires l < NUM_LEVELS && FilesOk(v[l]) && FileOk(f) && !OverlapInLevel(v, l, f.smallest.user, f.largest.user)
    ensures NewerThan(Entries(v[l]), Contents(f.entries))
    ensures forall g :: g in v[l] ==> Apart(f, g)
  {
    forall a, b | a in Entries(v[l]) && b in Contents(f.entries) ensures a.key.user != b.key.user {
      var g :| g in v[l] && a in g.entries;
      EntryInRange(g, a);
      EntryInRange(f, b);
      assert !Overlaps(g, Some(f.smallest.user), Some(f.largest.user));
    }
    forall g | g in v[l] ensures Apart(f, g) {
      assert !Overlaps(g, Some(f.smallest.user), Some(f.largest.user));
    }
  }

  ghost predicate Flushable(v: Levels, level: nat, f: File) {
    && level < NUM_LEVELS && FileOk(f)
    && NewerThan(Contents(f.entries), AllEntries(v))
    && (forall e :: e in f.entries ==> e.key.sequence <= MAX_SEQUENCE)
    && (forall g :: g in v[0] ==> g.number < f.number)
    && (level > 0 ==> forall l :: 0 <= l <= level ==> !OverlapInLevel(v, l, f.smallest.user, f.largest.user))
  }

  lemma FlushOrder(v: Levels, level: nat, f: File, v': Levels, l: int, m: int)
    requires VersionOk(v) && Flushable(v, level, f) && Added(v, level, f, v') && 0 <= l < m < NUM_LEVELS
    ensures NewerThan(Entries(v'[l]), Entries(v'[m]))
  {
    AddedEntries(v, level, f, v');
    assert NewerThan(Entries(v[l]), Entries(v[m]));
    if m == level {
      NoSharedKey(v, l, f);
    } else if l == level {
      assert Entries(v[m]) <= AllEntries(v);
    }
  }

  lemma FlushLevel(v: Levels, level: nat, f: File, v': Levels)
    requires VersionOk(v) && Flushable(v, level, f) && Added(v, level, f, v')
    ensures FilesOk(v'[level]) && (level > 0 ==> DisjointSorted(v'[level]))
    ensures Level0Ok(v'[0])
  {
    assert FilesOk(v[level]);
    if level > 0 {
      NoSharedKey(v, level, f);
      DisjointIsApart(v[level]);
      forall g, h | g in v'[level] && h in v'[level] && g != h ensures Apart(g, h) {
        assert Apart(f, g) || g == f;
      }
      ApartAndOrdered(v'[level]);
    } else {
      forall g | g in v[0] ensures NewerThan(Contents(f.entries), Contents(g.entries)) {
        forall b | b in Contents(g.entries) ensures b in AllEntries(v) {
          CompactionReads.Stored(v, 0, g, b);
        }
      }
    }
  }

  lemma FlushKeepsVersion(v: Levels, level: nat, f: File, v': Levels)
    requires VersionOk(v) && Flushable(v, level, f) && Added(v, level, f, v')
    ensures VersionOk(v')
  {
    FlushLevel(v, level, f, v');
    AddedEntries(v, level, f, v');
    forall l, m | 0 <= l < m < NUM_LEVELS ensures NewerThan(Entries(v'[l]), Entries(v'[m])) {
      FlushOrder(v, level, f, v', l, m);
    }
    forall l, e | 0 <= l < NUM_LEVELS && e in Entries(v'[l]) ensures e.key.sequence <= MAX_SEQUENCE {
      assert e in Entries(v[l]) || e in Contents(f.entries);
    }
  }

  // Background steps change the version, and may empty imm_, and nothing else but file numbers.
  lemma BackgroundStructure(s: Db, s': Db)
    requires Structure(s) && s' == s.(imm := s'.imm, version := s'.version, nextFile := s'.nextFile)
    requires s'.imm == s.imm || s'.imm == None
    requires VersionOk(s'.version) && NumbersOk(s'.version, s'.nextFile)
    requires NewerThan(Front(s'), AllEntries(s'.version)) && StoredIn(s') <= StoredIn(s)
    ensures Structure(s')
  {
  }

  lemma FlushedEntries(s: Db, level: nat, f: File, s': Db)
    requires FlushStep(s, level, f, s')
    ensures Front(s') == Contents(s.mem) && StoredIn(s') == StoredIn(s)
    ensures AllEntries(s'.version) == AllEntries(s.version) + ImmEntries(s)
  {
    if |s.imm.value| > 0 {
      AddedEntries(s.version, level, f, s'.version);
      assert Contents(f.entries) == ImmEntries(s);
    }
  }

  lemma FlushKeepsInv(s: Db, level: nat, f: File, s': Db)
    requires Structure(s) && FlushStep(s, level, f, s')
    ensures Structure(s')
    ensures ReadsAgree(s) ==> ReadsAgree(s')
  {
    FlushedEntries(s, level, f, s');
    if |s.imm.value| > 0 {
      FlushIsFlushable(s, level, f);
      FlushKeepsVersion(s.version, level, f, s'.version);
      FlushNumbers(s, level, f, s');
    }
    BackgroundStructure(s, s');
  }

  lemma FlushIsFlushable(s: Db, level: nat, f: File)
    requires Structure(s) && s.imm.Some? && |s.imm.value| > 0
    requires level < NUM_LEVELS && FileOk(f) && f.entries == s.imm.value && forall g :: g in s.version[0] ==>
      g.number < f.number
    requires level > 0 ==> forall l :: 0 <= l <= level ==>
      !OverlapInLevel(s.version, l, f.smallest.user, f.largest.user)
    ensures Flushable(s.version, level, f)
  {
    forall e | e in f.entries ensures e.key.sequence <= MAX_SEQUENCE {
      assert e in ImmEntries(s);
    }
  }

  lemma FlushNumbers(s: Db, level: nat, f: File, s': Db)
    requires NumbersOk(s.version, s.nextFile) && level < NUM_LEVELS && NewNumber(s.version, f.number, s'.nextFile)
    requires Added(s.version, level, f, s'.version) && s.nextFile <= s'.nextFile
    ensures NumbersOk(s'.version, s'.nextFile)
  {
  }

  // ------------------------------------------------------------------ compactions and moves

  lemma CompactedEntries(v: Levels, level: nat, in0: seq<File>, in1: seq<File>, outputs: seq<File>, v': Levels)
    requires InputsSound(v, level, in0, in1) && OutputsOk(in0, in1, outputs)
    requires Installed(v, level, in0, in1, outputs, v')
    ensures AllEntries(v') <= AllEntries(v)
    ensures Moves(in0, in1, outputs) ==> AllEntries(v') == AllEntries(v)
  {
    EntriesSplit(v, level, in0, in1);
    EntriesAfter(v, level, in0, in1, outputs, v');
    assert in1 == [] ==> Entries(in1) == {};
  }

  lemma CompactKeepsStructure(s: Db, level: nat, in0: seq<File>, in1: seq<File>, outputs: seq<File>, s': Db)
    requires Structure(s) && CompactStep(s, level, in0, in1, outputs, s')
    ensures Structure(s')
  {
    StructureParts(s);
    InstallKeepsVersion(s.version, level, in0, in1, outputs, s'.version);
    CompactedEntries(s.version, level, in0, in1, outputs, s'.version);
    FrontKept(s, s');
    BackgroundStructure(s, s');
  }

  lemma StructureParts(s: Db)
    requires Structure(s)
    ensures VersionOk(s.version) && Functional(AllEntries(s.version))
    ensures Functional(StoredIn(s)) && NewerThan(Front(s), AllEntries(s.version))
  {
    assert AllEntries(s.version) <= s.history;
  }

  lemma FrontKept(s: Db, s': Db)
    requires s'.mem == s.mem && s'.imm == s.imm && AllEntries(s'.version) <= AllEntries(s.version)
    requires NewerThan(Front(s), AllEntries(s.version))
    ensures Front(s') == Front(s) && StoredIn(s') <= StoredIn(s) && NewerThan(Front(s'), AllEntries(s'.version))
  {
  }

  // A trivial move stores the same entries.
  lemma MoveKeepsReads(s: Db, level: nat, in0: seq<File>, in1: seq<File>, outputs: seq<File>, s': Db)
    requires CompactStep(s, level, in0, in1, outputs, s') && Moves(in0, in1, outputs)
    ensures ReadsAgree(s) ==> ReadsAgree(s')
  {
    CompactedEntries(s.version, level, in0, in1, outputs, s'.version);
    assert StoredIn(s') == StoredIn(s);
  }

  /** A compaction in a reachable state keeps every read at or above the smallest snapshot,
      if and only if it does not resurrect a value left out of inputs_[1]. */
  lemma CompactKeepsReads(s: Db, level: nat, in0: seq<File>, in1: seq<File>, outputs: seq<File>, ss: nat, s': Db)
    requires Structure(s) && CompactStep(s, level, in0, in1, outputs, s') && Merges(s, level, in0, in1, outputs, ss)
    ensures SameReads(s, s') <==> !Resurrects(StoredIn(s), s.version, level, in1, ss, SmallestSnapshot(s))
  {
    hide Structure, VersionOk, NewerThan, InputsSound, OutputsOk, Survivors, NumbersOk;
    StructureParts(s);
    var input :| MergedInput(input, in0, in1) && Flatten(outputs) == Survivors(s.version, level, input, ss, |input|);
    assert StoredIn(s') == Front(s) + AllEntries(s'.version);
    CompactionKeepsReads(Front(s), s.version, level, in0, in1, input, ss, SmallestSnapshot(s), outputs, s'.version);
  }

  ghost predicate SameReads(s: Db, s': Db) {
    forall user, q :: q >= SmallestSnapshot(s) ==> Read(StoredIn(s'), user, q) == Read(StoredIn(s), user, q)
  }

  // With the history unchanged, reads still agree exactly when they stayed the same.
  lemma SameReadsAgree(s: Db, s': Db)
    requires ReadsAgree(s) && s'.history == s.history && SmallestSnapshot(s') == SmallestSnapshot(s)
    ensures ReadsAgree(s') <==> SameReads(s, s')
  {
    if ReadsAgree(s') {
      forall user, q | q >= SmallestSnapshot(s) ensures Read(StoredIn(s'), user, q) == Read(StoredIn(s), user, q) {
        assert Read(StoredIn(s), user, q) == Read(s.history, user, q);
        assert Read(StoredIn(s'), user, q) == Read(s'.history, user, q);
      }
    }
  }

  // ------------------------------------------------------------------ runs

  datatype Step =
    | Write(batch: seq<Update>)
    | Switch
    | Flush(level: nat, file: File)
    | Move(level: nat, in0: seq<File>, outputs: seq<File>)
    | Compact(level: nat, in0: seq<File>, in1: seq<File>, outputs: seq<File>, ss: nat)
    | TakeSnapshot
    | Release(index: nat)

  ghost predicate Next(s: Db, step: Step, s': Db) {
    match step
    case Write(batch) => WriteStep(s, batch, s')
    case Switch => SwitchStep(s, s')
    case Flush(level, f) => FlushStep(s, level, f, s')
    case Move(level, in0, outputs) => CompactStep(s, level, in0, [], outputs, s') && Moves(in0, [], outputs)
    case Compact(level, in0, in1, outputs, ss) =>
      CompactStep(s, level, in0, in1, outputs, s') && Merges(s, level, in0, in1, outputs, ss)
    case TakeSnapshot => SnapshotStep(s, s')
    case Release(i) => ReleaseStep(s, i, s')
  }

  // The guard that compactions need.
  ghost predicate Safe(s: Db, step: Step) {
    step.Compact? && step.level + 1 < NUM_LEVELS ==>
      !Resurrects(StoredIn(s), s.version, step.level, step.in1, step.ss, SmallestSnapshot(s))
  }

  lemma StructureStep(s: Db, step: Step, s': Db)
    requires Structure(s) && Next(s, step, s')
    ensures Structure(s')
  {
    match step
    case Write(batch) => WriteKeepsInv(s, batch, s');
    case Switch => SwitchKeepsInv(s, s');
    case Flush(level, f) => FlushKeepsInv(s, level, f, s');
    case Move(level, in0, outputs) => CompactKeepsStructure(s, level, in0, [], outputs, s');
    case Compact(level, in0, in1, outputs, ss) => CompactKeepsStructure(s, level, in0, in1, outputs, s');
    case TakeSnapshot => SnapshotKeepsInv(s, s');
    case Release(i) => ReleaseKeepsInv(s, i, s');
  }

  /** One step keeps all reads in agreement with the history exactly when it is safe. */
  lemma ReadsStep(s: Db, step: Step, s': Db)
    requires Inv(s) && Next(s, step, s')
    ensures ReadsAgree(s') <==> Safe(s, step)
  {
    match step
    case Write(batch) => WriteKeepsInv(s, batch, s');
    case Switch => SwitchKeepsInv(s, s');
    case Flush(level, f) => FlushKeepsInv(s, level, f, s');
    case Move(level, in0, outputs) => MoveKeepsReads(s, level, in0, [], outputs, s');
    case Compact(level, in0, in1, outputs, ss) =>
      CompactKeepsReads(s, level, in0, in1, outputs, ss, s');
      SameReadsAgree(s, s');
    case TakeSnapshot => SnapshotKeepsInv(s, s');
    case Release(i) => ReleaseKeepsInv(s, i, s');
  }

  // A run of the database.
  ghost predicate IsRun(run: seq<Db>, steps: seq<Step>) {
    && |run| == |steps| + 1 && Init(run[0])
    && forall i :: 0 <= i < |steps| ==> Next(run[i], steps[i], run[i + 1])
  }

  ghost predicate SafeRun(run: seq<Db>, steps: seq<Step>) {
    |run| == |steps| + 1 && forall i :: 0 <= i < |steps| ==> Safe(run[i], steps[i])
  }

  // In every reachable state the structural invariant holds, whatever the compactions do.
  lemma {:induction false} RunKeepsStructure(run: seq<Db>, steps: seq<Step>, i: nat)
    requires IsRun(run, steps) && i < |run|
    ensures Structure(run[i])
  {
    if i == 0 {
      InitInv(run[0]);
    } else {
      RunKeepsStructure(run, steps, i - 1);
      assert Next(run[i - 1], steps[i - 1], run[i - 1 + 1]);
      StructureStep(run[i - 1], steps[i - 1], run[i]);
    }
  }

  // In every state of a safe run every read at or above the smallest snapshot is right.
  lemma {:induction false} RunKeepsReads(run: seq<Db>, steps: seq<Step>, i: nat)
    requires IsRun(run, steps) && SafeRun(run, steps) && i < |run|
    ensures Inv(run[i])
  {
    if i == 0 {
      InitInv(run[0]);
    } else {
      RunKeepsReads(run, steps, i - 1);
      assert Next(run[i - 1], steps[i - 1], run[i - 1 + 1]);
      StructureStep(run[i - 1], steps[i - 1], run[i]);
      ReadsStep(run[i - 1], steps[i - 1], run[i]);
    }
  }

  // History only grows, by entries newer than the last sequence number.
  lemma {:induction false} HistoryGrows(run: seq<Db>, steps: seq<Step>, i: nat, j: nat)
    requires IsRun(run, steps) && i <= j < |run|
    ensures run[i].lastSequence <= run[j].lastSequence && run[i].history <= run[j].history
    ensures forall e :: e in run[j].history && e !in run[i].history ==> e.key.sequence > run[i].lastSequence
  {
    if i < j {
      HistoryGrows(run, steps, i, j - 1);
      assert Next(run[j - 1], steps[j - 1], run[j - 1 + 1]);
    }
  }

  /** Snapshot isolation over whole runs: a snapshot number that was current at state i and
      is still protected at a later state j reads there exactly what had been written by
      state i. */
  lemma SnapshotsAreStable(run: seq<Db>, steps: seq<Step>, i: nat, j: nat, user: UserKey, q: nat)
    requires IsRun(run, steps) && SafeRun(run, steps) && i <= j < |run|
    requires SmallestSnapshot(run[j]) <= q <= run[i].lastSequence
    ensures Read(StoredIn(run[j]), user, q) == Read(run[i].history, user, q)
  {
    RunKeepsReads(run, steps, j);
    HistoryGrows(run, steps, i, j);
    var later := run[j].history - run[i].history;
    assert run[i].history + later == run[j].history;
    ReadUnaffected(run[i].history, later, user, q);
  }

  // ------------------------------------------------------------------ a guard on the chosen files

  // No file left out of inputs_[1] begins with the user key at which an input of that level ends.
  ghost predicate Guarded(s: Db, step: Step) {
    step.Compact? && step.level + 1 < NUM_LEVELS ==>
      forall f, g :: f in step.in1 && g in s.version[step.level + 1] && g !in step.in1 ==>
        f.largest.user != g.smallest.user
  }

  lemma CompactFacts(s: Db, step: Step, s': Db)
    requires Next(s, step, s') && step.Compact? && step.level + 1 < NUM_LEVELS
    ensures InputsSound(s.version, step.level, step.in0, step.in1) && step.ss <= SmallestSnapshot(s)
  {
    hide InputsSound, OutputsOk, Installed, NumbersOk, Survivors;
  }

  lemma LowerFacts(v: Levels, l: nat)
    requires VersionOk(v) && 1 <= l < NUM_LEVELS
    ensures FilesOk(v[l]) && DisjointSorted(v[l])
  {
    hide NewerThan, FilesOk, DisjointSorted, Level0Ok;
  }

  lemma GuardedIsSafe(s: Db, step: Step, s': Db)
    requires Structure(s) && Next(s, step, s') && Guarded(s, step)
    ensures Safe(s, step)
  {
    hide Structure, Next, InputsSound, VersionOk, FilesOk, DisjointSorted, Resurrects, Functional, AllEntries, Front;
    if step.Compact? && step.level + 1 < NUM_LEVELS {
      StructureParts(s);
      LowerFacts(s.version, step.level + 1);
      CompactFacts(s, step, s');
      InputsAreFiles(s.version, step.level, step.in0, step.in1);
      BoundaryGuardSuffices(StoredIn(s), s.version, step.level, step.in1, step.ss, SmallestSnapshot(s));
    }
  }

  /** A run in which every compaction passes the guard, which looks at file bounds alone, is safe. */
  lemma GuardedRunIsSafe(run: seq<Db>, steps: seq<Step>)
    requires IsRun(run, steps) && forall i :: 0 <= i < |steps| ==> Guarded(run[i], steps[i])
    ensures SafeRun(run, steps)
  {
    hide Structure, Next, Guarded, Safe;
    forall i | 0 <= i < |steps| ensures Safe(run[i], steps[i]) {
      RunKeepsStructure(run, steps, i);
      assert Next(run[i], steps[i], run[i + 1]) && Guarded(run[i], steps[i]);
      GuardedIsSafe(run[i], steps[i], run[i + 1]);
    }
  }
}
