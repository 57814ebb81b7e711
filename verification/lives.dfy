/** Whole lives of a database: events of the running program, crashes at any step, openings that
    fail and openings that succeed. */
module Lives {
  import opened Keys
  import opened Version
  import opened VersionLists
  import opened Lsm
  import opened Durable
  import opened Recovery

  // ------------------------------------------------------------------ crashes

  /** What a crash leaves: the disk, and the version that its manifest describes. */
  ghost function Crashed(s: Sys): Sys {
    var landed := Landed(s).(snapshots := []);
    s.(db := landed, work := Resting, versions := OneVersion(landed.version), holders := multiset{}, pending := {},
       doomedTables := {}, doomedLogs := {},
       logNumber := if Flushing(s.work) then s.memLog else s.logNumber,
       flushed := if Flushing(s.work) then s.switched else s.flushed)
  }

  lemma {:induction false} FreePointer(nodes: seq<nat>) returns (p: nat)
    ensures p != 0 && forall q :: q in nodes ==> q < p
  {
    if |nodes| == 0 {
      p := 1;
    } else {
      var n := |nodes| - 1;
      p := FreePointer(nodes[..n]);
      if nodes[n] >= p {
        p := nodes[n] + 1;
      }
      assert nodes == nodes[..n] + [nodes[n]];
    }
  }

  // Without a record that is not installed, memory and manifest agree.
  lemma QuietCrash(s: Sys)
    requires SysInv(s) && !s.work.Recorded?
    ensures IsDown(Crashed(s))
  {
    hide Structure, LogsOk, ManifestPart, VersionsPart, TablesPart, WorkPart, CountersPart, PendingPart, GarbagePart,
      HasVersion;
    var r := Crashed(s);
    NoSnapshots(s.db);
    SameLogs(s, r);
    CurrentTables(s);
    FreshParts(r);
  }

  lemma CurrentTables(s: Sys)
    requires SysInv(s)
    ensures HasVersion(s.disk.tables, s.db.version) && forall n :: n in s.disk.tables ==> n < s.db.nextFile
  {
    hide Structure, LogsOk, ManifestPart, VersionsPart, WorkPart, CountersPart, PendingPart, GarbagePart, HasVersion,
      HasVersions;
    CurrentHasFiles(s.disk.tables, s.versions, s.holders, s.db.version);
  }

  lemma NoSnapshots(db: Db)
    requires Structure(db)
    ensures Structure(db.(snapshots := [])) && StoredIn(db.(snapshots := [])) == StoredIn(db)
    ensures SmallestSnapshot(db) <= SmallestSnapshot(db.(snapshots := []))
  {
    hide VersionOk, NumbersOk;
    assert Front(db.(snapshots := [])) == Front(db);
  }

  lemma SameLogs(s: Sys, r: Sys)
    requires SysInv(s) && r.db == s.db.(snapshots := []) && r.disk == s.disk && r.writing == s.writing
    requires r.logNumber == s.logNumber && r.memLog == s.memLog && r.immLog == s.immLog && r.flushed == s.flushed
    requires r.switched == s.switched
    ensures LogsOk(r.db, r.disk.logs, r.logNumber, r.memLog, r.immLog, InFlight(r), InFlightSize(r), r.flushed,
                   r.switched)
  {
    hide Structure, ManifestPart, VersionsPart, TablesPart, WorkPart, CountersPart, PendingPart, GarbagePart, SplitAt,
      Consecutive, EndOf, LogEntries, BatchEntries;
    SameSplit(s.db, r.db, s.flushed, s.switched);
  }

  // The state in which a recorded edit is installed; a crash leaves the same.
  lemma InstallFirst(s: Sys) returns (t: Sys, p: nat)
    requires SysInv(s) && s.work.Recorded?
    ensures Happens(s, Event.Install(p), t) && SysInv(t) && Crashed(t) == Crashed(s) && !t.work.Recorded?
    ensures t.db == Installs(s.db, s.work)
  {
    hide SysInv, VersionLists.Append;
    p := FreePointer(s.versions.nodes);
    t := s.(db := Installs(s.db, s.work), work := if s.work.step.Compact? then Cleaning else Resting,
            versions := Append(s.versions, p, s.work.version),
            logNumber := if s.work.step.Flush? then s.memLog else s.logNumber,
            flushed := if s.work.step.Flush? then s.switched else s.flushed);
    InstallKeeps(s, p, t);
  }

  /** A crash at any step leaves a state that can be opened. */
  lemma CrashKeeps(s: Sys)
    requires SysInv(s)
    ensures IsDown(Crashed(s))
  {
    hide SysInv, IsDown, Crashed, Happens;
    if s.work.Recorded? {
      var t, p := InstallFirst(s);
      QuietCrash(t);
    } else {
      QuietCrash(s);
    }
  }

  // ------------------------------------------------------------------ lives

  datatype Life = Up(sys: Sys) | Down(sys: Sys)

  datatype Deed =
    | Runs(event: Event)    // a step of the running database
    | Crash
    | FailsToOpen           // an opening stops before its manifest is in force
    | StopsAfter(sys: Sys)  // or while it removes the obsolete files of the state it has reached
    | Opens

  ghost predicate Lives(run: seq<Life>, deeds: seq<Deed>) {
    && |run| == |deeds| + 1 && run[0].Up? && NewSys(run[0].sys)
    && forall k :: 0 <= k < |deeds| ==> NthDeed(run, deeds, k)
  }

  ghost predicate NthDeed(run: seq<Life>, deeds: seq<Deed>, k: nat)
    requires k < |deeds| < |run|
  {
    Does(run[k], deeds[k], run[k + 1])
  }

  ghost predicate Does(l: Life, d: Deed, l': Life) {
    match d
    case Runs(e) => l.Up? && l'.Up? && Happens(l.sys, e, l'.sys)
    case Crash => l.Up? && l'.Down? && l'.sys == Crashed(l.sys)
    case FailsToOpen => l.Down? && l'.Down? && OtherGarbage(l.sys, l'.sys)
    case StopsAfter(r) => l.Down? && l'.Down? && Recovered(l.sys, r) && OtherGarbage(r, l'.sys)
    case Opens => l.Down? && l'.Up? && Recovered(l.sys, l'.sys)
  }

  ghost predicate LifeOk(l: Life) {
    if l.Up? then SysInv(l.sys) else IsDown(l.sys)
  }

  lemma DeedKeeps(l: Life, d: Deed, l': Life)
    requires LifeOk(l) && Does(l, d, l')
    ensures LifeOk(l')
  {
    hide SysInv, Happens, OtherGarbage, Crashed;
    match d {
      case Runs(e) => EventKeeps(l.sys, e, l'.sys);
      case Crash => CrashKeeps(l.sys);
      case FailsToOpen => GarbageIsDown(l.sys, l'.sys);
      case StopsAfter(r) => GarbageIsDown(r, l'.sys);
      case Opens =>
    }
  }

  /** Through any number of crashes, at whatever step they strike, opening included: the
      invariant holds, so that the next opening succeeds. */
  lemma {:induction false} LivesKeep(run: seq<Life>, deeds: seq<Deed>, k: nat)
    requires Lives(run, deeds) && k < |run|
    ensures LifeOk(run[k])
  {
    hide LifeOk, Does;
    if k == 0 {
      hide NewSys, SysInv;
      NewSysInv(run[0].sys);
      assert LifeOk(run[0]) by { UpOk(run[0]); }
    } else {
      LivesKeep(run, deeds, k - 1);
      assert NthDeed(run, deeds, k - 1);
      DeedKeeps(run[k - 1], deeds[k - 1], run[k]);
    }
  }

  lemma UpOk(l: Life)
    requires l.Up? && SysInv(l.sys)
    ensures LifeOk(l)
  {
  }

  lemma InvariantHolds(l: Life)
    requires LifeOk(l)
    ensures SysInv(l.sys)
  {
    hide SysInv;
  }

  /** At any time, no table file of a version that anybody holds is missing, overwritten or
      chosen for deletion. */
  lemma HeldTablesExist(run: seq<Life>, deeds: seq<Deed>, k: nat, p: nat)
    requires Lives(run, deeds) && k < |run| && (p in run[k].sys.holders || p == run[k].sys.versions.current)
    ensures var s := run[k].sys;
      && p in s.versions.nodes && p in s.versions.files && HasVersion(s.disk.tables, s.versions.files[p])
      && FileNumbers(s.versions.files[p]) !! s.doomedTables
  {
    hide Lives, LifeOk, SysInv, HasVersion, FileNumbers;
    LivesKeep(run, deeds, k);
    InvariantHolds(run[k]);
    LiveTablesExist(run[k].sys, p);
  }

  // ------------------------------------------------------------------ what is read

  // The one place where a deed can harm reads: a compaction that takes effect.
  ghost predicate Harmless(l: Life, d: Deed) {
    l.sys.work.Recorded? && (d.Crash? || (d.Runs? && d.event.Install?)) ==> Safe(l.sys.db, l.sys.work.step)
  }

  lemma DbInv(s: Sys)
    requires SysInv(s)
    ensures Structure(s.db)
  {
    hide Structure, LogsOk, ManifestPart, VersionsPart, TablesPart, WorkPart, CountersPart, PendingPart, GarbagePart;
  }

  lemma RecordedIsOk(s: Sys)
    requires SysInv(s) && s.work.Recorded?
    ensures WorkOk(s.db, s.work)
  {
    hide Structure, LogsOk, ManifestPart, VersionsPart, TablesPart, CountersPart, PendingPart, GarbagePart, WorkOk;
  }

  /** An install keeps reads in agreement with the history exactly when its step is safe. */
  lemma InstallReads(s: Sys, p: nat, s': Sys)
    requires s.work.Recorded? && SysInv(s) && Happens(s, Event.Install(p), s') && Inv(s.db)
    ensures Inv(s'.db) <==> Safe(s.db, s.work.step)
  {
    hide SysInv, Structure, ReadsAgree, Safe, Next, WorkOk, VersionLists.Append;
    RecordedIsOk(s);
    WorkIsStep(s.db, s.work);
    StructureStep(s.db, s.work.step, s'.db);
    ReadsStep(s.db, s.work.step, s'.db);
  }

  // Every other event is a harmless step of the database, or none.
  lemma EventReads(s: Sys, e: Event, s': Sys)
    requires SysInv(s) && Happens(s, e, s') && Inv(s.db) && !e.Install?
    ensures Inv(s'.db)
  {
    if e.ApplyWrite? || e.SwitchLog? || e.Snap? || e.Unsnap? {
      ForegroundReads(s, e, s');
    } else if e.NewOutput? {
      OutputReads(s, s');
    } else {
      hide SysInv, Inv;
      OtherReads(s, e, s');
    }
  }

  lemma ForegroundReads(s: Sys, e: Event, s': Sys)
    requires Happens(s, e, s') && Inv(s.db) && (e.ApplyWrite? || e.SwitchLog? || e.Snap? || e.Unsnap?)
    ensures Inv(s'.db)
  {
    hide Structure, ReadsAgree, WriteStep, SwitchStep, SnapshotStep, ReleaseStep;
    match e {
      case ApplyWrite => WriteKeepsInv(s.db, s.writing.value, s'.db);
      case SwitchLog => SwitchKeepsInv(s.db, s'.db);
      case Snap => SnapshotKeepsInv(s.db, s'.db);
      case Unsnap(i) => ReleaseKeepsInv(s.db, i, s'.db);
    }
  }

  lemma OutputReads(s: Sys, s': Sys)
    requires Happens(s, NewOutput, s') && Inv(s.db)
    ensures Inv(s'.db)
  {
    MoreNumbers(s.db, s.db.nextFile + 1);
  }

  lemma MoreNumbers(db: Db, n: nat)
    requires Inv(db) && db.nextFile <= n
    ensures Inv(db.(nextFile := n))
  {
    hide Structure, StoredIn;
    RaiseNext(db, n);
    assert SmallestSnapshot(db.(nextFile := n)) == SmallestSnapshot(db);
  }

  lemma OtherReads(s: Sys, e: Event, s': Sys)
    requires Happens(s, e, s') && !e.Install? && !e.ApplyWrite? && !e.SwitchLog? && !e.Snap? && !e.Unsnap?
    requires !e.NewOutput?
    ensures s'.db == s.db
  {
    hide WorkShape, Wrote, Numbered, LiveFiles, RefTo, UnrefOf;
  }

  lemma QuietCrashReads(s: Sys)
    requires SysInv(s) && Inv(s.db) && !s.work.Recorded?
    ensures Inv(Crashed(s).db)
  {
    hide SysInv, Structure, StoredIn;
    NoSnapshots(s.db);
  }

  lemma CrashReads(s: Sys)
    requires SysInv(s) && Inv(s.db) && (s.work.Recorded? ==> Safe(s.db, s.work.step))
    ensures Inv(Crashed(s).db)
  {
    hide SysInv, Inv, Crashed, Happens, Safe;
    if s.work.Recorded? {
      var t, p := InstallFirst(s);
      InstallReads(s, p, t);
      QuietCrashReads(t);
    } else {
      QuietCrashReads(s);
    }
  }

  /** Recovery reads back what was there before. */
  lemma RecoveryReads(s: Sys, r: Sys)
    requires SysInv(s) && Recovered(s, r) && Inv(s.db)
    ensures Inv(r.db)
  {
    hide SysInv, Structure, StoredIn, InFlight;
    DbInv(r);
    InFlightIsNew(s);
    EarlierSnapshots(s.db);
    forall user, q | q >= SmallestSnapshot(r.db) ensures Read(StoredIn(r.db), user, q) == Read(r.db.history, user, q) {
      SameReadsGrow(StoredIn(s.db), s.db.history, InFlight(s), user, q);
    }
  }

  lemma EarlierSnapshots(db: Db)
    requires Structure(db)
    ensures SmallestSnapshot(db) <= db.lastSequence
  {
    hide VersionOk, NumbersOk, NewerThan, HistoryOk;
  }

  lemma InFlightIsNew(s: Sys)
    requires SysInv(s)
    ensures NewerThan(InFlight(s), s.db.history) && NewerThan(InFlight(s), StoredIn(s.db))
    ensures Functional(s.db.history + InFlight(s)) && Functional(StoredIn(s.db) + InFlight(s))
  {
    hide SysInv, Structure, StoredIn, InFlight;
    WrittenOk(s);
    DbInv(s);
    StoredWithin(s.db);
    InFlightAfter(s);
    Newer(InFlight(s), s.db.history, StoredIn(s.db), s.db.lastSequence);
  }

  lemma StoredWithin(b: Db)
    requires Structure(b)
    ensures StoredIn(b) <= b.history && forall e :: e in b.history ==> e.key.sequence <= b.lastSequence
  {
    hide VersionOk, NumbersOk, AllEntries;
  }

  lemma InFlightAfter(s: Sys)
    requires SysInv(s)
    ensures forall e :: e in InFlight(s) ==> e.key.sequence > s.db.lastSequence
  {
    hide LogsOk, ManifestPart, VersionsPart, TablesPart, WorkPart, CountersPart, PendingPart, GarbagePart, Structure,
      BatchEntries;
    if s.writing.Some? {
      BatchIsNew(s.db, s.writing.value);
    }
  }

  lemma Newer(newer: set<Entry>, older: set<Entry>, kept: set<Entry>, last: nat)
    requires kept <= older && Functional(older + newer)
    requires forall e :: e in older ==> e.key.sequence <= last
    requires forall e :: e in newer ==> e.key.sequence > last
    ensures NewerThan(newer, older) && NewerThan(newer, kept) && Functional(kept + newer)
  {
    assert kept + newer <= older + newer;
  }

  lemma DeedReads(l: Life, d: Deed, l': Life)
    requires LifeOk(l) && Does(l, d, l') && Harmless(l, d) && Inv(l.sys.db)
    ensures Inv(l'.sys.db)
  {
    hide LifeOk, Inv, SysInv, Happens, Crashed, Safe, Recovered;
    InvariantHolds(l);
    match d {
      case Runs(e) =>
        if e.Install? {
          IsRecorded(l.sys, e, l'.sys);
          InstallReads(l.sys, e.pointer, l'.sys);
        } else {
          EventReads(l.sys, e, l'.sys);
        }
      case Crash => CrashReads(l.sys);
      case FailsToOpen => GarbageReads(l.sys, l'.sys);
      case StopsAfter(r) =>
        RecoveryReads(l.sys, r);
        GarbageReads(r, l'.sys);
      case Opens => RecoveryReads(l.sys, l'.sys);
    }
  }

  lemma IsRecorded(s: Sys, e: Event, s': Sys)
    requires Happens(s, e, s') && e.Install?
    ensures s.work.Recorded?
  {
    hide VersionLists.Append;
  }

  lemma GarbageReads(s: Sys, s': Sys)
    requires OtherGarbage(s, s') && Inv(s.db)
    ensures Inv(s'.db)
  {
    hide Inv, HasVersion;
    MoreNumbers(s.db, s'.db.nextFile);
  }

  /** The whole life: as long as every compaction that takes effect, at its install or through a
      crash after its record, is a safe step, every read at or above the smallest snapshot finds
      in the stores what the history of acknowledged writes holds. */
  lemma {:induction false} LivesRead(run: seq<Life>, deeds: seq<Deed>, k: nat)
    requires Lives(run, deeds) && k < |run| && forall j :: 0 <= j < k ==> Harmless(run[j], deeds[j])
    ensures Inv(run[k].sys.db)
    ensures forall user, q :: q >= SmallestSnapshot(run[k].sys.db) ==>
              Read(StoredIn(run[k].sys.db), user, q) == Read(run[k].sys.db.history, user, q)
  {
    hide LifeOk, Does, Structure, StoredIn, Harmless;
    if k == 0 {
      InitInv(run[0].sys.db);
    } else {
      LivesKeep(run, deeds, k - 1);
      LivesRead(run, deeds, k - 1);
      assert NthDeed(run, deeds, k - 1) && Harmless(run[k - 1], deeds[k - 1]);
      DeedReads(run[k - 1], deeds[k - 1], run[k]);
    }
  }

  // No deed takes anything out of the history.
  lemma DeedAcknowledged(l: Life, d: Deed, l': Life)
    requires LifeOk(l) && Does(l, d, l')
    ensures l.sys.db.history <= l'.sys.db.history && l.sys.db.lastSequence <= l'.sys.db.lastSequence
    ensures forall e :: e in l'.sys.db.history && e !in l.sys.db.history ==> e.key.sequence > l.sys.db.lastSequence
  {
    hide LifeOk, SysInv, BatchEntries, Happens;
    InvariantHolds(l);
    match d {
      case Runs(e) => EventAcknowledged(l.sys, e, l'.sys);
      case Crash =>
      case FailsToOpen =>
      case StopsAfter(r) => InFlightAfter(l.sys);
      case Opens => InFlightAfter(l.sys);
    }
  }

  lemma EventAcknowledged(s: Sys, e: Event, s': Sys)
    requires SysInv(s) && Happens(s, e, s')
    ensures s.db.history <= s'.db.history && s.db.lastSequence <= s'.db.lastSequence
    ensures forall e :: e in s'.db.history && e !in s.db.history ==> e.key.sequence > s.db.lastSequence
  {
    hide SysInv, Happens, BatchEntries;
    if e.ApplyWrite? {
      WriteAcknowledged(s, s');
    } else if e.SwitchLog? || e.Snap? || e.Unsnap? || e.Install? || e.NewOutput? {
      HistoryStays(s, e, s');
    } else {
      OtherReads(s, e, s');
    }
  }

  lemma WriteAcknowledged(s: Sys, s': Sys)
    requires Happens(s, ApplyWrite, s')
    ensures s.db.history <= s'.db.history && s.db.lastSequence <= s'.db.lastSequence
    ensures forall e :: e in s'.db.history && e !in s.db.history ==> e.key.sequence > s.db.lastSequence
  {
    hide Sorted;
  }

  lemma HistoryStays(s: Sys, e: Event, s': Sys)
    requires Happens(s, e, s') && (e.SwitchLog? || e.Snap? || e.Unsnap? || e.Install? || e.NewOutput?)
    ensures s'.db.history == s.db.history && s'.db.lastSequence == s.db.lastSequence
  {
    hide VersionLists.Append;
  }

  lemma {:induction false} AcknowledgedStays(run: seq<Life>, deeds: seq<Deed>, j: nat, k: nat)
    requires Lives(run, deeds) && j <= k < |run|
    ensures run[j].sys.db.history <= run[k].sys.db.history && run[j].sys.db.lastSequence <= run[k].sys.db.lastSequence
    ensures forall e :: e in run[k].sys.db.history && e !in run[j].sys.db.history ==>
      e.key.sequence > run[j].sys.db.lastSequence
    decreases k
  {
    hide LifeOk, Does, NewSys;
    if j < k {
      AcknowledgedStays(run, deeds, j, k - 1);
      LivesKeep(run, deeds, k - 1);
      assert NthDeed(run, deeds, k - 1);
      DeedAcknowledged(run[k - 1], deeds[k - 1], run[k]);
    }
  }

  /** What was acknowledged is read back after any number of crashes and openings: a read at a
      protected sequence number that was reached by state j finds at state k what had been
      written by state j. */
  lemma AcknowledgedIsRead(run: seq<Life>, deeds: seq<Deed>, j: nat, k: nat, user: UserKey, q: nat)
    requires Lives(run, deeds) && j <= k < |run| && forall i :: 0 <= i < k ==> Harmless(run[i], deeds[i])
    requires SmallestSnapshot(run[k].sys.db) <= q <= run[j].sys.db.lastSequence
    ensures Read(StoredIn(run[k].sys.db), user, q) == Read(run[j].sys.db.history, user, q)
  {
    hide Lives, Structure, StoredIn, Harmless, SmallestSnapshot;
    LivesRead(run, deeds, k);
    AcknowledgedStays(run, deeds, j, k);
    var later := run[k].sys.db.history - run[j].sys.db.history;
    assert run[j].sys.db.history + later == run[k].sys.db.history;
    assert Functional(run[k].sys.db.history) by { HistoryFunctional(run[k].sys.db); }
    ReadUnaffected(run[j].sys.db.history, later, user, q);
  }

  lemma HistoryFunctional(db: Db)
    requires Inv(db)
    ensures Functional(db.history)
  {
    hide VersionOk, NumbersOk, NewerThan, ReadsAgree;
  }
}
