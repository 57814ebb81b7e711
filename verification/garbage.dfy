/** What RemoveObsoleteFiles chooses in a running system (db/db_impl.cc): the files that the
    state machine calls garbage, and none that a later opening needs. */
module Garbage {
  import opened Keys
  import opened Version
  import opened VersionLists
  import opened Lsm
  import opened Durable
  import opened Recovery

  // The directory lists the tables and logs that are on disk, and perhaps other files.
  ghost predicate Lists(children: seq<FileName>, disk: Disk) {
    && (forall n: nat :: Table(n) in children <==> n in disk.tables)
    && forall n: nat :: LogFile(n) in children <==> n in disk.logs
  }

  // A log from which the next opening would replay.
  ghost predicate Replayed(s: Sys, n: nat) {
    exists order :: Increasing(order) && (forall m :: m in order <==> m in s.disk.logs && m >= s.logNumber)
      && n in order
  }

  /** RemoveObsoleteFiles is the event Collect, and dooms no log that an opening would replay.
      prev_log_number_ is 0, since no edit sets it to anything else, and no log has that number. */
  method RemoveObsoleteFiles(children: seq<FileName>, vs: VersionSet, pending: set<nat>, logNumber: nat,
                             manifestNumber: nat, ghost s: Sys)
    returns (doomed: seq<FileName>, ghost s': Sys)
    requires SysInv(s) && vs.Valid() && vs.State() == s.versions && pending == s.pending && logNumber == s.logNumber
    requires Lists(children, s.disk) && (s.work.Planned() ==> !s.work.step.Flush?)
    ensures Happens(s, Collect, s')
    ensures forall n: nat :: Table(n) in doomed <==> n in s'.doomedTables
    ensures forall n: nat :: LogFile(n) in doomed <==> n in s'.doomedLogs
    ensures forall n: nat :: Replayed(s, n) ==> LogFile(n) !in doomed
    ensures LogFile(s.memLog) !in doomed && (s.db.imm.Some? ==> LogFile(s.immLog) !in doomed)
  {
    hide SysInv, LiveFiles, Increasing;
    LogNumbers(s);
    LogsInUse(s);
    doomed := ObsoleteFiles(children, vs, pending, logNumber, 0, manifestNumber);
    s' := s.(doomedTables := s.disk.tables.Keys - s.pending - LiveFiles(s.versions),
             doomedLogs := set n | n in s.disk.logs && n < s.logNumber);
  }

  lemma LogsInUse(s: Sys)
    requires SysInv(s)
    ensures s.memLog in s.disk.logs && s.memLog >= s.logNumber
    ensures s.db.imm.Some? ==> s.immLog in s.disk.logs && s.immLog >= s.logNumber
  {
    hide Structure, ManifestPart, VersionsPart, TablesPart, WorkPart, CountersPart, PendingPart, GarbagePart, SplitAt,
      Consecutive, EndOf, LogEntries, BatchEntries;
  }
}
