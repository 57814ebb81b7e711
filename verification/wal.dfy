/** The write-ahead log in bytes: what the write queue appends is what the database logs, and
    what reading the file back gives (DBImpl::Write and RecoverLogFile in db/db_impl.cc). */
module Wal {
  import opened Keys
  import opened Version
  import opened Coding
  import opened WriteBatches
  import opened Merger
  import opened Lsm
  import opened DbImpl
  import opened Durable
  import LogFormat
  import WriteQueue

  // An operation as the database sees it: a user key stands for its rank.
  function UpdateOf(op: Op, rank: Bytes -> real): Update {
    match op
    case Put(k, v) => Update(Value, rank(k), v)
    case Delete(k) => Update(Deletion, rank(k), [])
  }

  function Updates(ops: seq<Op>, rank: Bytes -> real): (r: seq<Update>)
    ensures |r| == |ops|
  {
    seq(|ops|, i requires 0 <= i < |ops| => UpdateOf(ops[i], rank))
  }

  // One record of the log, in bytes.
  ghost predicate IsRecord(b: LogBatch, record: Bytes, rank: Bytes -> real) {
    exists ops :: WellFormed(ops) && b.first < 0x1_0000_0000_0000_0000 && record == Encoded(b.first, ops)
      && b.batch == Updates(ops, rank)
  }

  ghost predicate InBytes(log: seq<LogBatch>, records: seq<Bytes>, rank: Bytes -> real) {
    |log| == |records| && forall i :: 0 <= i < |log| ==> IsRecord(log[i], records[i], rank)
  }

  // ------------------------------------------------------------------ reading it back

  /** A record that was only partly written is absent, and those before it are there. */
  lemma TornRecordIsAbsent(crc: LogFormat.Crc, records: seq<Bytes>, r: Bytes, file: Bytes)
    requires LogFormat.Layout(crc, 0, records) <= file < LogFormat.Layout(crc, 0, records + [r])
    ensures LogFormat.Complete(crc, 0, records + [r], |file|) == |records|
  {
    hide LogFormat.Layout, LogFormat.Complete;
    var all := records + [r];
    Prefixes(records, r);
    Shorter(LogFormat.Layout(crc, 0, records), file, LogFormat.Layout(crc, 0, all));
    LogFormat.CompleteIsPrefix(crc, 0, all, |file|, |records|);
    LogFormat.CompleteIsPrefix(crc, 0, all, |file|, |all|);
  }

  lemma Prefixes(records: seq<Bytes>, r: Bytes)
    ensures (records + [r])[..|records|] == records && (records + [r])[..|records| + 1] == records + [r]
  {
  }

  lemma Shorter(a: Bytes, file: Bytes, b: Bytes)
    requires a <= file < b
    ensures |a| <= |file| < |b|
  {
  }

  // WriteBatchInternal::Sequence and Iterate on one record.
  method DecodeRecord(record: Bytes, rank: Bytes -> real, ghost b: LogBatch) returns (r: Option<LogBatch>)
    ensures IsRecord(b, record, rank) ==> r == Some(b)
  {
    if |record| < HEADER {
      assert forall first: U64, ops: seq<Op> | |ops| < 0x8000_0000 :: |Encoded(first, ops)| >= HEADER;
      return None;
    }
    var ops, status := IterateBytes(record);
    if status != Ok {
      Decodes(record, rank, b);
      return None;
    }
    Decodes(record, rank, b);
    r := Some(LogBatch(FromFixed(record[..8]), Updates(ops, rank)));
  }

  lemma Decodes(record: Bytes, rank: Bytes -> real, b: LogBatch)
    requires |record| >= HEADER
    ensures IsRecord(b, record, rank) ==>
      var (ops, s) := Parse(record[HEADER..]);
      s == Ok && |ops| == Decode32(record[8..12]) && FromFixed(record[..8]) == b.first && Updates(ops, rank) == b.batch
  {
    hide Updates, Parse, Fixed, FromFixed, Decode32, Records;
    if IsRecord(b, record, rank) {
      var ops :| WellFormed(ops) && b.first < 0x1_0000_0000_0000_0000 && record == Encoded(b.first, ops)
        && b.batch == Updates(ops, rank);
      assert record[..8] == Fixed(b.first, 8) && record[8..12] == Fixed(|ops|, 4) && record[12..] == Records(ops);
      Fixed32RoundTrip(|ops|);
      Fixed64RoundTrip(b.first);
      ParseRecords(ops);
    }
  }

  /** Reading a log file that ends anywhere gives the batches whose records are complete. */
  method ReadLog(crc: LogFormat.Crc, file: Bytes, checksum: bool, rank: Bytes -> real, ghost log: seq<LogBatch>,
                 ghost records: seq<Bytes>)
    returns (found: seq<LogBatch>, reports: seq<(int, string)>)
    ensures file <= LogFormat.Layout(crc, 0, records) && InBytes(log, records, rank) ==>
      reports == [] && found == log[..LogFormat.Complete(crc, 0, records, |file|)]
  {
    hide LogFormat.Layout, LogFormat.Complete, IsRecord;
    var out;
    out, reports := LogFormat.ReadAll(crc, file, checksum, records);
    ghost var good := file <= LogFormat.Layout(crc, 0, records) && InBytes(log, records, rank);
    found := [];
    for i := 0 to |out|
      invariant good ==> |out| <= |log| && found == log[..i]
    {
      var b := DecodeRecord(out[i], rank, if good then log[i] else LogBatch(0, []));
      if b.Some? {
        found := found + [b.value];
      }
    }
  }

  // ------------------------------------------------------------------ writing it

  // The queue and the database side by side: the log of the current memtable is the part of
  // the queue's log from n on.
  ghost predicate Related(q: WriteQueue.State, s: Sys, rank: Bytes -> real, n: nat) {
    && q.lastSequence == s.db.lastSequence && !q.phase.Failing? && n <= |q.log|
    && s.memLog in s.disk.logs && InBytes(s.disk.logs[s.memLog], q.log[n..], rank)
    && s.writing == if q.phase.Inserting? then Some(Updates(q.phase.ops, rank)) else None
  }

  // The memtable after a batch.
  lemma {:induction false} AllInserted(db: Db, batch: seq<Update>, i: nat) returns (mem: seq<Entry>)
    requires HistoryOk(db) && Sorted(db.mem) && i <= |batch|
    ensures Inserted(db, batch, i, mem)
  {
    if i == 0 {
      mem := db.mem;
      assert Contents(BatchEntries(db.lastSequence + 1, batch)[..0]) == {};
    } else {
      var before := AllInserted(db, batch, i - 1);
      InsertNext(db, batch, i - 1, before);
      mem := Merge(before, [BatchEntries(db.lastSequence + 1, batch)[i - 1]]);
    }
  }

  lemma WriteExists(db: Db, batch: seq<Update>) returns (db': Db)
    requires Structure(db) && db.lastSequence + |batch| < MAX_SEQUENCE
    ensures WriteStep(db, batch, db')
  {
    hide Structure, HistoryOk, Sorted, Inserted;
    StartsSorted(db);
    var mem := AllInserted(db, batch, |batch|);
    var all := BatchEntries(db.lastSequence + 1, batch);
    assert all[..|batch|] == all;
    WholeBatch(db, batch, mem);
    db' := db.(mem := mem, lastSequence := db.lastSequence + |batch|, history := db.history + Contents(all));
  }

  lemma StartsSorted(db: Db)
    requires Structure(db)
    ensures HistoryOk(db) && Sorted(db.mem)
  {
    hide VersionOk, NumbersOk, NewerThan, HistoryOk, Sorted;
  }

  lemma WholeBatch(db: Db, batch: seq<Update>, mem: seq<Entry>)
    requires Inserted(db, batch, |batch|, mem)
    ensures Sorted(mem) && Contents(mem) == Contents(db.mem) + Contents(BatchEntries(db.lastSequence + 1, batch))
  {
    hide Sorted, BatchEntries;
    var all := BatchEntries(db.lastSequence + 1, batch);
    assert all[..|batch|] == all;
  }

  lemma RecordAdded(log: seq<LogBatch>, records: seq<Bytes>, rank: Bytes -> real, first: U64, ops: seq<Op>)
    requires InBytes(log, records, rank) && WellFormed(ops)
    ensures InBytes(log + [LogBatch(first, Updates(ops, rank))], records + [Encoded(first, ops)], rank)
  {
    assert IsRecord(LogBatch(first, Updates(ops, rank)), Encoded(first, ops), rank);
    hide IsRecord;
  }

  /** Every step of the write queue that does not fail is an event of the database or none: the
      record goes into the log first, and the whole group shows when it finishes. */
  lemma QueueStepIsEvent(q: WriteQueue.State, a: WriteQueue.Action, q': WriteQueue.State, s: Sys, rank: Bytes -> real,
                         n: nat)
    returns (s': Sys)
    requires WriteQueue.Inv(q) && WriteQueue.Step(q, a, q') && !a.LogFails? && !a.SyncFails? && Related(q, s, rank, n)
    requires Structure(s.db) && (!q.phase.Resting? ==> q.lastSequence + |q.phase.ops| < MAX_SEQUENCE)
    ensures Related(q', s', rank, n)
    ensures if a.LogDone? then Happens(s, LogWrite(Updates(q.phase.ops, rank)), s')
            else if a.Finish? then Happens(s, ApplyWrite, s') else s' == s
  {
    hide Structure, WriteQueue.Inv, WriteQueue.Step, Related, Happens;
    if a.LogDone? {
      s' := GroupLogged(q, q', s, rank, n);
    } else if a.Finish? {
      s' := GroupApplied(q, q', s, rank, n);
    } else {
      s' := s;
      NothingShows(q, a, q', s, rank, n);
    }
  }

  lemma GroupLogged(q: WriteQueue.State, q': WriteQueue.State, s: Sys, rank: Bytes -> real, n: nat) returns (s': Sys)
    requires WriteQueue.Inv(q) && WriteQueue.Step(q, WriteQueue.LogDone, q') && Related(q, s, rank, n)
    requires !q.phase.Resting? ==> q.lastSequence + |q.phase.ops| < MAX_SEQUENCE
    ensures q.phase.Logging? && Related(q', s', rank, n) && Happens(s, LogWrite(Updates(q.phase.ops, rank)), s')
  {
    hide InBytes, Updates, WriteQueue.Consecutive, WriteQueue.Applied, Encoded, WellFormed;
    var b, log := LogBatch(s.db.lastSequence + 1, Updates(q.phase.ops, rank)), s.disk.logs[s.memLog];
    s' := s.(writing := Some(b.batch), disk := s.disk.(logs := s.disk.logs[s.memLog := log + [b]]));
    RecordAdded(log, q.log[n..], rank, b.first, q.phase.ops);
    assert q'.log[n..] == q.log[n..] + [Encoded(b.first, q.phase.ops)];
  }

  lemma GroupApplied(q: WriteQueue.State, q': WriteQueue.State, s: Sys, rank: Bytes -> real, n: nat) returns (s': Sys)
    requires WriteQueue.Step(q, WriteQueue.Finish, q') && Related(q, s, rank, n)
    requires Structure(s.db) && (!q.phase.Resting? ==> q.lastSequence + |q.phase.ops| < MAX_SEQUENCE)
    ensures Related(q', s', rank, n) && Happens(s, ApplyWrite, s')
  {
    hide Structure, InBytes, Updates, WriteStep;
    var db' := WriteExists(s.db, Updates(q.phase.ops, rank));
    s' := s.(db := db', writing := None);
    WriteAdvances(s.db, Updates(q.phase.ops, rank), db');
  }

  lemma NothingShows(q: WriteQueue.State, a: WriteQueue.Action, q': WriteQueue.State, s: Sys, rank: Bytes -> real,
                     n: nat)
    requires WriteQueue.Step(q, a, q') && !a.LogDone? && !a.Finish? && !a.LogFails? && !a.SyncFails?
      && Related(q, s, rank, n)
    ensures Related(q', s, rank, n)
  {
    hide InBytes, Updates;
  }

  lemma WriteAdvances(db: Db, batch: seq<Update>, db': Db)
    requires WriteStep(db, batch, db')
    ensures db'.lastSequence == db.lastSequence + |batch|
  {
    hide Sorted, BatchEntries;
  }
}
