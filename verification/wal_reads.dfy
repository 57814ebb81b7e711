/** What a logged operation means to a read: after a put the key has its value, after a deletion
    it has none, whether the batch is applied (MemTableInserter in db/write_batch.cc) or replayed
    from the log (RecoverLogFile in db/db_impl.cc). */
module WalReads {
  import opened Keys
  import opened Version
  import Coding
  import opened WriteBatches
  import opened Lsm
  import opened Durable
  import opened Wal
  import LogFormat
  import WriteQueue

  // Operation i is the last one on its key.
  ghost predicate LastOnKey(ops: seq<Op>, i: nat) {
    i < |ops| && forall j :: i < j < |ops| ==> ops[j].key != ops[i].key
  }

  // Different keys have different ranks.
  ghost predicate RanksApart(ops: seq<Op>, rank: Bytes -> real) {
    forall i, j :: 0 <= i < |ops| && 0 <= j < |ops| && rank(ops[i].key) == rank(ops[j].key) ==> ops[i].key == ops[j].key
  }

  // What a read finds after an operation.
  function Leaves(op: Op): Option<Bytes> {
    match op
    case Put(k, v) => Some(v)
    case Delete(k) => None
  }

  // Entries of this user key, if there are any, have smaller numbers.
  ghost predicate OlderThan(older: set<Entry>, user: UserKey, first: nat) {
    forall e :: e in older && e.key.user == user ==> e.key.sequence < first
  }

  // ------------------------------------------------------------------ one batch

  lemma UpdatesRead(first: nat, ops: seq<Op>, rank: Bytes -> real, older: set<Entry>, i: nat)
    requires LastOnKey(ops, i) && RanksApart(ops, rank) && OlderThan(older, rank(ops[i].key), first)
    ensures Keys.Read(older + Contents(BatchEntries(first, Updates(ops, rank))), rank(ops[i].key), first + |ops| - 1)
         == Leaves(ops[i])
  {
    hide BatchEntries, Updates, Newest, Keys.Read;
    var all := BatchEntries(first, Updates(ops, rank));
    var user := rank(ops[i].key);
    EntryOf(first, ops, rank, i);
    LastIsNewest(first, ops, rank, older, i);
    OneNewest(older + Contents(all), user, first + |ops| - 1, all[i]);
  }

  lemma EntryOf(first: nat, ops: seq<Op>, rank: Bytes -> real, j: nat)
    requires j < |ops|
    ensures |BatchEntries(first, Updates(ops, rank))| == |ops|
    ensures var e := BatchEntries(first, Updates(ops, rank))[j];
      && e.key.user == rank(ops[j].key) && e.key.sequence == first + j
      && (if e.key.kind.Value? then Some(e.value) else None) == Leaves(ops[j])
  {
    hide BatchEntries;
  }

  // Among the visible entries of its key the last operation's is the only one with its number.
  lemma LastIsNewest(first: nat, ops: seq<Op>, rank: Bytes -> real, older: set<Entry>, i: nat)
    requires LastOnKey(ops, i) && RanksApart(ops, rank) && OlderThan(older, rank(ops[i].key), first)
    ensures |BatchEntries(first, Updates(ops, rank))| == |ops|
    ensures var all := BatchEntries(first, Updates(ops, rank));
      all[i] in older + Contents(all) && forall d ::
        d in older + Contents(all) && d.key.user == rank(ops[i].key) ==> d == all[i] || d.key.sequence < first + i
  {
    hide BatchEntries, Updates;
    var all := BatchEntries(first, Updates(ops, rank));
    EntryOf(first, ops, rank, i);
    forall d | d in older + Contents(all) && d.key.user == rank(ops[i].key)
      ensures d == all[i] || d.key.sequence < first + i {
      if d in all {
        var j :| 0 <= j < |all| && all[j] == d;
        EntryOf(first, ops, rank, j);
        assert ops[j].key == ops[i].key && j <= i;
      }
    }
  }

  lemma OneNewest(es: set<Entry>, user: UserKey, q: nat, e: Entry)
    requires e in es && e.key.user == user && e.key.sequence <= q
    requires forall d :: d in es && d.key.user == user ==> d == e || d.key.sequence < e.key.sequence
    ensures Keys.Read(es, user, q) == if e.key.kind.Value? then Some(e.value) else None
  {
    assert Newest(es, user, q, e);
    forall d | Newest(es, user, q, d) ensures d == e {
    }
  }

  // A record determines its batch.
  lemma RecordIs(b: LogBatch, first: Coding.U64, ops: seq<Op>, rank: Bytes -> real)
    requires WellFormed(ops) && IsRecord(b, Encoded(first, ops), rank)
    ensures b == LogBatch(first, Updates(ops, rank))
  {
    var record := Encoded(first, ops);
    RecordAdded([], [], rank, first, ops);
    assert [] + [LogBatch(first, Updates(ops, rank))] == [LogBatch(first, Updates(ops, rank))];
    assert InBytes([LogBatch(first, Updates(ops, rank))], [record], rank);
    hide Updates, Parse, Encoded;
    assert IsRecord([LogBatch(first, Updates(ops, rank))][0], [record][0], rank);
    LongEnough(first, ops);
    Decodes(record, rank, b);
    Decodes(record, rank, LogBatch(first, Updates(ops, rank)));
  }

  lemma LongEnough(first: Coding.U64, ops: seq<Op>)
    requires |ops| < 0x8000_0000
    ensures |Encoded(first, ops)| >= HEADER
  {
    hide Records;
  }

  /** The last operation of a logged batch on a key decides what a read of the key finds. */
  lemma RecordIsRead(b: LogBatch, first: Coding.U64, ops: seq<Op>, rank: Bytes -> real, older: set<Entry>, i: nat)
    requires WellFormed(ops) && IsRecord(b, Encoded(first, ops), rank)
    requires LastOnKey(ops, i) && RanksApart(ops, rank) && OlderThan(older, rank(ops[i].key), first)
    ensures b.first == first && |b.batch| == |ops|
    ensures Keys.Read(older + Contents(BatchEntries(b.first, b.batch)), rank(ops[i].key), first + |ops| - 1)
      == Leaves(ops[i])
  {
    RecordIs(b, first, ops, rank);
    UpdatesRead(first, ops, rank, older, i);
  }

  // ------------------------------------------------------------------ a whole log

  function Together(opss: seq<seq<Op>>): seq<Op> {
    if |opss| == 0 then [] else Together(opss[..|opss| - 1]) + opss[|opss| - 1]
  }

  // The records of these batches, numbered from `first` on.
  ghost predicate Numbered(records: seq<Bytes>, opss: seq<seq<Op>>, first: nat) {
    && |records| == |opss|
    && forall k :: 0 <= k < |opss| ==>
         && WellFormed(opss[k]) && first + |Together(opss[..k])| < 0x1_0000_0000_0000_0000
         && records[k] == Encoded(first + |Together(opss[..k])|, opss[k])
  }

  lemma BatchesJoin(first: nat, a: seq<Op>, b: seq<Op>, rank: Bytes -> real)
    ensures Contents(BatchEntries(first, Updates(a + b, rank)))
         == Contents(BatchEntries(first, Updates(a, rank))) + Contents(BatchEntries(first + |a|, Updates(b, rank)))
  {
    hide BatchEntries;
    var x, y := BatchEntries(first, Updates(a, rank)), BatchEntries(first + |a|, Updates(b, rank));
    assert BatchEntries(first, Updates(a + b, rank)) == x + y;
  }

  lemma {:induction false} LogIsOneBatch(log: seq<LogBatch>, records: seq<Bytes>, opss: seq<seq<Op>>, first: nat,
                                         rank: Bytes -> real)
    requires InBytes(log, records, rank) && Numbered(records, opss, first)
    ensures LogEntries(log) == Contents(BatchEntries(first, Updates(Together(opss), rank)))
  {
    hide BatchEntries, Updates, Encoded, IsRecord, WellFormed;
    if |log| > 0 {
      var n := |log| - 1;
      var front := opss[..n];
      NumberedFront(records, opss, first);
      LogIsOneBatch(log[..n], records[..n], front, first, rank);
      assert IsRecord(log[n], records[n], rank);
      RecordIs(log[n], first + |Together(front)|, opss[n], rank);
      BatchesJoin(first, Together(front), opss[n], rank);
    } else {
      NothingLogged(first, rank);
    }
  }

  lemma NothingLogged(first: nat, rank: Bytes -> real)
    ensures Contents(BatchEntries(first, Updates([], rank))) == {}
  {
  }

  lemma NumberedFront(records: seq<Bytes>, opss: seq<seq<Op>>, first: nat)
    requires Numbered(records, opss, first) && |opss| > 0
    ensures Numbered(records[..|opss| - 1], opss[..|opss| - 1], first)
  {
    hide Together, Encoded, WellFormed;
    var n := |opss| - 1;
    assert forall k :: 0 <= k < n ==> opss[..n][..k] == opss[..k];
  }

  /** The entries of a log that was read back: the last operation on a key in all its batches
      decides what a read of the key finds.  ReadLog gives such a log for the records that are
      complete in the file. */
  lemma LogIsRead(log: seq<LogBatch>, records: seq<Bytes>, opss: seq<seq<Op>>, first: nat, rank: Bytes -> real,
                  older: set<Entry>, i: nat)
    requires InBytes(log, records, rank) && Numbered(records, opss, first)
    requires var ops := Together(opss);
      LastOnKey(ops, i) && RanksApart(ops, rank) && OlderThan(older, rank(ops[i].key), first)
    ensures var ops := Together(opss);
      Keys.Read(older + LogEntries(log), rank(ops[i].key), first + |ops| - 1) == Leaves(ops[i])
  {
    hide InBytes, Numbered, Updates, BatchEntries, LogEntries, Together, LastOnKey, RanksApart, OlderThan;
    LogIsOneBatch(log, records, opss, first, rank);
    UpdatesRead(first, Together(opss), rank, older, i);
  }

  lemma FoundInBytes(log: seq<LogBatch>, records: seq<Bytes>, opss: seq<seq<Op>>, first: nat, rank: Bytes -> real,
                     n: nat)
    requires InBytes(log, records, rank) && Numbered(records, opss, first) && n <= |log|
    ensures InBytes(log[..n], records[..n], rank) && Numbered(records[..n], opss[..n], first)
  {
    hide Together, Encoded, WellFormed, IsRecord;
    assert forall k :: 0 <= k < n ==> opss[..n][..k] == opss[..k];
  }

  /** RecoverLogFile up to the memtables: reading a file that ends anywhere in the log gives
      batches after which every key reads as the last operation on it in a complete record says. */
  method ReplayFile(crc: LogFormat.Crc, file: Bytes, checksum: bool, rank: Bytes -> real, ghost log: seq<LogBatch>,
                    ghost records: seq<Bytes>, ghost opss: seq<seq<Op>>, ghost first: nat, ghost older: set<Entry>)
    returns (found: seq<LogBatch>)
    ensures
      file <= LogFormat.Layout(crc, 0, records) && InBytes(log, records, rank) && Numbered(records, opss, first) ==>
      var n := LogFormat.Complete(crc, 0, records, |file|);
      && |found| == n <= |opss|
      && forall i: nat :: ReadsAsLeft(Together(opss[..n]), rank, first, older, LogEntries(found), i)
  {
    hide LogFormat.Layout, LogFormat.Complete, ReadsAsLeft, LogEntries, InBytes, Numbered;
    var reports;
    found, reports := ReadLog(crc, file, checksum, rank, log, records);
    if file <= LogFormat.Layout(crc, 0, records) && InBytes(log, records, rank) && Numbered(records, opss, first) {
      SameLength(log, records, opss, first, rank);
      var n := LogFormat.Complete(crc, 0, records, |file|);
      FoundInBytes(log, records, opss, first, rank, n);
      forall i: nat ensures ReadsAsLeft(Together(opss[..n]), rank, first, older, LogEntries(found), i) {
        LogReadsAsLeft(found, records[..n], opss[..n], first, rank, older, i);
      }
    }
  }

  // If operation i is the last one on its key, a read of the key finds what it leaves.
  ghost predicate ReadsAsLeft(ops: seq<Op>, rank: Bytes -> real, first: nat, older: set<Entry>, entries: set<Entry>,
                              i: nat) {
    LastOnKey(ops, i) && RanksApart(ops, rank) && OlderThan(older, rank(ops[i].key), first) ==>
      Keys.Read(older + entries, rank(ops[i].key), first + |ops| - 1) == Leaves(ops[i])
  }

  lemma SameLength(log: seq<LogBatch>, records: seq<Bytes>, opss: seq<seq<Op>>, first: nat, rank: Bytes -> real)
    requires InBytes(log, records, rank) && Numbered(records, opss, first)
    ensures |log| == |records| == |opss|
  {
  }

  lemma LogReadsAsLeft(log: seq<LogBatch>, records: seq<Bytes>, opss: seq<seq<Op>>, first: nat, rank: Bytes -> real,
                       older: set<Entry>, i: nat)
    requires InBytes(log, records, rank) && Numbered(records, opss, first)
    ensures ReadsAsLeft(Together(opss), rank, first, older, LogEntries(log), i)
  {
    hide LastOnKey, RanksApart, OlderThan, LogEntries, InBytes, Numbered;
    var ops := Together(opss);
    if LastOnKey(ops, i) && RanksApart(ops, rank) {
      OnKey(ops, i);
      if OlderThan(older, rank(ops[i].key), first) {
        LogIsRead(log, records, opss, first, rank, older, i);
      }
    }
  }

  lemma OnKey(ops: seq<Op>, i: nat)
    requires LastOnKey(ops, i)
    ensures i < |ops|
  {
  }

  // ------------------------------------------------------------------ applying it

  /** When a group has been applied, every key it wrote reads at the new last sequence number as
      the last operation on it says, and no other key reads otherwise than before. */
  lemma GroupIsRead(q: WriteQueue.State, q': WriteQueue.State, s: Sys, s': Sys, rank: Bytes -> real, n: nat)
    requires WriteQueue.Step(q, WriteQueue.Finish, q') && Related(q, s, rank, n)
    requires Structure(s.db) && Happens(s, ApplyWrite, s') && RanksApart(q.phase.ops, rank)
    ensures forall i: nat :: LastOnKey(q.phase.ops, i) ==>
      Keys.Read(StoredIn(s'.db), rank(q.phase.ops[i].key), s'.db.lastSequence) == Leaves(q.phase.ops[i])
    ensures forall user: real :: (forall op :: op in q.phase.ops ==> rank(op.key) != user) ==>
      Keys.Read(StoredIn(s'.db), user, s'.db.lastSequence) == Keys.Read(StoredIn(s.db), user, s.db.lastSequence)
  {
    var ops := q.phase.ops;
    hide *;
    GroupAdds(q, q', s, s', rank, n);
    forall i: nat | LastOnKey(ops, i) ensures i < |ops| {
      OnKey(ops, i);
    }
    forall i: nat | LastOnKey(ops, i)
      ensures Keys.Read(StoredIn(s'.db), rank(ops[i].key), s'.db.lastSequence) == Leaves(ops[i]) {
      BatchIsRead(s.db, s'.db, ops, rank, i);
    }
    forall user: real | forall op :: op in ops ==> rank(op.key) != user
      ensures Keys.Read(StoredIn(s'.db), user, s'.db.lastSequence)
        == Keys.Read(StoredIn(s.db), user, s.db.lastSequence) {
      OthersAreRead(s.db, s'.db, ops, rank, user);
    }
  }

  // The state after a batch of operations.
  ghost predicate Grows(db: Db, db': Db, ops: seq<Op>, rank: Bytes -> real) {
    && db'.lastSequence == db.lastSequence + |ops|
    && StoredIn(db') == StoredIn(db) + Contents(BatchEntries(db.lastSequence + 1, Updates(ops, rank)))
  }

  lemma BatchIsRead(db: Db, db': Db, ops: seq<Op>, rank: Bytes -> real, i: nat)
    requires Structure(db) && Grows(db, db', ops, rank) && LastOnKey(ops, i) && RanksApart(ops, rank)
    ensures Keys.Read(StoredIn(db'), rank(ops[i].key), db'.lastSequence) == Leaves(ops[i])
  {
    hide Structure, RanksApart, StoredIn, Updates, BatchEntries, OlderThan, Contents, Keys.Read;
    StoredIsOld(db);
    AllOlder(StoredIn(db), rank(ops[i].key), db.lastSequence);
    UpdatesRead(db.lastSequence + 1, ops, rank, StoredIn(db), i);
  }

  lemma OthersAreRead(db: Db, db': Db, ops: seq<Op>, rank: Bytes -> real, user: real)
    requires Structure(db) && Grows(db, db', ops, rank) && forall op :: op in ops ==> rank(op.key) != user
    ensures Keys.Read(StoredIn(db'), user, db'.lastSequence) == Keys.Read(StoredIn(db), user, db.lastSequence)
  {
    hide Structure, StoredIn, Updates, BatchEntries, Contents, Keys.Read;
    StoredIsOld(db);
    NotOnKey(db.lastSequence + 1, ops, rank, user);
    OtherKeyReads(StoredIn(db), Contents(BatchEntries(db.lastSequence + 1, Updates(ops, rank))), user, db.lastSequence,
                  db'.lastSequence);
  }

  lemma GroupAdds(q: WriteQueue.State, q': WriteQueue.State, s: Sys, s': Sys, rank: Bytes -> real, n: nat)
    requires WriteQueue.Step(q, WriteQueue.Finish, q') && Related(q, s, rank, n) && Happens(s, ApplyWrite, s')
    ensures Grows(s.db, s'.db, q.phase.ops, rank)
  {
    hide InBytes, Updates, BatchEntries, AllEntries, Sorted;
  }

  lemma StoredIsOld(db: Db)
    requires Structure(db)
    ensures Functional(StoredIn(db)) && forall e :: e in StoredIn(db) ==> e.key.sequence <= db.lastSequence
  {
    hide VersionOk, NumbersOk, NewerThan, StoredIn, Sorted;
  }

  lemma AllOlder(es: set<Entry>, user: UserKey, last: nat)
    requires forall e :: e in es ==> e.key.sequence <= last
    ensures OlderThan(es, user, last + 1)
  {
  }

  lemma NotOnKey(first: nat, ops: seq<Op>, rank: Bytes -> real, user: real)
    requires forall op :: op in ops ==> rank(op.key) != user
    ensures forall e :: e in Contents(BatchEntries(first, Updates(ops, rank))) ==> e.key.user != user
  {
    hide BatchEntries;
    var all := BatchEntries(first, Updates(ops, rank));
    forall e | e in all ensures e.key.user != user {
      var j :| 0 <= j < |all| && all[j] == e;
      assert ops[j] in ops;
    }
  }

  lemma OtherKeyReads(es: set<Entry>, more: set<Entry>, user: UserKey, q: nat, q': nat)
    requires Functional(es) && q <= q' && forall e :: e in es ==> e.key.sequence <= q
    requires forall e :: e in more ==> e.key.user != user
    ensures Keys.Read(es + more, user, q') == Keys.Read(es, user, q)
  {
    hide Functional;
    assert forall e :: Newest(es + more, user, q', e) <==> Newest(es, user, q, e);
    if e :| Newest(es, user, q, e) {
      OnlyNewest(es, user, q, e);
    }
  }

  lemma OnlyNewest(es: set<Entry>, user: UserKey, q: nat, e: Entry)
    requires Functional(es) && Newest(es, user, q, e)
    ensures forall d :: Newest(es, user, q, d) ==> d == e
  {
  }
}
