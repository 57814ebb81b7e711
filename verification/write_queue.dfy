/** The write queue and group commit: writers, the log, the memtable and the last sequence
    number as a state machine (DBImpl::Write and BuildBatchGroup in db/db_impl.cc). */
module WriteQueue {
  import opened Keys
  import opened Coding
  import opened WriteBatches

  // A null batch asks for a memtable switch and writes nothing.
  datatype Writer = Writer(id: nat, batch: Option<seq<Op>>, sync: bool)

  datatype Rec = Rec(sequence: nat, op: Op)

  // MemTableInserter: consecutive numbers from the first one.
  function Number(first: nat, ops: seq<Op>): seq<Rec> {
    seq(|ops|, i requires 0 <= i < |ops| => Rec(first + i, ops[i]))
  }

  function OpsOf(w: Writer): seq<Op> {
    if w.batch.Some? then w.batch.value else []
  }

  function Ops(ws: seq<Writer>): seq<Op> {
    if |ws| == 0 then [] else Ops(ws[..|ws| - 1]) + OpsOf(ws[|ws| - 1])
  }

  // ------------------------------------------------------------------ groups

  // WriteBatchInternal::ByteSize
  function ByteSize(ops: seq<Op>): nat {
    HEADER + |Records(ops)|
  }

  function TotalSize(ws: seq<Writer>): nat {
    if |ws| == 0 then 0
    else TotalSize(ws[..|ws| - 1]) + if ws[|ws| - 1].batch.Some? then ByteSize(OpsOf(ws[|ws| - 1])) else 0
  }

  function MaxSize(first: Writer): nat {
    var size := ByteSize(OpsOf(first));
    if size <= 0x2_0000 then size + 0x2_0000 else 0x10_0000
  }

  // Why a group may not take writer k.
  predicate Stops(queue: seq<Writer>, k: nat)
    requires 0 < k < |queue|
  {
    || (queue[k].sync && !queue[0].sync)
    || (queue[k].batch.Some? && TotalSize(queue[..k + 1]) > MaxSize(queue[0]))
  }

  // The first n writers form the group: as many as may be taken.
  ghost predicate IsGroup(queue: seq<Writer>, n: nat) {
    && 1 <= n <= |queue| && queue[0].batch.Some?
    && (forall k :: 1 <= k < n ==> !Stops(queue, k))
    && (n < |queue| ==> Stops(queue, n))
  }

  lemma PrefixGrows(queue: seq<Writer>, n: nat)
    requires n < |queue|
    ensures Ops(queue[..n + 1]) == Ops(queue[..n]) + OpsOf(queue[n])
    ensures TotalSize(queue[..n + 1]) == TotalSize(queue[..n]) + if queue[n].batch.Some? then ByteSize(OpsOf(queue[n]))
      else 0
  {
    assert queue[..n + 1][..n] == queue[..n];
  }

  lemma NoWriters(queue: seq<Writer>)
    ensures Ops(queue[..0]) == [] && TotalSize(queue[..0]) == 0
  {
  }

  /** BuildBatchGroup: the batches of the longest admissible run of writers, in queue order. */
  method BuildBatchGroup(writers: seq<Writer>) returns (result: seq<Op>, n: nat)
    requires |writers| > 0 && writers[0].batch.Some?
    ensures IsGroup(writers, n) && result == Ops(writers[..n])
    ensures forall k :: 0 <= k < n && writers[k].sync ==> writers[0].sync
  {
    hide Ops, TotalSize, ByteSize;
    var first := writers[0];
    result := first.batch.value;
    var size := ByteSize(result);
    var maxSize := 0x10_0000;
    if size <= 0x2_0000 {
      maxSize := size + 0x2_0000;
    }
    n := 1;
    NoWriters(writers);
    PrefixGrows(writers, 0);
    while n < |writers|
      invariant 1 <= n <= |writers| && result == Ops(writers[..n]) && size == TotalSize(writers[..n])
      invariant forall k :: 1 <= k < n ==> !Stops(writers, k)
      invariant forall k :: 0 <= k < n && writers[k].sync ==> first.sync
    {
      var w := writers[n];
      PrefixGrows(writers, n);
      if w.sync && !first.sync {
        break;
      }
      if w.batch.Some? {
        size := size + ByteSize(w.batch.value);
        if size > maxSize {
          break;
        }
        result := result + w.batch.value;
      }
      n := n + 1;
    }
  }

  lemma {:induction false} RecordsLong(ops: seq<Op>)
    ensures |ops| <= |Records(ops)|
  {
    if |ops| > 0 {
      RecordsLong(ops[1..]);
    }
  }

  lemma {:induction false} OpsShort(ws: seq<Writer>)
    ensures |Ops(ws)| <= TotalSize(ws)
  {
    if |ws| > 0 {
      OpsShort(ws[..|ws| - 1]);
      RecordsLong(OpsOf(ws[|ws| - 1]));
    }
  }

  lemma {:induction false} OpsFit(ws: seq<Writer>)
    requires forall w :: w in ws ==> WellFormed(OpsOf(w))
    ensures forall op :: op in Ops(ws) ==> Fits(op)
  {
    if |ws| > 0 {
      OpsFit(ws[..|ws| - 1]);
    }
  }

  // The last writer of a prefix that has a batch, if it is not the first.
  lemma {:induction false} OpsCount(queue: seq<Writer>, n: nat, m: nat)
    requires IsGroup(queue, n) && 1 <= m <= n && WellFormed(OpsOf(queue[0]))
    ensures |Ops(queue[..m])| < 0x8000_0000
  {
    var ws, w := queue[..m], queue[m - 1];
    assert ws[..m - 1] == queue[..m - 1];
    if m == 1 {
      assert Ops(queue[..0]) == [];
    } else if w.batch.None? {
      OpsCount(queue, n, m - 1);
    } else {
      assert !Stops(queue, m - 1);
      OpsShort(ws);
    }
  }

  /** A group can be encoded: its count fits its field. */
  lemma GroupFits(queue: seq<Writer>, n: nat)
    requires IsGroup(queue, n) && forall w :: w in queue ==> WellFormed(OpsOf(w))
    ensures WellFormed(Ops(queue[..n]))
  {
    OpsCount(queue, n, n);
    OpsFit(queue[..n]);
  }

  // ------------------------------------------------------------------ the machine

  // What the writer at the front is doing with its group of n writers.
  datatype Phase = Resting | Logging(n: nat, ops: seq<Op>) | Inserting(n: nat, ops: seq<Op>,
    done: nat) | Failing(n: nat, ops: seq<Op>)

  // How a call of Write ended; `first` is the number its operations start at.
  datatype Outcome = Outcome(writer: Writer, ok: bool, first: nat, counted: bool)

  // `inserted` is what has gone into memtables, `broken` is bg_error_; the first `synced` records
  // of the log are known to be on disk.
  datatype State = State(queue: seq<Writer>, phase: Phase, lastSequence: nat, log: seq<Bytes>, synced: nat,
                         inserted: seq<Rec>, outcomes: seq<Outcome>, broken: bool, arrived: seq<Writer>)

  ghost predicate Initial(s: State) {
    && s.queue == [] && s.phase.Resting? && s.inserted == [] && s.outcomes == [] && s.arrived == []
    && s.lastSequence == 0 && s.synced == 0
  }

  datatype Action =
    | Enqueue(w: Writer) | Refuse | Force | Begin(group: nat)
    | LogDone | LogFails | SyncFails | InsertOne | Finish

  // The writers of a group end with one status.
  function Ended(ws: seq<Writer>, first: nat, ok: bool): (r: seq<Outcome>)
    ensures |r| == |ws|
  {
    if |ws| == 0 then []
    else
      var n := |ws| - 1;
      Ended(ws[..n], first, ok) + [Outcome(ws[n], ok, first + |Ops(ws[..n])|, true)]
  }

  function LogRecord(s: State): Bytes
    requires s.phase.Logging? && |s.phase.ops| < 0x8000_0000 && s.lastSequence < MAX_SEQUENCE
  {
    Encoded(s.lastSequence + 1, s.phase.ops)
  }

  ghost predicate Step(s: State, a: Action, s': State) {
    match a
    case Enqueue(w) =>
      WellFormed(OpsOf(w)) && (forall v :: v in s.arrived ==> v.id != w.id)
      && s' == s.(queue := s.queue + [w], arrived := s.arrived + [w])
    case Refuse =>  // MakeRoomForWrite fails
      s.phase.Resting? && |s.queue| > 0
      && s' == s.(queue := s.queue[1..],
                  outcomes := s.outcomes + [Outcome(s.queue[0], false, s.lastSequence + 1, false)])
    case Force =>   // a null batch, and there is room
      s.phase.Resting? && |s.queue| > 0 && !s.broken && s.queue[0].batch.None?
      && s' == s.(queue := s.queue[1..],
                  outcomes := s.outcomes + [Outcome(s.queue[0], true, s.lastSequence + 1, false)])
    case Begin(n) =>
      s.phase.Resting? && !s.broken && IsGroup(s.queue, n) && s.lastSequence + |Ops(s.queue[..n])| <= MAX_SEQUENCE
      && s' == s.(phase := Logging(n, Ops(s.queue[..n])))
    case LogDone =>
      s.phase.Logging? && |s.phase.ops| < 0x8000_0000 && s.lastSequence < MAX_SEQUENCE && |s.queue| > 0
      && s' == s.(phase := Inserting(s.phase.n, s.phase.ops, 0), log := s.log + [LogRecord(s)],
                  synced := if s.queue[0].sync then |s.log| + 1 else s.synced)
    case LogFails =>
      s.phase.Logging? && s' == s.(phase := Failing(s.phase.n, s.phase.ops))
    case SyncFails =>
      s.phase.Logging? && |s.phase.ops| < 0x8000_0000 && s.lastSequence < MAX_SEQUENCE
      && |s.queue| > 0 && s.queue[0].sync
      && s' == s.(phase := Failing(s.phase.n, s.phase.ops), log := s.log + [LogRecord(s)], broken := true)
    case InsertOne =>
      s.phase.Inserting? && s.phase.done < |s.phase.ops|
      && s' == s.(phase := s.phase.(done := s.phase.done + 1),
                  inserted := s.inserted + [Rec(s.lastSequence + 1 + s.phase.done, s.phase.ops[s.phase.done])])
    case Finish =>
      (s.phase.Failing? || (s.phase.Inserting? && s.phase.done == |s.phase.ops|)) && s.phase.n <= |s.queue|
      && s' == s.(phase := Resting, queue := s.queue[s.phase.n..], lastSequence := s.lastSequence + |s.phase.ops|,
                  outcomes := s.outcomes + Ended(s.queue[..s.phase.n], s.lastSequence + 1, s.phase.Inserting?))
  }

  // ------------------------------------------------------------------ the invariant

  // The sequence number after an outcome.
  function After(o: Outcome): nat {
    o.first + if o.counted then |OpsOf(o.writer)| else 0
  }

  function Next(os: seq<Outcome>): nat {
    if |os| == 0 then 1 else After(os[|os| - 1])
  }

  // Each outcome's numbers start where the one before it ended.
  ghost predicate Consecutive(os: seq<Outcome>) {
    forall k :: 0 <= k < |os| ==> os[k].first == Next(os[..k])
  }

  // What the successful batches put into memtables, in order.
  function Applied(os: seq<Outcome>): seq<Rec> {
    if |os| == 0 then []
    else
      var o := os[|os| - 1];
      Applied(os[..|os| - 1]) + if o.ok && o.counted then Number(o.first, OpsOf(o.writer)) else []
  }

  function WritersOf(os: seq<Outcome>): (ws: seq<Writer>)
    ensures |ws| == |os|
  {
    seq(|os|, i requires 0 <= i < |os| => os[i].writer)
  }

  ghost predicate PhaseOk(s: State) {
    !s.phase.Resting? ==>
      && 1 <= s.phase.n <= |s.queue| && s.phase.ops == Ops(s.queue[..s.phase.n]) && WellFormed(s.phase.ops)
      && s.lastSequence + |s.phase.ops| <= MAX_SEQUENCE
      && (s.phase.Inserting? ==> s.phase.done <= |s.phase.ops|)
  }

  // The part of the current group that is already in the memtable.
  function Partial(s: State): seq<Rec> {
    if s.phase.Inserting? && s.phase.done <= |s.phase.ops| then Number(s.lastSequence + 1, s.phase.ops[..s.phase.done])
      else []
  }

  ghost predicate Inv(s: State) {
    && PhaseOk(s) && Consecutive(s.outcomes) && Next(s.outcomes) == s.lastSequence + 1
    && s.inserted == Applied(s.outcomes) + Partial(s)
    && s.arrived == WritersOf(s.outcomes) + s.queue
    && (forall w :: w in s.arrived ==> WellFormed(OpsOf(w)))
    && forall i, j :: 0 <= i < j < |s.arrived| ==> s.arrived[i].id != s.arrived[j].id
  }

  lemma OutcomesGrow(os: seq<Outcome>, o: Outcome)
    requires Consecutive(os) && o.first == Next(os)
    ensures Consecutive(os + [o]) && Next(os + [o]) == After(o)
    ensures Applied(os + [o]) == Applied(os) + if o.ok && o.counted then Number(o.first, OpsOf(o.writer)) else []
    ensures WritersOf(os + [o]) == WritersOf(os) + [o.writer]
  {
    var all := os + [o];
    assert all[..|os|] == os;
    forall k | 0 <= k < |all| ensures all[k].first == Next(all[..k]) {
      assert k < |os| ==> all[..k] == os[..k];
    }
  }

  lemma NumberSplits(first: nat, a: seq<Op>, b: seq<Op>)
    ensures Number(first, a + b) == Number(first, a) + Number(first + |a|, b)
  {
  }

  lemma {:induction false} OpsSplit(a: seq<Writer>, w: Writer)
    ensures Ops(a + [w]) == Ops(a) + OpsOf(w)
  {
    assert (a + [w])[..|a|] == a;
  }

  /** A group ends as if its writers had written one after the other. */
  lemma {:induction false} GroupEnds(os: seq<Outcome>, ws: seq<Writer>, first: nat, ok: bool)
    requires Consecutive(os) && Next(os) == first
    ensures var all := os + Ended(ws, first, ok);
      && Consecutive(all) && Next(all) == first + |Ops(ws)|
      && Applied(all) == Applied(os) + (if ok then Number(first, Ops(ws)) else [])
      && WritersOf(all) == WritersOf(os) + ws
  {
    hide Consecutive, Applied, WritersOf, Number;
    if |ws| == 0 {
      NoNumbers(first);
      assert os + [] == os && Applied(os) + [] == Applied(os) && WritersOf(os) + [] == WritersOf(os);
    } else {
      var n := |ws| - 1;
      GroupEnds(os, ws[..n], first, ok);
      EndedGrows(ws, first, ok);
      hide *;
      LastEnds(os, ws[..n], ws[n], first, ok);
      assert ws[..n] + [ws[n]] == ws;
    }
  }

  lemma Regroup<T>(a: seq<T>, b: seq<T>, c: seq<T>)
    ensures a + (b + c) == a + b + c && a + [] == a
  {
  }

  lemma NoNumbers(first: nat)
    ensures Number(first, []) == []
  {
  }

  lemma EndedGrows(ws: seq<Writer>, first: nat, ok: bool)
    requires |ws| > 0
    ensures var n := |ws| - 1;
      Ended(ws, first, ok) == Ended(ws[..n], first, ok) + [Outcome(ws[n], ok, first + |Ops(ws[..n])|, true)]
  {
  }

  lemma LastEnds(os: seq<Outcome>, ws: seq<Writer>, w: Writer, first: nat, ok: bool)
    requires var before := os + Ended(ws, first, ok);
      && Consecutive(before) && Next(before) == first + |Ops(ws)|
      && Applied(before) == Applied(os) + (if ok then Number(first, Ops(ws)) else [])
      && WritersOf(before) == WritersOf(os) + ws
    ensures var all := os + (Ended(ws, first, ok) + [Outcome(w, ok, first + |Ops(ws)|, true)]);
      && Consecutive(all) && Next(all) == first + |Ops(ws + [w])|
      && Applied(all) == Applied(os) + (if ok then Number(first, Ops(ws + [w])) else [])
      && WritersOf(all) == WritersOf(os) + (ws + [w])
  {
    hide Ended, Consecutive, Next, Applied, WritersOf, Number, Ops, OpsOf;
    var o, before := Outcome(w, ok, first + |Ops(ws)|, true), os + Ended(ws, first, ok);
    OutcomesGrow(before, o);
    NumberSplits(first, Ops(ws), OpsOf(w));
    OpsSplit(ws, w);
    Regroup(os, Ended(ws, first, ok), [o]);
    Regroup(WritersOf(os), ws, [w]);
    Regroup(Applied(os), Number(first, Ops(ws)), Number(first + |Ops(ws)|, OpsOf(w)));
    Regroup(Applied(os), [], []);
  }

  lemma InitialInv(s: State)
    requires Initial(s)
    ensures Inv(s)
  {
  }

  lemma EnqueueKeeps(s: State, w: Writer, s': State)
    requires Inv(s) && Step(s, Enqueue(w), s')
    ensures Inv(s')
  {
    hide Ops, Applied, Consecutive, Next, Number;
    if !s.phase.Resting? {
      assert s'.queue[..s.phase.n] == s.queue[..s.phase.n];
    }
    forall i, j | 0 <= i < j < |s'.arrived| ensures s'.arrived[i].id != s'.arrived[j].id {
      assert s'.arrived[i] in s.arrived;
    }
  }

  // One writer leaves the queue without a group.
  lemma LeaveKeeps(s: State, ok: bool, s': State)
    requires Inv(s) && s.phase.Resting? && |s.queue| > 0
    requires s' == s.(queue := s.queue[1..],
                      outcomes := s.outcomes + [Outcome(s.queue[0], ok, s.lastSequence + 1, false)])
    ensures Inv(s')
  {
    hide Ops, Applied, Consecutive, Next, WritersOf;
    OutcomesGrow(s.outcomes, Outcome(s.queue[0], ok, s.lastSequence + 1, false));
    assert s'.inserted == Applied(s.outcomes);
  }

  lemma BeginKeeps(s: State, n: nat, s': State)
    requires Inv(s) && Step(s, Begin(n), s')
    ensures Inv(s')
  {
    GroupFits(s.queue, n);
    hide Ops, Applied, Consecutive, Next, WritersOf;
    assert s'.inserted == Applied(s.outcomes) + [];
  }

  lemma LogKeeps(s: State, a: Action, s': State)
    requires Inv(s) && (a.LogDone? || a.LogFails? || a.SyncFails?) && Step(s, a, s')
    ensures Inv(s')
  {
    hide Ops, Applied, Consecutive, Next, WritersOf, LogRecord;
    assert s.phase.ops[..0] == [] && Partial(s') == [];
  }

  lemma InsertKeeps(s: State, s': State)
    requires Inv(s) && Step(s, InsertOne, s')
    ensures Inv(s')
  {
    hide Ops, OpsOf, Applied, Consecutive, Next, WritersOf, Number, WellFormed;
    PartialGrows(s.phase.ops, s.lastSequence + 1, s.phase.done);
    Regroup(Applied(s.outcomes), Partial(s), [Rec(s.lastSequence + 1 + s.phase.done, s.phase.ops[s.phase.done])]);
    assert s'.inserted == Applied(s'.outcomes) + Partial(s');
    hide Partial;
  }

  lemma PartialGrows(ops: seq<Op>, first: nat, d: nat)
    requires d < |ops|
    ensures Number(first, ops[..d + 1]) == Number(first, ops[..d]) + [Rec(first + d, ops[d])]
  {
  }

  lemma FinishKeeps(s: State, s': State)
    requires Inv(s) && Step(s, Finish, s')
    ensures Inv(s')
  {
    hide Ops, OpsOf, Applied, Consecutive, Next, WritersOf, Number, Ended;
    var n, ok := s.phase.n, s.phase.Inserting?;
    GroupEnds(s.outcomes, s.queue[..n], s.lastSequence + 1, ok);
    assert ok ==> s.phase.ops[..s.phase.done] == s.phase.ops;
    Regroup(WritersOf(s.outcomes), s.queue[..n], s.queue[n..]);
    assert s.queue[..n] + s.queue[n..] == s.queue;
    Regroup(Applied(s'.outcomes), [], []);
    Regroup(Applied(s.outcomes), [], []);
  }

  lemma StepKeeps(s: State, a: Action, s': State)
    requires Inv(s) && Step(s, a, s')
    ensures Inv(s')
  {
    hide Inv;
    match a {
      case Enqueue(w) => EnqueueKeeps(s, w, s');
      case Refuse => LeaveKeeps(s, false, s');
      case Force => LeaveKeeps(s, true, s');
      case Begin(n) => BeginKeeps(s, n, s');
      case InsertOne => InsertKeeps(s, s');
      case Finish => FinishKeeps(s, s');
      case _ => LogKeeps(s, a, s');
    }
  }

  // ------------------------------------------------------------------ every run

  ghost predicate Run(run: seq<State>, actions: seq<Action>) {
    && |run| == |actions| + 1 && Initial(run[0])
    && forall k :: 0 <= k < |actions| ==> NthStep(run, actions, k)
  }

  ghost predicate NthStep(run: seq<State>, actions: seq<Action>, k: nat)
    requires k < |actions| < |run|
  {
    Step(run[k], actions[k], run[k + 1])
  }

  lemma {:induction false} RunInv(run: seq<State>, actions: seq<Action>, k: nat)
    requires Run(run, actions) && k < |run|
    ensures Inv(run[k])
  {
    if k == 0 {
      InitialInv(run[0]);
    } else {
      RunInv(run, actions, k - 1);
      assert NthStep(run, actions, k - 1);
      StepKeeps(run[k - 1], actions[k - 1], run[k]);
    }
  }

  lemma {:induction false} OutcomesStay(run: seq<State>, actions: seq<Action>, j: nat, k: nat)
    requires Run(run, actions) && j <= k < |run|
    ensures run[j].outcomes <= run[k].outcomes && run[j].arrived <= run[k].arrived
    decreases k
  {
    if j < k {
      OutcomesStay(run, actions, j, k - 1);
      assert NthStep(run, actions, k - 1);
    }
  }

  /** Every call of Write ends at most once, and they end in the order they arrived. */
  lemma WritersEndInOrder(run: seq<State>, actions: seq<Action>, k: nat)
    requires Run(run, actions) && k < |run|
    ensures var s := run[k];
      && |s.outcomes| <= |s.arrived|
      && forall i :: 0 <= i < |s.outcomes| ==> s.outcomes[i].writer == s.arrived[i]
  {
    RunInv(run, actions, k);
    var s := run[k];
    forall i | 0 <= i < |s.outcomes| ensures s.outcomes[i].writer == s.arrived[i] {
      assert s.arrived[i] == WritersOf(s.outcomes)[i];
    }
  }

  /** The operations in the memtables are exactly those of the successful batches, each once,
      in queue order, and the first part of the group being inserted; batches take consecutive
      sequence numbers, and the last sequence number is the end of a batch. */
  lemma BatchesAreApplied(run: seq<State>, actions: seq<Action>, k: nat)
    requires Run(run, actions) && k < |run|
    ensures var s := run[k];
      && s.inserted == Applied(s.outcomes) + Partial(s)
      && (forall i :: 0 <= i < |s.outcomes| ==> s.outcomes[i].first == Next(s.outcomes[..i]))
      && s.lastSequence + 1 == Next(s.outcomes)
  {
    RunInv(run, actions, k);
  }

  lemma {:induction false} NextGrows(os: seq<Outcome>, m: nat, n: nat)
    requires Consecutive(os) && m <= n <= |os|
    ensures Next(os[..m]) <= Next(os[..n])
  {
    if m < n {
      NextGrows(os, m, n - 1);
      assert os[n - 1].first == Next(os[..n - 1]);
    }
  }

  /** No value ever readable as the last sequence number falls inside a batch: a snapshot
      sees all of it or nothing. */
  lemma SnapshotsCutBetweenBatches(run: seq<State>, actions: seq<Action>, j: nat, k: nat, i: nat)
    requires Run(run, actions) && j < |run| && k < |run| && i < |run[k].outcomes|
    ensures var o, q := run[k].outcomes[i], run[j].lastSequence; q < o.first || After(o) <= q + 1
  {
    hide Run, Inv, Next, Consecutive, After;
    RunInv(run, actions, j);
    RunInv(run, actions, k);
    InvCounts(run[j]);
    InvCounts(run[k]);
    if j <= k {
      OutcomesStay(run, actions, j, k);
    } else {
      OutcomesStay(run, actions, k, j);
    }
    CutsBetween(run[j].outcomes, run[k].outcomes, i);
  }

  lemma InvCounts(s: State)
    requires Inv(s)
    ensures Consecutive(s.outcomes) && Next(s.outcomes) == s.lastSequence + 1
  {
  }

  // The number after the last batch of one history does not fall inside a batch of the other.
  lemma CutsBetween(a: seq<Outcome>, b: seq<Outcome>, i: nat)
    requires Consecutive(a) && Consecutive(b) && (a <= b || b <= a) && i < |b|
    ensures Next(a) <= b[i].first || After(b[i]) <= Next(a)
  {
    hide Consecutive, Next, After;
    if i < |a| {
      assert a[i] == b[i];
      NextAfter(a, i);
      NextGrows(a, i + 1, |a|);
      assert a[..|a|] == a;
    } else {
      assert b[..|a|] == a;
      NextGrows(b, |a|, i);
      FirstIsNext(b, i);
    }
  }

  lemma NextAfter(os: seq<Outcome>, i: nat)
    requires i < |os|
    ensures Next(os[..i + 1]) == After(os[i])
  {
  }

  lemma FirstIsNext(os: seq<Outcome>, i: nat)
    requires Consecutive(os) && i < |os|
    ensures os[i].first == Next(os[..i])
  {
    hide Next;
  }

  lemma ConsecutivePrefix(os: seq<Outcome>, n: nat)
    requires Consecutive(os) && n <= |os|
    ensures Consecutive(os[..n])
  {
    forall k | 0 <= k < n ensures os[..n][k].first == Next(os[..n][..k]) {
      assert os[..n][..k] == os[..k];
    }
  }

  lemma {:induction false} AppliedBelow(os: seq<Outcome>, r: Rec)
    requires Consecutive(os) && r in Applied(os)
    ensures r.sequence < Next(os)
  {
    var n := |os| - 1;
    var o := os[n];
    assert o.first == Next(os[..n]);
    if r !in Number(o.first, OpsOf(o.writer)) || !o.ok || !o.counted {
      ConsecutivePrefix(os, n);
      AppliedBelow(os[..n], r);
      NextGrows(os, n, n + 1);
      assert os[..n + 1] == os;
    }
  }

  // What a read at snapshot q can see of the memtables.
  function Visible(inserted: seq<Rec>, q: nat): seq<Rec> {
    if |inserted| == 0 then []
    else
      var n := |inserted| - 1;
      Visible(inserted[..n], q) + if inserted[n].sequence <= q then [inserted[n]] else []
  }

  lemma {:induction false} VisibleSplits(a: seq<Rec>, b: seq<Rec>, q: nat)
    requires (forall r :: r in a ==> r.sequence <= q) && forall r :: r in b ==> r.sequence > q
    ensures Visible(a + b, q) == a
  {
    var all := a + b;
    if |b| > 0 {
      assert all[..|all| - 1] == a + b[..|b| - 1] && all[|all| - 1] == b[|b| - 1];
      VisibleSplits(a, b[..|b| - 1], q);
    } else if |a| > 0 {
      assert all == a && a == a[..|a| - 1] + [a[|a| - 1]] && a[..|a| - 1] + [] == a[..|a| - 1];
      VisibleSplits(a[..|a| - 1], [], q);
    }
  }

  // What the last outcome has applied.
  lemma LastApplied(os: seq<Outcome>) returns (tail: seq<Rec>)
    requires Consecutive(os) && |os| > 0
    ensures var n := |os| - 1;
      Applied(os) == Applied(os[..n]) + tail && Consecutive(os[..n]) && forall r :: r in tail ==>
        r.sequence >= Next(os[..n])
  {
    hide Next;
    var n := |os| - 1;
    ConsecutivePrefix(os, n);
    tail := if os[n].ok && os[n].counted then Number(os[n].first, OpsOf(os[n].writer)) else [];
  }

  lemma {:induction false} AppliedFrom(os: seq<Outcome>, m: nat) returns (rest: seq<Rec>)
    requires Consecutive(os) && m <= |os|
    ensures Applied(os) == Applied(os[..m]) + rest && forall r :: r in rest ==> r.sequence >= Next(os[..m])
  {
    hide Consecutive, Next, Applied;
    var n := |os| - 1;
    if m == |os| {
      rest := [];
      assert os[..m] == os;
    } else {
      var tail := LastApplied(os);
      rest := AppliedFrom(os[..n], m);
      assert os[..n][..m] == os[..m];
      NextGrows(os, m, n);
      Regroup(Applied(os[..m]), rest, tail);
      rest := rest + tail;
    }
  }

  /** What is visible at a snapshot never changes: at any later time it is exactly the
      successful batches that had ended when the snapshot was taken. */
  lemma SnapshotsAreStable(run: seq<State>, actions: seq<Action>, j: nat, k: nat)
    requires Run(run, actions) && j <= k < |run|
    ensures Visible(run[k].inserted, run[j].lastSequence) == Applied(run[j].outcomes)
  {
    hide Inv;
    RunInv(run, actions, j);
    RunInv(run, actions, k);
    OutcomesStay(run, actions, j, k);
    VisibleIs(run[j], run[k]);
  }

  lemma VisibleIs(s: State, s': State)
    requires Inv(s) && Inv(s') && s.outcomes <= s'.outcomes
    ensures Visible(s'.inserted, s.lastSequence) == Applied(s.outcomes)
  {
    hide Applied, Number, Visible, Ops, OpsOf, WritersOf, WellFormed, Consecutive;
    var a, b, q := s.outcomes, s'.outcomes, s.lastSequence;
    assert b[..|a|] == a && b[..|b|] == b;
    var rest := AppliedFrom(b, |a|);
    NextGrows(b, |a|, |b|);
    forall r | r in Applied(a) ensures r.sequence <= q {
      AppliedBelow(a, r);
    }
    PartialAbove(s', q);
    Regroup(Applied(a), rest, Partial(s'));
    VisibleSplits(Applied(a), rest + Partial(s'), q);
  }

  lemma PartialAbove(s: State, q: nat)
    requires q <= s.lastSequence
    ensures forall r :: r in Partial(s) ==> r.sequence > q
  {
  }

  /** Seen through the last sequence number, a group takes effect at once when it finishes, as
      the write step of the database; no other step shows. */
  lemma WritesAreAtomic(s: State, a: Action, s': State)
    requires Inv(s) && Step(s, a, s')
    ensures var before, after := Applied(s.outcomes), Applied(s'.outcomes);
      if a.Finish? then
        && s'.lastSequence == s.lastSequence + |s.phase.ops|
        && after == before + if s.phase.Inserting? then Number(s.lastSequence + 1, s.phase.ops) else []
      else s'.lastSequence == s.lastSequence && after == before
  {
    match a {
      case Finish => GroupEnds(s.outcomes, s.queue[..s.phase.n], s.lastSequence + 1, s.phase.Inserting?);
      case Refuse => OutcomesGrow(s.outcomes, Outcome(s.queue[0], false, s.lastSequence + 1, false));
      case Force => OutcomesGrow(s.outcomes, Outcome(s.queue[0], true, s.lastSequence + 1, false));
      case _ =>
    }
  }

  // ------------------------------------------------------------------ the log comes first

  // The record of the log that holds an operation.
  ghost predicate Logged(log: seq<Bytes>, r: Rec) {
    exists i, first: U64, ops ::
      0 <= i < |log| && |ops| < 0x8000_0000 && log[i] == Encoded(first, ops) && r in Number(first, ops)
  }

  ghost predicate LogFirst(s: State) {
    && (forall r :: r in s.inserted ==> Logged(s.log, r))
    && (s.phase.Inserting? ==>
          |s.log| > 0 && s.lastSequence < MAX_SEQUENCE && |s.phase.ops| < 0x8000_0000
          && s.log[|s.log| - 1] == Encoded(s.lastSequence + 1, s.phase.ops))
  }

  lemma LogFirstKeeps(s: State, a: Action, s': State)
    requires Inv(s) && LogFirst(s) && Step(s, a, s')
    ensures LogFirst(s')
  {
    hide Encoded, Number, Ops, Applied, Ended;
    forall r | r in s.inserted ensures Logged(s'.log, r) {
      var i, first: U64, ops :| 0 <= i < |s.log| && |ops| < 0x8000_0000 && s.log[i] == Encoded(first, ops)
        && r in Number(first, ops);
      assert s'.log[i] == s.log[i];
    }
    if a.InsertOne? {
      var d, n := s.phase.done, |s.log| - 1;
      InNumber(s.lastSequence + 1, s.phase.ops, d);
      assert Logged(s'.log, Rec(s.lastSequence + 1 + d, s.phase.ops[d])) by {
        assert s'.log[n] == Encoded(s.lastSequence + 1, s.phase.ops);
      }
    }
  }

  lemma InNumber(first: nat, ops: seq<Op>, d: nat)
    requires d < |ops|
    ensures Rec(first + d, ops[d]) in Number(first, ops)
  {
    assert Number(first, ops)[d] == Rec(first + d, ops[d]);
  }

  /** Every operation in a memtable is in a record of the log. */
  lemma {:induction false} InsertedIsLogged(run: seq<State>, actions: seq<Action>, k: nat)
    requires Run(run, actions) && k < |run|
    ensures LogFirst(run[k])
  {
    if k > 0 {
      InsertedIsLogged(run, actions, k - 1);
      RunInv(run, actions, k - 1);
      assert NthStep(run, actions, k - 1);
      LogFirstKeeps(run[k - 1], actions[k - 1], run[k]);
    }
  }

  // ------------------------------------------------------------------ sync writes

  // The operations of a writer are in records that are on disk.
  ghost predicate OnDisk(s: State, first: nat, ops: seq<Op>) {
    s.synced <= |s.log| && forall r :: r in Number(first, ops) ==> Logged(s.log[..s.synced], r)
  }

  // Outcomes of sync writers that ended well are on disk; a group with a sync writer is led by one.
  ghost predicate SyncInv(s: State) {
    && s.synced <= |s.log|
    && (forall o :: o in s.outcomes && o.ok && o.counted && o.writer.sync ==> OnDisk(s, o.first, OpsOf(o.writer)))
    && (!s.phase.Resting? ==> 0 < s.phase.n <= |s.queue| && forall k :: 0 <= k < s.phase.n ==>
      (s.queue[k].sync ==> s.queue[0].sync))
    && (s.phase.Inserting? && |s.queue| > 0 && s.queue[0].sync ==> OnDisk(s, s.lastSequence + 1, s.phase.ops))
  }

  lemma StaysOnDisk(s: State, s': State, first: nat, ops: seq<Op>)
    requires OnDisk(s, first, ops) && s.log <= s'.log && s.synced <= s'.synced <= |s'.log|
    ensures OnDisk(s', first, ops)
  {
    hide Encoded, Number;
    forall r | r in Number(first, ops) ensures Logged(s'.log[..s'.synced], r) {
      LoggedInMore(s.log[..s.synced], s'.log[..s'.synced], r);
    }
  }

  lemma LoggedInMore(log: seq<Bytes>, more: seq<Bytes>, r: Rec)
    requires Logged(log, r) && log <= more
    ensures Logged(more, r)
  {
    hide Encoded, Number;
    var i, first: U64, ops :| 0 <= i < |log| && |ops| < 0x8000_0000 && log[i] == Encoded(first, ops)
      && r in Number(first, ops);
    assert more[i] == log[i];
  }

  // The record of a group holds the operations of each of its writers.
  lemma {:induction false} WriterInGroup(ws: seq<Writer>, first: nat, ok: bool, o: Outcome)
    requires o in Ended(ws, first, ok)
    ensures o.ok == ok && o.writer in ws && forall r :: r in Number(o.first, OpsOf(o.writer)) ==>
      r in Number(first, Ops(ws))
  {
    hide Number, OpsOf;
    var n := |ws| - 1;
    EndedGrows(ws, first, ok);
    assert ws[..n] + [ws[n]] == ws;
    OpsSplit(ws[..n], ws[n]);
    NumberSplits(first, Ops(ws[..n]), OpsOf(ws[n]));
    if o in Ended(ws[..n], first, ok) {
      WriterInGroup(ws[..n], first, ok, o);
    }
  }

  lemma GroupOnDisk(s: State, first: nat, ws: seq<Writer>, o: Outcome)
    requires OnDisk(s, first, Ops(ws)) && o in Ended(ws, first, true)
    ensures OnDisk(s, o.first, OpsOf(o.writer))
  {
    hide Logged, Number, Ended, Ops, OpsOf;
    WriterInGroup(ws, first, true, o);
  }

  lemma RecordOnDisk(s: State, s': State)
    requires Inv(s) && Step(s, LogDone, s') && s.queue[0].sync
    ensures OnDisk(s', s'.lastSequence + 1, s'.phase.ops)
  {
    hide Inv, Encoded, Number;
    var n := |s.log|;
    assert s'.log[..s'.synced] == s'.log && s'.log[n] == Encoded(s.lastSequence + 1, s.phase.ops);
    forall r | r in Number(s.lastSequence + 1, s.phase.ops) ensures Logged(s'.log, r) {
      assert 0 <= n < |s'.log|;
    }
  }

  lemma NotResting(s: State)
    requires Inv(s) && !s.phase.Resting?
    ensures 0 < s.phase.n <= |s.queue| && s.phase.ops == Ops(s.queue[..s.phase.n])
  {
    hide Ops, Consecutive, Applied, WellFormed;
  }

  lemma GroupIsLed(queue: seq<Writer>, n: nat)
    requires IsGroup(queue, n)
    ensures 0 < n <= |queue| && forall k :: 0 <= k < n ==> (queue[k].sync ==> queue[0].sync)
  {
    hide TotalSize, MaxSize;
    forall k | 0 <= k < n && queue[k].sync ensures queue[0].sync {
      assert k > 0 ==> !Stops(queue, k);
    }
  }

  lemma SyncKeeps(s: State, a: Action, s': State)
    requires Inv(s) && SyncInv(s) && Step(s, a, s')
    ensures SyncInv(s')
  {
    hide Inv, Step, OnDisk, Number, Ops, OpsOf;
    LogGrows(s, a, s');
    GroupStaysLed(s, a, s');
    forall o | o in s'.outcomes && o.ok && o.counted && o.writer.sync ensures OnDisk(s', o.first, OpsOf(o.writer)) {
      if o in s.outcomes {
        StaysOnDisk(s, s', o.first, OpsOf(o.writer));
      } else {
        SyncWriterEnds(s, a, s', o);
      }
    }
    if s'.phase.Inserting? && |s'.queue| > 0 && s'.queue[0].sync {
      InsertingOnDisk(s, a, s');
    }
  }

  lemma InsertingOnDisk(s: State, a: Action, s': State)
    requires Inv(s) && SyncInv(s) && Step(s, a, s') && s'.phase.Inserting? && |s'.queue| > 0 && s'.queue[0].sync
    ensures OnDisk(s', s'.lastSequence + 1, s'.phase.ops)
  {
    hide Inv, OnDisk, Step, SyncInv;
    LogGrows(s, a, s');
    StillInserting(s, a, s');
    if a.LogDone? {
      RecordOnDisk(s, s');
    } else {
      StaysOnDisk(s, s', s.lastSequence + 1, s.phase.ops);
    }
  }

  lemma StillInserting(s: State, a: Action, s': State)
    requires Inv(s) && SyncInv(s) && Step(s, a, s') && s'.phase.Inserting? && |s'.queue| > 0 && s'.queue[0].sync
    ensures |s.queue| > 0 && s.queue[0].sync && s'.lastSequence == s.lastSequence
    ensures !a.LogDone? ==>
      s.phase.Inserting? && s'.phase.ops == s.phase.ops && OnDisk(s, s.lastSequence + 1, s.phase.ops)
  {
    hide Inv, OnDisk, IsGroup, Ops, OpsOf, Ended, Number, LogRecord;
    NotResting(s);
  }

  lemma GroupStaysLed(s: State, a: Action, s': State)
    requires Inv(s) && SyncInv(s) && Step(s, a, s')
    ensures !s'.phase.Resting? ==>
      0 < s'.phase.n <= |s'.queue| && forall k :: 0 <= k < s'.phase.n ==> (s'.queue[k].sync ==> s'.queue[0].sync)
  {
    hide Inv, OnDisk, IsGroup, Ops, OpsOf, Ended, Number, LogRecord;
    if a.Begin? {
      GroupIsLed(s.queue, a.group);
    }
  }

  lemma LogGrows(s: State, a: Action, s': State)
    requires SyncInv(s) && Step(s, a, s')
    ensures s.log <= s'.log && s.synced <= s'.synced <= |s'.log|
  {
    hide OnDisk, Ops, Ended, IsGroup, LogRecord;
  }

  lemma SyncWriterEnds(s: State, a: Action, s': State, o: Outcome)
    requires Inv(s) && SyncInv(s) && Step(s, a, s') && o in s'.outcomes && o !in s.outcomes
    requires o.ok && o.counted && o.writer.sync
    ensures OnDisk(s', o.first, OpsOf(o.writer))
  {
    hide Inv, OnDisk, Ops, OpsOf, Ended, IsGroup, LogRecord, Number;
    var ws, first := s.queue[..s.phase.n], s.lastSequence + 1;
    NotResting(s);
    WriterInGroup(ws, first, s.phase.Inserting?, o);
    assert exists k :: 0 <= k < s.phase.n && s.queue[k] == o.writer;
    GroupOnDisk(s, first, ws, o);
    StaysOnDisk(s, s', o.first, OpsOf(o.writer));
  }

  /** A sync write that ends well is on disk: its operations are in records that were synced,
      whoever led its group. */
  lemma {:induction false} SyncWritesAreOnDisk(run: seq<State>, actions: seq<Action>, k: nat)
    requires Run(run, actions) && k < |run|
    ensures SyncInv(run[k])
  {
    hide SyncInv, Inv, Step;
    if k == 0 {
      NothingSynced(run[0]);
    } else {
      SyncWritesAreOnDisk(run, actions, k - 1);
      RunInv(run, actions, k - 1);
      assert NthStep(run, actions, k - 1);
      SyncKeeps(run[k - 1], actions[k - 1], run[k]);
    }
  }

  lemma NothingSynced(s: State)
    requires Initial(s)
    ensures SyncInv(s)
  {
  }
}
