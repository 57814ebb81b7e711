/** Running a compaction: the drop rules of DoCompactionWork, and which reads they keep
    (db/db_impl.cc DoCompactionWork, db/version_set.cc Compaction). */
module CompactionWork {
  import opened Keys
  import opened Version

  // No file below the output level covers the user key: what IsBaseLevelForKey decides.
  ghost predicate BaseLevel(v: Levels, level: nat, user: UserKey) {
    forall l, f :: level + 2 <= l < NUM_LEVELS && f in v[l] ==> !(f.smallest.user <= user <= f.largest.user)
  }

  // Every file before `ptr` ends before the user key.
  ghost predicate Passed(files: seq<File>, ptr: nat, user: UserKey) {
    ptr <= |files| && forall i :: 0 <= i < ptr ==> files[i].largest.user < user
  }

  /** Compaction: the part that DoCompactionWork updates as it goes. */
  class Compaction {
    const level: nat
    const version: Levels             // input_version_
    const grandparents: seq<File>
    const maxGrandparentOverlap: nat  // MaxGrandParentOverlapBytes
    var levelPtrs: seq<nat>           // level_ptrs_
    var grandparentIndex: nat
    var seenKey: bool
    var overlappedBytes: nat
    ghost var asked: Option<UserKey>  // the user key of the last IsBaseLevelForKey call

    ghost predicate Valid()
      reads this
    {
      && |levelPtrs| == NUM_LEVELS && grandparentIndex <= |grandparents|
      && (forall l :: level + 2 <= l < NUM_LEVELS ==> FilesOk(version[l]) && DisjointSorted(version[l]))
      && forall l :: level + 2 <= l < NUM_LEVELS ==>
           if asked.Some? then Passed(version[l], levelPtrs[l], asked.value) else levelPtrs[l] == 0
    }

    constructor (v: Levels, level: nat, grandparents: seq<File>, maxGrandparentOverlap: nat)
      requires VersionOk(v)
      ensures Valid() && asked == None
      ensures this.version == v && this.level == level && this.grandparents == grandparents
      ensures this.maxGrandparentOverlap == maxGrandparentOverlap && grandparentIndex == 0 == overlappedBytes
        && !seenKey
    {
      this.version, this.level, this.grandparents, this.maxGrandparentOverlap :=
        v, level, grandparents, maxGrandparentOverlap;
      levelPtrs := [0, 0, 0, 0, 0, 0, 0];
      grandparentIndex, seenKey, overlappedBytes := 0, false, 0;
      asked := None;
    }

    /** IsBaseLevelForKey: for user keys asked in ascending order, one monotone scan over
        all calls decides what a full scan of the deeper levels would. */
    method IsBaseLevelForKey(user: UserKey) returns (r: bool)
      requires Valid() && (asked.Some? ==> asked.value <= user)
      modifies this`levelPtrs, this`asked
      ensures Valid() && asked == Some(user)
      ensures r <==> BaseLevel(version, level, user)
    {
      asked := Some(user);
      var lvl := level + 2;
      while lvl < NUM_LEVELS
        invariant level + 2 <= lvl
        invariant Valid() && asked == Some(user)
        invariant forall l, f :: level + 2 <= l < lvl && l < NUM_LEVELS && f in version[l] ==>
          !(f.smallest.user <= user <= f.largest.user)
      {
        var files := version[lvl];
        var stop := false;
        while levelPtrs[lvl] < |files| && !stop
          invariant Valid() && asked == Some(user)
          invariant stop ==> levelPtrs[lvl] < |files| && user < files[levelPtrs[lvl]].smallest.user
          decreases !stop, |files| - levelPtrs[lvl]
        {
          var f := files[levelPtrs[lvl]];
          if user <= f.largest.user {
            if user >= f.smallest.user {
              return false;
            }
            stop := true;
          } else {
            levelPtrs := levelPtrs[lvl := levelPtrs[lvl] + 1];
          }
        }
        NotCovered(files, levelPtrs[lvl], user);
        lvl := lvl + 1;
      }
      r := true;
    }

    // ShouldStopBefore
    method ShouldStopBefore(key: IKey) returns (stop: bool)
      requires Valid() && grandparentIndex <= Behind(grandparents, key)
      modifies this`grandparentIndex, this`seenKey, this`overlappedBytes
      ensures Valid() && seenKey && grandparentIndex == Behind(grandparents, key)
      ensures old(grandparentIndex) <= grandparentIndex
      ensures var passed := if old(seenKey) then TotalFileSize(grandparents[old(grandparentIndex)..grandparentIndex])
        else 0;
        && (stop <==> old(overlappedBytes) + passed > maxGrandparentOverlap)
        && overlappedBytes == if stop then 0 else old(overlappedBytes) + passed
    {
      hide TotalFileSize, Behind;
      ghost var start := grandparentIndex;
      NoFilesTotal(grandparents, start);
      while grandparentIndex < |grandparents| && Before(grandparents[grandparentIndex].largest, key)
        invariant start <= grandparentIndex <= Behind(grandparents, key) <= |grandparents|
        invariant overlappedBytes == old(overlappedBytes)
          + if seenKey then TotalFileSize(grandparents[start..grandparentIndex]) else 0
        invariant seenKey == old(seenKey)
      {
        BehindGoesOn(grandparents, key, grandparentIndex);
        OneMoreTotal(grandparents, start, grandparentIndex);
        if seenKey {
          overlappedBytes := overlappedBytes + grandparents[grandparentIndex].size;
        }
        grandparentIndex := grandparentIndex + 1;
      }
      BehindStops(grandparents, key, grandparentIndex);
      seenKey := true;
      stop := overlappedBytes > maxGrandparentOverlap;
      if stop {
        overlappedBytes := 0;
      }
    }
  }

  // How many files at the front end before the key.
  function Behind(files: seq<File>, key: IKey): (n: nat)
    ensures n <= |files|
  {
    if |files| > 0 && Before(files[0].largest, key) then 1 + Behind(files[1..], key) else 0
  }

  lemma {:induction false} BehindIs(files: seq<File>, key: IKey)
    ensures forall i :: 0 <= i < Behind(files, key) ==> Before(files[i].largest, key)
    ensures Behind(files, key) < |files| ==> !Before(files[Behind(files, key)].largest, key)
  {
    if |files| > 0 && Before(files[0].largest, key) {
      BehindIs(files[1..], key);
    }
  }

  lemma BehindGoesOn(files: seq<File>, key: IKey, i: nat)
    requires i < |files| && i <= Behind(files, key) && Before(files[i].largest, key)
    ensures i < Behind(files, key)
  {
    BehindIs(files, key);
  }

  lemma BehindStops(files: seq<File>, key: IKey, i: nat)
    requires i <= Behind(files, key) && (i < |files| ==> !Before(files[i].largest, key))
    ensures i == Behind(files, key)
  {
    BehindIs(files, key);
  }

  lemma BehindGrows(files: seq<File>, a: IKey, b: IKey)
    requires Before(a, b)
    ensures Behind(files, a) <= Behind(files, b)
  {
    BehindIs(files, a);
    BehindIs(files, b);
  }

  lemma NoFilesTotal(files: seq<File>, i: nat)
    requires i <= |files|
    ensures TotalFileSize(files[i..i]) == 0
  {
  }

  lemma OneMoreTotal(files: seq<File>, a: nat, b: nat)
    requires a <= b < |files|
    ensures TotalFileSize(files[a..b + 1]) == TotalFileSize(files[a..b]) + files[b].size
  {
    assert files[a..b + 1][..b - a] == files[a..b];
  }

  lemma {:induction false} TotalsAdd(files: seq<File>, a: nat, b: nat, c: nat)
    requires a <= b <= c <= |files|
    ensures TotalFileSize(files[a..c]) == TotalFileSize(files[a..b]) + TotalFileSize(files[b..c])
    decreases c
  {
    hide TotalFileSize;
    if b == c {
      NoFilesTotal(files, b);
    } else {
      TotalsAdd(files, a, b, c - 1);
      OneMoreTotal(files, a, c - 1);
      OneMoreTotal(files, b, c - 1);
    }
  }

  lemma NotCovered(files: seq<File>, ptr: nat, user: UserKey)
    requires FilesOk(files) && DisjointSorted(files) && Passed(files, ptr, user)
    requires ptr < |files| ==> user < files[ptr].smallest.user
    ensures forall f :: f in files ==> !(f.smallest.user <= user <= f.largest.user)
  {
    forall f | f in files ensures !(f.smallest.user <= user <= f.largest.user) {
      var k :| 0 <= k < |files| && files[k] == f;
      if k > ptr {
        RangeNonEmpty(files[ptr]);
      }
    }
  }

  // ------------------------------------------------------------------ what is kept

  /** The drop rules, stated without the scan: an entry goes when a newer input entry of
      its user key is already visible at the smallest snapshot, or when it is a deletion
      marker visible there with nothing below it. */
  ghost predicate Kept(v: Levels, level: nat, input: seq<Entry>, ss: nat, i: nat)
    requires i < |input|
  {
    var key := input[i].key;
    && !(exists j :: 0 <= j < i && input[j].key.user == key.user && input[j].key.sequence <= ss)
    && !(key.kind.Deletion? && key.sequence <= ss && BaseLevel(v, level, key.user))
  }

  ghost function Survivors(v: Levels, level: nat, input: seq<Entry>, ss: nat, n: nat): seq<Entry>
    requires n <= |input|
  {
    if n == 0 then []
    else Survivors(v, level, input, ss, n - 1) + if Kept(v, level, input, ss, n - 1) then [input[n - 1]] else []
  }

  lemma {:induction false} InSurvivors(v: Levels, level: nat, input: seq<Entry>, ss: nat, n: nat)
    requires n <= |input|
    ensures forall e :: e in Survivors(v, level, input, ss, n) <==>
      exists i :: 0 <= i < n && input[i] == e && Kept(v, level, input, ss, i)
  {
    if n > 0 {
      InSurvivors(v, level, input, ss, n - 1);
    }
  }

  lemma SurvivorsAreInputs(v: Levels, level: nat, input: seq<Entry>, ss: nat)
    ensures Contents(Survivors(v, level, input, ss, |input|)) <= Contents(input)
  {
    InSurvivors(v, level, input, ss, |input|);
  }

  lemma {:induction false} SurvivorsSorted(v: Levels, level: nat, input: seq<Entry>, ss: nat, n: nat)
    requires Sorted(input) && n <= |input|
    ensures Sorted(Survivors(v, level, input, ss, n))
    ensures n < |input| ==> forall e :: e in Survivors(v, level, input, ss, n) ==> Before(e.key, input[n].key)
  {
    if n > 0 {
      SurvivorsSorted(v, level, input, ss, n - 1);
    }
  }

  /** What goes: of the entries of a user key that are visible at the smallest snapshot at most
      one stays, and a deletion marker among them only if a deeper file may have the key. */
  lemma LittleStays(v: Levels, level: nat, input: seq<Entry>, ss: nat, d: Entry, e: Entry)
    requires Sorted(input) && d in Survivors(v, level, input, ss, |input|)
      && e in Survivors(v, level, input, ss, |input|)
    requires d.key.user == e.key.user && d.key.sequence <= ss && e.key.sequence <= ss
    ensures d == e
    ensures e.key.kind.Deletion? ==>
      exists l, f :: level + 2 <= l < NUM_LEVELS && f in v[l] && f.smallest.user <= e.key.user <= f.largest.user
  {
    InSurvivors(v, level, input, ss, |input|);
    var i :| 0 <= i < |input| && input[i] == d && Kept(v, level, input, ss, i);
    var j :| 0 <= j < |input| && input[j] == e && Kept(v, level, input, ss, j);
    assert i == j;
  }

  function Flatten(files: seq<File>): seq<Entry> {
    if |files| == 0 then [] else Flatten(files[..|files| - 1]) + files[|files| - 1].entries
  }

  lemma FlattenSnoc(files: seq<File>, f: File)
    ensures Flatten(files + [f]) == Flatten(files) + f.entries
  {
    assert (files + [f])[..|files|] == files;
  }

  // Output files are numbered from `base` on.
  ghost predicate NumberedFrom(files: seq<File>, base: nat) {
    forall i :: 0 <= i < |files| ==> files[i].number == base + i
  }

  lemma OneMoreOutput(files: seq<File>, f: File, base: nat)
    requires FilesOk(files) && NumberedFrom(files, base) && FileOk(f) && f.number == base + |files|
    ensures FilesOk(files + [f]) && NumberedFrom(files + [f], base)
  {
    hide FileOk;
  }

  /** CompactionState: the finished outputs and the table being built. */
  class CompactionState {
    const firstFile: nat               // the file number counter at the start
    const fileSize: seq<Entry> -> nat  // TableBuilder::FileSize
    var outputs: seq<File>
    var builder: Option<seq<Entry>>
    var nextFile: nat

    ghost predicate Valid()
      reads this
    {
      && FilesOk(outputs) && NumberedFrom(outputs, firstFile)
      && nextFile == firstFile + |outputs| + (if builder.Some? then 1 else 0)
      && (builder.Some? ==> |builder.value| > 0)
      && Sorted(Written())
    }

    // Everything written so far, in order.
    ghost function Written(): seq<Entry>
      reads this
    {
      Flatten(outputs) + if builder.Some? then builder.value else []
    }

    constructor (nextFile: nat, fileSize: seq<Entry> -> nat)
      ensures Valid() && Written() == [] && firstFile == nextFile && builder == None && outputs == []
      ensures this.fileSize == fileSize
    {
      firstFile, this.nextFile, this.fileSize := nextFile, nextFile, fileSize;
      outputs, builder := [], None;
    }

    // OpenCompactionOutputFile when needed, then TableBuilder::Add.
    method Add(e: Entry)
      requires Valid() && Sorted(Written() + [e])
      modifies this
      ensures Valid() && Written() == old(Written()) + [e]
      ensures builder == Some((if old(builder).Some? then old(builder).value else []) + [e]) && outputs == old(outputs)
    {
      if builder.None? {
        builder := Some([]);
        nextFile := nextFile + 1;
      }
      builder := Some(builder.value + [e]);
      assert Written() == old(Written()) + [e];
    }

    // FinishCompactionOutputFile: the table's bounds are its first and last key.
    method Finish()
      requires Valid() && builder.Some?
      modifies this
      ensures Valid() && Written() == old(Written()) && builder == None
      ensures |outputs| == |old(outputs)| + 1 && old(outputs) <= outputs
      ensures outputs[|old(outputs)|].entries == old(builder).value
    {
      hide Sorted, Flatten, FilesOk, NumberedFrom;
      var entries := builder.value;
      SuffixSorted(Flatten(outputs), entries);
      var f := File(nextFile - 1, fileSize(entries), entries[0].key, entries[|entries| - 1].key, entries);
      FlattenSnoc(outputs, f);
      OneMoreOutput(outputs, f, firstFile);
      outputs, builder := outputs + [f], None;
      assert Written() == old(Written());
    }
  }

  // The drop decision for entry i, from the key and sequence number remembered from entry i - 1.
  method Drop(c: Compaction, input: seq<Entry>, ss: nat, i: nat, currentUserKey: Option<UserKey>,
              lastSequenceForKey: nat)
    returns (drop: bool)
    requires c.Valid() && i < |input| && Sorted(input) && ss < MAX_SEQUENCE
    requires c.asked.Some? ==> i > 0 && c.asked.value <= input[i - 1].key.user
    requires currentUserKey == if i == 0 then None else Some(input[i - 1].key.user)
    requires i > 0 ==> lastSequenceForKey == input[i - 1].key.sequence
    modifies c`levelPtrs, c`asked
    ensures c.Valid() && (c.asked.Some? ==> c.asked.value <= input[i].key.user)
    ensures drop <==> !Kept(c.version, c.level, input, ss, i)
  {
    var key := input[i].key;
    var last := lastSequenceForKey;
    if currentUserKey.None? || key.user != currentUserKey.value {
      last := MAX_SEQUENCE;
    }
    HiddenByPrevious(input, ss, i);
    drop := false;
    if last <= ss {
      drop := true;
    } else if key.kind.Deletion? && key.sequence <= ss {
      drop := c.IsBaseLevelForKey(key.user);
    }
  }

  // ------------------------------------------------------------------ where outputs end

  // What decides where outputs end.
  datatype Cuts = Cuts(fileSize: seq<Entry> -> nat, maxSize: nat, grandparents: seq<File>, maxOverlap: nat)

  // A table reaches the size limit only with its last entry, and goes past grandparents of no
  // more than the allowed size in all.
  ghost predicate CutWell(entries: seq<Entry>, cuts: Cuts) {
    && |entries| > 0 && (forall k :: 0 < k < |entries| ==> cuts.fileSize(entries[..k]) < cuts.maxSize)
    && var a, b := Behind(cuts.grandparents, entries[0].key), Behind(cuts.grandparents, entries[|entries| - 1].key);
       a <= b && TotalFileSize(cuts.grandparents[a..b]) <= cuts.maxOverlap
  }

  ghost predicate AllCutWell(outputs: seq<File>, cuts: Cuts) {
    forall o :: o in outputs ==> CutWell(o.entries, cuts)
  }

  // These tables were ended by their size.
  ghost predicate AllFull(outputs: seq<File>, cuts: Cuts) {
    forall o :: o in outputs ==> cuts.fileSize(o.entries) >= cuts.maxSize
  }

  // The table being built, when the scan of the grandparents has come to `index`.
  ghost predicate Filling(builder: Option<seq<Entry>>, index: nat, overlapped: nat, cuts: Cuts) {
    && index <= |cuts.grandparents| && overlapped <= cuts.maxOverlap
    && (builder.Some? ==>
          && CutWell(builder.value, cuts) && cuts.fileSize(builder.value) < cuts.maxSize
          && Behind(cuts.grandparents, builder.value[|builder.value| - 1].key) <= index
          && TotalFileSize(cuts.grandparents[Behind(cuts.grandparents, builder.value[0].key)..index]) <= overlapped)
  }

  lemma EntryFills(builder: Option<seq<Entry>>, index: nat, overlapped: nat, cuts: Cuts, e: Entry, next: nat,
                   grown: nat)
    requires Filling(builder, index, overlapped, cuts) && index <= next == Behind(cuts.grandparents, e.key)
    requires grown <= cuts.maxOverlap
    requires builder.Some? ==> grown == overlapped + TotalFileSize(cuts.grandparents[index..next])
    ensures var b := (if builder.Some? then builder.value else []) + [e];
      && CutWell(b, cuts)
      && (cuts.fileSize(b) < cuts.maxSize ==> Filling(Some(b), next, grown, cuts))
  {
    hide Behind, TotalFileSize;
    var gps := cuts.grandparents;
    var b := (if builder.Some? then builder.value else []) + [e];
    NoFilesTotal(gps, next);
    if builder.Some? {
      var a := Behind(gps, builder.value[0].key);
      TotalsAdd(gps, a, index, next);
      assert b[0] == builder.value[0];
      forall k | 0 < k < |b| ensures cuts.fileSize(b[..k]) < cuts.maxSize {
        assert b[..k] == if k < |builder.value| then builder.value[..k] else builder.value;
      }
    }
  }

  lemma OneMoreCut(outputs: seq<File>, more: seq<File>, cuts: Cuts)
    requires AllCutWell(outputs, cuts) && |more| == |outputs| + 1 && outputs <= more
    requires CutWell(more[|outputs|].entries, cuts)
    ensures AllCutWell(more, cuts)
    ensures AllFull(outputs, cuts) && cuts.fileSize(more[|outputs|].entries) >= cuts.maxSize ==> AllFull(more, cuts)
  {
    hide CutWell;
    assert more == outputs + [more[|outputs|]];
  }

  // The scan goes on past a key.
  lemma ScanGoesOn(builder: Option<seq<Entry>>, index: nat, overlapped: nat, cuts: Cuts, next: nat, grown: nat)
    requires Filling(builder, index, overlapped, cuts) && index <= next <= |cuts.grandparents|
      && grown <= cuts.maxOverlap
    requires builder.Some? ==> grown == overlapped + TotalFileSize(cuts.grandparents[index..next])
    ensures Filling(builder, next, grown, cuts)
  {
    hide Behind, TotalFileSize;
    if builder.Some? {
      TotalsAdd(cuts.grandparents, Behind(cuts.grandparents, builder.value[0].key), index, next);
    }
  }

  // What the loop of DoCompactionWork keeps about its outputs.
  ghost predicate Cutting(c: Compaction, compact: CompactionState, cuts: Cuts)
    reads c`grandparentIndex, c`seenKey, c`overlappedBytes, compact`outputs, compact`builder
  {
    && cuts == Cuts(compact.fileSize, cuts.maxSize, c.grandparents, c.maxGrandparentOverlap)
    && (compact.builder.Some? ==> c.seenKey)
    && Filling(compact.builder, c.grandparentIndex, c.overlappedBytes, cuts) && AllCutWell(compact.outputs, cuts)
    && c.overlappedBytes <= TotalFileSize(c.grandparents[..c.grandparentIndex])
    && (TotalFileSize(c.grandparents) <= c.maxGrandparentOverlap ==> AllFull(compact.outputs, cuts))
  }

  // The first part of a round: an output that would go past too many grandparents ends here.
  method StopBefore(c: Compaction, compact: CompactionState, key: IKey, ghost cuts: Cuts)
    requires c.Valid() && compact.Valid() && Cutting(c, compact, cuts)
      && c.grandparentIndex <= Behind(c.grandparents, key)
    modifies c`grandparentIndex, c`seenKey, c`overlappedBytes, compact
    ensures c.Valid() && compact.Valid() && Cutting(c, compact, cuts) && c.seenKey
    ensures c.grandparentIndex == Behind(c.grandparents, key) && compact.Written() == old(compact.Written())
  {
    hide Compaction.Valid, CompactionState.Valid, Behind, TotalFileSize, CompactionState.Written, AllFull, AllCutWell,
      CutWell;
    ghost var index, overlapped, builder := c.grandparentIndex, c.overlappedBytes, compact.builder;
    var stop := c.ShouldStopBefore(key);
    ghost var next := c.grandparentIndex;
    TotalsOfPrefix(c.grandparents, index, next);
    if stop {
      NothingFills(next, 0, cuts);
      if compact.builder.Some? {
        FillingIsCut(builder, index, overlapped, cuts);
        ghost var outputs := compact.outputs;
        compact.Finish();
        OneMoreCut(outputs, compact.outputs, cuts);
      }
    } else {
      ScanGoesOn(builder, index, overlapped, cuts, next, c.overlappedBytes);
    }
  }

  lemma NothingFills(index: nat, overlapped: nat, cuts: Cuts)
    requires index <= |cuts.grandparents| && overlapped <= cuts.maxOverlap
    ensures Filling(None, index, overlapped, cuts)
  {
  }

  lemma FillingIsCut(builder: Option<seq<Entry>>, index: nat, overlapped: nat, cuts: Cuts)
    requires Filling(builder, index, overlapped, cuts) && builder.Some?
    ensures CutWell(builder.value, cuts)
  {
    hide CutWell;
  }

  lemma TotalsOfPrefix(files: seq<File>, a: nat, b: nat)
    requires a <= b <= |files|
    ensures TotalFileSize(files[..b]) == TotalFileSize(files[..a]) + TotalFileSize(files[a..b])
    ensures TotalFileSize(files[..b]) <= TotalFileSize(files)
  {
    hide TotalFileSize;
    assert files[0..a] == files[..a] && files[0..b] == files[..b] && files[0..|files|] == files;
    TotalsAdd(files, 0, a, b);
    TotalsAdd(files, 0, b, |files|);
  }

  // The last part of a round, for an entry that stays: an output that is full ends here.
  method Keep(c: Compaction, compact: CompactionState, e: Entry, maxOutputFileSize: nat, ghost cuts: Cuts)
    requires c.Valid() && compact.Valid() && Cutting(c, compact, cuts) && c.seenKey && cuts.maxSize == maxOutputFileSize
    requires c.grandparentIndex == Behind(c.grandparents, e.key) && Sorted(compact.Written() + [e])
    modifies compact
    ensures compact.Valid() && Cutting(c, compact, cuts) && compact.Written() == old(compact.Written()) + [e]
  {
    hide Compaction.Valid, CompactionState.Valid, Behind, TotalFileSize, CompactionState.Written, AllFull, AllCutWell,
      CutWell, Sorted, Filling;
    ghost var index, overlapped := c.grandparentIndex, c.overlappedBytes;
    NoFilesTotal(c.grandparents, index);
    IndexFits(compact.builder, index, overlapped, cuts);
    EntryFills(compact.builder, index, overlapped, cuts, e, index, overlapped);
    compact.Add(e);
    if compact.fileSize(compact.builder.value) >= maxOutputFileSize {
      NothingFills(index, overlapped, cuts);
      ghost var outputs := compact.outputs;
      compact.Finish();
      OneMoreCut(outputs, compact.outputs, cuts);
    }
  }

  lemma IndexFits(builder: Option<seq<Entry>>, index: nat, overlapped: nat, cuts: Cuts)
    requires Filling(builder, index, overlapped, cuts)
    ensures index <= |cuts.grandparents| && overlapped <= cuts.maxOverlap
  {
  }

  /** DoCompactionWork over the merged input.  The output files together hold exactly the
      surviving entries in order; each is cut as it should be, and none but the last is cut
      before it is full unless it would go past too many grandparents. */
  method DoCompactionWork(c: Compaction, compact: CompactionState, input: seq<Entry>, ss: nat, maxOutputFileSize: nat)
    requires c.Valid() && c.asked == None && Sorted(input) && ss < MAX_SEQUENCE
    requires c.grandparentIndex == 0 == c.overlappedBytes && !c.seenKey
    requires compact.Valid() && compact.outputs == [] && compact.builder == None
    modifies c, compact
    ensures compact.Valid() && compact.builder == None
    ensures Flatten(compact.outputs) == Survivors(c.version, c.level, input, ss, |input|)
    ensures var cuts := Cuts(compact.fileSize, maxOutputFileSize, c.grandparents, c.maxGrandparentOverlap);
      && AllCutWell(compact.outputs, cuts)
      && (|compact.outputs| > 0 && TotalFileSize(c.grandparents) <= c.maxGrandparentOverlap ==>
            AllFull(compact.outputs[..|compact.outputs| - 1], cuts))
  {
    hide Kept, Sorted, Compaction.Valid, CompactionState.Valid, Flatten, Cutting, Behind, TotalFileSize, AllCutWell,
      AllFull;
    var currentUserKey: Option<UserKey> := None;
    var lastSequenceForKey := MAX_SEQUENCE;
    ghost var cuts := Cuts(compact.fileSize, maxOutputFileSize, c.grandparents, c.maxGrandparentOverlap);
    NothingCut(c, compact, cuts);
    var i := 0;
    while i < |input|
      invariant 0 <= i <= |input| && c.Valid() && compact.Valid() && Cutting(c, compact, cuts)
      invariant c.asked.Some? ==> i > 0 && c.asked.value <= input[i - 1].key.user
      invariant currentUserKey == if i == 0 then None else Some(input[i - 1].key.user)
      invariant i > 0 ==> lastSequenceForKey == input[i - 1].key.sequence
      invariant c.grandparentIndex == if i == 0 then 0 else Behind(c.grandparents, input[i - 1].key)
      invariant compact.Written() == Survivors(c.version, c.level, input, ss, i)
    {
      var key := input[i].key;
      KeysAscend(input, c.grandparents, i);
      StopBefore(c, compact, key, cuts);
      var drop := Drop(c, input, ss, i, currentUserKey, lastSequenceForKey);
      currentUserKey, lastSequenceForKey := Some(key.user), key.sequence;
      if !drop {
        SurvivorsSorted(c.version, c.level, input, ss, i + 1);
        Keep(c, compact, input[i], maxOutputFileSize, cuts);
      }
      i := i + 1;
    }
    LastOutput(c, compact, cuts);
    if compact.builder.Some? {
      ghost var outputs := compact.outputs;
      compact.Finish();
      OneMoreCut(outputs, compact.outputs, cuts);
      assert compact.outputs[..|compact.outputs| - 1] == outputs;
    } else {
      FewerFull(compact.outputs, cuts);
    }
  }

  lemma NothingCut(c: Compaction, compact: CompactionState, cuts: Cuts)
    requires c.grandparentIndex == 0 == c.overlappedBytes && compact.outputs == [] && compact.builder == None
    requires cuts == Cuts(compact.fileSize, cuts.maxSize, c.grandparents, c.maxGrandparentOverlap)
    ensures Cutting(c, compact, cuts) && compact.Written() == []
  {
  }

  lemma KeysAscend(input: seq<Entry>, files: seq<File>, i: nat)
    requires Sorted(input) && i < |input|
    ensures i > 0 ==> Behind(files, input[i - 1].key) <= Behind(files, input[i].key)
  {
    hide Behind;
    if i > 0 {
      BehindGrows(files, input[i - 1].key, input[i].key);
    }
  }

  lemma LastOutput(c: Compaction, compact: CompactionState, cuts: Cuts)
    requires Cutting(c, compact, cuts)
    ensures AllCutWell(compact.outputs, cuts) && (compact.builder.Some? ==> CutWell(compact.builder.value, cuts))
    ensures TotalFileSize(c.grandparents) <= c.maxGrandparentOverlap ==> AllFull(compact.outputs, cuts)
  {
    hide CutWell, AllCutWell, AllFull, TotalFileSize;
  }

  lemma FewerFull(outputs: seq<File>, cuts: Cuts)
    ensures |outputs| > 0 && AllFull(outputs, cuts) ==> AllFull(outputs[..|outputs| - 1], cuts)
  {
  }

  lemma SuffixSorted(a: seq<Entry>, b: seq<Entry>)
    requires Sorted(a + b)
    ensures Sorted(b)
  {
    forall i, j | 0 <= i < j < |b| ensures Before(b[i].key, b[j].key) {
      assert (a + b)[|a| + i] == b[i] && (a + b)[|a| + j] == b[j];
    }
  }

  // Rule (A) only looks at the previous entry, which is the least new of the user key so far.
  lemma HiddenByPrevious(input: seq<Entry>, ss: nat, i: nat)
    requires Sorted(input) && i < |input|
    ensures (exists j :: 0 <= j < i && input[j].key.user == input[i].key.user && input[j].key.sequence <= ss)
       <==> (i > 0 && input[i - 1].key.user == input[i].key.user && input[i - 1].key.sequence <= ss)
  {
    if j :| 0 <= j < i && input[j].key.user == input[i].key.user && input[j].key.sequence <= ss {
      if j < i - 1 {
        assert Before(input[j].key, input[i - 1].key) && Before(input[i - 1].key, input[i].key);
      }
    }
  }
}
