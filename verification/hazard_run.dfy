/** A run of the database that ends in the compaction of CompactionHazard: no step but the last
    is unsafe, and after it a deleted value is read again. */
module HazardRun {
  import opened Keys
  import opened Version
  import opened CompactionInputs
  import opened CompactionWork
  import opened CompactionReads
  import opened VersionBuilder
  import opened Install
  import opened CompactionHazard
  import opened Lsm
  import opened Manifest

  const PUT_TWO := Update(Value, 2.0, [3])
  const PUT_ONE := Update(Value, 1.0, [2])
  const DELETE_TWO := Update(Deletion, 2.0, [])
  const PUT_ONE_AGAIN := Update(Value, 1.0, [1])

  const FLUSHED := File(2, 3, LOWER_VALUE.key, OLD_VALUE.key, [LOWER_VALUE, MARKER, OLD_VALUE])
  const MERGED := OneEntryFile(7, UPPER_VALUE)

  const THREE := {OLD_VALUE, LOWER_VALUE, MARKER}
  const FOUR := {OLD_VALUE, LOWER_VALUE, MARKER, UPPER_VALUE}

  // The states, by what the step before them did.
  const NEW := Db([], None, NO_FILES, 0, 1, [], {})
  const PUT := Db([OLD_VALUE], None, NO_FILES, 1, 1, [], {OLD_VALUE})
  const SNAPPED := Db([OLD_VALUE], None, NO_FILES, 1, 1, [1], {OLD_VALUE})
  const DELETED := Db([LOWER_VALUE, MARKER, OLD_VALUE], None, NO_FILES, 3, 1, [1], THREE)
  const SWITCHED := Db([], Some([LOWER_VALUE, MARKER, OLD_VALUE]), NO_FILES, 3, 2, [1], THREE)
  const ONE_FILE := Db([], None, [[], [], [FLUSHED], [], [], [], []], 3, 3, [1], THREE)
  const CUT := Db([], None, [[], [], [], [LOWER, LEFT_OUT], [], [], []], 3, 5, [1], THREE)
  const RELEASED := Db([], None, [[], [], [], [LOWER, LEFT_OUT], [], [], []], 3, 5, [], THREE)
  const PUT_AGAIN := Db([UPPER_VALUE], None, [[], [], [], [LOWER, LEFT_OUT], [], [], []], 4, 5, [], FOUR)
  const SWITCHED_AGAIN := Db([], Some([UPPER_VALUE]), [[], [], [], [LOWER, LEFT_OUT], [], [], []], 4, 6, [], FOUR)
  const READY := Db([], None, SPLIT, 4, 7, [], FOUR)
  const HARMED := Db([], None, [[], [], [], [MERGED, LEFT_OUT], [], [], []], 4, 8, [], FOUR)

  const STATES :=
    [NEW, PUT, SNAPPED, DELETED, SWITCHED, ONE_FILE, CUT, RELEASED, PUT_AGAIN, SWITCHED_AGAIN, READY, HARMED]

  const STEPS := [Write([PUT_TWO]), TakeSnapshot, Write([PUT_ONE, DELETE_TWO]), Switch, Flush(2, FLUSHED),
                  Compact(2, [FLUSHED], [], [LOWER, LEFT_OUT], 1), Release(0), Write([PUT_ONE_AGAIN]), Switch,
                    Flush(2, UPPER),
                  Compact(2, [UPPER], [LOWER], [MERGED], 4)]

  // ------------------------------------------------------------------ the steps

  lemma OneUpdate(first: nat, u: Update)
    ensures Contents(BatchEntries(first, [u])) == {Entry(IKey(u.user, first, u.kind), u.value)}
  {
    assert BatchEntries(first, [u]) == [Entry(IKey(u.user, first, u.kind), u.value)];
  }

  lemma TwoUpdates(first: nat, u: Update, v: Update)
    ensures Contents(BatchEntries(first, [u, v]))
         == {Entry(IKey(u.user, first, u.kind), u.value), Entry(IKey(v.user, first + 1, v.kind), v.value)}
  {
    assert BatchEntries(first, [u, v])
      == [Entry(IKey(u.user, first, u.kind), u.value), Entry(IKey(v.user, first + 1, v.kind), v.value)];
  }

  lemma Writes()
    ensures Next(NEW, Write([PUT_TWO]), PUT)
    ensures Next(RELEASED, Write([PUT_ONE_AGAIN]), PUT_AGAIN)
  {
    hide BatchEntries;
    OneUpdate(1, PUT_TWO);
    OneUpdate(4, PUT_ONE_AGAIN);
    assert Contents(PUT.mem) == Contents(NEW.mem) + {OLD_VALUE};
    assert Contents(PUT_AGAIN.mem) == Contents(RELEASED.mem) + {UPPER_VALUE};
  }

  lemma WritesTwo()
    ensures Next(SNAPPED, Write([PUT_ONE, DELETE_TWO]), DELETED)
  {
    hide BatchEntries;
    TwoUpdates(2, PUT_ONE, DELETE_TWO);
    assert Contents(DELETED.mem) == Contents(SNAPPED.mem) + {LOWER_VALUE, MARKER};
  }

  lemma Flushes()
    ensures Next(SWITCHED, Flush(2, FLUSHED), ONE_FILE)
    ensures Next(SWITCHED_AGAIN, Flush(2, UPPER), READY)
  {
    FirstFlush();
    SecondFlush();
    hide *;
  }

  lemma FirstFlush()
    ensures Next(SWITCHED, Flush(2, FLUSHED), ONE_FILE)
  {
    assert FileOk(FLUSHED);
    assert Added(SWITCHED.version, 2, FLUSHED, ONE_FILE.version);
  }

  lemma SecondFlush()
    ensures Next(SWITCHED_AGAIN, Flush(2, UPPER), READY)
  {
    assert FileOk(UPPER);
    assert Added(SWITCHED_AGAIN.version, 2, UPPER, READY.version);
  }

  lemma Small()
    ensures Next(PUT, TakeSnapshot, SNAPPED) && Next(DELETED, Switch, SWITCHED)
    ensures Next(CUT, Release(0), RELEASED) && Next(PUT_AGAIN, Switch, SWITCHED_AGAIN)
  {
    assert PUT.snapshots + [PUT.lastSequence] == SNAPPED.snapshots;
    assert CUT.snapshots[..0] + CUT.snapshots[1..] == RELEASED.snapshots;
  }

  // ------------------------------------------------------------------ the compactions

  const CUT_INPUT := [LOWER_VALUE, MARKER, OLD_VALUE]

  // Nothing is dropped: the marker is newer than the snapshot.
  lemma CutSurvivors()
    ensures Survivors(ONE_FILE.version, 2, CUT_INPUT, 1, |CUT_INPUT|) == CUT_INPUT
  {
    var v := ONE_FILE.version;
    assert Kept(v, 2, CUT_INPUT, 1, 0) && Kept(v, 2, CUT_INPUT, 1, 1) && Kept(v, 2, CUT_INPUT, 1, 2);
    hide Kept;
    assert Survivors(v, 2, CUT_INPUT, 1, 0) == [];
    assert Survivors(v, 2, CUT_INPUT, 1, 1) == [LOWER_VALUE];
    assert Survivors(v, 2, CUT_INPUT, 1, 2) == [LOWER_VALUE, MARKER];
  }

  lemma CutMerged()
    ensures MergedInput(CUT_INPUT, [FLUSHED], [])
  {
    assert Contents(CUT_INPUT) == Entries([FLUSHED]) + Entries([]) by {
      assert FLUSHED in [FLUSHED] && Contents(FLUSHED.entries) == Contents(CUT_INPUT);
    }
  }

  lemma CutSurvives()
    ensures Merges(ONE_FILE, 2, [FLUSHED], [], [LOWER, LEFT_OUT], 1)
  {
    hide Survivors, MergedInput;
    CutSurvivors();
    CutMerged();
    assert [LOWER, LEFT_OUT][..1] == [LOWER] && [LOWER][..0] == [];
    assert Flatten([LOWER]) == LOWER.entries;
    assert Flatten([LOWER, LEFT_OUT]) == CUT_INPUT;
  }

  lemma MergedSurvives()
    ensures Merges(READY, 2, [UPPER], [LOWER], [MERGED], 4)
  {
    var input := [UPPER_VALUE, LOWER_VALUE, MARKER];
    assert Contents(input) == Entries([UPPER]) + Entries([LOWER]) by {
      assert UPPER in [UPPER] && LOWER in [LOWER];
      assert Contents(UPPER.entries) + Contents(LOWER.entries) == Contents(input);
    }
    NothingBelow();
    assert Kept(SPLIT, 2, input, 4, 0);
    assert !Kept(SPLIT, 2, input, 4, 1) by { assert input[0].key.user == input[1].key.user; }
    assert !Kept(SPLIT, 2, input, 4, 2);
    hide Kept;
    assert Survivors(SPLIT, 2, input, 4, 1) == [UPPER_VALUE] by { assert Survivors(SPLIT, 2, input, 4, 0) == []; }
    assert Survivors(SPLIT, 2, input, 4, 2) == [UPPER_VALUE];
    assert Survivors(SPLIT, 2, input, 4, 3) == [UPPER_VALUE];
    assert [MERGED][..0] == [];
    assert Flatten([MERGED]) == [UPPER_VALUE];
    assert MergedInput(input, [UPPER], [LOWER]);
  }

  lemma CutInputs()
    ensures InputsSound(ONE_FILE.version, 2, [FLUSHED], [])
  {
    assert IsSmallest([FLUSHED], FLUSHED.smallest)
      && IsLargest([FLUSHED], FLUSHED.largest) by { assert FLUSHED in [FLUSHED]; }
    assert LeftAside(ONE_FILE.version[3], [], FLUSHED.smallest.user, FLUSHED.largest.user);
  }

  lemma CutOutputs()
    ensures OutputsOk([FLUSHED], [], [LOWER, LEFT_OUT])
  {
    assert FLUSHED in [FLUSHED] && FLUSHED.entries[0] in FLUSHED.entries;
    assert FLUSHED.entries[1] in FLUSHED.entries && FLUSHED.entries[2] in FLUSHED.entries;
    assert Entries([LOWER, LEFT_OUT]) <= Entries([FLUSHED]);
  }

  // A version with two files, both at level 3.
  lemma TwoFiles(v: Levels, f: File, g: File, nextFile: nat)
    requires v[3] == [f, g] && forall l :: 0 <= l < NUM_LEVELS && l != 3 ==> v[l] == []
    requires f.number != g.number && f.number < nextFile && g.number < nextFile && BySmallestKey(f, g)
    ensures NumbersOk(v, nextFile)
  {
    hide BySmallestKey;
    forall l, h | 0 <= l < NUM_LEVELS && h in v[l] ensures l == 3 && (h == f || h == g) {
    }
  }

  lemma CutInstalled()
    ensures Installed(ONE_FILE.version, 2, [FLUSHED], [], [LOWER, LEFT_OUT], CUT.version)
    ensures NumbersOk(CUT.version, CUT.nextFile)
  {
    TwoFiles(CUT.version, LOWER, LEFT_OUT, 5);
    hide NumbersOk;
    assert ONE_FILE.version[2] == [FLUSHED] && CUT.version[2] == [] && CUT.version[3] == [LOWER, LEFT_OUT]
      && ONE_FILE.version[3] == [];
  }

  lemma CutStep()
    ensures CompactStep(ONE_FILE, 2, [FLUSHED], [], [LOWER, LEFT_OUT], CUT)
  {
    CutInputs();
    CutOutputs();
    CutInstalled();
    hide InputsSound, OutputsOk, Installed, NumbersOk;
  }

  lemma HarmOutputs()
    ensures OutputsOk([UPPER], [LOWER], [MERGED])
  {
    assert UPPER in [UPPER] && UPPER.entries[0] in UPPER.entries;
    assert Entries([MERGED]) <= Entries([UPPER]);
  }

  lemma HarmInstalled()
    ensures Installed(READY.version, 2, [UPPER], [LOWER], [MERGED], HARMED.version)
    ensures NumbersOk(HARMED.version, HARMED.nextFile)
  {
    TwoFiles(HARMED.version, MERGED, LEFT_OUT, 8);
    hide NumbersOk;
    assert SPLIT[2] == [UPPER] && HARMED.version[2] == [] && HARMED.version[3] == [MERGED, LEFT_OUT]
      && SPLIT[3] == [LOWER, LEFT_OUT];
  }

  lemma HarmStep()
    ensures CompactStep(READY, 2, [UPPER], [LOWER], [MERGED], HARMED)
  {
    hide VersionOk, InputsSound, CompactionOk, OutputsOk, Installed, NumbersOk;
    SplitOk();
    SplitInputs();
    SetupIsSound(SPLIT, 2, [UPPER], [LOWER]);
    HarmOutputs();
    HarmInstalled();
  }

  lemma IsARun()
    ensures IsRun(STATES, STEPS)
  {
    Writes();
    WritesTwo();
    Flushes();
    Small();
    CutSurvives();
    MergedSurvives();
    CutStep();
    HarmStep();
    hide WriteStep, SwitchStep, FlushStep, CompactStep, Merges, SnapshotStep, ReleaseStep;
    forall i | 0 <= i < |STEPS| ensures Next(STATES[i], STEPS[i], STATES[i + 1]) {
    }
  }

  // ------------------------------------------------------------------ what is read

  /** From an empty database, by steps that the code takes: before the last one reading user key
      2 finds nothing, as it was deleted, and after it the old value. */
  lemma DeletedValueComesBack()
    ensures IsRun(STATES, STEPS)
    ensures Read(StoredIn(READY), 2.0, 4) == None && Read(READY.history, 2.0, 4) == None
    ensures Read(StoredIn(HARMED), 2.0, 4) == Some(OLD_VALUE.value)
    ensures !Safe(READY, STEPS[10])
  {
    hide AllEntries, IsRun, VersionOk, CompactionOk, Resurrects, Entries;
    IsARun();
    SplitEntries();
    assert StoredIn(READY) == FOUR == AllEntries(SPLIT);
    HarmedEntries();
    TheReads();
    BoundaryFileResurrects();
  }

  lemma TheReads()
    ensures Read(FOUR, 2.0, 4) == None && Read({UPPER_VALUE, OLD_VALUE}, 2.0, 4) == Some(OLD_VALUE.value)
  {
    ReadNewest(FOUR, 2.0, 4, MARKER);
    ReadNewest({UPPER_VALUE, OLD_VALUE}, 2.0, 4, OLD_VALUE);
  }

  lemma HarmedEntries()
    ensures StoredIn(HARMED) == {UPPER_VALUE, OLD_VALUE}
  {
    var v := HARMED.version;
    assert MERGED in v[3] && LEFT_OUT in v[3] && MERGED.entries[0] in MERGED.entries
      && LEFT_OUT.entries[0] in LEFT_OUT.entries;
    assert Entries(v[3]) == {UPPER_VALUE, OLD_VALUE};
    assert forall l :: 0 <= l < NUM_LEVELS && l != 3 ==> Entries(v[l]) == {};
    assert AllEntries(v) == {UPPER_VALUE, OLD_VALUE};
  }

  /** Every step before the last is safe. */
  lemma OnlyTheLastHarms(i: nat)
    requires i < 10
    ensures Safe(STATES[i], STEPS[i])
  {
    if i == 5 {
      assert Entries([]) == {};
    }
  }
}
