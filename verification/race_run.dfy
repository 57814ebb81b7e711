/** A run in which a write disappears: a manual compaction of level 1 has a gap between its
    files, and a memtable flushed meanwhile sinks into the gap at the output level. */
module RaceRun {
  import opened Keys
  import opened Version
  import opened CompactionInputs
  import opened CompactionWork
  import opened CompactionReads
  import opened VersionBuilder
  import opened Install
  import opened Lsm
  import opened Manifest
  import opened CompactionRace

  // One put after the other, each flushed on its own: keys 1 and 3, both again, and key 2.
  const PUT_1 := Entry(IKey(1.0, 1, Value), [1])
  const PUT_3 := Entry(IKey(3.0, 2, Value), [2])
  const PUT_1_AGAIN := Entry(IKey(1.0, 3, Value), [3])
  const PUT_3_AGAIN := Entry(IKey(3.0, 4, Value), [4])
  const PUT_2 := Entry(IKey(2.0, 5, Value), [5])

  const OLD_1 := Single(2, PUT_1)
  const OLD_3 := Single(4, PUT_3)
  const NEW_1 := Single(6, PUT_1_AGAIN)
  const NEW_3 := Single(8, PUT_3_AGAIN)
  const IN_GAP := Single(10, PUT_2)
  const OUTPUT := File(11, 2, PUT_1_AGAIN.key, PUT_3_AGAIN.key, [PUT_1_AGAIN, PUT_3_AGAIN])

  const V1: Levels := [[], [], [OLD_1], [], [], [], []]
  const V2: Levels := [[], [], [OLD_1, OLD_3], [], [], [], []]
  const V3: Levels := [[], [NEW_1], [OLD_1, OLD_3], [], [], [], []]
  const BEGUN: Levels := [[], [NEW_1, NEW_3], [OLD_1, OLD_3], [], [], [], []]
  const FLUSHED: Levels := [[], [NEW_1, NEW_3], [OLD_1, IN_GAP, OLD_3], [], [], [], []]
  const INSTALLED: Levels := [[], [], [OUTPUT, IN_GAP], [], [], [], []]

  const IN0 := [NEW_1, NEW_3]
  const IN1 := [OLD_1, OLD_3]

  function Single(number: nat, e: Entry): File {
    File(number, 1, e.key, e.key, [e])
  }

  function Put(s: Db, e: Entry): Db {
    s.(mem := [e], lastSequence := e.key.sequence, history := s.history + {e})
  }

  function SetAside(s: Db): Db {
    s.(mem := [], imm := Some(s.mem), nextFile := s.nextFile + 1)
  }

  function Sunk(s: Db, v: Levels): Db {
    s.(imm := None, version := v, nextFile := s.nextFile + 1)
  }

  function Rounded(s: Db, e: Entry, v: Levels): Db {
    Sunk(SetAside(Put(s, e)), v)
  }

  const S0 := Db([], None, NO_FILES, 0, 1, [], {})
  const S1 := Rounded(S0, PUT_1, V1)
  const S2 := Rounded(S1, PUT_3, V2)
  const S3 := Rounded(S2, PUT_1_AGAIN, V3)
  const S4 := Rounded(S3, PUT_3_AGAIN, BEGUN)
  const S5 := Rounded(S4, PUT_2, FLUSHED)

  const STATES := [S0, Put(S0, PUT_1), SetAside(Put(S0, PUT_1)), S1, Put(S1, PUT_3), SetAside(Put(S1, PUT_3)),
                   S2, Put(S2, PUT_1_AGAIN), SetAside(Put(S2, PUT_1_AGAIN)),
                   S3, Put(S3, PUT_3_AGAIN), SetAside(Put(S3, PUT_3_AGAIN)),
                   S4, Put(S4, PUT_2), SetAside(Put(S4, PUT_2)), S5]

  const STEPS := [Write([UpdateOf(PUT_1)]), Switch, Flush(2, OLD_1), Write([UpdateOf(PUT_3)]), Switch, Flush(2, OLD_3),
                  Write([UpdateOf(PUT_1_AGAIN)]), Switch, Flush(1, NEW_1),
                  Write([UpdateOf(PUT_3_AGAIN)]), Switch, Flush(1, NEW_3),
                  Write([UpdateOf(PUT_2)]), Switch, Flush(2, IN_GAP)]

  function UpdateOf(e: Entry): Update {
    Update(e.key.kind, e.key.user, e.value)
  }

  // ------------------------------------------------------------------ the steps

  // The flushed file is new, and meets no file from level 0 down to its own.
  ghost predicate Sinks(v: Levels, level: nat, f: File, v': Levels) {
    && level < NUM_LEVELS && Added(v, level, f, v')
      && (forall l, g :: 0 <= l < NUM_LEVELS && g in v[l] ==> g.number < f.number)
    && forall l, g :: 0 <= l <= level && g in v[l] ==> !Overlaps(g, Some(f.smallest.user), Some(f.largest.user))
  }

  /** One put, and the flush of the memtable that holds it alone. */
  lemma Round(s: Db, e: Entry, level: nat, v: Levels)
    requires s.mem == [] && s.imm.None? && e.key.sequence == s.lastSequence + 1 < MAX_SEQUENCE
    requires Sinks(s.version, level, Single(s.nextFile + 1, e), v)
    ensures Next(s, Write([UpdateOf(e)]), Put(s, e)) && Next(Put(s, e), Switch, SetAside(Put(s, e)))
    ensures Next(SetAside(Put(s, e)), Flush(level, Single(s.nextFile + 1, e)), Rounded(s, e, v))
  {
    PutSteps(s, e);
    FlushSteps(s, e, level, v);
    hide Next, Put, SetAside, Rounded;
  }

  lemma PutSteps(s: Db, e: Entry)
    requires s.mem == [] && s.imm.None? && e.key.sequence == s.lastSequence + 1 < MAX_SEQUENCE
    ensures Next(s, Write([UpdateOf(e)]), Put(s, e)) && Next(Put(s, e), Switch, SetAside(Put(s, e)))
  {
    assert BatchEntries(s.lastSequence + 1, [UpdateOf(e)]) == [e];
    hide BatchEntries;
    assert Contents([e]) == Contents([]) + {e};
  }

  lemma FlushSteps(s: Db, e: Entry, level: nat, v: Levels)
    requires Sinks(s.version, level, Single(s.nextFile + 1, e), v)
    ensures Next(SetAside(Put(s, e)), Flush(level, Single(s.nextFile + 1, e)), Rounded(s, e, v))
  {
    hide Added;
    var f := Single(s.nextFile + 1, e);
    assert FileOk(f);
  }

  lemma Sinkings()
    ensures Sinks(NO_FILES, 2, OLD_1, V1) && Sinks(V1, 2, OLD_3, V2)
  {
    assert forall g :: g in V1[2] ==> g == OLD_1;
    assert forall g :: g in V2[2] ==> g == OLD_1 || g == OLD_3;
  }

  lemma Sinkings1()
    ensures Sinks(V2, 1, NEW_1, V3) && Sinks(V3, 1, NEW_3, BEGUN)
  {
    assert forall g :: g in V2[2] ==> g == OLD_1 || g == OLD_3;
    assert forall g :: g in V3[1] ==> g == NEW_1;
  }

  lemma Sinkings2()
    ensures Sinks(BEGUN, 2, IN_GAP, FLUSHED)
  {
    assert forall g :: g in BEGUN[1] ==> g == NEW_1 || g == NEW_3;
    assert forall g :: g in BEGUN[2] ==> g == OLD_1 || g == OLD_3;
  }

  lemma IsARun()
    ensures IsRun(STATES, STEPS)
  {
    hide Sinks, Next;
    Sinkings();
    Sinkings1();
    Sinkings2();
    Round(S0, PUT_1, 2, V1);
    Round(S1, PUT_3, 2, V2);
    Round(S2, PUT_1_AGAIN, 1, V3);
    Round(S3, PUT_3_AGAIN, 1, BEGUN);
    Round(S4, PUT_2, 2, FLUSHED);
    assert Init(S0);
    forall i | 0 <= i < |STEPS| ensures Next(STATES[i], STEPS[i], STATES[i + 1]) {
    }
  }

  // ------------------------------------------------------------------ the compaction

  // Nothing of the inputs is at key 2.
  lemma TheGap()
    ensures !Gapless(IN0 + IN1)
  {
    var inputs := IN0 + IN1;
    assert NEW_1 in inputs && NEW_3 in inputs;
    assert !Covered(inputs, 2.0);
  }

  lemma TheInputs()
    ensures CompactionOk(BEGUN, 1, IN0, IN1)
  {
    UpperInputs();
    LowerInputs();
    hide UpperInputsOk, LowerInputsOk;
  }

  lemma UpperInputs()
    ensures UpperInputsOk(BEGUN[1], 1, IN0)
  {
    assert IN0 == BEGUN[1][0..2];
    assert RunOf(BEGUN[1], IN0, 0, 2);
    assert NEW_1 in IN0 && NEW_3 in IN0;
    assert IsSmallest(IN0, NEW_1.smallest) && IsLargest(IN0, NEW_3.largest);
  }

  lemma LowerInputs()
    ensures LowerInputsOk(BEGUN[2], IN0, IN1)
  {
    assert NEW_1 in IN0 && NEW_3 in IN0;
    assert IsSmallest(IN0, NEW_1.smallest) && IsLargest(IN0, NEW_3.largest);
    assert IN1[..1] == [OLD_1] && [OLD_1][..0] == [];
    assert Overlapping([OLD_1], Some(1.0), Some(3.0)) == [OLD_1];
    assert Overlapping(IN1, Some(1.0), Some(3.0)) == IN1;
  }

  const MERGED := [PUT_1_AGAIN, PUT_1, PUT_3_AGAIN, PUT_3]

  lemma TheOutput()
    ensures Merges(S4, 1, IN0, IN1, [OUTPUT], 4) && OutputsOk(IN0, IN1, [OUTPUT])
  {
    hide Survivors, OutputsOk, MergedInput;
    TheSurvivors();
    assert [OUTPUT][..0] == [];
    assert Flatten([OUTPUT]) == OUTPUT.entries;
    TheInput();
    TheOutputFits();
  }

  lemma TheOutputFits()
    ensures OutputsOk(IN0, IN1, [OUTPUT])
  {
    hide Entries;
    InputEntries();
    assert FileOk(OUTPUT);
  }

  lemma TheInput()
    ensures MergedInput(MERGED, IN0, IN1)
  {
    hide Entries;
    InputEntries();
  }

  // Of each key the newer entry survives.
  lemma TheSurvivors()
    ensures Survivors(BEGUN, 1, MERGED, 4, |MERGED|) == OUTPUT.entries
  {
    TheKept();
    hide Kept;
    assert Survivors(BEGUN, 1, MERGED, 4, 0) == [];
    assert Survivors(BEGUN, 1, MERGED, 4, 1) == [PUT_1_AGAIN];
    assert Survivors(BEGUN, 1, MERGED, 4, 2) == [PUT_1_AGAIN];
    assert Survivors(BEGUN, 1, MERGED, 4, 3) == OUTPUT.entries;
  }

  lemma TheKept()
    ensures Kept(BEGUN, 1, MERGED, 4, 0) && !Kept(BEGUN, 1, MERGED, 4, 1) && Kept(BEGUN, 1, MERGED, 4, 2)
    ensures !Kept(BEGUN, 1, MERGED, 4, 3)
  {
    hide BaseLevel;
    assert !Kept(BEGUN, 1, MERGED, 4, 1) by { assert MERGED[0].key.user == MERGED[1].key.user; }
    assert !Kept(BEGUN, 1, MERGED, 4, 3) by { assert MERGED[2].key.user == MERGED[3].key.user; }
  }

  lemma InputEntries()
    ensures Entries(IN0) == {PUT_1_AGAIN, PUT_3_AGAIN} && Entries(IN1) == {PUT_1, PUT_3}
    ensures Entries([OUTPUT]) == {PUT_1_AGAIN, PUT_3_AGAIN}
  {
    assert NEW_1 in IN0 && NEW_3 in IN0 && OLD_1 in IN1 && OLD_3 in IN1 && OUTPUT in [OUTPUT];
    assert NEW_1.entries[0] in NEW_1.entries && NEW_3.entries[0] in NEW_3.entries;
    assert OLD_1.entries[0] in OLD_1.entries && OLD_3.entries[0] in OLD_3.entries;
    assert OUTPUT.entries[0] in OUTPUT.entries && OUTPUT.entries[1] in OUTPUT.entries;
  }

  lemma TheInstall()
    ensures Installed(FLUSHED, 1, IN0, IN1, [OUTPUT], INSTALLED)
    ensures forall k :: 0 <= k < NUM_LEVELS ==> StrictlyOrdered(INSTALLED[k])
  {
    assert forall g :: g in FLUSHED[2] ==> g == OLD_1 || g == IN_GAP || g == OLD_3;
    assert OLD_1 in IN1 && OLD_3 in IN1 && IN_GAP in FLUSHED[2] && IN_GAP in INSTALLED[2] && OUTPUT in INSTALLED[2];
    assert forall g :: g in INSTALLED[2] ==> g == OUTPUT || g == IN_GAP;
  }

  lemma Between()
    ensures FlushedBetween(BEGUN, 1, IN0, IN1, [OUTPUT], 2, IN_GAP, FLUSHED, INSTALLED)
  {
    hide IsRun, VersionOk, Functional, InputsSound, OutputsOk, Flushable, Added, Installed, CompactionOk, Merges,
      Structure, NewerThan, Sinks;
    IsARun();
    RunKeepsStructure(STATES, STEPS, 12);
    RunKeepsStructure(STATES, STEPS, 14);
    StructureParts(S4);
    TheInputs();
    SetupIsSound(BEGUN, 1, IN0, IN1);
    TheOutput();
    TheInstall();
    Sinkings2();
    SunkIsFlushable(SetAside(Put(S4, PUT_2)), IN_GAP);
  }

  lemma SunkIsFlushable(s: Db, f: File)
    requires Structure(s) && s.version == BEGUN && s.imm == Some(f.entries) && f == IN_GAP
    requires Sinks(BEGUN, 2, f, FLUSHED)
    ensures Flushable(BEGUN, 2, f) && Added(BEGUN, 2, f, FLUSHED)
  {
    hide Added, VersionOk, NumbersOk, HistoryOk;
    assert FileOk(f);
    assert Contents(f.entries) <= Front(s);
  }

  // ------------------------------------------------------------------ what is read

  /** The write of key 2 is in a table of the version, but the file that a search of level 2
      looks into, the first that does not end before the key, is the output beside it. */
  lemma WriteIsHidden()
    ensures IsRun(STATES, STEPS) && STATES[12].version == BEGUN && STATES[15].version == FLUSHED
    ensures CompactionOk(BEGUN, 1, IN0, IN1) && Merges(STATES[12], 1, IN0, IN1, [OUTPUT], 4)
    ensures FlushedBetween(BEGUN, 1, IN0, IN1, [OUTPUT], 2, IN_GAP, FLUSHED, INSTALLED) && !VersionOk(INSTALLED)
    ensures Read(STATES[15].history, 2.0, 5) == Some(PUT_2.value) == Read(AllEntries(INSTALLED), 2.0, 5)
    ensures INSTALLED[2] == [OUTPUT, IN_GAP] && !Before(OUTPUT.largest, SeekKey(2.0, 5))
    ensures forall e :: e in OUTPUT.entries ==> e.key.user != 2.0
    ensures forall l :: 0 <= l < NUM_LEVELS && l != 2 ==> INSTALLED[l] == []
  {
    hide IsRun, VersionOk, CompactionOk, Merges, FlushedBetween, AllEntries, Apart;
    IsARun();
    TheInputs();
    TheOutput();
    Between();
    FlushDuringCompaction(BEGUN, 1, IN0, IN1, [OUTPUT], 2, IN_GAP, FLUSHED, INSTALLED);
    assert !Apart(OUTPUT, IN_GAP) by { Spans(); }
    TheReads();
  }

  lemma Spans()
    ensures !Apart(OUTPUT, IN_GAP)
  {
  }

  lemma TheReads()
    ensures Read(S5.history, 2.0, 5) == Some(PUT_2.value) == Read(AllEntries(INSTALLED), 2.0, 5)
  {
    hide AllEntries;
    InstalledEntries();
    assert S5.history == {PUT_1, PUT_3, PUT_1_AGAIN, PUT_3_AGAIN, PUT_2};
    ReadNewest(S5.history, 2.0, 5, PUT_2);
    ReadNewest(AllEntries(INSTALLED), 2.0, 5, PUT_2);
  }

  lemma InstalledEntries()
    ensures PUT_2 in AllEntries(INSTALLED) && forall e :: e in AllEntries(INSTALLED) ==>
      e in {PUT_1_AGAIN, PUT_3_AGAIN, PUT_2}
  {
    assert IN_GAP in INSTALLED[2] && IN_GAP.entries[0] in IN_GAP.entries;
    assert PUT_2 in Entries(INSTALLED[2]);
    forall l, e | 0 <= l < NUM_LEVELS && e in Entries(INSTALLED[l]) ensures e in {PUT_1_AGAIN, PUT_3_AGAIN, PUT_2} {
      var f :| f in INSTALLED[l] && e in f.entries;
      assert l == 2 && (f == OUTPUT || f == IN_GAP);
    }
  }
}
