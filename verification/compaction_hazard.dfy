/** A version on which a compaction does resurrect a deleted value: user key 2 is split over
    two level-3 files, and only the file ending in its deletion marker is an input. */
module CompactionHazard {
  import opened Keys
  import opened Version
  import opened CompactionInputs
  import opened CompactionWork
  import opened CompactionReads

  function OneEntryFile(number: nat, e: Entry): File {
    File(number, 1, e.key, e.key, [e])
  }

  const UPPER_VALUE := Entry(IKey(1.0, 4, Value), [1])
  const LOWER_VALUE := Entry(IKey(1.0, 2, Value), [2])
  const MARKER := Entry(IKey(2.0, 3, Deletion), [])
  const OLD_VALUE := Entry(IKey(2.0, 1, Value), [3])

  const UPPER := OneEntryFile(6, UPPER_VALUE)
  const LOWER := File(3, 2, LOWER_VALUE.key, MARKER.key, [LOWER_VALUE, MARKER])
  const LEFT_OUT := OneEntryFile(4, OLD_VALUE)

  const SPLIT: Levels := [[], [], [UPPER], [LOWER, LEFT_OUT], [], [], []]

  lemma SplitEntries()
    ensures Entries(SPLIT[2]) == {UPPER_VALUE} && Entries(SPLIT[3]) == {LOWER_VALUE, MARKER, OLD_VALUE}
    ensures forall l :: 0 <= l < NUM_LEVELS && l != 2 && l != 3 ==> Entries(SPLIT[l]) == {}
    ensures AllEntries(SPLIT) == {UPPER_VALUE, LOWER_VALUE, MARKER, OLD_VALUE}
  {
    assert UPPER in SPLIT[2] && LOWER in SPLIT[3] && LEFT_OUT in SPLIT[3];
    assert UPPER_VALUE in UPPER.entries && OLD_VALUE in LEFT_OUT.entries;
    assert LOWER.entries[0] in LOWER.entries && LOWER.entries[1] in LOWER.entries;
    assert UPPER_VALUE in Entries(SPLIT[2]);
    assert {LOWER_VALUE, MARKER, OLD_VALUE} <= Entries(SPLIT[3]);
  }

  lemma SplitFiles()
    ensures forall l :: 0 <= l < NUM_LEVELS ==> FilesOk(SPLIT[l])
    ensures forall l :: 1 <= l < NUM_LEVELS ==> DisjointSorted(SPLIT[l])
  {
  }

  lemma SplitLayers()
    ensures forall l, m :: 0 <= l < m < NUM_LEVELS ==> NewerThan(Entries(SPLIT[l]), Entries(SPLIT[m]))
    ensures forall l, e :: 0 <= l < NUM_LEVELS && e in Entries(SPLIT[l]) ==> e.key.sequence <= MAX_SEQUENCE
  {
    hide Entries;
    SplitEntries();
    forall l, m | 0 <= l < m < NUM_LEVELS ensures NewerThan(Entries(SPLIT[l]), Entries(SPLIT[m])) {
      assert (l == 2 && m == 3) || Entries(SPLIT[l]) == {} || Entries(SPLIT[m]) == {};
    }
  }

  lemma SplitOk()
    ensures VersionOk(SPLIT) && Functional(AllEntries(SPLIT))
  {
    hide NewerThan, Entries, FilesOk, DisjointSorted, AllEntries;
    SplitFiles();
    SplitLayers();
    SplitEntries();
  }

  lemma SplitInputs()
    ensures CompactionOk(SPLIT, 2, [UPPER], [LOWER])
  {
    assert [UPPER] == SPLIT[2][0..1];
    assert RunOf(SPLIT[2], [UPPER], 0, 1);
    assert UPPER in [UPPER];
    assert IsSmallest([UPPER], UPPER.smallest) && IsLargest([UPPER], UPPER.largest);
    var next := SPLIT[3];
    assert next[..1] == [LOWER] && [LOWER][..0] == [];
    assert Overlapping([LOWER], Some(1.0), Some(1.0)) == [LOWER];
    assert Overlapping(next, Some(1.0), Some(1.0)) == [LOWER];
  }

  /** Inputs that SetupOtherInputs may choose on a version that keeps the invariant, for
      which reading user key 2 finds the deleted value again. */
  lemma BoundaryFileResurrects()
    ensures VersionOk(SPLIT) && CompactionOk(SPLIT, 2, [UPPER], [LOWER])
    ensures Resurrects(AllEntries(SPLIT), SPLIT, 2, [LOWER], 4, 4)
    ensures Read(AllEntries(SPLIT), 2.0, 4) == None
    ensures Read(LeftLower(SPLIT, 2, [LOWER]), 2.0, 4) == Some(OLD_VALUE.value)
  {
    hide VersionOk, CompactionOk, AllEntries, BaseLevel, Functional;
    SplitOk();
    SplitInputs();
    var all, low := AllEntries(SPLIT), LeftLower(SPLIT, 2, [LOWER]);
    OldValueIsLeft();
    MarkerIsNewest();
    ReadNewest(all, 2.0, 4, MARKER);
    NothingBelow();
    assert IsResurrected(all, SPLIT, 2, [LOWER], 4, 4, MARKER);
  }

  lemma OldValueIsLeft()
    ensures Read(LeftLower(SPLIT, 2, [LOWER]), 2.0, 4) == Some(OLD_VALUE.value)
  {
    var low := LeftLower(SPLIT, 2, [LOWER]);
    assert LEFT_OUT in SPLIT[3] && LEFT_OUT !in [LOWER] && OLD_VALUE in LEFT_OUT.entries;
    assert OLD_VALUE in low && forall e :: e in low ==> e == OLD_VALUE;
    ReadNewest(low, 2.0, 4, OLD_VALUE);
  }

  lemma MarkerIsNewest()
    ensures MARKER in Entries([LOWER]) && Newest(AllEntries(SPLIT), 2.0, 4, MARKER)
  {
    SplitEntries();
    assert LOWER in [LOWER] && LOWER.entries[1] in LOWER.entries;
  }

  lemma NothingBelow()
    ensures BaseLevel(SPLIT, 2, 2.0)
  {
    assert forall l :: 4 <= l < NUM_LEVELS ==> SPLIT[l] == [];
  }
}
