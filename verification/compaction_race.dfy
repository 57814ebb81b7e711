/** A memtable that is flushed in the middle of a compaction: DoCompactionWork calls
    CompactMemTable, which picks a level in the version it finds, and the outputs of the
    compaction come on top of it (db/db_impl.cc, PickLevelForMemTableOutput in db/version_set.cc). */
module CompactionRace {
  import opened Keys
  import opened Version
  import opened CompactionInputs
  import opened CompactionReads
  import opened VersionBuilder
  import opened Install
  import opened Lsm

  // v is the version the compaction began with, v1 has the flushed file f at level l, and v2
  // the outputs as well.
  ghost predicate FlushedBetween(v: Levels, level: nat, in0: seq<File>, in1: seq<File>, outputs: seq<File>,
                                 l: nat, f: File, v1: Levels, v2: Levels) {
    && VersionOk(v) && Functional(AllEntries(v)) && InputsSound(v, level, in0, in1) && OutputsOk(in0, in1, outputs)
    && Flushable(v, l, f) && Added(v, l, f, v1)
    && Installed(v1, level, in0, in1, outputs, v2) && forall k :: 0 <= k < NUM_LEVELS ==> StrictlyOrdered(v2[k])
  }

  // A file of entries that are newer than all others is none of the others.
  lemma FlushedIsNew(v: Levels, level: nat, in0: seq<File>, in1: seq<File>, outputs: seq<File>, f: File)
    requires InputsSound(v, level, in0, in1) && OutputsOk(in0, in1, outputs) && FileOk(f)
    requires NewerThan(Contents(f.entries), AllEntries(v))
    ensures f !in outputs && f !in in0 && f !in in1 && forall k :: 0 <= k < NUM_LEVELS ==> f !in v[k]
  {
    hide Sorted, NewerFile, LeftAside, FilesOk, DisjointSorted;
    var e := f.entries[0];
    assert e in Contents(f.entries);
    assert e !in AllEntries(v);
    forall k | 0 <= k < NUM_LEVELS ensures f !in v[k] {
      if f in v[k] {
        Stored(v, k, f, e);
      }
    }
    if f in outputs {
      assert e in Entries(outputs);
      InputsAreStored(v, level, in0, in1);
    }
  }

  lemma InputsAreStored(v: Levels, level: nat, in0: seq<File>, in1: seq<File>)
    requires InputsSound(v, level, in0, in1)
    ensures Entries(in0) <= Entries(v[level]) && Entries(in1) <= Entries(v[level + 1])
    ensures Entries(in0) + Entries(in1) <= AllEntries(v)
  {
    hide NewerFile, LeftAside;
  }

  lemma FlushedParts(v: Levels, l: nat, f: File)
    requires Flushable(v, l, f)
    ensures l < NUM_LEVELS && FileOk(f) && NewerThan(Contents(f.entries), AllEntries(v))
  {
    hide OverlapInLevel;
  }

  function TakeOut(files: seq<File>, k: nat): (r: seq<File>)
    requires k < |files|
    ensures |r| == |files| - 1 && forall i :: 0 <= i < |r| ==> r[i] == if i < k then files[i] else files[i + 1]
  {
    files[..k] + files[k + 1..]
  }

  lemma TakenOut(files: seq<File>, f: File) returns (r: seq<File>)
    requires f in files && StrictlyOrdered(files)
    ensures StrictlyOrdered(r) && forall g :: g in r <==> g in files && g != f
  {
    var k :| 0 <= k < |files| && files[k] == f;
    r := TakeOut(files, k);
    forall g | g in files && g != f ensures g in r {
      var i :| 0 <= i < |files| && files[i] == g;
      assert r[if i < k then i else i - 1] == g;
    }
    assert forall i :: 0 <= i < |r| ==> BySmallestKey(f, r[i]) || BySmallestKey(r[i], f);
  }

  // The level of the flushed file without it.
  ghost predicate WithoutIt(v2: Levels, l: nat, f: File, rest: seq<File>)
    requires l < NUM_LEVELS
  {
    StrictlyOrdered(rest) && forall g :: g in rest <==> g in v2[l] && g != f
  }

  /** The two installs commute: it is the compaction alone, and the flushed file on top. */
  lemma FlushOnTop(v: Levels, level: nat, in0: seq<File>, in1: seq<File>, outputs: seq<File>, l: nat, f: File,
                   v1: Levels, v2: Levels)
    returns (v': Levels)
    requires FlushedBetween(v, level, in0, in1, outputs, l, f, v1, v2)
    ensures Installed(v, level, in0, in1, outputs, v') && Added(v', l, f, v2)
    ensures StrictlyOrdered(v'[level]) && StrictlyOrdered(v'[level + 1])
  {
    hide VersionOk, InputsSound, OutputsOk, Flushable, StrictlyOrdered, Installed, Added;
    FlushedParts(v, l, f);
    FlushedIsNew(v, level, in0, in1, outputs, f);
    InRange(v, level, in0, in1);
    if l == level || l == level + 1 {
      assert f in v2[l] by { StillThere(v, level, in0, in1, outputs, l, f, v1, v2); }
      var rest := TakenOut(v2[l], f);
      v' := v2[l := rest];
      TakenFromInput(v, level, in0, in1, outputs, l, f, v1, v2, rest);
    } else {
      v' := v2[l := v[l]];
      TakenElsewhere(v, level, in0, in1, outputs, l, f, v1, v2);
    }
  }

  lemma StillThere(v: Levels, level: nat, in0: seq<File>, in1: seq<File>, outputs: seq<File>, l: nat, f: File,
                   v1: Levels, v2: Levels)
    requires level + 1 < NUM_LEVELS && l < NUM_LEVELS && Added(v, l, f, v1)
    requires Installed(v1, level, in0, in1, outputs, v2)
    requires f !in in0 && f !in in1
    ensures f in v2[l]
  {
    hide StrictlyOrdered;
  }

  lemma TakenFromInput(v: Levels, level: nat, in0: seq<File>, in1: seq<File>, outputs: seq<File>, l: nat, f: File,
                       v1: Levels, v2: Levels,
                       rest: seq<File>)
    requires level + 1 < NUM_LEVELS && l < NUM_LEVELS && Added(v, l, f, v1)
    requires Installed(v1, level, in0, in1, outputs, v2)
    requires f !in outputs && f !in v[l] && f in v2[l] && (l == level || l == level + 1) && WithoutIt(v2, l, f, rest)
    requires StrictlyOrdered(v2[l])
    ensures Installed(v, level, in0, in1, outputs, v2[l := rest]) && Added(v2[l := rest], l, f, v2)
  {
    hide StrictlyOrdered;
  }

  lemma TakenElsewhere(v: Levels, level: nat, in0: seq<File>, in1: seq<File>, outputs: seq<File>, l: nat, f: File,
                       v1: Levels, v2: Levels)
    requires level + 1 < NUM_LEVELS && l < NUM_LEVELS && Added(v, l, f, v1)
    requires Installed(v1, level, in0, in1, outputs, v2)
    requires l != level && l != level + 1 && StrictlyOrdered(v2[l])
    ensures Installed(v, level, in0, in1, outputs, v2[l := v[l]]) && Added(v2[l := v[l]], l, f, v2)
  {
    hide StrictlyOrdered;
  }

  // Below and at its own level, the flushed file meets no user key of what was there.
  lemma NoKeyShared(v: Levels, level: nat, in0: seq<File>, in1: seq<File>, outputs: seq<File>, v': Levels, k: nat,
                    l: nat, f: File)
    requires VersionOk(v) && InputsSound(v, level, in0, in1) && OutputsOk(in0, in1, outputs)
    requires Installed(v, level, in0, in1, outputs, v')
    requires Flushable(v, l, f) && 0 < l && k <= l
    ensures NewerThan(Entries(v'[k]), Contents(f.entries))
  {
    InputsAreStored(v, level, in0, in1);
    forall a, b | a in Entries(v'[k]) && b in Contents(f.entries) ensures a.key.user != b.key.user {
      var g :| g in v'[k] && a in g.entries;
      var m := CameFromLevel(v, level, in0, in1, outputs, v', k, g, a);
      NoShared(v, m, f, a, b);
    }
  }

  lemma CameFromLevel(v: Levels, level: nat, in0: seq<File>, in1: seq<File>, outputs: seq<File>, v': Levels, k: nat,
                      g: File, a: Entry)
    returns (m: nat)
    requires InputsSound(v, level, in0, in1) && OutputsOk(in0, in1, outputs)
    requires Installed(v, level, in0, in1, outputs, v')
    requires k < NUM_LEVELS && g in v'[k] && a in g.entries
    ensures m <= k && a in Entries(v[m])
  {
    InputsAreStored(v, level, in0, in1);
    hide InputsSound;
    if g in v[k] {
      m := k;
    } else {
      assert a in Entries(outputs);
      m := if a in Entries(in0) then level else level + 1;
    }
  }

  lemma NoShared(v: Levels, m: nat, f: File, a: Entry, b: Entry)
    requires m < NUM_LEVELS && FilesOk(v[m]) && FileOk(f) && !OverlapInLevel(v, m, f.smallest.user, f.largest.user)
    requires a in Entries(v[m]) && b in Contents(f.entries)
    ensures a.key.user != b.key.user
  {
    var g :| g in v[m] && a in g.entries;
    EntryInRange(g, a);
    EntryInRange(f, b);
    assert !Overlaps(g, Some(f.smallest.user), Some(f.largest.user));
  }

  lemma OrderOnTop(v: Levels, level: nat, in0: seq<File>, in1: seq<File>, outputs: seq<File>, l: nat, f: File,
                   v': Levels, v2: Levels,
                   a: int, b: int)
    requires VersionOk(v) && InputsSound(v, level, in0, in1) && OutputsOk(in0, in1, outputs)
    requires Installed(v, level, in0, in1, outputs, v')
    requires VersionOk(v') && Flushable(v, l, f) && Added(v', l, f, v2) && 0 <= a < b < NUM_LEVELS
    ensures NewerThan(Entries(v2[a]), Entries(v2[b]))
  {
    hide VersionOk, InputsSound, OutputsOk, Installed, Flushable, NewerThan, Entries;
    FlushedParts(v, l, f);
    AddedEntries(v', l, f, v2);
    LevelsInOrder(v', a, b);
    if b == l {
      NoKeyShared(v, level, in0, in1, outputs, v', a, l, f);
      NewerUnion(Entries(v'[a]), {}, Entries(v'[b]), Contents(f.entries));
    } else if a == l {
      CompactedEntries(v, level, in0, in1, outputs, v');
      OlderPart(v', b, Contents(f.entries), AllEntries(v));
      NewerUnion(Entries(v'[a]), Contents(f.entries), Entries(v'[b]), {});
    }
  }

  lemma LevelsInOrder(v: Levels, a: int, b: int)
    requires VersionOk(v) && 0 <= a < b < NUM_LEVELS
    ensures NewerThan(Entries(v[a]), Entries(v[b]))
  {
    hide NewerThan, Entries;
  }

  lemma NewerUnion(a: set<Entry>, a': set<Entry>, b: set<Entry>, b': set<Entry>)
    requires NewerThan(a, b) && NewerThan(a', b) && NewerThan(a, b') && NewerThan(a', b')
    ensures NewerThan(a + a', b + b') && NewerThan(a, b + b') && NewerThan(a + a', b)
  {
  }

  lemma OlderPart(v: Levels, b: int, newer: set<Entry>, all: set<Entry>)
    requires 0 <= b < NUM_LEVELS && NewerThan(newer, all) && AllEntries(v) <= all
    ensures NewerThan(newer, Entries(v[b]))
  {
    hide Entries;
    assert Entries(v[b]) <= AllEntries(v);
  }

  // Everything but the order within the level of the flushed file.
  lemma LayersOnTop(v: Levels, level: nat, in0: seq<File>, in1: seq<File>, outputs: seq<File>, l: nat, f: File,
                    v': Levels, v2: Levels)
    requires VersionOk(v) && InputsSound(v, level, in0, in1) && OutputsOk(in0, in1, outputs)
    requires Installed(v, level, in0, in1, outputs, v')
    requires VersionOk(v') && Flushable(v, l, f) && Added(v', l, f, v2)
    ensures VersionOk(v2) <==> (l > 0 ==> DisjointSorted(v2[l]))
  {
    hide InputsSound, OutputsOk, Installed, Level0Ok, DisjointSorted, NewerThan, OverlapInLevel;
    forall a, b | 0 <= a < b < NUM_LEVELS ensures NewerThan(Entries(v2[a]), Entries(v2[b])) {
      OrderOnTop(v, level, in0, in1, outputs, l, f, v', v2, a, b);
    }
    AddedEntries(v', l, f, v2);
    Level0OnTop(v, level, in0, in1, outputs, l, f, v', v2);
    hide Entries;
    assert forall k :: 0 <= k < NUM_LEVELS ==> FilesOk(v2[k]);
    forall k, e | 0 <= k < NUM_LEVELS && e in Entries(v2[k]) ensures e.key.sequence <= MAX_SEQUENCE {
      assert e in Entries(v'[k]) || e in Contents(f.entries);
    }
  }

  lemma Level0OnTop(v: Levels, level: nat, in0: seq<File>, in1: seq<File>, outputs: seq<File>, l: nat, f: File,
                    v': Levels, v2: Levels)
    requires InputsSound(v, level, in0, in1) && OutputsOk(in0, in1, outputs)
    requires Installed(v, level, in0, in1, outputs, v')
    requires VersionOk(v') && Flushable(v, l, f) && Added(v', l, f, v2)
    ensures Level0Ok(v2[0])
  {
    hide InputsSound, OutputsOk, VersionOk, Level0Ok, NewerThan, OverlapInLevel;
    Level0Of(v');
    if l == 0 {
      CompactedEntries(v, level, in0, in1, outputs, v');
      assert forall g :: g in v'[0] ==> g in v[0];
      forall g | g in v'[0] ensures NewerThan(Contents(f.entries), Contents(g.entries)) {
        ContentsStored(v', 0, g);
        OlderThanAll(Contents(f.entries), AllEntries(v), Contents(g.entries));
      }
      NewestOnTop(v'[0], f, v2[0]);
    }
  }

  lemma Level0Of(v: Levels)
    requires VersionOk(v)
    ensures Level0Ok(v[0])
  {
    hide Level0Ok;
  }

  lemma ContentsStored(v: Levels, l: nat, g: File)
    requires l < NUM_LEVELS && g in v[l]
    ensures Contents(g.entries) <= AllEntries(v)
  {
    forall b | b in Contents(g.entries) ensures b in AllEntries(v) {
      Stored(v, l, g, b);
    }
  }

  lemma OlderThanAll(newer: set<Entry>, all: set<Entry>, some: set<Entry>)
    requires NewerThan(newer, all) && some <= all
    ensures NewerThan(newer, some)
  {
  }

  lemma NewestOnTop(files: seq<File>, f: File, more: seq<File>)
    requires Level0Ok(files) && forall g :: g in more <==> g in files || g == f
    requires forall g :: g in files ==> g.number < f.number && NewerThan(Contents(f.entries), Contents(g.entries))
    ensures Level0Ok(more)
  {
    hide NewerThan;
  }

  // The files at the flushed file's level are apart from it, but for outputs that span it.
  lemma OnlyOutputsMeet(v: Levels, level: nat, in0: seq<File>, in1: seq<File>, outputs: seq<File>, l: nat, f: File,
                        v': Levels, g: File)
    requires VersionOk(v) && level + 1 < NUM_LEVELS && Installed(v, level, in0, in1, outputs, v')
    requires Flushable(v, l, f) && 0 < l && g in v'[l]
    ensures Apart(g, f) || (l == level + 1 && g in outputs)
  {
    hide NewerThan, Level0Ok, DisjointSorted;
    if g in v[l] {
      NoSharedKey(v, l, f);
    }
  }

  lemma DisjointOnTop(v: Levels, level: nat, in0: seq<File>, in1: seq<File>, outputs: seq<File>, l: nat, f: File,
                      v': Levels, v2: Levels)
    requires VersionOk(v) && level + 1 < NUM_LEVELS && Installed(v, level, in0, in1, outputs, v') && f !in outputs
    requires VersionOk(v') && Flushable(v, l, f) && Added(v', l, f, v2) && 0 < l
    ensures DisjointSorted(v2[l]) <==> (l == level + 1 ==> forall o :: o in outputs ==> Apart(o, f))
  {
    hide NewerThan, Level0Ok, OverlapInLevel, StrictlyOrdered, Apart;
    assert FilesOk(v'[l]) && DisjointSorted(v'[l]);
    DisjointIsApart(v'[l]);
    hide DisjointSorted;
    if DisjointSorted(v2[l]) {
      DisjointIsApart(v2[l]);
    } else if l == level + 1 ==> forall o :: o in outputs ==> Apart(o, f) {
      forall g | g in v'[l] ensures Apart(g, f) {
        OnlyOutputsMeet(v, level, in0, in1, outputs, l, f, v', g);
      }
      ApartSymmetric(v2[l], f);
      ApartAndOrdered(v2[l]);
      assert false;
    }
  }

  lemma ApartSymmetric(files: seq<File>, f: File)
    requires forall g, h :: g in files && h in files && g != f && h != f && g != h ==> Apart(g, h)
    requires forall g :: g in files && g != f ==> Apart(g, f)
    ensures AllApart(files)
  {
  }

  /** A flush in the middle of a compaction keeps the version invariant exactly when no output
      spans the flushed file at the output level. */
  lemma FlushDuringCompaction(v: Levels, level: nat, in0: seq<File>, in1: seq<File>, outputs: seq<File>, l: nat,
                              f: File,
                              v1: Levels, v2: Levels)
    requires FlushedBetween(v, level, in0, in1, outputs, l, f, v1, v2)
    ensures VersionOk(v2) <==> (l == level + 1 ==> forall o :: o in outputs ==> Apart(o, f))
  {
    FlushedIsNew(v, level, in0, in1, outputs, f);
    hide VersionOk, InputsSound, OutputsOk, Flushable, Apart, DisjointSorted, Installed, Added, StrictlyOrdered,
      FilesOk, NewerThan;
    var v' := FlushOnTop(v, level, in0, in1, outputs, l, f, v1, v2);
    InstallKeepsVersion(v, level, in0, in1, outputs, v');
    LayersOnTop(v, level, in0, in1, outputs, l, f, v', v2);
    if l > 0 {
      InRange(v, level, in0, in1);
      DisjointOnTop(v, level, in0, in1, outputs, l, f, v', v2);
    }
  }

  lemma InRange(v: Levels, level: nat, in0: seq<File>, in1: seq<File>)
    requires InputsSound(v, level, in0, in1)
    ensures level + 1 < NUM_LEVELS
  {
  }

  /** A guard that the flush could look at: a file outside the range of inputs_[0] is safe. */
  lemma OutsideIsSafe(v: Levels, level: nat, in0: seq<File>, in1: seq<File>, outputs: seq<File>, l: nat, f: File,
                      v1: Levels, v2: Levels, s: IKey, t: IKey)
    requires FlushedBetween(v, level, in0, in1, outputs, l, f, v1, v2) && IsSmallest(in0, s) && IsLargest(in0, t)
    requires f.largest.user < s.user || t.user < f.smallest.user
    ensures VersionOk(v2)
  {
    FlushDuringCompaction(v, level, in0, in1, outputs, l, f, v1, v2);
    hide Installed, Added, StrictlyOrdered;
    if l == level + 1 {
      forall o | o in outputs ensures Apart(o, f) {
        var first, last := OutputEnds(in0, in1, outputs, o);
        InputBeside(v, level, in0, in1, l, f, s, t, first);
        InputBeside(v, level, in0, in1, l, f, s, t, last);
      }
    }
  }
  /** Inputs without a gap are safe: the flush picks no level at which it would meet one of
      them, so it lies wholly on one side of their range.  All inputs that PickCompaction
      picks around one file are of this kind. */
  lemma GaplessIsSafe(v: Levels, level: nat, in0: seq<File>, in1: seq<File>, outputs: seq<File>, l: nat, f: File,
                      v1: Levels, v2: Levels)
    requires FlushedBetween(v, level, in0, in1, outputs, l, f, v1, v2) && Gapless(in0 + in1)
    ensures VersionOk(v2)
  {
    hide VersionOk, OutputsOk, Installed, Added, StrictlyOrdered, Apart, Gapless, Flushable;
    if l == level + 1 {
      var s, t :| IsSmallest(in0, s) && IsLargest(in0, t) && LeftAside(v[level + 1], in1, s.user, t.user);
      FlushBesideInputs(v, level, in0, in1, l, f, s, t);
      OutsideIsSafe(v, level, in0, in1, outputs, l, f, v1, v2, s, t);
    } else {
      FlushDuringCompaction(v, level, in0, in1, outputs, l, f, v1, v2);
    }
  }

  lemma FlushBesideInputs(v: Levels, level: nat, in0: seq<File>, in1: seq<File>, l: nat, f: File, s: IKey, t: IKey)
    requires VersionOk(v) && InputsSound(v, level, in0, in1) && Flushable(v, l, f) && l == level + 1
    requires Gapless(in0 + in1) && IsSmallest(in0, s) && IsLargest(in0, t)
    ensures f.largest.user < s.user || t.user < f.smallest.user
  {
    hide VersionOk, InputsSound, Flushable, Gapless;
    var a :| a in in0 && a.smallest == s;
    var b :| b in in0 && b.largest == t;
    hide IsSmallest, IsLargest;
    WithinHull(in0, s, t, a);
    InputsMissed(v, level, in0, in1, l, f, a);
    BesideGapless(in0 + in1, a, b, f);
  }

  // The flush met no input, as it looked at both levels.
  lemma InputsMissed(v: Levels, level: nat, in0: seq<File>, in1: seq<File>, l: nat, f: File, a: File)
    requires VersionOk(v) && InputsSound(v, level, in0, in1) && Flushable(v, l, f) && l == level + 1 && a in in0
    ensures f.smallest.user <= f.largest.user && a.smallest.user <= a.largest.user
    ensures forall g :: g in in0 + in1 ==> g.largest.user < f.smallest.user || f.largest.user < g.smallest.user
  {
    hide VersionOk, NewerThan, NewerFile, LeftAside, OverlapInLevel, FileOk, IsSmallest, IsLargest;
    FileIsOk(v, level, a);
    RangeNonEmpty(a);
    RangeNonEmpty(f);
    assert !OverlapInLevel(v, level, f.smallest.user, f.largest.user);
    assert !OverlapInLevel(v, l, f.smallest.user, f.largest.user);
    forall g | g in in0 + in1 ensures g.largest.user < f.smallest.user || f.largest.user < g.smallest.user {
      NotMet(v, if g in in0 then level else l, f, g);
    }
  }

  // What meets none of the files lies beside their range if they leave no gap.
  lemma BesideGapless(files: seq<File>, a: File, b: File, f: File)
    requires Gapless(files) && a in files && b in files && a.smallest.user <= b.largest.user
    requires f.smallest.user <= f.largest.user
    requires forall g :: g in files ==> g.largest.user < f.smallest.user || f.largest.user < g.smallest.user
    ensures f.largest.user < a.smallest.user || b.largest.user < f.smallest.user
  {
    var k := if a.smallest.user < f.smallest.user then f.smallest.user else a.smallest.user;
    assert a.smallest.user <= k <= b.largest.user ==> Covered(files, k);
  }

  lemma InputBeside(v: Levels, level: nat, in0: seq<File>, in1: seq<File>, l: nat, f: File, s: IKey, t: IKey, e: Entry)
    requires VersionOk(v) && InputsSound(v, level, in0, in1) && IsSmallest(in0, s) && IsLargest(in0, t)
    requires Flushable(v, l, f) && l == level + 1 && e in Entries(in0) + Entries(in1)
    ensures f.largest.user < s.user ==> f.largest.user < e.key.user
    ensures t.user < f.smallest.user ==> e.key.user < f.smallest.user
  {
    hide VersionOk, InputsSound, IsSmallest, IsLargest, OverlapInLevel, NewerThan, Entries, FileOk;
    var m, g := InputFile(v, level, in0, in1, e);
    FileIsOk(v, m, g);
    EntryInRange(g, e);
    RangeNonEmpty(f);
    if g in in0 {
      WithinHull(in0, s, t, g);
    } else {
      LowerMeets(v, level, in0, in1, s, t, g);
      NotMet(v, l, f, g);
    }
  }

  lemma FileIsOk(v: Levels, m: nat, g: File)
    requires VersionOk(v) && m < NUM_LEVELS && g in v[m]
    ensures FileOk(g)
  {
    assert FilesOk(v[m]);
  }

  lemma WithinHull(in0: seq<File>, s: IKey, t: IKey, g: File)
    requires IsSmallest(in0, s) && IsLargest(in0, t) && g in in0
    ensures s.user <= g.smallest.user && g.largest.user <= t.user
  {
  }

  lemma NotMet(v: Levels, l: nat, f: File, g: File)
    requires l < NUM_LEVELS && !OverlapInLevel(v, l, f.smallest.user, f.largest.user) && g in v[l]
    ensures g.largest.user < f.smallest.user || f.largest.user < g.smallest.user
  {
    assert !Overlaps(g, Some(f.smallest.user), Some(f.largest.user));
  }

  lemma LowerMeets(v: Levels, level: nat, in0: seq<File>, in1: seq<File>, s: IKey, t: IKey, g: File)
    requires InputsSound(v, level, in0, in1) && IsSmallest(in0, s) && IsLargest(in0, t) && g in in1
    ensures Overlaps(g, Some(s.user), Some(t.user))
  {
  }
}
