/** Installing new versions: flushes, moves and compactions keep the version invariant. */
module Install {
  import opened Keys
  import opened Version
  import opened CompactionInputs
  import opened CompactionWork
  import opened CompactionReads
  import opened VersionBuilder

  ghost predicate Apart(f: File, g: File) {
    Before(f.largest, g.smallest) || Before(g.largest, f.smallest)
  }

  ghost predicate AllApart(files: seq<File>) {
    forall f, g :: f in files && g in files && f != g ==> Apart(f, g)
  }

  lemma ApartAndOrdered(files: seq<File>)
    requires FilesOk(files) && StrictlyOrdered(files) && AllApart(files)
    ensures DisjointSorted(files)
  {
    forall i, j | 0 <= i < j < |files| ensures Before(files[i].largest, files[j].smallest) {
      assert BySmallestKey(files[i], files[j]);
      RangeNonEmpty(files[i]);
      RangeNonEmpty(files[j]);
      assert Apart(files[i], files[j]);
    }
  }

  lemma DisjointIsApart(files: seq<File>)
    requires DisjointSorted(files)
    ensures AllApart(files)
  {
  }

  // ------------------------------------------------------------------ compactions and moves

  // The new files hold input entries only, in order.
  ghost predicate OutputsOk(in0: seq<File>, in1: seq<File>, outputs: seq<File>) {
    FilesOk(outputs) && DisjointSorted(outputs) && Entries(outputs) <= Entries(in0) + Entries(in1)
  }

  // A next-level file left out lies wholly on one side of every input entry.
  lemma LeftOutBesideInput(next: seq<File>, in0: seq<File>, in1: seq<File>, s: IKey, l: IKey, g: File, f: File,
                           e: Entry)
    requires FilesOk(next) && DisjointSorted(next) && LeftAside(next, in1, s.user, l.user)
    requires IsSmallest(in0, s) && IsLargest(in0, l) && FileOk(f) && (f in in0 || (f in in1 && f in next))
    requires e in f.entries
    requires g in next && g !in in1
    ensures g.largest.user < s.user ==> Before(g.largest, e.key)
    ensures l.user < g.smallest.user ==> Before(e.key, g.smallest)
  {
    EntryInRange(f, e);
    RangeNonEmpty(g);
    if f in in0 {
      assert s.user <= f.smallest.user && f.largest.user <= l.user;
    } else {
      assert Overlaps(f, Some(s.user), Some(l.user));
      DisjointIsApart(next);
      assert Apart(f, g);
    }
  }

  lemma LeftOutBeside(v: Levels, level: nat, in0: seq<File>, in1: seq<File>, s: IKey, l: IKey, g: File, e: Entry)
    requires VersionOk(v) && InputsSound(v, level, in0, in1) && LeftAside(v[level + 1], in1, s.user, l.user)
    requires IsSmallest(in0, s) && IsLargest(in0, l) && e in Entries(in0) + Entries(in1)
    requires g in v[level + 1] && g !in in1
    ensures g.largest.user < s.user ==> Before(g.largest, e.key)
    ensures l.user < g.smallest.user ==> Before(e.key, g.smallest)
  {
    var m, f := InputFile(v, level, in0, in1, e);
    assert FilesOk(v[m]);
    LeftOutBesideInput(v[level + 1], in0, in1, s, l, g, f, e);
  }

  lemma OutputsApartFromLeft(v: Levels, level: nat, in0: seq<File>, in1: seq<File>, outputs: seq<File>, o: File,
                             g: File)
    requires VersionOk(v) && InputsSound(v, level, in0, in1) && OutputsOk(in0, in1, outputs)
    requires o in outputs && g in v[level + 1] && g !in in1
    ensures Apart(o, g)
  {
    hide VersionOk, OutputsOk, NewerFile;
    var s, l :| IsSmallest(in0, s) && IsLargest(in0, l) && LeftAside(v[level + 1], in1, s.user, l.user);
    var first, last := OutputEnds(in0, in1, outputs, o);
    if g.largest.user < s.user {
      LeftOutBeside(v, level, in0, in1, s, l, g, first);
    } else {
      LeftOutBeside(v, level, in0, in1, s, l, g, last);
    }
  }

  lemma OutputEnds(in0: seq<File>, in1: seq<File>, outputs: seq<File>, o: File) returns (first: Entry, last: Entry)
    requires OutputsOk(in0, in1, outputs) && o in outputs
    ensures first in Entries(in0) + Entries(in1) && first.key == o.smallest
    ensures last in Entries(in0) + Entries(in1) && last.key == o.largest
  {
    assert FileOk(o);
    first, last := o.entries[0], o.entries[|o.entries| - 1];
    assert first in o.entries && last in o.entries;
    assert first in Entries(outputs) && last in Entries(outputs);
  }

  lemma LowerStaysDisjoint(v: Levels, level: nat, in0: seq<File>, in1: seq<File>, outputs: seq<File>, v': Levels)
    requires VersionOk(v) && InputsSound(v, level, in0, in1) && OutputsOk(in0, in1, outputs)
    requires Installed(v, level, in0, in1, outputs, v') && StrictlyOrdered(v'[level + 1])
    ensures FilesOk(v'[level + 1]) && DisjointSorted(v'[level + 1])
  {
    var files := v'[level + 1];
    assert FilesOk(v[level + 1]);
    DisjointIsApart(v[level + 1]);
    DisjointIsApart(outputs);
    forall f, g | f in files && g in files && f != g ensures Apart(f, g) {
      if f in outputs && g !in outputs {
        OutputsApartFromLeft(v, level, in0, in1, outputs, f, g);
      } else if g in outputs && f !in outputs {
        OutputsApartFromLeft(v, level, in0, in1, outputs, g, f);
      }
    }
    ApartAndOrdered(files);
  }

  lemma UpperStaysDisjoint(v: Levels, level: nat, in0: seq<File>, in1: seq<File>, outputs: seq<File>, v': Levels)
    requires VersionOk(v) && level + 1 < NUM_LEVELS
    requires Installed(v, level, in0, in1, outputs, v') && StrictlyOrdered(v'[level])
    ensures FilesOk(v'[level]) && (level > 0 ==> DisjointSorted(v'[level]))
    ensures Entries(v'[level]) <= Entries(v[level])
  {
    assert FilesOk(v[level]);
    if level > 0 {
      DisjointIsApart(v[level]);
      ApartAndOrdered(v'[level]);
    }
  }

  lemma LowerEntries(v: Levels, level: nat, in0: seq<File>, in1: seq<File>, outputs: seq<File>, v': Levels)
    requires InputsSound(v, level, in0, in1) && OutputsOk(in0, in1, outputs)
    requires Installed(v, level, in0, in1, outputs, v')
    ensures Entries(v'[level + 1]) <= Entries(v[level + 1]) + Entries(in0)
    ensures Entries(in0) <= Entries(v[level])
  {
    var lower := v'[level + 1];
    forall e | e in Entries(lower) ensures e in Entries(v[level + 1]) + Entries(in0) {
      var f :| f in lower && e in f.entries;
      if f in outputs {
        assert e in Entries(outputs);
        if e in Entries(in1) {
          var h :| h in in1 && e in h.entries;
        }
      }
    }
  }

  // The files that stay at the upper level are newer than the inputs that leave it.
  lemma UpperNewerThanInputs(v: Levels, level: nat, in0: seq<File>, in1: seq<File>, outputs: seq<File>, v': Levels)
    requires InputsSound(v, level, in0, in1) && Functional(AllEntries(v)) && Installed(v, level, in0, in1, outputs, v')
    ensures NewerThan(Entries(v'[level]), Entries(in0))
  {
    forall a, b | a in Entries(v'[level]) && b in Entries(in0) && a.key.user == b.key.user
      ensures a.key.sequence > b.key.sequence
    {
      var g :| g in v'[level] && a in g.entries;
      var f :| f in in0 && b in f.entries;
      UpperLeftIsNewer(v, level, in0, in1, f, g, b, a);
      Stored(v, level, g, a);
      Stored(v, level, f, b);
    }
  }

  lemma OrderAfterInstall(v: Levels, level: nat, in0: seq<File>, in1: seq<File>, outputs: seq<File>, v': Levels,
                          l: int, m: int)
    requires VersionOk(v) && Functional(AllEntries(v)) && InputsSound(v, level, in0, in1)
    requires OutputsOk(in0, in1, outputs)
    requires Installed(v, level, in0, in1, outputs, v') && 0 <= l < m < NUM_LEVELS
    requires Entries(v'[level]) <= Entries(v[level])
    ensures NewerThan(Entries(v'[l]), Entries(v'[m]))
  {
    hide VersionOk, InputsSound, OutputsOk, Entries, AllEntries, NewerThan, Functional;
    LowerEntries(v, level, in0, in1, outputs, v');
    UpperNewerThanInputs(v, level, in0, in1, outputs, v');
    NewerLevels(v, l, m);
    var a, b := Entries(v'[l]), Entries(v'[m]);
    if m == level + 1 {
      if l < level {
        NewerLevels(v, l, level);
        NewerPart(Entries(v[l]), Entries(v[level]), a, Entries(in0));
      }
      NewerPart(Entries(v[l]), Entries(v[m]), a, Entries(v[m]));
      NewerThanBoth(a, Entries(v[m]), Entries(in0), b);
    } else if l == level + 1 {
      NewerLevels(v, level, m);
      NewerPart(Entries(v[level]), b, Entries(in0), b);
      BothNewer(Entries(v[l]), Entries(in0), b, a);
    } else {
      NewerPart(Entries(v[l]), Entries(v[m]), a, b);
    }
  }

  lemma NewerLevels(v: Levels, l: int, m: int)
    requires VersionOk(v) && 0 <= l < NUM_LEVELS && 0 <= m < NUM_LEVELS
    ensures l < m ==> NewerThan(Entries(v[l]), Entries(v[m]))
  {
    hide NewerThan, Entries;
  }

  lemma NewerPart(a: set<Entry>, b: set<Entry>, a': set<Entry>, b': set<Entry>)
    requires NewerThan(a, b) && a' <= a && b' <= b
    ensures NewerThan(a', b')
  {
  }

  lemma NewerThanBoth(a: set<Entry>, b: set<Entry>, c: set<Entry>, d: set<Entry>)
    requires NewerThan(a, b) && NewerThan(a, c) && d <= b + c
    ensures NewerThan(a, d)
  {
  }

  lemma BothNewer(a: set<Entry>, b: set<Entry>, c: set<Entry>, d: set<Entry>)
    requires NewerThan(a, c) && NewerThan(b, c) && d <= a + b
    ensures NewerThan(d, c)
  {
  }

  lemma LevelsAfterInstall(v: Levels, level: nat, in0: seq<File>, in1: seq<File>, outputs: seq<File>, v': Levels,
                           l: int)
    requires VersionOk(v) && InputsSound(v, level, in0, in1) && OutputsOk(in0, in1, outputs)
    requires Installed(v, level, in0, in1, outputs, v') && 0 <= l < NUM_LEVELS
    requires StrictlyOrdered(v'[level]) && StrictlyOrdered(v'[level + 1])
    ensures FilesOk(v'[l]) && (l > 0 ==> DisjointSorted(v'[l]))
  {
    if l == level {
      UpperStaysDisjoint(v, level, in0, in1, outputs, v');
    } else if l == level + 1 {
      LowerStaysDisjoint(v, level, in0, in1, outputs, v');
    }
  }

  lemma SequencesAfterInstall(v: Levels, level: nat, in0: seq<File>, in1: seq<File>, outputs: seq<File>, v': Levels,
                              l: int, e: Entry)
    requires VersionOk(v) && InputsSound(v, level, in0, in1) && OutputsOk(in0, in1, outputs)
    requires Installed(v, level, in0, in1, outputs, v') && Entries(v'[level]) <= Entries(v[level])
    requires 0 <= l < NUM_LEVELS && e in Entries(v'[l])
    ensures e.key.sequence <= MAX_SEQUENCE
  {
    LowerEntries(v, level, in0, in1, outputs, v');
    assert e in Entries(v[l]) || e in Entries(v[level]);
  }

  lemma SubsetKeepsLevel0(files: seq<File>, files': seq<File>)
    requires Level0Ok(files) && forall f :: f in files' ==> f in files
    ensures Level0Ok(files')
  {
  }

  /** Compactions and trivial moves keep the version invariant. */
  lemma InstallKeepsVersion(v: Levels, level: nat, in0: seq<File>, in1: seq<File>, outputs: seq<File>, v': Levels)
    requires VersionOk(v) && Functional(AllEntries(v)) && InputsSound(v, level, in0, in1)
    requires OutputsOk(in0, in1, outputs)
    requires Installed(v, level, in0, in1, outputs, v')
    requires StrictlyOrdered(v'[level]) && StrictlyOrdered(v'[level + 1])
    ensures VersionOk(v')
  {
    UpperStaysDisjoint(v, level, in0, in1, outputs, v');
    forall l | 0 <= l < NUM_LEVELS ensures FilesOk(v'[l]) && (l > 0 ==> DisjointSorted(v'[l])) {
      LevelsAfterInstall(v, level, in0, in1, outputs, v', l);
    }
    forall l, m | 0 <= l < m < NUM_LEVELS ensures NewerThan(Entries(v'[l]), Entries(v'[m])) {
      OrderAfterInstall(v, level, in0, in1, outputs, v', l, m);
    }
    forall l, e | 0 <= l < NUM_LEVELS && e in Entries(v'[l]) ensures e.key.sequence <= MAX_SEQUENCE {
      SequencesAfterInstall(v, level, in0, in1, outputs, v', l, e);
    }
    SubsetKeepsLevel0(v[0], v'[0]);
  }

  // Output tables cut from one sorted stream are disjoint and in order.
  lemma {:induction false} FlattenDisjoint(files: seq<File>)
    requires FilesOk(files) && Sorted(Flatten(files))
    ensures DisjointSorted(files)
    ensures forall f, e :: f in files && e in f.entries ==> e in Flatten(files)
  {
    hide Sorted, Before;
    if |files| > 0 {
      var n := |files| - 1;
      var front, last := files[..n], files[n];
      SortedParts(Flatten(front), last.entries);
      FlattenDisjoint(front);
      assert last in files;
      forall i | 0 <= i < n ensures Before(files[i].largest, last.smallest) {
        assert files[i] in front && FileOk(files[i]) && FileOk(last);
        assert files[i].entries[|files[i].entries| - 1] in files[i].entries;
      }
      DisjointGrows(files);
    }
  }

  lemma SortedParts(a: seq<Entry>, b: seq<Entry>)
    requires Sorted(a + b)
    ensures Sorted(a) && forall d, e :: d in a && e in b ==> Before(d.key, e.key)
  {
    hide Before;
    var all := a + b;
    forall i, j | 0 <= i < j < |a| ensures Before(a[i].key, a[j].key) {
      assert all[i] == a[i] && all[j] == a[j];
    }
    forall d, e | d in a && e in b ensures Before(d.key, e.key) {
      var i :| 0 <= i < |a| && a[i] == d;
      var j :| 0 <= j < |b| && b[j] == e;
      assert all[i] == d && all[|a| + j] == e;
    }
  }

  lemma DisjointGrows(files: seq<File>)
    requires |files| > 0 && DisjointSorted(files[..|files| - 1])
    requires forall i :: 0 <= i < |files| - 1 ==> Before(files[i].largest, files[|files| - 1].smallest)
    ensures DisjointSorted(files)
  {
    hide Before;
    var front := files[..|files| - 1];
    assert forall i :: 0 <= i < |front| ==> front[i] == files[i];
  }
}
