/** The database object: its methods take the steps of the state machine (db/db_impl.cc,
    db/memtable.cc, db/builder.cc, VersionSet::LogAndApply). */
module DbImpl {
  import opened Keys
  import opened Version
  import opened CompactionInputs
  import opened CompactionWork
  import opened CompactionReads
  import opened VersionBuilder
  import opened Install
  import opened Lsm
  import opened Merger

  // ------------------------------------------------------------------ edits as installs

  ghost function AllFiles(v: Levels): set<File> {
    set l, f | 0 <= l < NUM_LEVELS && f in v[l] :: f
  }

  // Numbers an edit adds at a level are not in use there.
  lemma SavedIsSet(base: seq<File>, edit: VersionEdit, level: nat, r: seq<File>, files: set<File>)
    requires StrictlyOrdered(base) && NamesOne(files) && Mentions(edit, level, files) && forall f :: f in base ==>
      f in files
    requires forall a :: a in edit.added && a.0 == level ==> a.1 !in base
    requires Saved(base, ApplyLevel(EMPTY, edit, level), r)
    ensures forall f :: f in r <==> (f in base && (level, f.number) !in edit.deleted) || (level, f) in edit.added
    ensures StrictlyOrdered(r)
  {
    var st := ApplyLevel(EMPTY, edit, level);
    AddAllNamed(DeleteAll(EMPTY, edit.deleted, level), edit.added, level, files);
    OnlyNamed(base, st, r, files);
    forall f | f in files
      ensures multiset(r)[f] <= 1
      ensures f in r <==> (f in base && (level, f.number) !in edit.deleted) || (level, f) in edit.added
    {
      ApplyEffect(EMPTY, edit, level, files, f);
      StrictMultiplicity(base, f);
      StrictMultiplicity(st.added, f);
      if AddsNumber(edit, level, f.number) {
        var a :| a in edit.added && a.0 == level && a.1.number == f.number;
        assert a == (level, f);
      }
      assert f in r <==> multiset(r)[f] > 0;
    }
    OnceIsStrict(r, files);
  }

  lemma OnceIsStrict(r: seq<File>, files: set<File>)
    requires Ordered(r) && NamesOne(files) && forall f :: f in r ==> f in files && multiset(r)[f] <= 1
    ensures StrictlyOrdered(r)
  {
    forall i, j | 0 <= i < j < |r| ensures BySmallestKey(r[i], r[j]) {
      if r[i] == r[j] {
        CountedTwice(r, i, j);
      }
    }
  }

  lemma CountedTwice(r: seq<File>, i: nat, j: nat)
    requires i < j < |r| && r[i] == r[j]
    ensures multiset(r)[r[i]] >= 2
  {
    assert r == r[..j] + r[j..];
    assert r[..j][i] in multiset(r[..j]) && r[j..][0] in multiset(r[j..]);
  }

  // The edit of a compaction or trivial move (Compaction::AddInputDeletions and AddFile).
  function CompactionEdit(level: nat, in0: seq<File>, in1: seq<File>, outputs: seq<File>): VersionEdit {
    VersionEdit((set f | f in in0 :: (level, f.number)) + (set f | f in in1 :: (level + 1, f.number)),
                seq(|outputs|, i requires 0 <= i < |outputs| => (level + 1, outputs[i])))
  }

  // What the outputs' numbers must be: fresh, or the moved file's own.
  ghost predicate OutputNumbers(v: Levels, nextFile: nat, nextFile': nat, in0: seq<File>, outputs: seq<File>) {
    && nextFile <= nextFile'
    && (forall i, j :: 0 <= i < j < |outputs| ==> outputs[i].number != outputs[j].number)
    && (outputs == in0 || forall f :: f in outputs ==> nextFile <= f.number < nextFile')
  }

  lemma InAdded(level: nat, in0: seq<File>, in1: seq<File>, outputs: seq<File>)
    ensures forall l, f :: (l, f) in CompactionEdit(level, in0, in1, outputs).added <==> l == level + 1 && f in outputs
    ensures forall a :: a in CompactionEdit(level, in0, in1, outputs).added ==> a.0 == level + 1 && a.1 in outputs
  {
    var added := CompactionEdit(level, in0, in1, outputs).added;
    forall f | f in outputs ensures (level + 1, f) in added {
      var i :| 0 <= i < |outputs| && outputs[i] == f;
      assert added[i] == (level + 1, f);
    }
  }

  ghost function Named(v: Levels, outputs: seq<File>): set<File> {
    AllFiles(v) + set f | f in outputs
  }

  lemma NamedOnce(v: Levels, nextFile: nat, nextFile': nat, in0: seq<File>, outputs: seq<File>)
    requires NumbersOk(v, nextFile) && OutputNumbers(v, nextFile, nextFile', in0, outputs)
    requires exists l :: 0 <= l < NUM_LEVELS && forall f :: f in in0 ==> f in v[l]
    ensures NamesOne(Named(v, outputs))
  {
    var l :| 0 <= l < NUM_LEVELS && forall f :: f in in0 ==> f in v[l];
    forall f, g | f in Named(v, outputs) && g in Named(v, outputs) && f.number == g.number ensures f == g {
      if f !in AllFiles(v) || g !in AllFiles(v) {
        assert f in outputs && g in outputs;
        var i :| 0 <= i < |outputs| && outputs[i] == f;
        var j :| 0 <= j < |outputs| && outputs[j] == g;
      } else {
        var a :| 0 <= a < NUM_LEVELS && f in v[a];
        var b :| 0 <= b < NUM_LEVELS && g in v[b];
      }
    }
  }

  lemma StrictSame(a: seq<File>, b: seq<File>, files: set<File>)
    requires StrictlyOrdered(a) && StrictlyOrdered(b) && NamesOne(files)
    requires forall f :: f in a <==> f in b
    requires forall f :: f in a ==> f in files
    ensures a == b
  {
    forall f ensures multiset(a)[f] == multiset(b)[f] {
      StrictMultiplicity(a, f);
      StrictMultiplicity(b, f);
    }
    assert multiset(a) == multiset(b);
    OrderedUnique(a, b, files);
  }

  lemma NumbersAreStrict(v: Levels, nextFile: nat)
    requires NumbersOk(v, nextFile)
    ensures forall l :: 0 <= l < NUM_LEVELS ==> StrictlyOrdered(v[l])
  {
  }

  ghost predicate SavedAll(v: Levels, edit: VersionEdit, v': Levels) {
    forall l :: 0 <= l < NUM_LEVELS ==> Saved(v[l], ApplyLevel(EMPTY, edit, l), v'[l])
  }

  // One level after a compaction's edit.
  lemma CompactedLevel(v: Levels, nextFile: nat, nextFile': nat, level: nat, in0: seq<File>, in1: seq<File>,
                       outputs: seq<File>, v': Levels, l: nat)
    requires NumbersOk(v, nextFile) && OutputNumbers(v, nextFile, nextFile', in0, outputs) && level + 1 < NUM_LEVELS
    requires (forall f :: f in in0 ==> f in v[level]) && (forall f :: f in in1 ==> f in v[level + 1])
    requires SavedAll(v, CompactionEdit(level, in0, in1, outputs), v') && l < NUM_LEVELS
    ensures forall f :: f in v'[l] <==> (l == level + 1 && f in outputs) || (f in v[l] && Stays(level, in0, in1, l, f))
    ensures StrictlyOrdered(v'[l])
    ensures l != level && l != level + 1 ==> v'[l] == v[l]
  {
    hide NumbersOk, StrictlyOrdered, SavedAll, CompactionEdit, OutputNumbers;
    var edit, files := CompactionEdit(level, in0, in1, outputs), Named(v, outputs);
    InAdded(level, in0, in1, outputs);
    NamedOnce(v, nextFile, nextFile', in0, outputs);
    NumbersAreStrict(v, nextFile);
    AddedAreNew(v, nextFile, nextFile', level, in0, outputs, l);
    SavedLevel(v, edit, v', l);
    SavedIsSet(v[l], edit, l, v'[l], files);
    DeletedLeave(v, nextFile, level, in0, in1, outputs, l);
    if l != level && l != level + 1 {
      StrictSame(v'[l], v[l], files);
    }
  }

  lemma SavedLevel(v: Levels, edit: VersionEdit, v': Levels, l: nat)
    requires SavedAll(v, edit, v') && l < NUM_LEVELS
    ensures Saved(v[l], ApplyLevel(EMPTY, edit, l), v'[l])
  {
  }

  lemma NotTwice(v: Levels, n: nat, a: nat, b: nat, f: File)
    requires NumbersOk(v, n) && a < NUM_LEVELS && b < NUM_LEVELS && a != b
    ensures f in v[a] ==> f !in v[b]
    ensures f.number >= n ==> f !in v[b]
  {
    hide StrictlyOrdered;
  }

  // No output is at its level already.
  lemma AddedAreNew(v: Levels, nextFile: nat, nextFile': nat, level: nat, in0: seq<File>, outputs: seq<File>, l: nat)
    requires NumbersOk(v, nextFile) && OutputNumbers(v, nextFile, nextFile', in0, outputs) && level + 1 < NUM_LEVELS
    requires (forall f :: f in in0 ==> f in v[level]) && l < NUM_LEVELS
    ensures l == level + 1 ==> forall f :: f in outputs ==> f !in v[l]
  {
    hide StrictlyOrdered;
    hide NumbersOk;
    forall f | l == level + 1 && f in outputs ensures f !in v[l] {
      NotTwice(v, nextFile, level, l, f);
    }
  }

  // Exactly the inputs are deleted.
  lemma DeletedLeave(v: Levels, nextFile: nat, level: nat, in0: seq<File>, in1: seq<File>, outputs: seq<File>, l: nat)
    requires NumbersOk(v, nextFile) && level + 1 < NUM_LEVELS && l < NUM_LEVELS
    requires (forall f :: f in in0 ==> f in v[level]) && (forall f :: f in in1 ==> f in v[level + 1])
    ensures forall f :: f in v[l] ==>
              ((l, f.number) in CompactionEdit(level, in0, in1, outputs).deleted <==> !Stays(level, in0, in1, l, f))
  {
    hide StrictlyOrdered;
    var edit := CompactionEdit(level, in0, in1, outputs);
    forall f | f in v[l] ensures (l, f.number) in edit.deleted <==> !Stays(level, in0, in1, l, f) {
      if (l, f.number) in edit.deleted {
        if l == level {
          var g :| g in in0 && g.number == f.number;
        } else {
          var g :| g in in1 && g.number == f.number;
        }
      }
    }
  }

  lemma CompactionInstalls(v: Levels, nextFile: nat, nextFile': nat, level: nat, in0: seq<File>, in1: seq<File>,
                           outputs: seq<File>, v': Levels)
    requires NumbersOk(v, nextFile) && OutputNumbers(v, nextFile, nextFile', in0, outputs) && level + 1 < NUM_LEVELS
    requires (forall f :: f in in0 ==> f in v[level]) && (forall f :: f in in1 ==> f in v[level + 1])
    requires SavedAll(v, CompactionEdit(level, in0, in1, outputs), v')
    ensures Installed(v, level, in0, in1, outputs, v') && NumbersOk(v', nextFile')
  {
    forall l: nat | l < NUM_LEVELS
      ensures forall f :: f in v'[l] <==>
        (l == level + 1 && f in outputs) || (f in v[l] && Stays(level, in0, in1, l, f))
      ensures StrictlyOrdered(v'[l]) && (l != level && l != level + 1 ==> v'[l] == v[l])
    {
      CompactedLevel(v, nextFile, nextFile', level, in0, in1, outputs, v', l);
    }
    NumbersAfter(v, nextFile, nextFile', level, in0, in1, outputs, v');
  }

  // Where a file of the new version was before: an output, or a file that is no input.
  ghost predicate CameFrom(v: Levels, level: nat, in0: seq<File>, in1: seq<File>, outputs: seq<File>, l: nat, f: File)
    requires l < NUM_LEVELS
  {
    (l == level + 1 && f in outputs) || (f in v[l] && Stays(level, in0, in1, l, f))
  }

  lemma NumbersAfter(v: Levels, nextFile: nat, nextFile': nat, level: nat, in0: seq<File>, in1: seq<File>,
                     outputs: seq<File>, v': Levels)
    requires NumbersOk(v, nextFile) && OutputNumbers(v, nextFile, nextFile', in0, outputs) && level + 1 < NUM_LEVELS
    requires forall f :: f in in0 ==> f in v[level]
    requires forall l: nat, f :: l < NUM_LEVELS && f in v'[l] ==> CameFrom(v, level, in0, in1, outputs, l, f)
    requires forall l :: 0 <= l < NUM_LEVELS ==> StrictlyOrdered(v'[l])
    ensures NumbersOk(v', nextFile')
  {
    hide StrictlyOrdered, OutputNumbers, CameFrom;
    forall l: nat, f | l < NUM_LEVELS && f in v'[l] ensures f.number < nextFile' {
      OneName(v, nextFile, nextFile', level, in0, in1, outputs, l, f, l, f);
    }
    forall l: nat, m: nat, f, g | l < NUM_LEVELS && m < NUM_LEVELS && f in v'[l] && g in v'[m] && f.number == g.number
      ensures l == m && f == g
    {
      OneName(v, nextFile, nextFile', level, in0, in1, outputs, l, f, m, g);
    }
  }

  lemma OneName(v: Levels, nextFile: nat, nextFile': nat, level: nat, in0: seq<File>, in1: seq<File>,
                outputs: seq<File>, l: nat, f: File, m: nat, g: File)
    requires NumbersOk(v, nextFile) && OutputNumbers(v, nextFile, nextFile', in0, outputs)
    requires level + 1 < NUM_LEVELS && l < NUM_LEVELS && m < NUM_LEVELS && f.number == g.number
    requires forall f :: f in in0 ==> f in v[level]
    requires CameFrom(v, level, in0, in1, outputs, l, f) && CameFrom(v, level, in0, in1, outputs, m, g)
    ensures l == m && f == g && f.number < nextFile'
  {
    hide StrictlyOrdered;
    if f in outputs && g in outputs {
      var i :| 0 <= i < |outputs| && outputs[i] == f;
      var j :| 0 <= j < |outputs| && outputs[j] == g;
    }
  }

  // The edit of CompactMemTable.
  function FlushEdit(level: nat, f: File): VersionEdit {
    VersionEdit({}, [(level, f)])
  }

  lemma FlushInstalls(v: Levels, nextFile: nat, level: nat, f: File, v': Levels)
    requires NumbersOk(v, nextFile) && f.number >= nextFile && level < NUM_LEVELS
      && SavedAll(v, FlushEdit(level, f), v')
    ensures Added(v, level, f, v')
  {
    hide NumbersOk, StrictlyOrdered, SavedAll;
    forall l: nat | l < NUM_LEVELS
      ensures forall g :: g in v'[l] <==> g in v[l] || (l == level && g == f)
      ensures StrictlyOrdered(v'[l]) && (l != level ==> v'[l] == v[l])
    {
      FlushedLevel(v, nextFile, level, f, v', l);
    }
  }

  lemma FlushedLevel(v: Levels, nextFile: nat, level: nat, f: File, v': Levels, l: nat)
    requires NumbersOk(v, nextFile) && f.number >= nextFile && level < NUM_LEVELS
      && SavedAll(v, FlushEdit(level, f), v')
    requires l < NUM_LEVELS
    ensures forall g :: g in v'[l] <==> g in v[l] || (l == level && g == f)
    ensures StrictlyOrdered(v'[l]) && (l != level ==> v'[l] == v[l])
  {
    var files := AllFiles(v) + {f};
    assert NamesOne(files) by { FlushNames(v, nextFile, f); }
    SavedIsSet(v[l], FlushEdit(level, f), l, v'[l], files);
    if l != level {
      StrictSame(v'[l], v[l], files);
    }
  }

  lemma FlushNames(v: Levels, nextFile: nat, f: File)
    requires NumbersOk(v, nextFile) && f.number >= nextFile
    ensures NamesOne(AllFiles(v) + {f})
  {
    hide StrictlyOrdered;
  }

  // ------------------------------------------------------------------ merged compaction input

  // MakeInputIterator: one child per level-0 file, one concatenating child per sorted level.
  function InputLists(level: nat, in0: seq<File>, in1: seq<File>): seq<seq<Entry>> {
    UpperLists(level, in0) + [Flatten(in1)]
  }

  lemma {:induction false} FlattenSorted(files: seq<File>)
    requires FilesOk(files) && DisjointSorted(files)
    ensures Sorted(Flatten(files))
    ensures forall e :: e in Flatten(files) ==> exists i :: 0 <= i < |files| && e in files[i].entries
  {
    if |files| > 0 {
      var n := |files| - 1;
      FlattenSorted(files[..n]);
      assert files[n] in files;
      forall e | e in Flatten(files[..n])
        ensures Before(e.key, files[n].smallest) && exists i :: 0 <= i < |files| && e in files[i].entries
      {
        var i :| 0 <= i < n && e in files[..n][i].entries;
        assert files[..n][i] == files[i] && files[i] in files;
        EntryInRange(files[i], e);
      }
      forall e | e in files[n].entries ensures !Before(e.key, files[n].smallest) {
        EntryInRange(files[n], e);
      }
      ConcatSorted(Flatten(files[..n]), files[n].entries, files[n].smallest);
    }
  }

  lemma ConcatSorted(a: seq<Entry>, b: seq<Entry>, m: IKey)
    requires Sorted(a) && Sorted(b)
    requires (forall e :: e in a ==> Before(e.key, m)) && (forall e :: e in b ==> !Before(e.key, m))
    ensures Sorted(a + b)
  {
    forall i, j | 0 <= i < j < |a + b| ensures Before((a + b)[i].key, (a + b)[j].key) {
      if i < |a| <= j {
        assert a[i] in a && b[j - |a|] in b;
      }
    }
  }

  lemma RunIsDisjoint(files: seq<File>, run: seq<File>, a: nat, b: nat)
    requires FilesOk(files) && DisjointSorted(files) && RunOf(files, run, a, b)
    ensures FilesOk(run) && DisjointSorted(run)
  {
    forall f | f in run ensures FileOk(f) {
      assert f in files;
    }
    assert forall i :: 0 <= i < |run| ==> run[i] == files[a + i];
  }

  // A selection from a list without repeats has none.
  lemma {:induction false} OverlappingDistinct(files: seq<File>, lo: Option<UserKey>, hi: Option<UserKey>)
    requires StrictlyOrdered(files)
    ensures StrictlyOrdered(Overlapping(files, lo, hi))
  {
    if |files| > 0 {
      var n := |files| - 1;
      OverlappingDistinct(files[..n], lo, hi);
      InOverlapping(files[..n], lo, hi);
      forall f | f in Overlapping(files[..n], lo, hi) ensures BySmallestKey(f, files[n]) {
        var i :| 0 <= i < n && files[..n][i] == f;
        assert files[i] == f;
      }
    }
  }

  // The lists of inputs_[0] alone.
  function UpperLists(level: nat, in0: seq<File>): seq<seq<Entry>> {
    if level == 0 then seq(|in0|, i requires 0 <= i < |in0| => in0[i].entries) else [Flatten(in0)]
  }

  lemma Level0Lists(files: seq<File>, in0: seq<File>)
    requires FilesOk(files) && Level0Ok(files) && StrictlyOrdered(in0) && forall f :: f in in0 ==> f in files
    ensures Mergeable(UpperLists(0, in0))
    ensures forall e :: e in Entries(in0) <==> exists i :: 0 <= i < |in0| && e in UpperLists(0, in0)[i]
  {
    hide Level0Ok, StrictlyOrdered, KeysApart;
    var lists := UpperLists(0, in0);
    forall i | 0 <= i < |lists| ensures Sorted(lists[i]) {
      assert in0[i] in files;
    }
    hide FilesOk, Sorted;
    forall i, j | 0 <= i < |lists| && 0 <= j < |lists| && i != j ensures KeysApart(lists[i], lists[j]) {
      Level0Apart(files, in0, if i < j then i else j, if i < j then j else i);
    }
    forall e ensures e in Entries(in0) <==> exists i :: 0 <= i < |in0| && e in lists[i] {
      if e in Entries(in0) {
        var f :| f in in0 && e in f.entries;
        var i :| 0 <= i < |in0| && in0[i] == f;
        assert e in lists[i];
      } else {
        assert forall i :: 0 <= i < |in0| ==> in0[i] in in0;
      }
    }
  }

  lemma Level0Apart(files: seq<File>, in0: seq<File>, i: nat, j: nat)
    requires Level0Ok(files) && StrictlyOrdered(in0) && i < j < |in0| && in0[i] in files && in0[j] in files
    ensures KeysApart(in0[i].entries, in0[j].entries) && KeysApart(in0[j].entries, in0[i].entries)
  {
    var f, g := in0[i], in0[j];
    assert BySmallestKey(f, g);
    assert f.number != g.number;
    forall d, e | d in f.entries && e in g.entries ensures d.key != e.key {
      assert d in Contents(f.entries) && e in Contents(g.entries);
      assert f.number > g.number ==> NewerThan(Contents(f.entries), Contents(g.entries));
      assert g.number > f.number ==> NewerThan(Contents(g.entries), Contents(f.entries));
    }
  }

  lemma RunLists(files: seq<File>, inputs: seq<File>, a: nat, b: nat)
    requires FilesOk(files) && DisjointSorted(files) && RunOf(files, inputs, a, b)
    ensures Mergeable([Flatten(inputs)])
    ensures forall e :: e in Entries(inputs) <==> e in Flatten(inputs)
  {
    RunIsDisjoint(files, inputs, a, b);
    FlattenSorted(inputs);
    FlattenEntries(inputs);
    assert forall e :: e in Contents(Flatten(inputs)) <==> e in Flatten(inputs);
  }

  lemma UpperListsOk(files: seq<File>, level: nat, in0: seq<File>)
    requires FilesOk(files) && (level > 0 ==> DisjointSorted(files)) && UpperInputsOk(files, level, in0)
    requires StrictlyOrdered(files) && (level == 0 ==> Level0Ok(files))
    ensures Mergeable(UpperLists(level, in0))
    ensures forall e :: e in Entries(in0) <==>
      exists i :: 0 <= i < |UpperLists(level, in0)| && e in UpperLists(level, in0)[i]
  {
    if level == 0 {
      var lo, hi :| ClosedRange(files, lo, hi) && in0 == Overlapping(files, lo, hi)
                    && forall f :: f in in0 <==> f in files && Overlaps(f, lo, hi);
      OverlappingDistinct(files, lo, hi);
      Level0Lists(files, in0);
    } else {
      var a: nat, b: nat :| RunOf(files, in0, a, b);
      RunLists(files, in0, a, b);
      assert UpperLists(level, in0)[0] == Flatten(in0);
    }
  }

  lemma AppendList(lists: seq<seq<Entry>>, list: seq<Entry>)
    requires Mergeable(lists) && Sorted(list)
    requires forall i :: 0 <= i < |lists| ==> KeysApart(lists[i], list)
    ensures Mergeable(lists + [list])
  {
    var all := lists + [list];
    forall i, j | 0 <= i < |all| && 0 <= j < |all| && i != j ensures KeysApart(all[i], all[j]) {
      if j == |lists| {
        assert KeysApart(lists[i], list);
      } else if i == |lists| {
        assert KeysApart(lists[j], list);
      } else {
        assert KeysApart(lists[i], lists[j]);
      }
    }
  }

  /** The children of a compaction's merging iterator have pairwise distinct keys, and their
      sorted union is the merged input. */
  lemma InputIsMerged(v: Levels, level: nat, in0: seq<File>, in1: seq<File>)
    requires VersionOk(v) && CompactionOk(v, level, in0, in1) && StrictlyOrdered(v[level])
    ensures Mergeable(InputLists(level, in0, in1))
    ensures MergedInput(SortedUnion(InputLists(level, in0, in1)), in0, in1)
  {
    var upper, lists := UpperLists(level, in0), InputLists(level, in0, in1);
    UpperListsOk(v[level], level, in0);
    var s, l :| IsSmallest(in0, s) && IsLargest(in0, l) && in1 == Overlapping(v[level + 1], Some(s.user), Some(l.user));
    var a, b := OverlappingIsRun(v[level + 1], Some(s.user), Some(l.user));
    RunLists(v[level + 1], in1, a, b);
    SetupIsSound(v, level, in0, in1);
    LowerListApart(v, level, in0, in1, upper);
    assert Mergeable([Flatten(in1)]) && Sorted([Flatten(in1)][0]);
    AppendList(upper, Flatten(in1));
    assert lists == upper + [Flatten(in1)];
    SortedUnionSound(lists);
    UnionEntries(lists, upper, in0, in1);
  }

  lemma LowerListApart(v: Levels, level: nat, in0: seq<File>, in1: seq<File>, upper: seq<seq<Entry>>)
    requires VersionOk(v) && InputsSound(v, level, in0, in1)
    requires forall e :: e in Entries(in0) <==> exists i :: 0 <= i < |upper| && e in upper[i]
    requires forall e :: e in Entries(in1) <==> e in Flatten(in1)
    ensures forall i :: 0 <= i < |upper| ==> KeysApart(upper[i], Flatten(in1))
  {
    hide VersionOk, InputsSound, Entries, Flatten;
    forall i, d, e | 0 <= i < |upper| && d in upper[i] && e in Flatten(in1) ensures d.key != e.key {
      assert d in Entries(in0) && e in Entries(in1);
      InputsApart(v, level, in0, in1, d, e);
    }
  }

  lemma InputsApart(v: Levels, level: nat, in0: seq<File>, in1: seq<File>, d: Entry, e: Entry)
    requires VersionOk(v) && InputsSound(v, level, in0, in1) && d in Entries(in0) && e in Entries(in1)
    ensures d.key != e.key
  {
    hide VersionOk, NewerFile, LeftAside;
    var f :| f in in0 && d in f.entries;
    var g :| g in in1 && e in g.entries;
    CompactionReads.Stored(v, level, f, d);
    CompactionReads.Stored(v, level + 1, g, e);
    if d.key == e.key {
      LevelOrder(v, level, d, level + 1, e);
    }
  }

  lemma UnionEntries(lists: seq<seq<Entry>>, upper: seq<seq<Entry>>, in0: seq<File>, in1: seq<File>)
    requires lists == upper + [Flatten(in1)]
    requires forall e :: e in SortedUnion(lists) <==> exists i :: 0 <= i < |lists| && e in lists[i]
    requires forall e :: e in Entries(in0) <==> exists i :: 0 <= i < |upper| && e in upper[i]
    requires forall e :: e in Entries(in1) <==> e in Flatten(in1)
    ensures Contents(SortedUnion(lists)) == Entries(in0) + Entries(in1)
  {
    forall e ensures e in SortedUnion(lists) <==> e in Entries(in0) || e in Entries(in1) {
      assert lists[|upper|] == Flatten(in1);
      assert forall i :: 0 <= i < |upper| ==> lists[i] == upper[i];
    }
  }

  // ------------------------------------------------------------------ the object

  // What BackgroundCompaction is asked to compact: a file chosen by score or seeks, or a range.
  datatype Request =
    | Auto(level: nat, file: File)
    | Manual(level: nat, begin: Option<UserKey>, end: Option<UserKey>, fileLimit: nat)

  // The upper inputs include the file asked for, or take the range asked for.
  ghost predicate Serves(v: Levels, req: Request, in0: seq<File>)
    requires req.level < NUM_LEVELS
  {
    match req
    case Auto(level, file) => file in in0
    case Manual(level, begin, end, fileLimit) => TakesRange(v[level], level, begin, end, fileLimit, in0)
  }

  // The file overlaps little enough two levels down to be moved.
  ghost predicate IsLight(v: Levels, level: nat, f: File, limit: nat) {
    level + 2 < NUM_LEVELS ==>
      TotalFileSize(Overlapping(v[level + 2], Some(f.smallest.user), Some(f.largest.user))) <= limit
  }

  lemma LightOrNot(v: Levels, level: nat, f: File, grandparents: seq<File>, limit: nat)
    requires GrandparentsOf(v, level, [f] + [], grandparents)
    ensures IsLight(v, level, f, limit) <==> TotalFileSize(grandparents) <= limit
  {
    hide Overlapping;
    var s, l :| IsSmallest([f] + [], s) && IsLargest([f] + [], l)
      && grandparents == if level + 2 < NUM_LEVELS then Overlapping(v[level + 2], Some(s.user), Some(l.user)) else [];
    assert s == f.smallest && l == f.largest;
  }

  function CutsOf(limits: Limits, fileSize: seq<Entry> -> nat, grandparents: seq<File>): Cuts {
    Cuts(fileSize, limits.outputFileSize, grandparents, limits.grandparentOverlap)
  }

  // The outputs are cut by their size and by the files two levels down.
  ghost predicate OutputsAreCut(v: Levels, limits: Limits, fileSize: seq<Entry> -> nat, step: Step)
    requires step.Compact?
  {
    exists grandparents :: GrandparentsOf(v, step.level, step.in0 + step.in1, grandparents)
      && AllCutWell(step.outputs, CutsOf(limits, fileSize, grandparents))
  }

  // What a step of the background thread compacts.
  function LowerInputs(step: Step): seq<File> {
    if step.Compact? then step.in1 else []
  }

  /** What BackgroundCompaction owes its caller when there is nothing to flush: it works on what
      was asked for, and moves a file just if it is asked for alone, meets nothing at the next
      level and little enough below. */
  ghost predicate DoesAsAsked(v: Levels, req: Request, limits: Limits, step: Step)
    requires req.level + 1 < NUM_LEVELS
  {
    && (step.Move? || step.Compact?) && step.level == req.level && |step.in0| > 0 && Serves(v, req, step.in0)
    && (step.Move? <==> req.Auto? && |step.in0| == 1 && LowerInputs(step) == []
                        && IsLight(v, req.level, step.in0[0], limits.grandparentOverlap))
  }

  // Options and builder sizes a compaction depends on.
  datatype Limits = Limits(byteLimit: int, grandparentOverlap: nat, outputFileSize: nat)

  lemma FlushParts(s: Db)
    requires Structure(s) && s.imm.Some?
    ensures VersionOk(s.version) && NumbersOk(s.version, s.nextFile) && Sorted(s.imm.value)
  {
  }

  lemma SnapshotsCover(s: Db, q: nat)
    requires Structure(s) && (q == s.lastSequence || q in s.snapshots)
    ensures q >= SmallestSnapshot(s)
  {
    hide VersionOk, NumbersOk, HistoryOk, NewerThan;
  }

  lemma ReadsMatch(s: Db, user: UserKey, q: nat)
    requires ReadsAgree(s) && q >= SmallestSnapshot(s)
    ensures Read(StoredIn(s), user, q) == Read(s.history, user, q)
  {
  }

  lemma SplitAnswers(s: Db, user: UserKey, q: nat, r: Saver)
    requires Structure(s)
    ensures !r.NotFound? && Answers(Contents(s.mem), user, q, r) ==> Answers(StoredIn(s), user, q, r)
    ensures Answers(Contents(s.mem), user, q, NotFound) && !r.NotFound? && Answers(ImmEntries(s), user, q, r)
            ==> Answers(StoredIn(s), user, q, r)
    ensures Answers(Contents(s.mem), user, q, NotFound) && Answers(ImmEntries(s), user, q, NotFound)
            && Answers(AllEntries(s.version), user, q, r)
            ==> Answers(StoredIn(s), user, q, r)
  {
    var mem, imm, tables := Contents(s.mem), ImmEntries(s), AllEntries(s.version);
    AnswersCompose(imm, tables, user, q, r);
    AnswersCompose(mem, imm + tables, user, q, r);
    assert StoredIn(s) == mem + (imm + tables);
  }

  // The memtable after the first i updates of a batch.
  ghost predicate Inserted(s: Db, batch: seq<Update>, i: nat, mem: seq<Entry>)
    requires i <= |batch|
  {
    Sorted(mem) && Contents(mem) == Contents(s.mem) + Contents(BatchEntries(s.lastSequence + 1, batch)[..i])
  }

  // An entry numbered after the last sequence number shares its key with none before it.
  lemma KeyIsNew(s: Db, batch: seq<Update>, i: nat, mem: seq<Entry>)
    requires HistoryOk(s) && i < |batch| && Inserted(s, batch, i, mem)
    ensures KeysApart(mem, [BatchEntries(s.lastSequence + 1, batch)[i]])
  {
    var all := BatchEntries(s.lastSequence + 1, batch);
    forall d | d in mem ensures d.key.sequence < s.lastSequence + 1 + i {
      assert d in Contents(s.mem) + Contents(all[..i]);
      assert Contents(s.mem) <= s.history;
    }
  }

  lemma InsertNext(s: Db, batch: seq<Update>, i: nat, mem: seq<Entry>)
    requires HistoryOk(s) && i < |batch| && Inserted(s, batch, i, mem)
    ensures Inserted(s, batch, i + 1, Merge(mem, [BatchEntries(s.lastSequence + 1, batch)[i]]))
  {
    hide Merge, HistoryOk, Sorted, BatchEntries, KeysApart, Contents;
    var all := BatchEntries(s.lastSequence + 1, batch);
    KeyIsNew(s, batch, i, mem);
    MergeOne(mem, all[i]);
    OneMore(all, i);
  }

  lemma OneMore(all: seq<Entry>, i: nat)
    requires i < |all|
    ensures Contents(all[..i + 1]) == Contents(all[..i]) + {all[i]}
  {
    assert all[..i + 1] == all[..i] + [all[i]];
  }

  lemma MergeOne(mem: seq<Entry>, e: Entry)
    requires Sorted(mem) && KeysApart(mem, [e])
    ensures Sorted(Merge(mem, [e])) && Contents(Merge(mem, [e])) == Contents(mem) + {e}
  {
    hide Merge;
    MergeSorted(mem, [e]);
  }

  // MemTableInserter: adds the updates of a batch one by one, numbering them from `first`.
  method InsertInto(ghost s: Db, batch: seq<Update>, first: nat, mem: seq<Entry>) returns (table: seq<Entry>)
    requires HistoryOk(s) && mem == s.mem && Sorted(mem) && first == s.lastSequence + 1
    ensures Sorted(table) && Contents(table) == Contents(mem) + Contents(BatchEntries(first, batch))
  {
    table := mem;
    var sequence := first;
    ghost var all := BatchEntries(first, batch);
    for i := 0 to |batch|
      invariant Inserted(s, batch, i, table) && sequence == first + i
    {
      InsertNext(s, batch, i, table);
      table := Merge(table, [Entry(IKey(batch[i].user, sequence, batch[i].kind), batch[i].value)]);
      sequence := sequence + 1;
    }
    assert all[..|batch|] == all;
  }

  lemma WorkNumbers(compact: CompactionState, version: Levels, nextFile: nat, in0: seq<File>)
    requires compact.Valid() && compact.builder == None && compact.firstFile == nextFile
    ensures FilesOk(compact.outputs) && OutputNumbers(version, nextFile, compact.nextFile, in0, compact.outputs)
  {
  }

  // DoCompactionWork on the picked inputs.
  method RunCompaction(ghost s: Db, version: Levels, level: nat, in0: seq<File>, in1: seq<File>,
                       grandparents: seq<File>,
                       ss: nat, nextFile: nat, limits: Limits, fileSize: seq<Entry> -> nat)
    returns (outputs: seq<File>, nextFile': nat)
    requires VersionOk(version) && CompactionOk(version, level, in0, in1) && StrictlyOrdered(version[level])
    requires s.version == version && ss == SmallestSnapshot(s) && ss < MAX_SEQUENCE
    ensures InputsSound(version, level, in0, in1)
    ensures OutputsOk(in0, in1, outputs) && Merges(s, level, in0, in1, outputs, SmallestSnapshot(s))
    ensures OutputNumbers(version, nextFile, nextFile', in0, outputs)
    ensures AllCutWell(outputs, CutsOf(limits, fileSize, grandparents))
  {
    hide VersionOk, CompactionOk, InputsSound, OutputsOk, Merges, MergedInput, Sorted, Flatten, AllCutWell, AllFull,
      Compaction.Valid, TotalFileSize, StrictlyOrdered, OutputNumbers, CompactionState.Valid;
    SetupIsSound(version, level, in0, in1);
    InputIsMerged(version, level, in0, in1);
    var input := SortedUnion(InputLists(level, in0, in1));
    var c := new Compaction(version, level, grandparents, limits.grandparentOverlap);
    var compact := new CompactionState(nextFile, fileSize);
    DoCompactionWork(c, compact, input, ss, limits.outputFileSize);
    outputs, nextFile' := compact.outputs, compact.nextFile;
    WorkNumbers(compact, version, nextFile, in0);
    WorkIsSound(s, level, in0, in1, input, outputs);
  }

  lemma OneFileIsOutput(v: Levels, level: nat, in0: seq<File>)
    requires VersionOk(v) && InputsSound(v, level, in0, []) && |in0| == 1
    ensures OutputsOk(in0, [], in0)
  {
    assert FilesOk(v[level]);
  }

  lemma MemPart(s: Db)
    requires Structure(s)
    ensures HistoryOk(s) && Sorted(s.mem)
  {
    hide VersionOk, NumbersOk, SnapshotsOk, NewerThan, HistoryOk, Sorted;
  }

  class DBImpl {
    var mem: seq<Entry>
    var imm: Option<seq<Entry>>
    var version: Levels
    var lastSequence: nat
    var nextFile: nat
    var snapshots: seq<nat>
    ghost var history: set<Entry>

    ghost function State(): Db
      reads this
    {
      Db(mem, imm, version, lastSequence, nextFile, snapshots, history)
    }

    constructor (nextFile: nat)
      ensures Init(State())
    {
      mem, imm, version := [], None, [[], [], [], [], [], [], []];
      lastSequence, this.nextFile, snapshots := 0, nextFile, [];
      history := {};
    }

    /** DBImpl::Get: in every reachable state of a safe run the search over the memtables and
        the levels answers what the history holds at the snapshot. */
    method Get(user: UserKey, snapshot: Option<nat>) returns (r: Option<Bytes>)
      requires Inv(State())
      requires snapshot.Some? ==> snapshot.value in snapshots
      ensures r == Read(history, user, if snapshot.Some? then snapshot.value else lastSequence)
    {
      var q := if snapshot.Some? then snapshot.value else lastSequence;
      StructureParts(State());
      SnapshotsCover(State(), q);
      assert Sorted(mem) && (imm.Some? ==> Sorted(imm.value));
      hide Structure, ReadsAgree, Answers, VersionOk, Sorted, Functional, NewerThan, AllEntries, SmallestSnapshot;
      var s := SearchSorted(mem, user, q);
      SplitAnswers(State(), user, q, s);
      if s.NotFound? {
        if imm.Some? {
          s := SearchSorted(imm.value, user, q);
          SplitAnswers(State(), user, q, s);
        } else {
          assert ImmEntries(State()) == {};
        }
        if s.NotFound? {
          s := Version.Get(version, user, q);
          SplitAnswers(State(), user, q, s);
        }
      }
      AnswersAreReads(StoredIn(State()), user, q, s);
      r := Status(s);
      ReadsMatch(State(), user, q);
    }

    // Write, once the batch is at the head of the queue and logged.
    method Write(batch: seq<Update>)
      requires Structure(State()) && lastSequence + |batch| < MAX_SEQUENCE
      modifies this
      ensures Next(old(State()), Step.Write(batch), State())
    {
      hide Structure, HistoryOk, Sorted, BatchEntries;
      MemPart(State());
      var first := lastSequence + 1;
      ghost var s := State();
      var table := InsertInto(s, batch, first, mem);
      mem, lastSequence := table, lastSequence + |batch|;
      history := history + Contents(BatchEntries(first, batch));
      assert WriteStep(s, batch, State());
    }

    // MakeRoomForWrite, when the memtable is full and no other one is being flushed.
    method SwitchMemTable()
      requires imm.None?
      modifies this
      ensures Next(old(State()), Switch, State())
    {
      nextFile := nextFile + 1;
      imm, mem := Some(mem), [];
    }

    // VersionSet::LogAndApply
    method LogAndApply(edit: VersionEdit)
      requires edit.Valid() && forall l :: 0 <= l < NUM_LEVELS ==> StrictlyOrdered(version[l])
      modifies this`version
      ensures SavedAll(old(version), edit, version)
    {
      var builder := new Builder(version);
      builder.Apply(edit);
      version := builder.SaveTo();
    }

    // The level is the deepest, at most 2, that a table reaches without meeting a file on the
    // way or too many bytes two levels down.
    static ghost predicate IsDeepest(v: Levels, min: UserKey, max: UserKey, maxOverlap: int, level: nat) {
      && level <= 2
      && (level > 0 ==> forall l :: 0 <= l <= level ==> !OverlapInLevel(v, l, min, max))
      && (level > 0 ==> forall l :: 0 <= l < level ==> MayPush(v, l, min, max, maxOverlap))
      && (level < 2 ==> OverlapInLevel(v, 0, min, max) || !MayPush(v, level, min, max, maxOverlap))
    }

    // WriteLevel0Table with BuildTable: the table's bounds are its first and last key.
    method WriteTable(entries: seq<Entry>, number: nat, fileSize: seq<Entry> -> nat, maxOverlap: int)
      returns (level: nat, f: File)
      requires VersionOk(version) && NumbersOk(version, number) && Sorted(entries) && |entries| > 0
      modifies this`version
      ensures level < NUM_LEVELS && FileOk(f) && f.entries == entries && f.number == number
      ensures level > 0 ==> forall l :: 0 <= l <= level ==>
        !OverlapInLevel(old(version), l, f.smallest.user, f.largest.user)
      ensures IsDeepest(old(version), f.smallest.user, f.largest.user, maxOverlap, level)
      ensures Added(old(version), level, f, version)
    {
      NumbersAreStrict(version, number);
      hide VersionOk, NumbersOk, OverlapInLevel, MayPush, Added, SavedAll, StrictlyOrdered;
      f := File(number, fileSize(entries), entries[0].key, entries[|entries| - 1].key, entries);
      level := PickLevelForMemTableOutput(version, f.smallest.user, f.largest.user, maxOverlap);
      LogAndApply(FlushEdit(level, f));
      FlushInstalls(old(version), number, level, f, version);
    }

    /** CompactMemTable */
    method CompactMemTable(fileSize: seq<Entry> -> nat, maxOverlap: int) returns (ghost level: nat, ghost file: File)
      requires Structure(State()) && imm.Some?
      modifies this
      ensures Next(old(State()), Flush(level, file), State())
      ensures |old(imm).value| > 0 ==>
        IsDeepest(old(version), file.smallest.user, file.largest.user, maxOverlap, level)
    {
      FlushParts(State());
      hide Structure, VersionOk, NumbersOk, OverlapInLevel, Added, FileOk, IsDeepest;
      var entries := imm.value;
      var number := nextFile;
      nextFile := nextFile + 1;
      level := 0;
      file := File(number, 0, SeekKey(0.0, 0), SeekKey(0.0, 0), []);
      if |entries| > 0 {
        level, file := WriteTable(entries, number, fileSize, maxOverlap);
      }
      imm := None;
    }

    // PickCompaction or CompactRange
    method Pick(req: Request, limits: Limits)
      returns (c: Option<(seq<File>, seq<File>, seq<File>, IKey)>)
      requires VersionOk(version) && req.level + 1 < NUM_LEVELS && (req.Auto? ==> req.file in version[req.level])
      ensures c.None? <==> req.Manual? && forall f :: f in version[req.level] ==> !Overlaps(f, req.begin, req.end)
      ensures c.Some? ==> CompactionOk(version, req.level, c.value.0, c.value.1)
      ensures c.Some? ==> GrandparentsOf(version, req.level, c.value.0 + c.value.1, c.value.2)
      ensures c.Some? ==> Serves(version, req, c.value.0)
    {
      hide TakesRange, GrandparentsOf;
      match req
      case Auto(level, file) =>
        var in0, in1, grandparents, pointer := PickCompaction(version, level, file, limits.byteLimit);
        c := Some((in0, in1, grandparents, pointer));
      case Manual(level, begin, end, fileLimit) =>
        c := CompactRange(version, level, begin, end, fileLimit, limits.byteLimit);
    }

    // A compaction that is not a trivial move: DoCompactionWork and InstallCompactionResults.
    method Compact(level: nat, in0: seq<File>, in1: seq<File>, grandparents: seq<File>, limits: Limits,
                   fileSize: seq<Entry> -> nat)
      returns (ghost outputs: seq<File>)
      requires VersionOk(version) && NumbersOk(version, nextFile) && CompactionOk(version, level, in0, in1)
      requires SmallestSnapshot(State()) < MAX_SEQUENCE
      modifies this`version, this`nextFile
      ensures InputsSound(old(version), level, in0, in1) && OutputsOk(in0, in1, outputs)
      ensures Merges(old(State()), level, in0, in1, outputs, SmallestSnapshot(old(State())))
      ensures Installed(old(version), level, in0, in1, outputs, version) && NumbersOk(version, nextFile)
      ensures AllCutWell(outputs, CutsOf(limits, fileSize, grandparents))
    {
      hide VersionOk, NumbersOk, UpperInputsOk, LowerInputsOk, OutputsOk, Installed, SavedAll, AllCutWell;
      NumbersAreStrict(version, nextFile);
      ghost var v, n := version, nextFile;
      var ss := if |snapshots| == 0 then lastSequence else snapshots[0];
      var files, next := RunCompaction(State(), version, level, in0, in1, grandparents, ss, nextFile, limits, fileSize);
      InAdded(level, in0, in1, files);
      LogAndApply(CompactionEdit(level, in0, in1, files));
      CompactionInstalls(v, n, next, level, in0, in1, files, version);
      nextFile := next;
      outputs := files;
    }

    // The trivial move of BackgroundCompaction.
    method MoveDown(level: nat, in0: seq<File>)
      requires VersionOk(version) && NumbersOk(version, nextFile) && |in0| == 1 && CompactionOk(version, level, in0, [])
      modifies this`version
      ensures InputsSound(old(version), level, in0, []) && OutputsOk(in0, [], in0)
      ensures Installed(old(version), level, in0, [], in0, version) && NumbersOk(version, nextFile)
    {
      hide VersionOk, NumbersOk, UpperInputsOk, LowerInputsOk, OutputsOk, Installed, SavedAll;
      NumbersAreStrict(version, nextFile);
      ghost var v := version;
      SetupIsSound(version, level, in0, []);
      OneFileIsOutput(v, level, in0);
      InAdded(level, in0, [], in0);
      LogAndApply(CompactionEdit(level, in0, [], in0));
      CompactionInstalls(v, nextFile, nextFile, level, in0, [], in0, version);
    }

    /** BackgroundCompaction: flushes, moves one file down, or compacts. */
    method BackgroundCompaction(req: Request, limits: Limits,
                                fileSize: seq<Entry> -> nat) returns (ghost step: Option<Step>)
      requires Structure(State()) && req.level + 1 < NUM_LEVELS && (req.Auto? ==> req.file in version[req.level])
      modifies this
      ensures step.None? ==> State() == old(State())
      ensures step.Some? ==> Next(old(State()), step.value, State())
      ensures old(imm).Some? ==> step.Some? && step.value.Flush?
      ensures old(imm).None? ==>
        (step.None? <==> req.Manual? && forall f :: f in old(version)[req.level] ==> !Overlaps(f, req.begin, req.end))
      ensures old(imm).Some? && |old(imm).value| > 0 ==>
        IsDeepest(old(version), step.value.file.smallest.user, step.value.file.largest.user, limits.grandparentOverlap,
                  step.value.level)
      ensures old(imm).None? && step.Some? ==>
        && DoesAsAsked(old(version), req, limits, step.value)
        && (step.value.Compact? ==> OutputsAreCut(old(version), limits, fileSize, step.value))
    {
      hide VersionOk, NumbersOk, UpperInputsOk, LowerInputsOk, OutputsOk, InputsSound, Installed, NewerThan, Merges,
        AllCutWell, GrandparentsOf, IsLight, IsDeepest, Serves;
      StructureParts(State());
      if imm.Some? {
        ghost var flushLevel, flushed;
        flushLevel, flushed := CompactMemTable(fileSize, limits.grandparentOverlap);
        step := Some(Flush(flushLevel, flushed));
        return;
      }
      var c := Pick(req, limits);
      step := None;
      if c.Some? {
        var (in0, in1, grandparents, pointer) := c.value;
        InputsExist(version[req.level], req.level, in0);
        if |in0| == 1 && |in1| == 0 {
          assert in0 == [in0[0]] && in1 == [];
          LightOrNot(version, req.level, in0[0], grandparents, limits.grandparentOverlap);
        }
        if req.Auto? && |in0| == 1 && |in1| == 0 && TotalFileSize(grandparents) <= limits.grandparentOverlap {
          MoveDown(req.level, in0);
          step := Some(Move(req.level, in0, in0));
        } else {
          ghost var outputs;
          outputs := Compact(req.level, in0, in1, grandparents, limits, fileSize);
          step := Some(Step.Compact(req.level, in0, in1, outputs, SmallestSnapshot(State())));
        }
      }
    }

    // DBImpl::GetSnapshot
    method GetSnapshot() returns (q: nat)
      modifies this`snapshots
      ensures Next(old(State()), TakeSnapshot, State())
      ensures q == lastSequence && q in snapshots
    {
      snapshots := snapshots + [lastSequence];
      q := lastSequence;
      assert snapshots[|snapshots| - 1] == q;
    }

    // DBImpl::ReleaseSnapshot
    method ReleaseSnapshot(i: nat)
      requires i < |snapshots|
      modifies this`snapshots
      ensures Next(old(State()), Release(i), State())
    {
      snapshots := snapshots[..i] + snapshots[i + 1..];
    }
  }

  lemma WorkIsSound(s: Db, level: nat, in0: seq<File>, in1: seq<File>, input: seq<Entry>, outputs: seq<File>)
    requires MergedInput(input, in0, in1) && FilesOk(outputs)
    requires Flatten(outputs) == Survivors(s.version, level, input, SmallestSnapshot(s), |input|)
    ensures OutputsOk(in0, in1, outputs) && Merges(s, level, in0, in1, outputs, SmallestSnapshot(s))
  {
    SurvivorsSorted(s.version, level, input, SmallestSnapshot(s), |input|);
    SurvivorsAreInputs(s.version, level, input, SmallestSnapshot(s));
    FlattenDisjoint(outputs);
    FlattenEntries(outputs);
  }
}
