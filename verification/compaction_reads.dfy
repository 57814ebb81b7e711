/** Which reads a compaction keeps. */
module CompactionReads {
  import opened Keys
  import opened Version
  import opened CompactionInputs
  import opened CompactionWork

  // Wherever f and g share a user key, g's entries are newer.
  ghost predicate NewerFile(g: File, f: File) {
    forall a, b :: a in f.entries && b in g.entries && a.key.user == b.key.user ==> Before(b.key, a.key)
  }

  /** What a compaction needs of its inputs: no older piece of an input user key stays
      behind at the upper level, and no file left out at the next level meets inputs_[0]. */
  ghost predicate InputsSound(v: Levels, level: nat, in0: seq<File>, in1: seq<File>) {
    && level + 1 < NUM_LEVELS
    && (forall f :: f in in0 ==> f in v[level])
    && (forall f :: f in in1 ==> f in v[level + 1])
    && (forall f, g :: f in in0 && g in v[level] && g !in in0 ==> NewerFile(g, f))
    && |in0| > 0
    && exists s, l :: IsSmallest(in0, s) && IsLargest(in0, l) && LeftAside(v[level + 1], in1, s.user, l.user)
  }

  // The files left out lie entirely on one side of the range, the others meet it.
  ghost predicate LeftAside(next: seq<File>, in1: seq<File>, lo: UserKey, hi: UserKey) {
    forall g :: g in next ==> if g in in1 then Overlaps(g, Some(lo), Some(hi))
      else g.largest.user < lo || hi < g.smallest.user
  }

  // File f of level l is not an input of the compaction.
  ghost predicate Stays(level: nat, in0: seq<File>, in1: seq<File>, l: int, f: File) {
    !(l == level && f in in0) && !(l == level + 1 && f in in1)
  }

  // The entries of all files that are not inputs.
  ghost function Rest(v: Levels, level: nat, in0: seq<File>, in1: seq<File>): set<Entry> {
    set l, f, e | 0 <= l < NUM_LEVELS && f in v[l] && Stays(level, in0, in1, l, f) && e in f.entries :: e
  }

  // The entries of the next level's files that were left out of inputs_[1].
  ghost function LeftLower(v: Levels, level: nat, in1: seq<File>): set<Entry>
    requires level + 1 < NUM_LEVELS
  {
    set f, e | f in v[level + 1] && f !in in1 && e in f.entries :: e
  }

  // The version after the compaction is installed.
  ghost predicate Installed(v: Levels, level: nat, in0: seq<File>, in1: seq<File>, outputs: seq<File>, v': Levels)
    requires level + 1 < NUM_LEVELS
  {
    && (forall l :: 0 <= l < NUM_LEVELS && l != level && l != level + 1 ==> v'[l] == v[l])
    && (forall f :: f in v'[level] <==> f in v[level] && f !in in0)
    && (forall f :: f in v'[level + 1] <==> f in outputs || (f in v[level + 1] && f !in in1))
  }

  lemma Stored(v: Levels, l: int, f: File, e: Entry)
    requires 0 <= l < NUM_LEVELS && f in v[l] && e in f.entries
    ensures e in Entries(v[l]) && e in AllEntries(v)
  {
  }

  // Level order between two stored entries of one user key.
  lemma LevelOrder(v: Levels, l: int, a: Entry, m: int, b: Entry)
    requires VersionOk(v) && 0 <= l < m < NUM_LEVELS
    requires a in Entries(v[l]) && b in Entries(v[m]) && a.key.user == b.key.user
    ensures a.key.sequence > b.key.sequence
  {
    assert NewerThan(Entries(v[l]), Entries(v[m]));
  }

  lemma InputsAreFiles(v: Levels, level: nat, in0: seq<File>, in1: seq<File>)
    requires InputsSound(v, level, in0, in1)
    ensures level + 1 < NUM_LEVELS
    ensures (forall f :: f in in0 ==> f in v[level]) && forall f :: f in in1 ==> f in v[level + 1]
  {
    hide NewerFile, LeftAside, IsSmallest, IsLargest;
  }

  // Which file holds an entry.
  lemma Holder(files: seq<File>, e: Entry) returns (f: File)
    requires e in Entries(files)
    ensures f in files && e in f.entries
  {
    f :| f in files && e in f.entries;
  }

  lemma StoredHolder(v: Levels, e: Entry) returns (l: nat, f: File)
    requires e in AllEntries(v)
    ensures l < NUM_LEVELS && f in v[l] && e in f.entries
  {
    l :| l < NUM_LEVELS && e in Entries(v[l]);
    f := Holder(v[l], e);
  }

  lemma RestHolder(v: Levels, level: nat, in0: seq<File>, in1: seq<File>, e: Entry) returns (l: nat, f: File)
    requires e in Rest(v, level, in0, in1)
    ensures l < NUM_LEVELS && f in v[l] && Stays(level, in0, in1, l, f) && e in f.entries
  {
    hide Stays;
    l, f :| l < NUM_LEVELS && f in v[l] && Stays(level, in0, in1, l, f) && e in f.entries;
  }

  lemma Held(files: seq<File>, f: File, e: Entry)
    requires f in files && e in f.entries
    ensures e in Entries(files)
  {
  }

  lemma HeldByRest(v: Levels, level: nat, in0: seq<File>, in1: seq<File>, l: nat, f: File, e: Entry)
    requires l < NUM_LEVELS && f in v[l] && Stays(level, in0, in1, l, f) && e in f.entries
    ensures e in Rest(v, level, in0, in1)
  {
    hide Stays;
  }

  lemma EntriesSplit(v: Levels, level: nat, in0: seq<File>, in1: seq<File>)
    requires InputsSound(v, level, in0, in1)
    ensures AllEntries(v) == Rest(v, level, in0, in1) + Entries(in0) + Entries(in1)
  {
    hide InputsSound, Entries, AllEntries, Rest;
    InputsAreFiles(v, level, in0, in1);
    forall e | e in AllEntries(v) ensures e in Rest(v, level, in0, in1) + Entries(in0) + Entries(in1) {
      var l, f := StoredHolder(v, e);
      if Stays(level, in0, in1, l, f) {
        HeldByRest(v, level, in0, in1, l, f, e);
      } else {
        Held(if l == level then in0 else in1, f, e);
      }
    }
    forall e | e in Rest(v, level, in0, in1) ensures e in AllEntries(v) {
      var l, f := RestHolder(v, level, in0, in1, e);
      Stored(v, l, f, e);
    }
    forall e | e in Entries(in0) ensures e in AllEntries(v) {
      var f := Holder(in0, e);
      Stored(v, level, f, e);
    }
    forall e | e in Entries(in1) ensures e in AllEntries(v) {
      var f := Holder(in1, e);
      Stored(v, level + 1, f, e);
    }
  }

  lemma EntriesAfter(v: Levels, level: nat, in0: seq<File>, in1: seq<File>, outputs: seq<File>, v': Levels)
    requires InputsSound(v, level, in0, in1) && Installed(v, level, in0, in1, outputs, v')
    ensures AllEntries(v') == Rest(v, level, in0, in1) + Entries(outputs)
  {
    hide InputsSound, Entries, AllEntries, Rest, Stays;
    InputsAreFiles(v, level, in0, in1);
    forall e | e in AllEntries(v') ensures e in Rest(v, level, in0, in1) + Entries(outputs) {
      var l, f := StoredHolder(v', e);
      FileAfter(v, level, in0, in1, outputs, v', l, f);
      if f in v[l] && Stays(level, in0, in1, l, f) {
        HeldByRest(v, level, in0, in1, l, f, e);
      } else {
        Held(outputs, f, e);
      }
    }
    forall e | e in Rest(v, level, in0, in1) ensures e in AllEntries(v') {
      var l, f := RestHolder(v, level, in0, in1, e);
      FileAfter(v, level, in0, in1, outputs, v', l, f);
      Stored(v', l, f, e);
    }
    forall e | e in Entries(outputs) ensures e in AllEntries(v') {
      var f := Holder(outputs, e);
      Stored(v', level + 1, f, e);
    }
  }

  lemma FileAfter(v: Levels, level: nat, in0: seq<File>, in1: seq<File>, outputs: seq<File>, v': Levels, l: int,
                  f: File)
    requires level + 1 < NUM_LEVELS && Installed(v, level, in0, in1, outputs, v') && 0 <= l < NUM_LEVELS
    ensures f in v'[l] <==> (l == level + 1 && f in outputs) || (f in v[l] && Stays(level, in0, in1, l, f))
  {
  }

  lemma {:induction false} FlattenEntries(files: seq<File>)
    ensures Contents(Flatten(files)) == Entries(files)
  {
    if |files| > 0 {
      var n := |files| - 1;
      FlattenEntries(files[..n]);
      assert forall f :: f in files <==> f in files[..n] || f == files[n];
      assert Entries(files) == Entries(files[..n]) + Contents(files[n].entries);
    }
  }

  lemma RunLeavesNewer(files: seq<File>, inputs: seq<File>, p: nat, q: nat, i: nat, j: nat)
    requires FilesOk(files) && DisjointSorted(files) && RunOf(files, inputs, p, q) && NoBoundaryLeft(files, inputs)
    requires p <= i < q && j < |files| && !(p <= j < q)
    ensures NewerFile(files[j], files[i])
  {
    forall a, b | a in files[i].entries && b in files[j].entries && a.key.user == b.key.user
      ensures Before(b.key, a.key) {
      EntryInRange(files[i], a);
      EntryInRange(files[j], b);
      if j >= q {
        RunEnd(files, inputs, p, q);
        assert files[q] in files && !IsBoundary(files[q], files[q - 1].largest);
        RangeNonEmpty(files[q]);
      }
    }
  }

  /** Closing inputs_[0] under boundaries (or, at level 0, under overlap) leaves no older
      piece of an input user key behind at that level. */
  lemma NoOlderLeftBehind(files: seq<File>, level: nat, inputs: seq<File>, f: File, g: File)
    requires FilesOk(files) && (level > 0 ==> DisjointSorted(files)) && UpperInputsOk(files, level, inputs)
    requires f in inputs && g in files && g !in inputs
    ensures NewerFile(g, f)
  {
    hide DisjointSorted, FileOk, NoBoundaryLeft;
    if level == 0 {
      var lo, hi :| ClosedRange(files, lo, hi) && forall h :: h in inputs <==> h in files && Overlaps(h, lo, hi);
      ClosedApart(files, lo, hi, f, g);
    } else {
      var p: nat, q: nat :| RunOf(files, inputs, p, q);
      var i: nat :| p <= i < q && files[i] == f;
      var j: nat :| j < |files| && files[j] == g;
      assert forall k :: p <= k < q ==> files[k] == inputs[k - p];
      RunLeavesNewer(files, inputs, p, q, i, j);
    }
  }

  // A file outside a closed range shares no user key with one that meets it.
  lemma ClosedApart(files: seq<File>, lo: Option<UserKey>, hi: Option<UserKey>, f: File, g: File)
    requires ClosedRange(files, lo, hi) && f in files && Overlaps(f, lo, hi) && !Overlaps(g, lo, hi)
    requires FileOk(f) && FileOk(g)
    ensures NewerFile(g, f)
  {
    forall a, b | a in f.entries && b in g.entries ensures a.key.user != b.key.user {
      EntryInRange(f, a);
      EntryInRange(g, b);
    }
  }

  lemma SetupIsSound(v: Levels, level: nat, in0: seq<File>, in1: seq<File>)
    requires VersionOk(v) && CompactionOk(v, level, in0, in1)
    ensures InputsSound(v, level, in0, in1)
  {
    forall f, g | f in in0 && g in v[level] && g !in in0 ensures NewerFile(g, f) {
      NoOlderLeftBehind(v[level], level, in0, f, g);
    }
    LowerIsAside(v[level + 1], in0, in1);
  }

  lemma LowerIsAside(next: seq<File>, in0: seq<File>, in1: seq<File>)
    requires LowerInputsOk(next, in0, in1)
    ensures forall f :: f in in1 ==> f in next
    ensures exists s, l :: IsSmallest(in0, s) && IsLargest(in0, l) && LeftAside(next, in1, s.user, l.user)
  {
    var s, l :| IsSmallest(in0, s) && IsLargest(in0, l) && in1 == Overlapping(next, Some(s.user), Some(l.user));
    InOverlapping(next, Some(s.user), Some(l.user));
    assert LeftAside(next, in1, s.user, l.user);
  }

  lemma RunEnd(files: seq<File>, inputs: seq<File>, p: nat, q: nat)
    requires FilesOk(files) && DisjointSorted(files) && RunOf(files, inputs, p, q) && |inputs| > 0
    ensures IsLargest(inputs, files[q - 1].largest)
    ensures q < |files| ==> forall i :: p <= i < q ==> files[i].largest.user <= files[q - 1].largest.user
  {
    assert inputs[q - 1 - p] in inputs;
    LargestIncreases(files, q - 1);
  }

  /** An older entry of a user key that has nothing below the output level can only lie
      in a next-level file that was left out. */
  lemma HeldByLeft(v: Levels, level: nat, in1: seq<File>, f: File, e: Entry)
    requires level + 1 < NUM_LEVELS && f in v[level + 1] && f !in in1 && e in f.entries
    ensures e in LeftLower(v, level, in1)
  {
  }

  lemma OlderIsLeftLower(v: Levels, level: nat, in0: seq<File>, in1: seq<File>, e: Entry, d: Entry)
    requires VersionOk(v) && InputsSound(v, level, in0, in1)
    requires e in Entries(in0) + Entries(in1) && BaseLevel(v, level, e.key.user)
    requires d in Rest(v, level, in0, in1) && d.key.user == e.key.user && d.key.sequence < e.key.sequence
    ensures d in LeftLower(v, level, in1)
  {
    hide VersionOk, BaseLevel, InputsSound, Entries, AllEntries, Rest, LeftLower;
    var l, g := RestHolder(v, level, in0, in1, d);
    Stored(v, l, g, d);
    var le, f := InputFile(v, level, in0, in1, e);
    if l == level + 1 {
      HeldByLeft(v, level, in1, g, d);
    } else if l > level + 1 {
      DeeperIsOutside(v, level, l, g, d);
    } else if l < le {
      LevelOrder(v, l, d, le, e);
    } else {
      UpperLeftIsNewer(v, level, in0, in1, f, g, e, d);
    }
  }

  lemma DeeperIsOutside(v: Levels, level: nat, l: int, g: File, d: Entry)
    requires VersionOk(v) && level + 2 <= l < NUM_LEVELS && g in v[l] && d in g.entries
    ensures !BaseLevel(v, level, d.key.user)
  {
    assert FilesOk(v[l]);
    EntryInRange(g, d);
  }

  lemma UpperLeftIsNewer(v: Levels, level: nat, in0: seq<File>, in1: seq<File>, f: File, g: File, a: Entry, b: Entry)
    requires InputsSound(v, level, in0, in1) && f in in0 && g in v[level] && g !in in0
    requires a in f.entries && b in g.entries && a.key.user == b.key.user
    ensures Before(b.key, a.key) && b.key.sequence >= a.key.sequence
  {
    assert NewerFile(g, f);
  }

  // The level and file of an input entry.
  lemma InputFile(v: Levels, level: nat, in0: seq<File>, in1: seq<File>, e: Entry) returns (l: nat, f: File)
    requires InputsSound(v, level, in0, in1) && e in Entries(in0) + Entries(in1)
    ensures l < NUM_LEVELS && f in v[l] && e in f.entries && e in Entries(v[l])
    ensures (l == level && f in in0) || (l == level + 1 && f in in1)
  {
    hide InputsSound, Entries;
    InputsAreFiles(v, level, in0, in1);
    if e in Entries(in0) {
      l := level;
      f := Holder(in0, e);
    } else {
      l := level + 1;
      f := Holder(in1, e);
    }
    Held(v[l], f, e);
  }

  /** The one way a compaction changes a read: the newest visible entry of a user key is a
      deletion marker in inputs_[1] with nothing below the output level, while a file of the
      next level that was left out of inputs_[1] still holds a value for the key.  The
      compaction drops by the snapshot `ss`; the reads that matter are those from `low` on. */
  ghost predicate Resurrects(all: set<Entry>, v: Levels, level: nat, in1: seq<File>, ss: nat, low: nat)
    requires level + 1 < NUM_LEVELS
  {
    exists e :: IsResurrected(all, v, level, in1, ss, low, e)
  }

  ghost predicate IsResurrected(all: set<Entry>, v: Levels, level: nat, in1: seq<File>, ss: nat, low: nat, e: Entry)
    requires level + 1 < NUM_LEVELS
  {
    && e in Entries(in1) && Newest(all, e.key.user, low, e) && e.key.sequence <= ss && e.key.kind.Deletion?
    && BaseLevel(v, level, e.key.user) && Read(LeftLower(v, level, in1), e.key.user, ss).Some?
  }

  // What a compaction starts from: the files, and the memtables' entries in front of them.
  ghost predicate Source(front: set<Entry>, v: Levels) {
    VersionOk(v) && NewerThan(front, AllEntries(v)) && Functional(front + AllEntries(v))
  }

  ghost predicate MergedInput(input: seq<Entry>, in0: seq<File>, in1: seq<File>) {
    Sorted(input) && Contents(input) == Entries(in0) + Entries(in1)
  }

  // Dropping an entry that is the newest visible one means its deletion marker was dropped.
  lemma DroppedNewest(all: set<Entry>, v: Levels, level: nat, input: seq<Entry>, ss: nat, user: UserKey, q: nat,
                      e: Entry)
    requires Sorted(input) && Functional(all) && Contents(input) <= all && q >= ss && Newest(all, user, q, e)
    requires e in input && e !in Survivors(v, level, input, ss, |input|)
    ensures e.key.kind.Deletion? && e.key.sequence <= ss && BaseLevel(v, level, user)
  {
    InSurvivors(v, level, input, ss, |input|);
    var i :| 0 <= i < |input| && input[i] == e;
    assert !Kept(v, level, input, ss, i);
    forall j | 0 <= j < i && input[j].key.user == user ensures input[j].key.sequence > ss {
      assert input[j] in Contents(input) && Before(input[j].key, input[i].key);
    }
  }

  // An input entry is stored in no other file.
  lemma InputsAreNotRest(v: Levels, level: nat, in0: seq<File>, in1: seq<File>, e: Entry)
    requires VersionOk(v) && InputsSound(v, level, in0, in1)
    requires e in Entries(in0) + Entries(in1)
    ensures e !in Rest(v, level, in0, in1)
  {
    if e in Rest(v, level, in0, in1) {
      var l, g :| 0 <= l < NUM_LEVELS && g in v[l] && Stays(level, in0, in1, l, g) && e in g.entries;
      Stored(v, l, g, e);
      var m, f := InputFile(v, level, in0, in1, e);
      if l != m {
        OneLevelOnly(v, l, m, e);
      } else if l == level {
        UpperLeftIsNewer(v, level, in0, in1, f, g, e, e);
      } else {
        OneFileOnly(v[l], f, g, e);
      }
    }
  }

  lemma OneLevelOnly(v: Levels, l: int, m: int, e: Entry)
    requires VersionOk(v) && 0 <= l < NUM_LEVELS && 0 <= m < NUM_LEVELS && e in Entries(v[l]) && e in Entries(v[m])
    ensures l == m
  {
    if l < m {
      LevelOrder(v, l, e, m, e);
    } else if m < l {
      LevelOrder(v, m, e, l, e);
    }
  }

  lemma OneFileOnly(files: seq<File>, f: File, g: File, e: Entry)
    requires FilesOk(files) && DisjointSorted(files) && f in files && g in files && e in f.entries && e in g.entries
    ensures f == g
  {
    EntryInRange(f, e);
    EntryInRange(g, e);
  }

  // Everything older than a visible input entry of the same user key is dropped.
  lemma OlderInputsDropped(v: Levels, level: nat, input: seq<Entry>, ss: nat, e: Entry, d: Entry)
    requires Sorted(input) && e in input && e.key.sequence <= ss
    requires d in Survivors(v, level, input, ss, |input|) && d.key.user == e.key.user
    ensures d.key.sequence >= e.key.sequence
  {
    InSurvivors(v, level, input, ss, |input|);
    var i :| 0 <= i < |input| && input[i] == e;
    var k :| 0 <= k < |input| && input[k] == d && Kept(v, level, input, ss, k);
  }

  // What is still visible below a dropped deletion marker.
  lemma VisibleBelow(front: set<Entry>, v: Levels, level: nat, in0: seq<File>, in1: seq<File>,
                     input: seq<Entry>, ss: nat, q: nat, e: Entry, d: Entry)
    requires Source(front, v) && InputsSound(v, level, in0, in1) && MergedInput(input, in0, in1)
    requires Newest(front + AllEntries(v), e.key.user, q, e) && e.key.sequence <= ss && BaseLevel(v, level, e.key.user)
    requires e in input && e !in Survivors(v, level, input, ss, |input|)
    requires d in After(front, v, level, in0, in1, input, ss)
    requires d.key.user == e.key.user && d.key.sequence <= q
    ensures d in LeftLower(v, level, in1) && d.key.sequence < e.key.sequence
  {
    SourceParts(front, v);
    InputParts(input, in0, in1);
    hide Source, MergedInput, VersionOk, InputsSound, After, AllEntries, Rest, LeftLower, BaseLevel, Survivors;
    AfterIsWithin(front, v, level, in0, in1, input, ss);
    assert e in Contents(input) && d in front + AllEntries(v);
    InputsAreNotRest(v, level, in0, in1, e);
    AfterParts(front, v, level, in0, in1, input, ss, d);
    hide Functional, Newest;
    if d in Survivors(v, level, input, ss, |input|) {
      OlderInputsDropped(v, level, input, ss, e, d);
      VisibleIsOlder(front + AllEntries(v), e, q, d);
    } else if d in Rest(v, level, in0, in1) {
      VisibleIsOlder(front + AllEntries(v), e, q, d);
      OlderIsLeftLower(v, level, in0, in1, e, d);
    } else {
      FrontIsNewer(front, v, d, e);
      VisibleIsOlder(front + AllEntries(v), e, q, d);
    }
  }

  lemma SourceParts(front: set<Entry>, v: Levels)
    requires Source(front, v)
    ensures VersionOk(v) && Functional(front + AllEntries(v))
  {
    hide VersionOk, NewerThan, AllEntries;
  }

  lemma InputParts(input: seq<Entry>, in0: seq<File>, in1: seq<File>)
    requires MergedInput(input, in0, in1)
    ensures Sorted(input) && Contents(input) == Entries(in0) + Entries(in1)
  {
  }

  lemma AfterParts(front: set<Entry>, v: Levels, level: nat, in0: seq<File>, in1: seq<File>, input: seq<Entry>,
                   ss: nat, d: Entry)
    requires d in After(front, v, level, in0, in1, input, ss)
    ensures d in front || d in Rest(v, level, in0, in1) || d in Survivors(v, level, input, ss, |input|)
  {
    hide Survivors, Rest;
  }

  // What is visible beside the newest entry is that entry or older.
  lemma VisibleIsOlder(all: set<Entry>, e: Entry, q: nat, d: Entry)
    requires Functional(all) && Newest(all, e.key.user, q, e)
    requires d in all && d.key.user == e.key.user && d.key.sequence <= q
    ensures d == e || d.key.sequence < e.key.sequence
  {
  }

  lemma FrontIsNewer(front: set<Entry>, v: Levels, d: Entry, e: Entry)
    requires Source(front, v) && d in front && e in AllEntries(v) && d.key.user == e.key.user
    ensures d.key.sequence > e.key.sequence
  {
    hide VersionOk, AllEntries;
  }

  lemma LeftLowerInRest(v: Levels, level: nat, in0: seq<File>, in1: seq<File>)
    requires level + 1 < NUM_LEVELS
    ensures LeftLower(v, level, in1) <= Rest(v, level, in0, in1)
  {
    forall d | d in LeftLower(v, level, in1) ensures d in Rest(v, level, in0, in1) {
      var g :| g in v[level + 1] && g !in in1 && d in g.entries;
      assert Stays(level, in0, in1, level + 1, g);
    }
  }

  // Two sets with the same entries visible for a user key read the same.
  lemma SameVisible(a: set<Entry>, b: set<Entry>, user: UserKey, q: nat, s: nat)
    requires Functional(a) && b <= a && s <= q
    requires forall d :: d in a && d.key.user == user && d.key.sequence <= q ==> d in b && d.key.sequence <= s
    ensures Read(a, user, q) == Read(b, user, s)
  {
    if d :| d in a && d.key.user == user && d.key.sequence <= q {
      var n := NewestExists(a, user, q, d);
      ReadNewest(a, user, q, n);
      ReadNewest(b, user, s, n);
    } else {
      ReadAbsent(a, user, q);
      ReadAbsent(b, user, s);
    }
  }

  ghost function After(front: set<Entry>, v: Levels, level: nat, in0: seq<File>, in1: seq<File>, input: seq<Entry>,
                       ss: nat): set<Entry> {
    front + Rest(v, level, in0, in1) + Contents(Survivors(v, level, input, ss, |input|))
  }

  lemma AfterIsWithin(front: set<Entry>, v: Levels, level: nat, in0: seq<File>, in1: seq<File>, input: seq<Entry>,
                      ss: nat)
    requires InputsSound(v, level, in0, in1) && MergedInput(input, in0, in1)
    ensures After(front, v, level, in0, in1, input, ss) <= front + AllEntries(v)
    ensures forall e :: e in front + AllEntries(v) && e !in After(front, v, level, in0, in1, input, ss)
                        ==> e in input && e !in Survivors(v, level, input, ss, |input|)
    ensures LeftLower(v, level, in1) <= After(front, v, level, in0, in1, input, ss)
    ensures Contents(input) <= AllEntries(v)
  {
    EntriesSplit(v, level, in0, in1);
    SurvivorsAreInputs(v, level, input, ss);
    LeftLowerInRest(v, level, in0, in1);
  }

  // Reading a user key whose deletion marker was dropped falls through to the files left out.
  lemma ReadFallsThrough(front: set<Entry>, v: Levels, level: nat, in0: seq<File>, in1: seq<File>,
                         input: seq<Entry>, ss: nat, user: UserKey, q: nat, e: Entry)
    requires Source(front, v) && InputsSound(v, level, in0, in1) && MergedInput(input, in0, in1) && q >= ss
    requires Newest(front + AllEntries(v), user, q, e)
    requires e in input && e !in Survivors(v, level, input, ss, |input|)
    ensures Read(After(front, v, level, in0, in1, input, ss), user, q) == Read(LeftLower(v, level, in1), user, ss)
    ensures e.key.kind.Deletion? && BaseLevel(v, level, user) && e.key.sequence <= ss
  {
    var all, after := front + AllEntries(v), After(front, v, level, in0, in1, input, ss);
    AfterIsWithin(front, v, level, in0, in1, input, ss);
    DroppedNewest(all, v, level, input, ss, user, q, e);
    forall d | d in after && d.key.user == user && d.key.sequence <= q
      ensures d in LeftLower(v, level, in1) && d.key.sequence <= ss
    {
      VisibleBelow(front, v, level, in0, in1, input, ss, q, e, d);
    }
    SameVisible(after, LeftLower(v, level, in1), user, q, ss);
  }

  // A next-level file left out shares no user key with inputs_[0].
  lemma LeftOutIsApart(v: Levels, level: nat, in0: seq<File>, in1: seq<File>, f: File, g: File, e: Entry, d: Entry)
    requires InputsSound(v, level, in0, in1) && FileOk(f) && FileOk(g)
    requires f in in0 && g in v[level + 1] && g !in in1 && e in f.entries && d in g.entries
    ensures e.key.user != d.key.user
  {
    EntryInRange(f, e);
    EntryInRange(g, d);
    var s, l :| IsSmallest(in0, s) && IsLargest(in0, l) && LeftAside(v[level + 1], in1, s.user, l.user);
    assert s.user <= f.smallest.user && f.largest.user <= l.user;
  }

  // A dropped newest entry in inputs_[0] leaves nothing behind; so a value found means inputs_[1].
  lemma FallsThroughOnlyFromLower(v: Levels, level: nat, in0: seq<File>, in1: seq<File>, e: Entry, ss: nat)
    requires VersionOk(v) && InputsSound(v, level, in0, in1)
    requires e in Entries(in0) + Entries(in1) && Read(LeftLower(v, level, in1), e.key.user, ss).Some?
    ensures e in Entries(in1)
  {
    var l, f := InputFile(v, level, in0, in1, e);
    var d := ReadSome(LeftLower(v, level, in1), e.key.user, ss);
    var g :| g in v[level + 1] && g !in in1 && d in g.entries;
    assert FilesOk(v[l]) && FilesOk(v[level + 1]);
    if l == level {
      LeftOutIsApart(v, level, in0, in1, f, g, e, d);
    }
  }

  // A read not decided by a dropped entry stays.
  lemma ReadStays(front: set<Entry>, v: Levels, level: nat, in0: seq<File>, in1: seq<File>, input: seq<Entry>, ss: nat,
                  user: UserKey, q: nat)
    requires Source(front, v) && InputsSound(v, level, in0, in1) && MergedInput(input, in0, in1) && q >= ss
    requires forall e :: Newest(front + AllEntries(v), user, q, e) ==> e in After(front, v, level, in0, in1, input, ss)
    ensures Read(After(front, v, level, in0, in1, input, ss), user, q) == Read(front + AllEntries(v), user, q)
  {
    var all, after := front + AllEntries(v), After(front, v, level, in0, in1, input, ss);
    AfterIsWithin(front, v, level, in0, in1, input, ss);
    if d :| d in all && d.key.user == user && d.key.sequence <= q {
      var n := NewestExists(all, user, q, d);
      ReadNewest(all, user, q, n);
      ReadNewest(after, user, q, n);
    } else {
      ReadAbsent(all, user, q);
      ReadAbsent(after, user, q);
    }
  }

  /** Main result: for every snapshot from `low` on, a compaction that drops by a snapshot `ss`
      read no later keeps every read, if and only if it does not resurrect a value left out of
      inputs_[1].  `front` is what the memtables hold when the result is installed. */
  lemma CompactionKeepsReads(front: set<Entry>, v: Levels, level: nat, in0: seq<File>, in1: seq<File>,
                             input: seq<Entry>, ss: nat, low: nat, outputs: seq<File>, v': Levels)
    requires Source(front, v) && InputsSound(v, level, in0, in1) && MergedInput(input, in0, in1) && ss <= low
    requires Flatten(outputs) == Survivors(v, level, input, ss, |input|) && Installed(v, level, in0, in1, outputs, v')
    ensures (forall user, q :: q >= low ==>
      Read(front + AllEntries(v'), user, q) == Read(front + AllEntries(v), user, q))
       <==> !Resurrects(front + AllEntries(v), v, level, in1, ss, low)
  {
    InstalledEntries(front, v, level, in0, in1, input, ss, outputs, v');
    ReadsKeptIff(front, v, level, in0, in1, input, ss, low);
  }

  lemma InstalledEntries(front: set<Entry>, v: Levels, level: nat, in0: seq<File>, in1: seq<File>,
                         input: seq<Entry>, ss: nat, outputs: seq<File>, v': Levels)
    requires InputsSound(v, level, in0, in1)
    requires Flatten(outputs) == Survivors(v, level, input, ss, |input|) && Installed(v, level, in0, in1, outputs, v')
    ensures front + AllEntries(v') == After(front, v, level, in0, in1, input, ss)
  {
    EntriesAfter(v, level, in0, in1, outputs, v');
    FlattenEntries(outputs);
  }

  lemma ReadsKeptIff(front: set<Entry>, v: Levels, level: nat, in0: seq<File>, in1: seq<File>, input: seq<Entry>,
                     ss: nat, low: nat)
    requires Source(front, v) && InputsSound(v, level, in0, in1) && MergedInput(input, in0, in1) && ss <= low
    ensures (forall user, q :: q >= low ==>
               Read(After(front, v, level, in0, in1, input, ss), user, q) == Read(front + AllEntries(v), user, q))
       <==> !Resurrects(front + AllEntries(v), v, level, in1, ss, low)
  {
    assert level + 1 < NUM_LEVELS;
    hide Source, InputsSound, MergedInput, After, AllEntries, IsResurrected;
    var all, after := front + AllEntries(v), After(front, v, level, in0, in1, input, ss);
    if Resurrects(all, v, level, in1, ss, low) {
      var e :| IsResurrected(all, v, level, in1, ss, low, e);
      ResurrectedIsRead(front, v, level, in0, in1, input, ss, low, e);
      assert Read(after, e.key.user, low) != Read(all, e.key.user, low);
    } else {
      forall user, q | q >= low ensures Read(after, user, q) == Read(all, user, q) {
        if e :| Newest(all, user, q, e) && e !in after {
          DroppedButKept(front, v, level, in0, in1, input, ss, low, user, q, e);
        } else {
          ReadStays(front, v, level, in0, in1, input, ss, user, q);
        }
      }
    }
  }

  // A resurrected value is read where nothing was.
  lemma ResurrectedIsRead(front: set<Entry>, v: Levels, level: nat, in0: seq<File>, in1: seq<File>, input: seq<Entry>,
                          ss: nat, low: nat, e: Entry)
    requires Source(front, v) && InputsSound(v, level, in0, in1) && MergedInput(input, in0, in1) && ss <= low
    requires IsResurrected(front + AllEntries(v), v, level, in1, ss, low, e)
    ensures Read(front + AllEntries(v), e.key.user, low).None?
    ensures Read(After(front, v, level, in0, in1, input, ss), e.key.user, low).Some?
  {
    assert e in Contents(input);
    MarkerDropped(v, level, input, ss, e);
    ReadFallsThrough(front, v, level, in0, in1, input, ss, e.key.user, low, e);
    hide VersionOk, InputsSound, AllEntries, BaseLevel, LeftLower;
    ReadNewest(front + AllEntries(v), e.key.user, low, e);
  }

  // Where nothing is resurrected, a dropped entry that was the newest leaves nothing to read.
  lemma DroppedButKept(front: set<Entry>, v: Levels, level: nat, in0: seq<File>, in1: seq<File>, input: seq<Entry>,
                       ss: nat, low: nat,
                       user: UserKey, q: nat, e: Entry)
    requires Source(front, v) && InputsSound(v, level, in0, in1) && MergedInput(input, in0, in1) && ss <= low <= q
    requires level + 1 < NUM_LEVELS && !Resurrects(front + AllEntries(v), v, level, in1, ss, low)
    requires Newest(front + AllEntries(v), user, q, e) && e !in After(front, v, level, in0, in1, input, ss)
    ensures Read(After(front, v, level, in0, in1, input, ss), user, q) == Read(front + AllEntries(v), user, q)
  {
    hide *;
    var all, after := front + AllEntries(v), After(front, v, level, in0, in1, input, ss);
    NewestParts(all, user, q, e, low);
    WasDropped(front, v, level, in0, in1, input, ss, e);
    ReadFallsThrough(front, v, level, in0, in1, input, ss, user, q, e);
    SourceParts(front, v);
    ReadNewest(all, user, q, e);
    if Read(after, user, q).Some? {
      FallsThroughOnlyFromLower(v, level, in0, in1, e, ss);
      ThenResurrected(all, v, level, in1, ss, low, e);
    }
  }

  lemma NewestParts(all: set<Entry>, user: UserKey, q: nat, e: Entry, low: nat)
    requires Newest(all, user, q, e) && low <= q
    ensures e in all && e.key.user == user && (e.key.sequence <= low ==> Newest(all, user, low, e))
  {
  }

  lemma WasDropped(front: set<Entry>, v: Levels, level: nat, in0: seq<File>, in1: seq<File>, input: seq<Entry>,
                   ss: nat, e: Entry)
    requires InputsSound(v, level, in0, in1) && MergedInput(input, in0, in1)
    requires e in front + AllEntries(v) && e !in After(front, v, level, in0, in1, input, ss)
    ensures e in input && e !in Survivors(v, level, input, ss, |input|) && e in Entries(in0) + Entries(in1)
  {
    hide InputsSound, After, AllEntries, Survivors, Entries, LeftLower;
    AfterIsWithin(front, v, level, in0, in1, input, ss);
    assert e in Contents(input);
  }

  lemma ThenResurrected(all: set<Entry>, v: Levels, level: nat, in1: seq<File>, ss: nat, low: nat, e: Entry)
    requires level + 1 < NUM_LEVELS && e in Entries(in1) && Newest(all, e.key.user, low, e) && e.key.sequence <= ss
    requires e.key.kind.Deletion?
    requires BaseLevel(v, level, e.key.user) && Read(LeftLower(v, level, in1), e.key.user, ss).Some?
    ensures Resurrects(all, v, level, in1, ss, low)
  {
    assert IsResurrected(all, v, level, in1, ss, low, e);
  }

  lemma MarkerDropped(v: Levels, level: nat, input: seq<Entry>, ss: nat, e: Entry)
    requires Sorted(input) && e.key.kind.Deletion? && e.key.sequence <= ss && BaseLevel(v, level, e.key.user)
    ensures e !in Survivors(v, level, input, ss, |input|)
  {
    InSurvivors(v, level, input, ss, |input|);
  }

  lemma StrictlyOlder(all: set<Entry>, user: UserKey, ss: nat, e: Entry, d: Entry)
    requires Functional(all) && Newest(all, user, ss, e) && e.key.kind.Deletion?
    requires d in all && d.key.user == user && d.key.sequence <= ss && d.key.kind.Value?
    ensures d.key.sequence < e.key.sequence
  {
  }

  lemma LeftLowerStored(v: Levels, level: nat, in1: seq<File>)
    requires level + 1 < NUM_LEVELS
    ensures LeftLower(v, level, in1) <= AllEntries(v)
  {
    forall d | d in LeftLower(v, level, in1) ensures d in AllEntries(v) {
      var g :| g in v[level + 1] && g !in in1 && d in g.entries;
      Stored(v, level + 1, g, d);
    }
  }

  // A resurrected key sits on the boundary between an input file and a file left out.
  lemma ResurrectionOnBoundary(all: set<Entry>, v: Levels, level: nat, in1: seq<File>, ss: nat,
                               low: nat) returns (f: File, g: File)
    requires level + 1 < NUM_LEVELS && FilesOk(v[level + 1]) && DisjointSorted(v[level + 1])
    requires Functional(all) && AllEntries(v) <= all && forall h :: h in in1 ==> h in v[level + 1]
    requires Resurrects(all, v, level, in1, ss, low) && ss <= low
    ensures f in in1 && g in v[level + 1] && g !in in1 && f.largest.user == g.smallest.user
  {
    var e :| IsResurrected(all, v, level, in1, ss, low, e);
    var d := ReadSome(LeftLower(v, level, in1), e.key.user, ss);
    LeftLowerStored(v, level, in1);
    StrictlyOlder(all, e.key.user, low, e, d);
    f :| f in in1 && e in f.entries;
    g :| g in v[level + 1] && g !in in1 && d in g.entries;
    SharedKeyMeetsAtBoundary(v[level + 1], f, g, e, d);
  }

  /** A guard on the chosen files alone: when no file left out at the next level begins with
      the user key at which an input file of that level ends, every read is kept. */
  lemma BoundaryGuardSuffices(all: set<Entry>, v: Levels, level: nat, in1: seq<File>, ss: nat, low: nat)
    requires level + 1 < NUM_LEVELS && FilesOk(v[level + 1]) && DisjointSorted(v[level + 1]) && ss <= low
    requires Functional(all) && AllEntries(v) <= all && forall h :: h in in1 ==> h in v[level + 1]
    requires forall f, g :: f in in1 && g in v[level + 1] && g !in in1 ==> f.largest.user != g.smallest.user
    ensures !Resurrects(all, v, level, in1, ss, low)
  {
    if Resurrects(all, v, level, in1, ss, low) {
      var f, g := ResurrectionOnBoundary(all, v, level, in1, ss, low);
    }
  }

  // In a sorted level, files that share a user key out of order of age meet at it.
  lemma SharedKeyMeetsAtBoundary(files: seq<File>, f: File, g: File, e: Entry, d: Entry)
    requires FilesOk(files) && DisjointSorted(files) && f in files && g in files && f != g
    requires e in f.entries && d in g.entries && e.key.user == d.key.user
    requires d.key.sequence < e.key.sequence
    ensures f.largest.user == g.smallest.user
  {
    EntryInRange(f, e);
    EntryInRange(g, d);
  }
}
