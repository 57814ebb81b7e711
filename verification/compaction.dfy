/** Choosing the inputs of a compaction (db/version_set.cc, PickCompaction to SetupOtherInputs). */
module CompactionInputs {
  import opened Keys
  import opened Version

  ghost predicate IsLargest(files: seq<File>, key: IKey) {
    && (exists f :: f in files && f.largest == key)
    && forall f :: f in files ==> !Before(key, f.largest)
  }

  ghost predicate IsSmallest(files: seq<File>, key: IKey) {
    && (exists f :: f in files && f.smallest == key)
    && forall f :: f in files ==> !Before(f.smallest, key)
  }

  // FindLargestKey
  method FindLargestKey(files: seq<File>) returns (key: Option<IKey>)
    ensures key.None? <==> |files| == 0
    ensures key.Some? ==> IsLargest(files, key.value)
  {
    if |files| == 0 {
      return None;
    }
    var largest := files[0].largest;
    for i := 1 to |files|
      invariant exists k :: 0 <= k < i && files[k].largest == largest
      invariant forall k :: 0 <= k < i ==> !Before(largest, files[k].largest)
    {
      if Before(largest, files[i].largest) {
        largest := files[i].largest;
      }
    }
    key := Some(largest);
  }

  // VersionSet::GetRange
  method GetRange(files: seq<File>) returns (smallest: IKey, largest: IKey)
    requires |files| > 0
    ensures IsSmallest(files, smallest) && IsLargest(files, largest)
  {
    smallest, largest := files[0].smallest, files[0].largest;
    for i := 1 to |files|
      invariant exists k :: 0 <= k < i && files[k].smallest == smallest
      invariant forall k :: 0 <= k < i ==> !Before(files[k].smallest, smallest)
      invariant exists k :: 0 <= k < i && files[k].largest == largest
      invariant forall k :: 0 <= k < i ==> !Before(largest, files[k].largest)
    {
      if Before(files[i].smallest, smallest) {
        smallest := files[i].smallest;
      }
      if Before(largest, files[i].largest) {
        largest := files[i].largest;
      }
    }
  }

  // A file that continues the user key at which `key` ends.
  predicate IsBoundary(f: File, key: IKey) {
    Before(key, f.smallest) && f.smallest.user == key.user
  }

  // FindSmallestBoundaryFile
  method FindSmallestBoundaryFile(files: seq<File>, key: IKey) returns (best: Option<File>)
    ensures best.None? ==> forall f :: f in files ==> !IsBoundary(f, key)
    ensures best.Some? ==> best.value in files && IsBoundary(best.value, key)
    ensures best.Some? ==> forall f :: f in files && IsBoundary(f, key) ==> !Before(f.smallest, best.value.smallest)
  {
    best := None;
    for i := 0 to |files|
      invariant best.None? ==> forall k :: 0 <= k < i ==> !IsBoundary(files[k], key)
      invariant best.Some? ==> best.value in files && IsBoundary(best.value, key)
      invariant best.Some? ==> forall k :: 0 <= k < i && IsBoundary(files[k], key) ==>
        !Before(files[k].smallest, best.value.smallest)
    {
      if IsBoundary(files[i], key) && (best.None? || Before(files[i].smallest, best.value.smallest)) {
        best := Some(files[i]);
      }
    }
  }

  // A run of consecutive files of a level.
  ghost predicate RunOf(files: seq<File>, inputs: seq<File>, a: nat, b: nat) {
    a <= b <= |files| && inputs == files[a..b]
  }

  // No file continues the user key at which the inputs end.
  ghost predicate NoBoundaryLeft(files: seq<File>, inputs: seq<File>) {
    forall key, f :: IsLargest(inputs, key) && f in files ==> !IsBoundary(f, key)
  }

  ghost function Later(files: seq<File>, key: IKey): set<File> {
    set f | f in files && Before(key, f.smallest)
  }

  lemma LaterShrinks(files: seq<File>, key: IKey, f: File)
    requires f in files && Before(key, f.smallest) && !Before(f.largest, f.smallest)
    ensures Later(files, f.largest) < Later(files, key)
  {
    assert f in Later(files, key) && f !in Later(files, f.largest);
  }

  /** AddBoundaryInputs: terminates with no file left that continues the last user key; in
      a sorted level it extends a run of files by the files that follow it. */
  method AddBoundaryInputs(files: seq<File>, inputs: seq<File>, ghost a: nat, ghost b: nat)
    returns (result: seq<File>, ghost b': nat)
    requires FilesOk(files) && forall f :: f in inputs ==> f in files
    ensures inputs <= result && forall f :: f in result ==> f in files
    ensures NoBoundaryLeft(files, result)
    ensures DisjointSorted(files) && RunOf(files, inputs, a, b) ==> b <= b' && RunOf(files, result, a, b')
    ensures NoBoundaryLeft(files, inputs) ==> result == inputs
    ensures Chained(result, |inputs|)
  {
    hide DisjointSorted, Later, FileOk, IsLargest, Before, NoBoundaryLeft, Chained;
    result := inputs;
    b' := b;
    NothingChained(inputs);
    var largest := FindLargestKey(inputs);
    if largest.None? {
      NothingLeft(files, inputs);
      return;
    }
    var key := largest.value;
    ghost var isRun := DisjointSorted(files) && RunOf(files, inputs, a, b);
    ghost var closed := NoBoundaryLeft(files, inputs);
    var searching := true;
    while searching
      invariant inputs <= result && forall f :: f in result ==> f in files
      invariant IsLargest(result, key) && Chained(result, |inputs|)
      invariant isRun ==> b <= b' && RunOf(files, result, a, b')
      invariant closed ==> result == inputs
      invariant !searching ==> forall f :: f in files ==> !IsBoundary(f, key)
      decreases searching, Later(files, key)
    {
      var next := FindSmallestBoundaryFile(files, key);
      if next.Some? {
        RangeNonEmpty(next.value);
        LaterShrinks(files, key, next.value);
        if closed {
          NotBoundary(files, inputs, key, next.value);
        }
        if isRun {
          BoundaryFollowsRun(files, a, b', key, next.value);
          b' := b' + 1;
        }
        LargestExtends(result, key, next.value);
        ChainGrows(result, |inputs|, key, next.value);
        result := result + [next.value];
        key := next.value.largest;
      } else {
        searching := false;
      }
    }
    LargestIsUnique(files, result, key);
  }

  lemma NothingLeft(files: seq<File>, inputs: seq<File>)
    requires |inputs| == 0
    ensures NoBoundaryLeft(files, inputs)
  {
  }

  lemma NotBoundary(files: seq<File>, inputs: seq<File>, key: IKey, f: File)
    requires NoBoundaryLeft(files, inputs) && IsLargest(inputs, key) && f in files
    ensures !IsBoundary(f, key)
  {
  }

  lemma LargestIsUnique(files: seq<File>, result: seq<File>, key: IKey)
    requires IsLargest(result, key) && forall f :: f in files ==> !IsBoundary(f, key)
    ensures NoBoundaryLeft(files, result)
  {
    forall k, f | IsLargest(result, k) && f in files ensures !IsBoundary(f, k) {
      assert !Before(k, key) && !Before(key, k) && k == key;
    }
  }

  lemma LargestExtends(inputs: seq<File>, key: IKey, f: File)
    requires IsLargest(inputs, key) && Before(key, f.smallest) && !Before(f.largest, f.smallest)
    ensures IsLargest(inputs + [f], f.largest)
  {
    assert f in inputs + [f];
  }

  // In a sorted level the smallest boundary file of a run is the file right after it.
  lemma BoundaryFollowsRun(files: seq<File>, a: nat, b: nat, key: IKey, f: File)
    requires FilesOk(files) && DisjointSorted(files) && a < b <= |files|
    requires IsLargest(files[a..b], key) && f in files && IsBoundary(f, key)
    requires forall g :: g in files && IsBoundary(g, key) ==> !Before(g.smallest, f.smallest)
    ensures b < |files| && files[b] == f
    ensures files[a..b] + [f] == files[a..b + 1]
  {
    var k :| 0 <= k < |files| && files[k] == f;
    LargestIncreases(files, b - 1);
    assert files[b - 1] in files[a..b];
    if k < b {
      LargestIncreases(files, k);
      RangeNonEmpty(f);
      assert false;
    }
    if k > b {
      RangeNonEmpty(files[b]);
      assert files[b] in files && IsBoundary(files[b], key);
      LargestIncreases(files, k);
    }
  }

  // ------------------------------------------------------------------ inputs without a gap

  ghost predicate Covered(files: seq<File>, k: UserKey) {
    exists f :: f in files && f.smallest.user <= k <= f.largest.user
  }

  // Every user key from one of the files to another lies in a file.
  ghost predicate Gapless(files: seq<File>) {
    forall a, b, k :: a in files && b in files && a.smallest.user <= k <= b.largest.user ==> Covered(files, k)
  }

  // The file meets the range from one of the files to another.
  ghost predicate Meets(files: seq<File>, f: File) {
    exists a, b :: a in files && b in files && a.smallest.user <= f.largest.user && f.smallest.user <= b.largest.user
  }

  // Behind the first n, every file begins at the user key at which one before it ends.
  ghost predicate Chained(files: seq<File>, n: nat) {
    forall i: nat :: n <= i < |files| ==> Linked(files[..i], files[i])
  }

  ghost predicate Linked(files: seq<File>, f: File) {
    exists g :: g in files && g.largest.user == f.smallest.user
  }

  lemma NothingChained(files: seq<File>)
    ensures Chained(files, |files|)
  {
  }

  lemma ChainGrows(files: seq<File>, n: nat, key: IKey, f: File)
    requires Chained(files, n) && IsLargest(files, key) && f.smallest.user == key.user
    ensures Chained(files + [f], n)
  {
    var all := files + [f];
    var g :| g in files && g.largest == key;
    hide IsLargest;
    assert Linked(files, f);
    hide Linked;
    forall i: nat | n <= i < |all| ensures Linked(all[..i], all[i]) {
      assert all[..i] == if i < |files| then files[..i] else files;
    }
  }

  lemma SameGaps(files: seq<File>, same: seq<File>)
    requires Gapless(files) && forall f :: f in files <==> f in same
    ensures Gapless(same)
  {
    forall a, b, k | a in same && b in same && a.smallest.user <= k <= b.largest.user ensures Covered(same, k) {
      assert Covered(files, k);
    }
  }

  // A user key outside the files has all of them on one side.
  lemma AllOnOneSide(files: seq<File>, k: UserKey)
    requires FilesOk(files) && Gapless(files) && !Covered(files, k)
    ensures (forall f :: f in files ==> f.largest.user < k) || (forall f :: f in files ==> k < f.smallest.user)
  {
    hide FileOk;
    forall f | f in files ensures f.largest.user < k || k < f.smallest.user {
      RangeNonEmpty(f);
    }
  }

  lemma GaplessJoins(files: seq<File>, more: seq<File>)
    requires FilesOk(files + more) && Gapless(files) && forall f :: f in more ==> Meets(files, f)
    ensures Gapless(files + more)
  {
    hide FileOk;
    var all := files + more;
    forall a, b, k | a in all && b in all && a.smallest.user <= k <= b.largest.user ensures Covered(all, k) {
      if !Covered(all, k) {
        RangeNonEmpty(a);
        RangeNonEmpty(b);
        AllBeside(all, k);
        assert !Covered(files, k);
        AllOnOneSide(files, k);
        assert false;
      }
    }
  }

  // The least closed range around files without a gap adds no gap.
  lemma LeastIsGapless(around: seq<File>, files: seq<File>, s: IKey, t: IKey, lo: Option<UserKey>, hi: Option<UserKey>,
                       inputs: seq<File>)
    requires FilesOk(around) && FilesOk(files) && Gapless(around) && IsSmallest(around, s) && IsLargest(around, t)
    requires ClosedRange(files, lo, hi) && LeastCover(files, Some(s.user), Some(t.user), lo, hi)
    requires forall f :: f in inputs <==> f in files && Overlaps(f, lo, hi)
    ensures Gapless(around + inputs)
  {
    hide FileOk, LeastCover, ClosedRange, Overlaps;
    var all := around + inputs;
    HullContains(around, s, t);
    forall a, b, k | a in all && b in all && a.smallest.user <= k <= b.largest.user ensures Covered(all, k) {
      if !Covered(all, k) {
        RangeNonEmpty(a);
        RangeNonEmpty(b);
        AllBeside(all, k);
        assert !Covered(around, k);
        AllOnOneSide(around, k);
        if forall f :: f in around ==> f.largest.user < k {
          EndsBelow(files, s.user, t.user, lo, hi, k, b);
        } else {
          BeginsAbove(files, s.user, t.user, lo, hi, k, a);
        }
      }
    }
  }

  lemma AllBeside(files: seq<File>, k: UserKey)
    requires !Covered(files, k)
    ensures forall f :: f in files ==> f.largest.user < k || k < f.smallest.user
  {
  }

  // The least range does not go past a key that is in no file of it.
  lemma EndsBelow(files: seq<File>, s: UserKey, t: UserKey, lo: Option<UserKey>, hi: Option<UserKey>, k: UserKey,
                  b: File)
    requires ClosedRange(files, lo, hi) && LeastCover(files, Some(s), Some(t), lo, hi) && t < k
    requires forall f :: f in files && Overlaps(f, lo, hi) ==> f.largest.user < k || k < f.smallest.user
    requires b in files && Overlaps(b, lo, hi)
    ensures b.smallest.user <= k
  {
    LeastContains(files, Some(s), Some(t), lo, hi);
    hide LeastCover;
    if hi.None? || k < hi.value {
      assert ClosedRange(files, lo, Some(k));
      hide ClosedRange;
      LeastIsLeast(files, Some(s), Some(t), lo, hi, lo, Some(k));
    }
  }

  lemma BeginsAbove(files: seq<File>, s: UserKey, t: UserKey, lo: Option<UserKey>, hi: Option<UserKey>, k: UserKey,
                    a: File)
    requires ClosedRange(files, lo, hi) && LeastCover(files, Some(s), Some(t), lo, hi) && k < s
    requires forall f :: f in files && Overlaps(f, lo, hi) ==> f.largest.user < k || k < f.smallest.user
    requires a in files && Overlaps(a, lo, hi)
    ensures k <= a.largest.user
  {
    LeastContains(files, Some(s), Some(t), lo, hi);
    hide LeastCover;
    if lo.None? || lo.value < k {
      assert ClosedRange(files, Some(k), hi);
      hide ClosedRange;
      LeastIsLeast(files, Some(s), Some(t), lo, hi, Some(k), hi);
    }
  }

  lemma LeastContains(files: seq<File>, begin: Option<UserKey>, end: Option<UserKey>, lo: Option<UserKey>,
                      hi: Option<UserKey>)
    requires LeastCover(files, begin, end, lo, hi)
    ensures Covers(lo, hi, begin, end)
  {
  }

  lemma LeastIsLeast(files: seq<File>, begin: Option<UserKey>, end: Option<UserKey>, lo: Option<UserKey>,
                     hi: Option<UserKey>, b: Option<UserKey>, e: Option<UserKey>)
    requires LeastCover(files, begin, end, lo, hi) && Covers(b, e, begin, end) && ClosedRange(files, b, e)
    ensures Covers(b, e, lo, hi)
  {
  }

  lemma {:induction false} ChainGapless(around: seq<File>, files: seq<File>, n: nat)
    requires FilesOk(around + files) && n <= |files| && Chained(files, n) && Gapless(around + files[..n])
    ensures Gapless(around + files)
    decreases |files| - n
  {
    hide FileOk, Gapless, Linked, Meets;
    if n == |files| {
      assert files[..n] == files;
    } else {
      LinkedMeets(around, files, n);
      GaplessJoins(around + files[..n], [files[n]]);
      assert around + files[..n] + [files[n]] == around + files[..n + 1];
      ChainGapless(around, files, n + 1);
    }
  }

  lemma LinkedMeets(around: seq<File>, files: seq<File>, n: nat)
    requires FilesOk(around + files) && n < |files| && Linked(files[..n], files[n])
    ensures Meets(around + files[..n], files[n])
  {
    hide FileOk;
    var g :| g in files[..n] && g.largest.user == files[n].smallest.user;
    RangeNonEmpty(g);
    RangeNonEmpty(files[n]);
    assert g in around + files[..n];
  }

  // Files that overlap the range of the others leave no gap.
  lemma OverlappingJoin(files: seq<File>, s: IKey, t: IKey, more: seq<File>)
    requires FilesOk(files + more) && Gapless(files) && IsSmallest(files, s) && IsLargest(files, t)
    requires forall f :: f in more ==> Overlaps(f, Some(s.user), Some(t.user))
    ensures Gapless(files + more)
  {
    hide FileOk;
    var a :| a in files && a.smallest == s;
    var b :| b in files && b.largest == t;
    GaplessJoins(files, more);
  }

  // ------------------------------------------------------------------ legal inputs

  // Level-0 inputs: exactly the files meeting a range that is closed under overlap.
  ghost predicate ClosedSet(files: seq<File>, inputs: seq<File>) {
    exists lo, hi ::
      && ClosedRange(files, lo, hi) && inputs == Overlapping(files, lo, hi)
      && forall f :: f in inputs <==> f in files && Overlaps(f, lo, hi)
  }

  // What picking hands to SetupOtherInputs.
  ghost predicate Picked(files: seq<File>, level: nat, inputs: seq<File>) {
    && |inputs| > 0
    && (level == 0 ==> ClosedSet(files, inputs))
    && (level > 0 ==> exists a: nat, b: nat :: RunOf(files, inputs, a, b))
  }

  // inputs_[0]: besides, no file of the level continues the last user key.
  ghost predicate UpperInputsOk(files: seq<File>, level: nat, inputs: seq<File>) {
    Picked(files, level, inputs) && NoBoundaryLeft(files, inputs) && forall f :: f in inputs ==> f in files
  }

  // inputs_[1]: exactly the files of the next level that meet the user-key range of inputs_[0].
  ghost predicate LowerInputsOk(next: seq<File>, in0: seq<File>, in1: seq<File>) {
    exists s, l :: IsSmallest(in0, s) && IsLargest(in0, l) && in1 == Overlapping(next, Some(s.user), Some(l.user))
  }

  ghost predicate CompactionOk(v: Levels, level: nat, in0: seq<File>, in1: seq<File>) {
    level + 1 < NUM_LEVELS && UpperInputsOk(v[level], level, in0) && LowerInputsOk(v[level + 1], in0, in1)
  }

  lemma ClosedSetHasNoBoundary(files: seq<File>, inputs: seq<File>)
    requires FilesOk(files) && ClosedSet(files, inputs)
    ensures NoBoundaryLeft(files, inputs)
  {
    forall key, f | IsLargest(inputs, key) && f in files ensures !IsBoundary(f, key) {
      RangeNonEmpty(f);
    }
  }

  // Files between two files that meet a range meet it too.
  lemma BetweenOverlaps(files: seq<File>, i: nat, k: nat, j: nat, lo: Option<UserKey>, hi: Option<UserKey>)
    requires FilesOk(files) && DisjointSorted(files) && i < k < j < |files|
    requires Overlaps(files[i], lo, hi) && Overlaps(files[j], lo, hi)
    ensures Overlaps(files[k], lo, hi)
  {
    assert files[k] in files;
    RangeNonEmpty(files[k]);
  }

  lemma {:induction false} OverlapsConvex(files: seq<File>, n: nat, lo: Option<UserKey>,
                                          hi: Option<UserKey>) returns (a: nat, b: nat)
    requires FilesOk(files) && DisjointSorted(files) && n <= |files|
    ensures a <= b <= n && forall i :: 0 <= i < n ==> (Overlaps(files[i], lo, hi) <==> a <= i < b)
  {
    if n == 0 {
      a, b := 0, 0;
    } else {
      a, b := OverlapsConvex(files, n - 1, lo, hi);
      if Overlaps(files[n - 1], lo, hi) {
        if a == b {
          a := n - 1;
        } else if b < n - 1 {
          BetweenOverlaps(files, b - 1, b, n - 1, lo, hi);
        }
        b := n;
      }
    }
  }

  lemma {:induction false} OverlappingFromProfile(files: seq<File>, n: nat, a: nat, b: nat, lo: Option<UserKey>,
                                                  hi: Option<UserKey>)
    requires a <= b <= n <= |files|
    requires forall i :: 0 <= i < n ==> (Overlaps(files[i], lo, hi) <==> a <= i < b)
    ensures Overlapping(files[..n], lo, hi) == files[a..b]
  {
    hide Overlaps, Overlapping, ClosedRange;
    if n == 0 {
      NoFilesYet(files, lo, hi);
    } else {
      OneMoreFile(files, n - 1, lo, hi);
      assert Overlaps(files[n - 1], lo, hi) <==> a <= n - 1 < b;
      if a < b == n {
        OverlappingFromProfile(files, n - 1, a, n - 1, lo, hi);
        assert files[a..n - 1] + [files[n - 1]] == files[a..n];
      } else {
        var c, d := if a < n then a else 0, if a < n then b else 0;
        OverlappingFromProfile(files, n - 1, c, d, lo, hi);
        assert files[c..d] == files[a..b];
      }
    }
  }

  // In a sorted level the files meeting a range form a run.
  lemma OverlappingIsRun(files: seq<File>, lo: Option<UserKey>, hi: Option<UserKey>) returns (a: nat, b: nat)
    requires FilesOk(files) && DisjointSorted(files)
    ensures RunOf(files, Overlapping(files, lo, hi), a, b)
  {
    a, b := OverlapsConvex(files, |files|, lo, hi);
    OverlappingFromProfile(files, |files|, a, b, lo, hi);
    assert files[..|files|] == files;
  }

  // Widening a range can only add files, and adds none when the count stays the same.
  lemma {:induction false} OverlappingGrows(files: seq<File>, lo: UserKey, hi: UserKey, lo': UserKey, hi': UserKey)
    requires lo' <= lo && hi <= hi'
    ensures |Overlapping(files, Some(lo), Some(hi))| <= |Overlapping(files, Some(lo'), Some(hi'))|
    ensures |Overlapping(files, Some(lo), Some(hi))| == |Overlapping(files, Some(lo'), Some(hi'))|
            ==> Overlapping(files, Some(lo), Some(hi)) == Overlapping(files, Some(lo'), Some(hi'))
  {
    if |files| > 0 {
      OverlappingGrows(files[..|files| - 1], lo, hi, lo', hi');
    }
  }

  lemma RangeExtends(some: seq<File>, more: seq<File>, s: IKey, l: IKey, s': IKey, l': IKey)
    requires IsSmallest(some, s) && IsLargest(some, l) && IsSmallest(more, s') && IsLargest(more, l')
    requires forall f :: f in some ==> f in more
    ensures !Before(s, s') && !Before(l', l) && s'.user <= s.user && l.user <= l'.user
  {
  }

  lemma OverlappingAll(files: seq<File>, some: seq<File>, lo: Option<UserKey>, hi: Option<UserKey>)
    requires FilesOk(files)
    requires forall f :: f in some ==>
      f in files && (lo.Some? ==> lo.value <= f.smallest.user) && (hi.Some? ==> f.largest.user <= hi.value)
    ensures forall f :: f in some ==> f in Overlapping(files, lo, hi)
  {
    InOverlapping(files, lo, hi);
    forall f | f in some ensures f in Overlapping(files, lo, hi) {
      RangeNonEmpty(f);
    }
  }

  // Extends picked inputs by their boundary files.
  method CloseInputs(files: seq<File>, level: nat, picked: seq<File>) returns (inputs: seq<File>)
    requires FilesOk(files) && (level > 0 ==> DisjointSorted(files)) && Picked(files, level, picked)
    requires forall f :: f in picked ==> f in files
    ensures UpperInputsOk(files, level, inputs) && picked <= inputs && Chained(inputs, |picked|)
  {
    ghost var a: nat, b: nat := 0, 0;
    ghost var b';
    if level > 0 {
      a, b :| RunOf(files, picked, a, b);
    } else {
      ClosedSetHasNoBoundary(files, picked);
    }
    inputs, b' := AddBoundaryInputs(files, picked, a, b);
    assert level > 0 ==> RunOf(files, inputs, a, b');
  }

  // A non-empty result of GetOverlappingInputs is a legal pick.
  lemma OverlappingIsPicked(files: seq<File>, level: nat, lo: Option<UserKey>, hi: Option<UserKey>)
    requires FilesOk(files) && (level > 0 ==> DisjointSorted(files)) && (level == 0 ==> ClosedRange(files, lo, hi))
    requires |Overlapping(files, lo, hi)| > 0
    ensures Picked(files, level, Overlapping(files, lo, hi))
  {
    if level > 0 {
      var a, b := OverlappingIsRun(files, lo, hi);
    } else {
      InOverlapping(files, lo, hi);
      assert ClosedSet(files, Overlapping(files, lo, hi));
    }
  }

  // SetupOtherInputs: the candidate inputs_[0] that fill the whole range of the compaction.
  method ExpandedInputs(files: seq<File>, level: nat, closed: seq<File>, allStart: IKey, allLimit: IKey,
                        ghost all: seq<File>)
    returns (expanded0: seq<File>)
    requires FilesOk(files) && (level > 0 ==> DisjointSorted(files)) && UpperInputsOk(files, level, closed)
    requires FilesOk(all) && IsSmallest(all, allStart) && IsLargest(all, allLimit) && closed <= all
    ensures UpperInputsOk(files, level, expanded0) && forall f :: f in closed ==> f in expanded0
    ensures Gapless(all) ==> Gapless(all + expanded0)
  {
    hide FilesOk, DisjointSorted, IsSmallest, IsLargest, Overlapping, Overlaps, ClosedRange, LeastCover, Gapless,
      Chained,
      UpperInputsOk, Picked;
    ghost var lo, hi;
    var inputs;
    inputs, lo, hi := GetOverlappingInputs(files, level, Some(allStart.user), Some(allLimit.user));
    AllInRange(closed, all, allStart, allLimit, files, level, inputs, lo, hi);
    OverlappingIsPicked(files, level, lo, hi);
    expanded0 := CloseInputs(files, level, inputs);
    if Gapless(all) {
      OverlappingGapless(all, allStart, allLimit, files, level, inputs, lo, hi);
      ClosedGapless(all, files, level, inputs, expanded0);
    }
  }

  lemma AllInRange(closed: seq<File>, all: seq<File>, s: IKey, t: IKey, files: seq<File>, level: nat,
                   inputs: seq<File>, lo: Option<UserKey>, hi: Option<UserKey>)
    requires FilesOk(files) && UpperInputsOk(files, level, closed) && closed <= all && IsSmallest(all, s)
      && IsLargest(all, t)
    requires inputs == Overlapping(files, lo, hi) && LeastCover(files, Some(s.user), Some(t.user), lo, hi)
    ensures |inputs| > 0 && forall f :: f in closed ==> f in inputs
  {
    HullContains(all, s, t);
    assert closed[0] in closed;
    hide IsSmallest, IsLargest, FilesOk, Overlapping;
    assert forall f :: f in closed ==> f in all;
    OverlappingAll(files, closed, lo, hi);
  }

  lemma OverlappingGapless(all: seq<File>, s: IKey, t: IKey, files: seq<File>, level: nat, inputs: seq<File>,
                           lo: Option<UserKey>, hi: Option<UserKey>)
    requires FilesOk(all) && FilesOk(files) && Gapless(all) && IsSmallest(all, s) && IsLargest(all, t)
    requires forall f :: f in inputs <==> f in files && Overlaps(f, lo, hi)
    requires if level > 0 then lo == Some(s.user) && hi == Some(t.user) else ClosedRange(files, lo, hi)
    requires LeastCover(files, Some(s.user), Some(t.user), lo, hi)
    ensures Gapless(all + inputs)
  {
    hide Gapless, IsSmallest, IsLargest, Overlaps, ClosedRange, LeastCover, FileOk;
    if level > 0 {
      OverlappingJoin(all, s, t, inputs);
    } else {
      LeastIsGapless(all, files, s, t, lo, hi, inputs);
    }
  }

  lemma ClosedGapless(all: seq<File>, files: seq<File>, level: nat, picked: seq<File>, inputs: seq<File>)
    requires FilesOk(all) && FilesOk(files) && UpperInputsOk(files, level, inputs)
    requires picked <= inputs && Chained(inputs, |picked|) && Gapless(all + picked)
    ensures Gapless(all + inputs)
  {
    hide Gapless, Chained, FileOk;
    assert inputs[..|picked|] == picked;
    ChainGapless(all, inputs, |picked|);
  }

  // SetupOtherInputs: tries to grow inputs_[0] without changing which next-level files are involved.
  method GrowInputs(files: seq<File>, next: seq<File>, level: nat, closed: seq<File>, in1: seq<File>,
                    smallest: IKey, largest: IKey, byteLimit: int)
    returns (in0: seq<File>)
    requires FilesOk(files) && (level > 0 ==> DisjointSorted(files)) && UpperInputsOk(files, level, closed)
    requires IsSmallest(closed, smallest) && IsLargest(closed, largest)
    requires in1 == Overlapping(next, Some(smallest.user), Some(largest.user)) && |in1| > 0 && FilesOk(next)
    ensures UpperInputsOk(files, level, in0) && LowerInputsOk(next, in0, in1)
    ensures forall f :: f in closed ==> f in in0
    ensures Gapless(closed + in1) ==> Gapless(in0 + in1)
    ensures in0 != closed ==> |in0| > |closed| && TotalFileSize(in1) + TotalFileSize(in0) < byteLimit
  {
    hide Gapless;
    in0 := closed;
    var allStart, allLimit := GetRange(closed + in1);
    RangeExtends(closed, closed + in1, smallest, largest, allStart, allLimit);
    AllAreFiles(files, level, closed, next, Some(smallest.user), Some(largest.user));
    var expanded0 := ExpandedInputs(files, level, closed, allStart, allLimit, closed + in1);
    if |expanded0| > |closed| && TotalFileSize(in1) + TotalFileSize(expanded0) < byteLimit {
      var newStart, newLimit := GetRange(expanded0);
      RangeExtends(closed, expanded0, smallest, largest, newStart, newLimit);
      OverlappingGrows(next, smallest.user, largest.user, newStart.user, newLimit.user);
      var expanded1, lo, hi := GetOverlappingInputs(next, level + 1, Some(newStart.user), Some(newLimit.user));
      if |expanded1| == |in1| {
        in0 := expanded0;
        if Gapless(closed + in1) {
          SameGaps(closed + in1 + expanded0, expanded0 + in1);
        }
      }
    }
  }

  lemma AllAreFiles(files: seq<File>, level: nat, closed: seq<File>, next: seq<File>, lo: Option<UserKey>,
                    hi: Option<UserKey>)
    requires FilesOk(files) && UpperInputsOk(files, level, closed) && FilesOk(next)
    ensures FilesOk(closed + Overlapping(next, lo, hi))
  {
    hide FileOk, Overlapping;
    InOverlapping(next, lo, hi);
  }

  lemma LevelOk(v: Levels, level: nat)
    requires VersionOk(v) && level < NUM_LEVELS
    ensures FilesOk(v[level]) && (level > 0 ==> DisjointSorted(v[level]))
  {
    hide FilesOk, DisjointSorted;
  }

  lemma InputsExist(files: seq<File>, level: nat, inputs: seq<File>)
    requires UpperInputsOk(files, level, inputs)
    ensures |inputs| > 0
  {
  }

  // The files two levels down that meet the user-key range of the inputs.
  ghost predicate GrandparentsOf(v: Levels, level: nat, inputs: seq<File>, grandparents: seq<File>) {
    exists s, l :: IsSmallest(inputs, s) && IsLargest(inputs, l)
      && grandparents == if level + 2 < NUM_LEVELS then Overlapping(v[level + 2], Some(s.user), Some(l.user)) else []
  }

  /** SetupOtherInputs.  Growing inputs_[0] leaves inputs_[1] as it was. */
  method SetupOtherInputs(v: Levels, level: nat, picked: seq<File>, byteLimit: int)
    returns (in0: seq<File>, in1: seq<File>, grandparents: seq<File>, pointer: IKey, ghost closed: seq<File>)
    requires VersionOk(v) && level + 1 < NUM_LEVELS && Picked(v[level], level, picked)
    requires forall f :: f in picked ==> f in v[level]
    ensures CompactionOk(v, level, in0, in1)
    ensures picked <= closed && forall f :: f in closed ==> f in in0
    ensures UpperInputsOk(v[level], level, closed) && LowerInputsOk(v[level + 1], closed, in1)
    ensures IsLargest(in0, pointer)
    ensures Gapless(picked) ==> Gapless(in0 + in1)
    ensures GrandparentsOf(v, level, in0 + in1, grandparents)
  {
    hide VersionOk, FilesOk, DisjointSorted, UpperInputsOk, Picked, Overlaps, Overlapping, ClosedRange, LeastCover,
      IsSmallest, IsLargest, Gapless, Chained;
    LevelOk(v, level);
    LevelOk(v, level + 1);
    in0 := CloseInputs(v[level], level, picked);
    InputsExist(v[level], level, in0);
    closed := in0;
    var smallest, largest := GetRange(in0);
    ghost var lo, hi;
    in1, lo, hi := GetOverlappingInputs(v[level + 1], level + 1, Some(smallest.user), Some(largest.user));
    assert LowerInputsOk(v[level + 1], closed, in1);
    if Gapless(picked) {
      SetUpGapless(v[level], v[level + 1], level, picked, closed, smallest, largest, in1);
    }
    if |in1| > 0 {
      in0 := GrowInputs(v[level], v[level + 1], level, in0, in1, smallest, largest, byteLimit);
      smallest, largest := GetRange(in0);
    }
    pointer := largest;
    var allStart, allLimit := GetRange(in0 + in1);
    grandparents := [];
    if level + 2 < NUM_LEVELS {
      grandparents, lo, hi := GetOverlappingInputs(v[level + 2], level + 2, Some(allStart.user), Some(allLimit.user));
    }
  }

  lemma SetUpGapless(files: seq<File>, next: seq<File>, level: nat, picked: seq<File>, closed: seq<File>, s: IKey,
                     t: IKey,
                     in1: seq<File>)
    requires FilesOk(files) && FilesOk(next) && UpperInputsOk(files, level, closed)
    requires picked <= closed && Chained(closed, |picked|) && Gapless(picked)
    requires IsSmallest(closed, s) && IsLargest(closed, t)
    requires forall f :: f in in1 <==> f in next && Overlaps(f, Some(s.user), Some(t.user))
    ensures Gapless(closed + in1)
  {
    hide Gapless, Chained, FileOk, IsSmallest, IsLargest, Overlaps;
    assert [] + picked == picked && [] + closed == closed;
    ClosedGapless([], files, level, picked, closed);
    OverlappingJoin(closed, s, t, in1);
  }

  lemma HullContains(inputs: seq<File>, s: IKey, l: IKey)
    requires IsSmallest(inputs, s) && IsLargest(inputs, l)
    ensures forall f :: f in inputs ==> s.user <= f.smallest.user && f.largest.user <= l.user
  {
  }

  // PickCompaction, by size: the first file after the compaction pointer, or the first file.
  method PickBySize(files: seq<File>, pointer: Option<IKey>) returns (f: File)
    requires |files| > 0
    ensures f in files
    ensures if exists g :: g in files && AfterPointer(g, pointer) then IsFirstAfter(files, pointer, f)
      else f == files[0]
  {
    for i := 0 to |files|
      invariant forall k :: 0 <= k < i ==> !AfterPointer(files[k], pointer)
    {
      if AfterPointer(files[i], pointer) {
        assert NoneAfter(files[..i], pointer);
        return files[i];
      }
    }
    f := files[0];
  }

  ghost predicate IsFirstAfter(files: seq<File>, pointer: Option<IKey>, f: File) {
    && AfterPointer(f, pointer)
    && exists i: nat :: i < |files| && files[i] == f && NoneAfter(files[..i], pointer)
  }

  ghost predicate NoneAfter(files: seq<File>, pointer: Option<IKey>) {
    forall g :: g in files ==> !AfterPointer(g, pointer)
  }

  predicate AfterPointer(f: File, pointer: Option<IKey>) {
    pointer.Some? ==> Before(pointer.value, f.largest)
  }

  lemma OneIsGapless(f: File)
    ensures Gapless([f])
  {
  }

  // PickCompaction, once a file is chosen: at level 0 every file it overlaps comes along.
  method PickAround(files: seq<File>, level: nat, f: File) returns (picked: seq<File>)
    requires FilesOk(files) && (level > 0 ==> DisjointSorted(files)) && f in files
    ensures Picked(files, level, picked) && f in picked && forall g :: g in picked ==> g in files
    ensures Gapless(picked)
  {
    hide Gapless;
    picked := [f];
    OneIsGapless(f);
    if level == 0 {
      RangeNonEmpty(f);
      ghost var lo, hi;
      var smallest, largest := GetRange(picked);
      picked, lo, hi := GetOverlappingInputs(files, 0, Some(smallest.user), Some(largest.user));
      assert Overlaps(f, lo, hi);
      OverlappingIsPicked(files, 0, lo, hi);
      LeastIsGapless([f], files, smallest, largest, lo, hi, picked);
      SameGaps([f] + picked, picked);
    } else {
      ghost var k: nat :| k < |files| && files[k] == f;
      assert RunOf(files, picked, k, k + 1);
    }
  }

  method PickCompaction(v: Levels, level: nat, f: File, byteLimit: int)
    returns (in0: seq<File>, in1: seq<File>, grandparents: seq<File>, pointer: IKey)
    requires VersionOk(v) && level + 1 < NUM_LEVELS && f in v[level]
    ensures CompactionOk(v, level, in0, in1) && f in in0
    ensures IsLargest(in0, pointer) && Gapless(in0 + in1) && GrandparentsOf(v, level, in0 + in1, grandparents)
  {
    var picked := PickAround(v[level], level, f);
    ghost var closed;
    in0, in1, grandparents, pointer, closed := SetupOtherInputs(v, level, picked, byteLimit);
  }

  lemma FrontOfRun(files: seq<File>, a: nat, b: nat, n: nat)
    requires a <= b <= |files| && n <= b - a
    ensures files[a..b][..n] == files[a..a + n]
  {
  }

  // CompactRange, above level 0: the run is cut at the file where it reaches the size limit.
  method CutRun(files: seq<File>, inputs: seq<File>, fileLimit: nat, ghost a: nat,
                ghost b: nat) returns (cut: seq<File>)
    requires RunOf(files, inputs, a, b) && |inputs| > 0
    ensures RunOf(files, cut, a, a + |cut|) && 0 < |cut| <= |inputs|
    ensures cut <= inputs && (|cut| < |inputs| ==> TotalFileSize(cut) >= fileLimit)
    ensures TotalFileSize(cut[..|cut| - 1]) < fileLimit || |cut| == 1
  {
    cut := inputs;
    var total := 0;
    for i := 0 to |inputs|
      invariant total == TotalFileSize(inputs[..i])
      invariant i == 0 || total < fileLimit
    {
      assert inputs[..i + 1][..i] == inputs[..i];
      total := total + inputs[i].size;
      if total >= fileLimit {
        cut := inputs[..i + 1];
        FrontOfRun(files, a, b, i + 1);
        return;
      }
    }
    TotalOfPrefix(inputs);
  }

  lemma TotalOfPrefix(files: seq<File>)
    requires |files| > 0
    ensures TotalFileSize(files[..|files| - 1]) <= TotalFileSize(files[..|files|])
  {
    assert files[..|files|] == files;
  }

  // CompactRange, up to SetupOtherInputs.
  method PickRange(files: seq<File>, level: nat, begin: Option<UserKey>, end: Option<UserKey>, fileLimit: nat)
    returns (inputs: seq<File>)
    requires FilesOk(files) && (level > 0 ==> DisjointSorted(files))
    ensures |inputs| == 0 <==> forall f :: f in files ==> !Overlaps(f, begin, end)
    ensures |inputs| > 0 ==> Picked(files, level, inputs) && forall f :: f in inputs ==> f in files
    ensures |inputs| > 0 ==> TakesRange(files, level, begin, end, fileLimit, inputs)
  {
    hide FilesOk, DisjointSorted, Overlaps, Overlapping, ClosedRange, LeastCover, TakesRange;
    ghost var lo, hi;
    inputs, lo, hi := GetOverlappingInputs(files, level, begin, end);
    LeastContains(files, begin, end, lo, hi);
    if |inputs| == 0 {
      CoveredOverlap(files, lo, hi, begin, end);
      return;
    }
    StillMeets(files, begin, end, lo, hi);
    OverlappingIsPicked(files, level, lo, hi);
    if level > 0 {
      ghost var a: nat, b: nat :| RunOf(files, inputs, a, b);
      inputs := CutRun(files, inputs, fileLimit, a, b);
      CutTakesRange(files, level, begin, end, fileLimit, a, inputs);
    } else {
      AllTakesRange(files, begin, end, lo, hi, fileLimit, inputs);
    }
  }

  // A range at level 0 is taken as a whole; above, its files are taken in order up to the one
  // with which they reach the size limit.
  ghost predicate TakesRange(files: seq<File>, level: nat, begin: Option<UserKey>, end: Option<UserKey>, fileLimit: nat,
                             inputs: seq<File>) {
    var met := Overlapping(files, begin, end);
    exists n: nat :: 0 < n <= |met| && TakesFirst(met, n, inputs)
      && (level == 0 ==> n == |met|)
      && (level > 0 ==> (n < |met| ==> TotalFileSize(met[..n]) >= fileLimit)
                        && (n > 1 ==> TotalFileSize(met[..n - 1]) < fileLimit))
  }

  ghost predicate TakesFirst(met: seq<File>, n: nat, inputs: seq<File>)
    requires n <= |met|
  {
    forall f :: f in met[..n] ==> f in inputs
  }

  lemma CutTakesRange(files: seq<File>, level: nat, begin: Option<UserKey>, end: Option<UserKey>, fileLimit: nat,
                      a: nat,
                      cut: seq<File>)
    requires level > 0 && cut <= Overlapping(files, begin, end) && |cut| > 0
    requires |cut| < |Overlapping(files, begin, end)| ==> TotalFileSize(cut) >= fileLimit
    requires TotalFileSize(cut[..|cut| - 1]) < fileLimit || |cut| == 1
    ensures TakesRange(files, level, begin, end, fileLimit, cut)
  {
    hide Overlapping, TotalFileSize;
    var met, n := Overlapping(files, begin, end), |cut|;
    assert met[..n] == cut && met[..n - 1] == cut[..n - 1];
    assert TakesFirst(met, n, cut);
  }

  lemma AllTakesRange(files: seq<File>, begin: Option<UserKey>, end: Option<UserKey>, lo: Option<UserKey>,
                      hi: Option<UserKey>, fileLimit: nat, inputs: seq<File>)
    requires LeastCover(files, begin, end, lo, hi) && inputs == Overlapping(files, lo, hi)
    requires exists f :: f in files && Overlaps(f, begin, end)
    ensures TakesRange(files, 0, begin, end, fileLimit, inputs)
  {
    InOverlapping(files, begin, end);
    InOverlapping(files, lo, hi);
    LeastContains(files, begin, end, lo, hi);
    hide Overlapping, LeastCover;
    var met := Overlapping(files, begin, end);
    assert met[..|met|] == met;
    forall f | f in met ensures f in inputs {
      assert Overlaps(f, lo, hi);
    }
    assert TakesFirst(met, |met|, inputs);
  }

  // Inputs that include these take the range as well.
  lemma MoreTakeRange(files: seq<File>, level: nat, begin: Option<UserKey>, end: Option<UserKey>, fileLimit: nat,
                      inputs: seq<File>, more: seq<File>)
    requires TakesRange(files, level, begin, end, fileLimit, inputs) && forall f :: f in inputs ==> f in more
    ensures TakesRange(files, level, begin, end, fileLimit, more)
  {
    hide Overlapping, TotalFileSize;
    var met := Overlapping(files, begin, end);
    var n: nat :| 0 < n <= |met| && TakesFirst(met, n, inputs)
      && (level == 0 ==> n == |met|)
      && (level > 0 ==> (n < |met| ==> TotalFileSize(met[..n]) >= fileLimit)
                        && (n > 1 ==> TotalFileSize(met[..n - 1]) < fileLimit));
    assert TakesFirst(met, n, more);
  }

  // VersionSet::CompactRange
  method CompactRange(v: Levels, level: nat, begin: Option<UserKey>, end: Option<UserKey>, fileLimit: nat,
                      byteLimit: int)
    returns (c: Option<(seq<File>, seq<File>, seq<File>, IKey)>)
    requires VersionOk(v) && level + 1 < NUM_LEVELS
    ensures c.None? <==> forall f :: f in v[level] ==> !Overlaps(f, begin, end)
    ensures c.Some? ==> CompactionOk(v, level, c.value.0, c.value.1) && IsLargest(c.value.0, c.value.3)
    ensures c.Some? ==>
      && TakesRange(v[level], level, begin, end, fileLimit, c.value.0)
      && GrandparentsOf(v, level, c.value.0 + c.value.1, c.value.2)
  {
    hide TakesRange, GrandparentsOf;
    var inputs := PickRange(v[level], level, begin, end, fileLimit);
    if |inputs| == 0 {
      return None;
    }
    var in0, in1, grandparents, pointer, closed := SetupOtherInputs(v, level, inputs, byteLimit);
    MoreTakeRange(v[level], level, begin, end, fileLimit, inputs, in0);
    c := Some((in0, in1, grandparents, pointer));
  }

  lemma CoveredOverlap(files: seq<File>, lo: Option<UserKey>, hi: Option<UserKey>, begin: Option<UserKey>,
                       end: Option<UserKey>)
    requires Covers(lo, hi, begin, end) && |Overlapping(files, lo, hi)| == 0
    ensures forall f :: f in files ==> !Overlaps(f, begin, end)
  {
    InOverlapping(files, lo, hi);
    forall f | f in files ensures !Overlaps(f, begin, end) {
      assert f !in Overlapping(files, lo, hi);
    }
  }

  // A widened search that found files means the range asked for already met one.
  lemma StillMeets(files: seq<File>, begin: Option<UserKey>, end: Option<UserKey>, lo: Option<UserKey>,
                   hi: Option<UserKey>)
    requires LeastCover(files, begin, end, lo, hi) && |Overlapping(files, lo, hi)| > 0
    ensures exists f :: f in files && Overlaps(f, begin, end)
  {
    var f := Overlapping(files, lo, hi)[0];
    InOverlapping(files, lo, hi);
    assert Overlaps(f, lo, hi) && f in files;
    if forall g :: g in files ==> !Overlaps(g, begin, end) {
      assert ClosedRange(files, begin, end) && Covers(begin, end, begin, end);
      assert false;
    }
  }
}
