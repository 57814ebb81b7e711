/** One version of the file set: searches in a level, and point lookup over all levels
    (db/version_set.cc, Version and its helpers). */
module Version {
  import opened Keys

  // kNumLevels and kMaxMemCompactLevel
  const NUM_LEVELS: nat := 7
  const MAX_MEM_COMPACT_LEVEL: nat := 2

  // FileMetaData together with the entries the table file holds.
  datatype File = File(number: nat, size: nat, smallest: IKey, largest: IKey, entries: seq<Entry>)

  type Levels = fs: seq<seq<File>> | |fs| == NUM_LEVELS witness [[], [], [], [], [], [], []]

  ghost predicate FileOk(f: File) {
    && |f.entries| > 0 && Sorted(f.entries)
    && f.smallest == f.entries[0].key && f.largest == f.entries[|f.entries| - 1].key
  }

  ghost predicate FilesOk(files: seq<File>) {
    forall f :: f in files ==> FileOk(f)
  }

  // What levels 1 and up keep: files in key order with disjoint internal-key ranges.
  ghost predicate DisjointSorted(files: seq<File>) {
    forall i, j :: 0 <= i < j < |files| ==> Before(files[i].largest, files[j].smallest)
  }

  ghost function Entries(files: seq<File>): set<Entry> {
    set f, e | f in files && e in f.entries :: e
  }

  lemma EntryInRange(f: File, e: Entry)
    requires FileOk(f) && e in f.entries
    ensures !Before(e.key, f.smallest) && !Before(f.largest, e.key)
    ensures f.smallest.user <= e.key.user <= f.largest.user
  {
    var i :| 0 <= i < |f.entries| && f.entries[i] == e;
  }

  lemma RangeNonEmpty(f: File)
    requires FileOk(f)
    ensures !Before(f.largest, f.smallest) && f.smallest.user <= f.largest.user
  {
    EntryInRange(f, f.entries[0]);
  }

  // FindFile
  method FindFile(files: seq<File>, key: IKey) returns (right: nat)
    requires FilesOk(files) && DisjointSorted(files)
    ensures right <= |files|
    ensures forall i :: 0 <= i < right ==> Before(files[i].largest, key)
    ensures forall i :: right <= i < |files| ==> !Before(files[i].largest, key)
  {
    var left := 0;
    right := |files|;
    while left < right
      invariant left <= right <= |files|
      invariant forall i :: 0 <= i < left ==> Before(files[i].largest, key)
      invariant forall i :: right <= i < |files| ==> !Before(files[i].largest, key)
    {
      var mid := (left + right) / 2;
      LargestIncreases(files, mid);
      if Before(files[mid].largest, key) {
        left := mid + 1;
      } else {
        right := mid;
      }
    }
  }

  lemma LargestIncreases(files: seq<File>, m: nat)
    requires FilesOk(files) && DisjointSorted(files) && m < |files|
    ensures forall i :: 0 <= i < m ==> Before(files[i].largest, files[m].largest)
    ensures forall i :: m < i < |files| ==> Before(files[m].largest, files[i].largest)
    ensures forall i :: 0 <= i < m ==> Before(files[i].smallest, files[m].smallest)
    ensures forall i :: m < i < |files| ==> Before(files[m].smallest, files[i].smallest)
  {
    forall i | 0 <= i < |files| ensures !Before(files[i].largest, files[i].smallest) {
      RangeNonEmpty(files[i]);
    }
  }

  // AfterFile and BeforeFile: None stands for the null user key.
  predicate AfterFile(user: Option<UserKey>, f: File) {
    user.Some? && user.value > f.largest.user
  }

  predicate BeforeFile(user: Option<UserKey>, f: File) {
    user.Some? && user.value < f.smallest.user
  }

  predicate Overlaps(f: File, begin: Option<UserKey>, end: Option<UserKey>) {
    !AfterFile(begin, f) && !BeforeFile(end, f)
  }

  /** SomeFileOverlapsRange: a scan at level 0, a binary search in the sorted levels. */
  method SomeFileOverlapsRange(disjointSorted: bool, files: seq<File>, smallest: Option<UserKey>,
                               largest: Option<UserKey>)
    returns (r: bool)
    requires FilesOk(files)
    requires disjointSorted ==> DisjointSorted(files)
    requires forall f :: f in files ==> f.smallest.sequence <= MAX_SEQUENCE && f.largest.sequence <= MAX_SEQUENCE
    ensures r <==> exists f :: f in files && Overlaps(f, smallest, largest)
  {
    if !disjointSorted {
      for i := 0 to |files|
        invariant forall k :: 0 <= k < i ==> !Overlaps(files[k], smallest, largest)
      {
        if AfterFile(smallest, files[i]) || BeforeFile(largest, files[i]) {
        } else {
          assert files[i] in files;
          return true;
        }
      }
      return false;
    }
    var index := 0;
    if smallest.Some? {
      index := FindFile(files, IKey(smallest.value, MAX_SEQUENCE, Value));
    }
    if index >= |files| {
      return false;
    }
    r := !BeforeFile(largest, files[index]);
    LargestIncreases(files, index);
    RangeNonEmpty(files[index]);
    if r {
      assert Overlaps(files[index], smallest, largest);
    }
  }

  // The files of a list that overlap a user-key range, in list order.
  function Overlapping(files: seq<File>, begin: Option<UserKey>, end: Option<UserKey>): seq<File> {
    if |files| == 0 then []
    else
      var n := |files| - 1;
      Overlapping(files[..n], begin, end) + if Overlaps(files[n], begin, end) then [files[n]] else []
  }

  lemma {:induction false} InOverlapping(files: seq<File>, begin: Option<UserKey>, end: Option<UserKey>)
    ensures forall f :: f in Overlapping(files, begin, end) <==> f in files && Overlaps(f, begin, end)
  {
    if |files| > 0 {
      InOverlapping(files[..|files| - 1], begin, end);
      assert files == files[..|files| - 1] + [files[|files| - 1]];
    }
  }

  // The user-key range begin..end contains the range b..e.
  predicate Covers(begin: Option<UserKey>, end: Option<UserKey>, b: Option<UserKey>, e: Option<UserKey>) {
    && (begin.Some? ==> b.Some? && begin.value <= b.value)
    && (end.Some? ==> e.Some? && e.value <= end.value)
  }

  // Every file overlapping the range lies inside it.
  ghost predicate ClosedRange(files: seq<File>, begin: Option<UserKey>, end: Option<UserKey>) {
    forall f :: f in files && Overlaps(f, begin, end) ==>
      Covers(begin, end, Some(f.smallest.user), Some(f.largest.user))
  }

  // [lo,hi] contains [begin,end] and every closed range containing [begin,end] contains it.
  ghost predicate LeastCover(files: seq<File>, begin: Option<UserKey>, end: Option<UserKey>,
                             lo: Option<UserKey>, hi: Option<UserKey>) {
    && Covers(lo, hi, begin, end)
    && forall b, e :: Covers(b, e, begin, end) && ClosedRange(files, b, e) ==> Covers(b, e, lo, hi)
  }

  lemma Widen(files: seq<File>, begin: Option<UserKey>, end: Option<UserKey>,
              lo: Option<UserKey>, hi: Option<UserKey>, f: File)
    requires LeastCover(files, begin, end, lo, hi) && f in files && Overlaps(f, lo, hi)
    ensures lo.Some? && f.smallest.user < lo.value ==> LeastCover(files, begin, end, Some(f.smallest.user), hi)
    ensures hi.Some? && f.largest.user > hi.value ==> LeastCover(files, begin, end, lo, Some(f.largest.user))
  {
    forall b, e | Covers(b, e, begin, end) && ClosedRange(files, b, e)
      ensures Covers(b, e, lo, hi) && Covers(b, e, Some(f.smallest.user), Some(f.largest.user))
    {
      assert Overlaps(f, b, e);
    }
  }

  // What still lies outside the range; these sets shrink with each restart of the search.
  ghost function OutsideLow(files: seq<File>, lo: Option<UserKey>): set<File> {
    set f | f in files && lo.Some? && f.smallest.user < lo.value
  }

  ghost function OutsideHigh(files: seq<File>, hi: Option<UserKey>): set<File> {
    set f | f in files && hi.Some? && hi.value < f.largest.user
  }

  lemma OutsideShrinks(files: seq<File>, f: File, lo: Option<UserKey>, hi: Option<UserKey>)
    requires f in files
    ensures lo.Some? && f.smallest.user < lo.value ==> OutsideLow(files, Some(f.smallest.user)) < OutsideLow(files, lo)
    ensures hi.Some? && f.largest.user > hi.value ==> OutsideHigh(files, Some(f.largest.user)) < OutsideHigh(files, hi)
  {
    assert f !in OutsideLow(files, Some(f.smallest.user)) && f !in OutsideHigh(files, Some(f.largest.user));
    if lo.Some? && f.smallest.user < lo.value {
      assert f in OutsideLow(files, lo);
    }
    if hi.Some? && f.largest.user > hi.value {
      assert f in OutsideHigh(files, hi);
    }
  }

  /** GetOverlappingInputs.  At level 0 the search restarts whenever a file widens the
      range; it ends with the least range that contains [begin,end] and is closed under
      overlap, and returns exactly the files overlapping that range. */
  method GetOverlappingInputs(files: seq<File>, level: nat, begin: Option<UserKey>, end: Option<UserKey>)
    returns (inputs: seq<File>, ghost lo: Option<UserKey>, ghost hi: Option<UserKey>)
    ensures inputs == Overlapping(files, lo, hi)
    ensures forall f :: f in inputs <==> f in files && Overlaps(f, lo, hi)
    ensures level > 0 ==> lo == begin && hi == end
    ensures level == 0 ==> ClosedRange(files, lo, hi)
    ensures LeastCover(files, begin, end, lo, hi)
  {
    hide LeastCover, ClosedRange, OutsideLow, OutsideHigh, Overlapping;
    inputs := [];
    var userBegin, userEnd := begin, end;
    var i := 0;
    CoversItself(files, begin, end);
    NoFilesYet(files, begin, end);
    while i < |files|
      invariant 0 <= i <= |files|
      invariant inputs == Overlapping(files[..i], userBegin, userEnd)
      invariant level > 0 ==> userBegin == begin && userEnd == end
      invariant level == 0 ==> ClosedRange(files[..i], userBegin, userEnd)
      invariant LeastCover(files, begin, end, userBegin, userEnd)
      decreases OutsideLow(files, userBegin), OutsideHigh(files, userEnd), |files| - i
    {
      var f := files[i];
      OneMoreFile(files, i, userBegin, userEnd);
      i := i + 1;
      if userBegin.Some? && f.largest.user < userBegin.value {
      } else if userEnd.Some? && f.smallest.user > userEnd.value {
      } else {
        inputs := inputs + [f];
        Widen(files, begin, end, userBegin, userEnd, f);
        OutsideShrinks(files, f, userBegin, userEnd);
        if level == 0 {
          if userBegin.Some? && f.smallest.user < userBegin.value {
            userBegin := Some(f.smallest.user);
            inputs := [];
            i := 0;
            NoFilesYet(files, userBegin, userEnd);
          } else if userEnd.Some? && f.largest.user > userEnd.value {
            userEnd := Some(f.largest.user);
            inputs := [];
            i := 0;
            NoFilesYet(files, userBegin, userEnd);
          }
        }
      }
    }
    assert files[..|files|] == files;
    lo, hi := userBegin, userEnd;
    InOverlapping(files, lo, hi);
  }

  lemma CoversItself(files: seq<File>, begin: Option<UserKey>, end: Option<UserKey>)
    ensures LeastCover(files, begin, end, begin, end)
  {
  }

  lemma NoFilesYet(files: seq<File>, begin: Option<UserKey>, end: Option<UserKey>)
    ensures Overlapping(files[..0], begin, end) == [] && ClosedRange(files[..0], begin, end)
  {
  }

  lemma OneMoreFile(files: seq<File>, i: nat, begin: Option<UserKey>, end: Option<UserKey>)
    requires i < |files|
    ensures Overlapping(files[..i + 1], begin, end)
         == Overlapping(files[..i], begin, end) + if Overlaps(files[i], begin, end) then [files[i]] else []
    ensures var f := files[i];
      && ClosedRange(files[..i], begin, end)
      && (Overlaps(f, begin, end) ==> Covers(begin, end, Some(f.smallest.user), Some(f.largest.user))) ==>
      ClosedRange(files[..i + 1], begin, end)
  {
    assert files[..i + 1][..i] == files[..i];
    assert forall g :: g in files[..i + 1] ==> g in files[..i] || g == files[i];
  }

  function TotalFileSize(files: seq<File>): (r: nat)
    ensures r >= 0
  {
    if |files| == 0 then 0 else TotalFileSize(files[..|files| - 1]) + files[|files| - 1].size
  }

  // Some file of the level meets the user-key range.
  ghost predicate OverlapInLevel(v: Levels, level: nat, min: UserKey, max: UserKey)
    requires level < NUM_LEVELS
  {
    exists f :: f in v[level] && Overlaps(f, Some(min), Some(max))
  }

  // A new table may sink past `level` into the next one.
  ghost predicate MayPush(v: Levels, level: nat, min: UserKey, max: UserKey, maxOverlap: int)
    requires level + 2 < NUM_LEVELS
  {
    && !OverlapInLevel(v, level + 1, min, max)
    && TotalFileSize(Overlapping(v[level + 2], Some(min), Some(max))) <= maxOverlap
  }

  /** PickLevelForMemTableOutput: the deepest level, at most MAX_MEM_COMPACT_LEVEL, reached
      without meeting the range on the way. */
  method PickLevelForMemTableOutput(v: Levels, min: UserKey, max: UserKey, maxOverlap: int) returns (level: nat)
    requires VersionOk(v)
    ensures level <= MAX_MEM_COMPACT_LEVEL
    ensures level > 0 ==> forall l :: 0 <= l <= level ==> !OverlapInLevel(v, l, min, max)
    ensures level > 0 ==> forall l :: 0 <= l < level ==> MayPush(v, l, min, max, maxOverlap)
    ensures level < MAX_MEM_COMPACT_LEVEL ==> OverlapInLevel(v, 0, min, max) || !MayPush(v, level, min, max, maxOverlap)
  {
    hide VersionOk, FilesOk, DisjointSorted, TotalFileSize, Overlapping;
    level := 0;
    SequencesInFiles(v, 0);
    var overlap := SomeFileOverlapsRange(false, v[0], Some(min), Some(max));
    if !overlap {
      while level < MAX_MEM_COMPACT_LEVEL
        invariant level <= MAX_MEM_COMPACT_LEVEL
        invariant forall l :: 0 <= l <= level ==> !OverlapInLevel(v, l, min, max)
        invariant forall l :: 0 <= l < level ==> MayPush(v, l, min, max, maxOverlap)
      {
        SequencesInFiles(v, level + 1);
        overlap := SomeFileOverlapsRange(true, v[level + 1], Some(min), Some(max));
        if overlap {
          break;
        }
        var overlaps, lo, hi := GetOverlappingInputs(v[level + 2], level + 2, Some(min), Some(max));
        if TotalFileSize(overlaps) > maxOverlap {
          break;
        }
        level := level + 1;
      }
    }
  }

  // Every entry of `newer` is newer than every entry of `older` for the same user key.
  ghost predicate NewerThan(newer: set<Entry>, older: set<Entry>) {
    forall a, b :: a in newer && b in older && a.key.user == b.key.user ==> a.key.sequence > b.key.sequence
  }

  /** The invariant of a version: files are in order, the sorted levels are disjoint, a
      shallower level is newer than a deeper one for every shared user key, and in level 0
      a higher file number means newer entries. */
  ghost predicate VersionOk(v: Levels) {
    && (forall l :: 0 <= l < NUM_LEVELS ==> FilesOk(v[l]))
    && (forall l :: 1 <= l < NUM_LEVELS ==> DisjointSorted(v[l]))
    && (forall l, m :: 0 <= l < m < NUM_LEVELS ==> NewerThan(Entries(v[l]), Entries(v[m])))
    && Level0Ok(v[0])
    && (forall l, e :: 0 <= l < NUM_LEVELS && e in Entries(v[l]) ==> e.key.sequence <= MAX_SEQUENCE)
  }

  ghost predicate Level0Ok(files: seq<File>) {
    && (forall f, g :: f in files && g in files && f.number > g.number ==>
      NewerThan(Contents(f.entries), Contents(g.entries)))
    && (forall f, g :: f in files && g in files && f.number == g.number ==> f == g)
  }

  // The entries of levels 0 up to but not including `level`.
  ghost function Upto(v: Levels, level: nat): set<Entry>
    requires level <= NUM_LEVELS
  {
    set l, e | 0 <= l < level && e in Entries(v[l]) :: e
  }

  ghost function AllEntries(v: Levels): set<Entry> {
    Upto(v, NUM_LEVELS)
  }

  lemma SequencesInFiles(v: Levels, level: nat)
    requires VersionOk(v) && level < NUM_LEVELS
    ensures forall f :: f in v[level] ==> f.smallest.sequence <= MAX_SEQUENCE && f.largest.sequence <= MAX_SEQUENCE
    ensures FilesOk(v[level]) && (level > 0 ==> DisjointSorted(v[level]))
  {
    forall f | f in v[level] ensures f.smallest.sequence <= MAX_SEQUENCE && f.largest.sequence <= MAX_SEQUENCE {
      assert FileOk(f) && f.entries[0] in f.entries && f.entries[|f.entries| - 1] in f.entries;
      assert f.entries[0] in Entries(v[level]) && f.entries[|f.entries| - 1] in Entries(v[level]);
    }
  }

  // ------------------------------------------------------------------ point lookup

  // SaverState, without the corruption case.
  datatype Saver = NotFound | Found(value: Bytes) | Deleted

  // What a search of the entry set answers for (user, q).
  ghost predicate Answers(es: set<Entry>, user: UserKey, q: nat, s: Saver) {
    match s
    case NotFound => forall e :: e in es && e.key.user == user ==> e.key.sequence > q
    case Found(v) => exists e :: Newest(es, user, q, e) && e.key.kind.Value? && e.value == v
    case Deleted => exists e :: Newest(es, user, q, e) && e.key.kind.Deletion?
  }

  function Status(s: Saver): Option<Bytes> {
    if s.Found? then Some(s.value) else None
  }

  lemma AnswersAreReads(es: set<Entry>, user: UserKey, q: nat, s: Saver)
    requires Functional(es) && Answers(es, user, q, s)
    ensures Read(es, user, q) == Status(s)
  {
    match s
    case NotFound => ReadAbsent(es, user, q);
    case Found(v) =>
      var e :| Newest(es, user, q, e) && e.key.kind.Value? && e.value == v;
      ReadNewest(es, user, q, e);
    case Deleted =>
      var e :| Newest(es, user, q, e) && e.key.kind.Deletion?;
      ReadNewest(es, user, q, e);
  }

  // Searching newer sources first and stopping at the first hit searches their union.
  lemma AnswersCompose(newer: set<Entry>, older: set<Entry>, user: UserKey, q: nat, s: Saver)
    requires NewerThan(newer, older)
    ensures !s.NotFound? && Answers(newer, user, q, s) ==> Answers(newer + older, user, q, s)
    ensures Answers(newer, user, q, NotFound) && Answers(older, user, q, s) ==> Answers(newer + older, user, q, s)
  {
    forall e | Newest(newer, user, q, e) ensures Newest(newer + older, user, q, e) {
    }
    if Answers(newer, user, q, NotFound) {
      forall e | Newest(older, user, q, e) ensures Newest(newer + older, user, q, e) {
      }
    }
  }

  // Table::InternalGet hands over the first entry at or after the key, if any.
  function FirstFrom(s: seq<Entry>, key: IKey): (i: nat)
    ensures i <= |s|
    ensures forall j :: 0 <= j < i ==> Before(s[j].key, key)
    ensures i < |s| ==> !Before(s[i].key, key)
  {
    if |s| == 0 || !Before(s[0].key, key) then 0 else
      var i := FirstFrom(s[1..], key);
      assert forall j :: 0 < j < i + 1 ==> s[j] == s[1..][j - 1];
      i + 1
  }

  // TableCache::Get with the SaveValue callback; also MemTable::Get.
  method SearchSorted(s: seq<Entry>, user: UserKey, q: nat) returns (r: Saver)
    requires Sorted(s)
    ensures Answers(Contents(s), user, q, r)
  {
    var i := FirstFrom(s, SeekKey(user, q));
    ReadSorted(s, user, q, i);
    if i < |s| && s[i].key.user == user {
      r := if s[i].key.kind.Value? then Found(s[i].value) else Deleted;
    } else {
      r := NotFound;
    }
  }

  // std::sort with NewestFirst
  function InsertNewestFirst(s: seq<File>, f: File): (r: seq<File>)
    ensures forall g :: g in r <==> g in s || g == f
    ensures NewestFirst(s) ==> NewestFirst(r)
  {
    if |s| == 0 || f.number >= s[0].number then [f] + s
    else
      var t := InsertNewestFirst(s[1..], f);
      assert forall g :: g in s <==> g == s[0] || g in s[1..];
      assert NewestFirst(s) ==> NewestFirst(s[1..]) && forall g :: g in s[1..] ==> s[0].number >= g.number;
      assert forall j :: 0 <= j < |t| ==> t[j] in s[1..] || t[j] == f;
      [s[0]] + t
  }

  ghost predicate NewestFirst(s: seq<File>) {
    forall i, j :: 0 <= i < j < |s| ==> s[i].number >= s[j].number
  }

  function SortNewestFirst(s: seq<File>): (r: seq<File>)
    ensures forall g :: g in r <==> g in s
    ensures NewestFirst(r)
  {
    if |s| == 0 then []
    else
      assert forall g :: g in s <==> g == s[0] || g in s[1..];
      InsertNewestFirst(SortNewestFirst(s[1..]), s[0])
  }

  // `tmp` lists files of the level, among them every file with an entry for the user key.
  ghost predicate Candidates(files: seq<File>, tmp: seq<File>, user: UserKey) {
    && NewestFirst(tmp)
    && (forall f :: f in tmp ==> f in files)
    && forall f, d :: f in files && d in f.entries && d.key.user == user ==> f in tmp
  }

  lemma NewerFileWins(files: seq<File>, f: File, g: File, e: Entry, d: Entry)
    requires Level0Ok(files) && f in files && g in files && f.number >= g.number && f != g
    requires e in f.entries && d in g.entries && e.key.user == d.key.user
    ensures d.key.sequence < e.key.sequence
  {
    assert f.number > g.number;
    assert NewerThan(Contents(f.entries), Contents(g.entries));
    assert e in Contents(f.entries) && d in Contents(g.entries);
  }

  // A hit in a file, when newer files of the level hold nothing visible, is the level's answer.
  lemma HitInLevel0(files: seq<File>, tmp: seq<File>, i: nat, user: UserKey, q: nat, e: Entry)
    requires Level0Ok(files) && Candidates(files, tmp, user) && i < |tmp|
    requires forall k :: 0 <= k < i ==> Answers(Contents(tmp[k].entries), user, q, NotFound)
    requires Newest(Contents(tmp[i].entries), user, q, e)
    ensures Newest(Entries(files), user, q, e)
  {
    var f := tmp[i];
    assert f in files && e in f.entries;
    forall d | d in Entries(files) && d.key.user == user && d.key.sequence <= q
      ensures d.key.sequence <= e.key.sequence {
      var g :| g in files && d in g.entries;
      assert g in tmp;
      var k :| 0 <= k < |tmp| && tmp[k] == g;
      assert d in Contents(g.entries);
      if k >= i && g != f {
        NewerFileWins(files, f, g, e, d);
      }
    }
  }

  lemma MissInLevel0(files: seq<File>, tmp: seq<File>, user: UserKey, q: nat)
    requires Candidates(files, tmp, user)
    requires forall k :: 0 <= k < |tmp| ==> Answers(Contents(tmp[k].entries), user, q, NotFound)
    ensures Answers(Entries(files), user, q, NotFound)
  {
    forall e | e in Entries(files) && e.key.user == user ensures e.key.sequence > q {
      var g :| g in files && e in g.entries;
      assert g in tmp;
      var k :| 0 <= k < |tmp| && tmp[k] == g;
      assert e in Contents(tmp[k].entries);
    }
  }

  // The files of level 0 whose range holds the user key, newest first.
  method CandidatesNewestFirst(files: seq<File>, user: UserKey) returns (tmp: seq<File>)
    requires FilesOk(files)
    ensures Candidates(files, tmp, user)
  {
    tmp := [];
    for i := 0 to |files|
      invariant forall f :: f in tmp <==> f in files[..i] && f.smallest.user <= user <= f.largest.user
    {
      assert files[..i + 1] == files[..i] + [files[i]];
      if user >= files[i].smallest.user && user <= files[i].largest.user {
        tmp := tmp + [files[i]];
      }
    }
    assert files[..|files|] == files;
    tmp := SortNewestFirst(tmp);
    forall f, d | f in files && d in f.entries && d.key.user == user ensures f in tmp {
      EntryInRange(f, d);
    }
  }

  /** ForEachOverlapping at level 0: overlapping files from newest to oldest, stopping at a hit. */
  method SearchLevel0(files: seq<File>, user: UserKey, q: nat) returns (r: Saver)
    requires FilesOk(files) && Level0Ok(files)
    ensures Answers(Entries(files), user, q, r)
  {
    hide Level0Ok, Sorted, Entries;
    var tmp := CandidatesNewestFirst(files, user);
    for i := 0 to |tmp|
      invariant forall k :: 0 <= k < i ==> Answers(Contents(tmp[k].entries), user, q, NotFound)
    {
      assert tmp[i] in files;
      r := SearchSorted(tmp[i].entries, user, q);
      if !r.NotFound? {
        ghost var e :|
          Newest(Contents(tmp[i].entries), user, q, e) && r == if e.key.kind.Value? then Found(e.value) else Deleted;
        HitInLevel0(files, tmp, i, user, q, e);
        return;
      }
    }
    r := NotFound;
    MissInLevel0(files, tmp, user, q);
  }

  // ForEachOverlapping at a sorted level: at most one file can hold the answer.
  method SearchSortedLevel(files: seq<File>, user: UserKey, q: nat) returns (r: Saver)
    requires FilesOk(files) && DisjointSorted(files)
    ensures Answers(Entries(files), user, q, r)
  {
    var key := SeekKey(user, q);
    var index := FindFile(files, key);
    OutsideIndex(files, key, index);
    if index < |files| && user >= files[index].smallest.user {
      assert files[index] in files;
      r := SearchSorted(files[index].entries, user, q);
      OnlyIndex(files, key, index, r);
    } else {
      r := NotFound;
      if index < |files| {
        RangeNonEmpty(files[index]);
      }
      forall e | e in Entries(files) && e.key.user == user ensures e.key.sequence > q {
        var k :| 0 <= k < |files| && e in files[k].entries;
        EntryInRange(files[k], e);
      }
    }
  }

  // Files before the index end before the key; files after it start after the key.
  lemma OutsideIndex(files: seq<File>, key: IKey, index: nat)
    requires FilesOk(files) && DisjointSorted(files) && index <= |files|
    requires forall i :: 0 <= i < index ==> Before(files[i].largest, key)
    requires index < |files| ==> !Before(files[index].largest, key)
    ensures forall k, e :: 0 <= k < index && e in files[k].entries ==> Before(e.key, key)
    ensures forall k, e :: index < k < |files| && e in files[k].entries ==> Before(files[index].largest, e.key)
  {
    forall k, e | 0 <= k < |files| && e in files[k].entries
      ensures !Before(e.key, files[k].smallest) && !Before(files[k].largest, e.key)
    {
      EntryInRange(files[k], e);
    }
  }

  lemma OnlyIndex(files: seq<File>, key: IKey, index: nat, r: Saver)
    requires FilesOk(files) && DisjointSorted(files) && index < |files| && key.kind.Value?
    requires forall i :: 0 <= i < index ==> Before(files[i].largest, key)
    requires !Before(files[index].largest, key)
    requires Answers(Contents(files[index].entries), key.user, key.sequence, r)
    ensures Answers(Entries(files), key.user, key.sequence, r)
  {
    OutsideIndex(files, key, index);
    var f := files[index];
    assert f in files;
    var last := f.entries[|f.entries| - 1];
    assert last in Contents(f.entries);
    forall e | e in Entries(files) && e.key.user == key.user && e.key.sequence <= key.sequence
      ensures e in f.entries
        || (last.key.user == key.user && last.key.sequence <= key.sequence && e.key.sequence <= last.key.sequence)
    {
      var k :| 0 <= k < |files| && e in files[k].entries;
    }
    forall e | Newest(Contents(f.entries), key.user, key.sequence, e)
      ensures Newest(Entries(files), key.user, key.sequence, e) {
    }
  }

  /** Version::Get: level 0 newest-first, then one file per deeper level, stopping at the
      first hit, answers for the union of all levels. */
  method Get(v: Levels, user: UserKey, q: nat) returns (r: Saver)
    requires VersionOk(v)
    ensures Answers(AllEntries(v), user, q, r)
  {
    r := SearchLevel0(v[0], user, q);
    assert Upto(v, 1) == Entries(v[0]);
    var level := 1;
    while level < NUM_LEVELS && r.NotFound?
      invariant 1 <= level <= NUM_LEVELS
      invariant Answers(Upto(v, level), user, q, r)
    {
      r := SearchSortedLevel(v[level], user, q);
      UptoNext(v, level);
      AnswersCompose(Upto(v, level), Entries(v[level]), user, q, r);
      assert Answers(Upto(v, level + 1), user, q, r);
      level := level + 1;
    }
    HitEndsSearch(v, level, user, q, r);
  }

  lemma HitEndsSearch(v: Levels, level: nat, user: UserKey, q: nat, r: Saver)
    requires VersionOk(v) && level <= NUM_LEVELS && Answers(Upto(v, level), user, q, r)
    requires level < NUM_LEVELS ==> !r.NotFound?
    ensures Answers(AllEntries(v), user, q, r)
  {
    hide VersionOk, Upto, Answers, NewerThan;
    if level < NUM_LEVELS {
      RestIsOlder(v, level);
      AnswersCompose(Upto(v, level), AllEntries(v) - Upto(v, level), user, q, r);
      assert Upto(v, level) + (AllEntries(v) - Upto(v, level)) == AllEntries(v);
    }
  }

  lemma UptoNext(v: Levels, level: nat)
    requires VersionOk(v) && level < NUM_LEVELS
    ensures Upto(v, level + 1) == Upto(v, level) + Entries(v[level])
    ensures NewerThan(Upto(v, level), Entries(v[level]))
  {
    forall e ensures e in Upto(v, level + 1) <==> e in Upto(v, level) || e in Entries(v[level]) {
    }
  }

  lemma RestIsOlder(v: Levels, level: nat)
    requires VersionOk(v) && level <= NUM_LEVELS
    ensures Upto(v, level) <= AllEntries(v)
    ensures NewerThan(Upto(v, level), AllEntries(v) - Upto(v, level))
  {
    forall a, b | a in Upto(v, level) && b in AllEntries(v) - Upto(v, level) && a.key.user == b.key.user
      ensures a.key.sequence > b.key.sequence
    {
      var l :| 0 <= l < level && a in Entries(v[l]);
      var m :| 0 <= m < NUM_LEVELS && b in Entries(v[m]);
      assert NewerThan(Entries(v[l]), Entries(v[m]));
    }
  }
}
