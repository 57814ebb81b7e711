/** Applying version edits (db/version_set.cc VersionSet::Builder, db/version_edit.h). */
module VersionBuilder {
  import opened Keys
  import opened Version

  // VersionEdit: the files it deletes and adds, by level.
  datatype VersionEdit = VersionEdit(deleted: set<(nat, nat)>, added: seq<(nat, File)>) {
    ghost predicate Valid() {
      && (forall d :: d in deleted ==> d.0 < NUM_LEVELS)
      && (forall a :: a in added ==> a.0 < NUM_LEVELS)
    }
  }

  // Builder::BySmallestKey
  predicate BySmallestKey(f: File, g: File) {
    Before(f.smallest, g.smallest) || (f.smallest == g.smallest && f.number < g.number)
  }

  ghost predicate Ordered(s: seq<File>) {
    forall i, j :: 0 <= i < j < |s| ==> !BySmallestKey(s[j], s[i])
  }

  // std::set with BySmallestKey: elements in strict order.
  ghost predicate StrictlyOrdered(s: seq<File>) {
    forall i, j :: 0 <= i < j < |s| ==> BySmallestKey(s[i], s[j])
  }

  // std::set::insert
  function InsertFile(s: seq<File>, f: File): (r: seq<File>)
    ensures StrictlyOrdered(s) ==> StrictlyOrdered(r)
    ensures forall g :: g in r ==> g in s || g == f
    ensures forall g :: g in s ==> g in r
    ensures f in r || exists g :: g in s && g.smallest == f.smallest && g.number == f.number
  {
    if |s| == 0 || BySmallestKey(f, s[0]) then [f] + s
    else if !BySmallestKey(s[0], f) then s
    else
      var t := InsertFile(s[1..], f);
      assert forall g :: g in s <==> g == s[0] || g in s[1..];
      InsertBehind(s, f, t);
      [s[0]] + t
  }

  // The head stays in front of a tail that got one more file.
  lemma InsertBehind(s: seq<File>, f: File, t: seq<File>)
    requires |s| > 0 && BySmallestKey(s[0], f) && forall g :: g in t ==> g in s[1..] || g == f
    requires StrictlyOrdered(s[1..]) ==> StrictlyOrdered(t)
    ensures StrictlyOrdered(s) ==> StrictlyOrdered([s[0]] + t)
  {
    hide BySmallestKey;
    if StrictlyOrdered(s) {
      forall i, j | 0 <= i < j < |s[1..]| ensures BySmallestKey(s[1..][i], s[1..][j]) {
        assert BySmallestKey(s[i + 1], s[j + 1]);
      }
      forall j | 0 <= j < |t| ensures BySmallestKey(s[0], t[j]) {
        assert t[j] in t;
        if t[j] != f {
          var k :| 0 <= k < |s[1..]| && s[1..][k] == t[j];
          assert s[k + 1] == t[j];
        }
      }
    }
  }

  // LevelState
  datatype LevelState = LevelState(deleted: set<nat>, added: seq<File>)

  const EMPTY := LevelState({}, [])

  function DeleteAll(st: LevelState, deleted: set<(nat, nat)>, level: nat): LevelState {
    st.(deleted := st.deleted + set d | d in deleted && d.0 == level :: d.1)
  }

  function AddOne(st: LevelState, f: File): LevelState {
    LevelState(st.deleted - {f.number}, InsertFile(st.added, f))
  }

  function AddAll(st: LevelState, added: seq<(nat, File)>, level: nat): LevelState {
    if |added| == 0 then st
    else
      var before := AddAll(st, added[..|added| - 1], level);
      var last := added[|added| - 1];
      if last.0 == level then AddOne(before, last.1) else before
  }

  lemma AddOneOrdered(st: LevelState, f: File)
    requires StrictlyOrdered(st.added)
    ensures StrictlyOrdered(AddOne(st, f).added)
  {
  }

  lemma AddAllStarts(st: LevelState, level: nat)
    ensures AddAll(st, [], level) == st
  {
  }

  lemma AddAllSteps(st: LevelState, added: seq<(nat, File)>, i: nat, level: nat)
    requires i < |added|
    ensures var before := AddAll(st, added[..i], level);
      AddAll(st, added[..i + 1], level) == if added[i].0 == level then AddOne(before, added[i].1) else before
  {
    hide AddOne;
    assert added[..i + 1][..i] == added[..i];
  }

  // One edit, seen by one level.
  function ApplyLevel(st: LevelState, edit: VersionEdit, level: nat): LevelState {
    AddAll(DeleteAll(st, edit.deleted, level), edit.added, level)
  }

  function ApplyAll(st: LevelState, edits: seq<VersionEdit>, level: nat): LevelState {
    if |edits| == 0 then st else ApplyLevel(ApplyAll(st, edits[..|edits| - 1], level), edits[|edits| - 1], level)
  }

  // What SaveTo keeps of a level: the base files and the added files, less the deleted numbers.
  ghost function Copies(base: seq<File>, st: LevelState, f: File): nat {
    if f.number in st.deleted then 0 else multiset(base)[f] + multiset(st.added)[f]
  }

  ghost predicate Saved(base: seq<File>, st: LevelState, r: seq<File>) {
    Ordered(r) && forall f :: multiset(r)[f] == Copies(base, st, f)
  }

  class Builder {
    const base: Levels
    var levels: seq<LevelState>

    ghost predicate Valid()
      reads this
    {
      && |levels| == NUM_LEVELS
      && (forall l :: 0 <= l < NUM_LEVELS ==> Ordered(base[l]))
      && forall l :: 0 <= l < NUM_LEVELS ==> StrictlyOrdered(levels[l].added)
    }

    constructor (base: Levels)
      requires forall l :: 0 <= l < NUM_LEVELS ==> Ordered(base[l])
      ensures Valid() && this.base == base && forall l :: 0 <= l < NUM_LEVELS ==> levels[l] == EMPTY
    {
      this.base := base;
      levels := [EMPTY, EMPTY, EMPTY, EMPTY, EMPTY, EMPTY, EMPTY];
    }

    // Builder::Apply
    method Apply(edit: VersionEdit)
      requires Valid() && edit.Valid()
      modifies this
      ensures Valid()
      ensures forall l :: 0 <= l < NUM_LEVELS ==> levels[l] == ApplyLevel(old(levels)[l], edit, l)
    {
      hide StrictlyOrdered, InsertFile, AddAll, AddOne;
      var todo, done := edit.deleted, {};
      while todo != {}
        invariant todo + done == edit.deleted && |levels| == NUM_LEVELS
        invariant forall l :: 0 <= l < NUM_LEVELS ==> levels[l] == DeleteAll(old(levels)[l], done, l)
        decreases todo
      {
        var d :| d in todo;
        todo, done := todo - {d}, done + {d};
        levels := levels[d.0 := levels[d.0].(deleted := levels[d.0].deleted + {d.1})];
      }
      assert done == edit.deleted;
      ghost var start := levels;
      assert edit.added[..0] == [];
      forall l | 0 <= l < NUM_LEVELS ensures AddAll(start[l], edit.added[..0], l) == start[l] {
        AddAllStarts(start[l], l);
      }
      for i := 0 to |edit.added|
        invariant |levels| == NUM_LEVELS
        invariant forall l :: 0 <= l < NUM_LEVELS ==> StrictlyOrdered(levels[l].added)
        invariant forall l :: 0 <= l < NUM_LEVELS ==>
          levels[l] == AddAll(start[l], edit.added[..i], l)
      {
        var (level, f) := edit.added[i];
        assert edit.added[i] in edit.added;
        AddOneOrdered(levels[level], f);
        forall l | 0 <= l < NUM_LEVELS
          ensures AddAll(start[l], edit.added[..i + 1], l) == if l == level then AddOne(levels[l], f) else levels[l] {
          AddAllSteps(start[l], edit.added, i, l);
        }
        levels := levels[level := AddOne(levels[level], f)];
      }
      assert edit.added[..|edit.added|] == edit.added;
    }

    // Builder::SaveTo
    method SaveTo() returns (v: Levels)
      requires Valid()
      ensures forall l :: 0 <= l < NUM_LEVELS ==> Saved(base[l], levels[l], v[l])
    {
      var files := [];
      for level := 0 to NUM_LEVELS
        invariant |files| == level && forall l :: 0 <= l < level ==> Saved(base[l], levels[l], files[l])
      {
        var r := SaveLevel(base[level], levels[level]);
        files := files + [r];
      }
      v := files;
    }
  }

  function MaybeAddFile(files: seq<File>, deleted: set<nat>, f: File): seq<File> {
    if f.number in deleted then files else files + [f]
  }

  // Everything already emitted sorts at or before everything still to come.
  ghost predicate AllUpTo(r: seq<File>, f: File) {
    forall i :: 0 <= i < |r| ==> !BySmallestKey(f, r[i])
  }

  // The state of the merge after k base files and i added files.
  ghost predicate Merging(base: seq<File>, st: LevelState, k: nat, i: nat, r: seq<File>) {
    && k <= |base| && i <= |st.added| && Ordered(r)
    && (forall j :: k <= j < |base| ==> AllUpTo(r, base[j]))
    && (forall j :: i <= j < |st.added| ==> AllUpTo(r, st.added[j]))
    && forall f :: multiset(r)[f] == Copies(base[..k], LevelState(st.deleted, st.added[..i]), f)
  }

  lemma OrderedAppend(r: seq<File>, deleted: set<nat>, f: File)
    requires Ordered(r) && AllUpTo(r, f)
    ensures Ordered(MaybeAddFile(r, deleted, f))
    ensures forall g :: !BySmallestKey(g, f) && AllUpTo(r, g) ==> AllUpTo(MaybeAddFile(r, deleted, f), g)
  {
  }

  lemma EmitBase(base: seq<File>, st: LevelState, k: nat, i: nat, r: seq<File>)
    requires Ordered(base) && StrictlyOrdered(st.added) && Merging(base, st, k, i, r) && k < |base|
    requires i < |st.added| ==> !BySmallestKey(st.added[i], base[k])
    ensures Merging(base, st, k + 1, i, MaybeAddFile(r, st.deleted, base[k]))
  {
    hide StrictlyOrdered, Copies, MaybeAddFile;
    OrderedAppend(r, st.deleted, base[k]);
    CopiesBase(base, st, k, i, r);
    BaseComesLater(base, st, k, i);
    hide *;
  }

  // What comes after the emitted file sorts at or after it.
  lemma BaseComesLater(base: seq<File>, st: LevelState, k: nat, i: nat)
    requires Ordered(base) && StrictlyOrdered(st.added) && k < |base| && i <= |st.added|
    requires i < |st.added| ==> !BySmallestKey(st.added[i], base[k])
    ensures forall j :: k < j < |base| ==> !BySmallestKey(base[j], base[k])
    ensures forall j :: i <= j < |st.added| ==> !BySmallestKey(st.added[j], base[k])
  {
  }

  lemma AddedComesLater(base: seq<File>, st: LevelState, k: nat, i: nat)
    requires Ordered(base) && StrictlyOrdered(st.added) && k <= |base| && i < |st.added|
    requires k < |base| ==> BySmallestKey(st.added[i], base[k])
    ensures forall j :: k <= j < |base| ==> !BySmallestKey(base[j], st.added[i])
    ensures forall j :: i < j < |st.added| ==> !BySmallestKey(st.added[j], st.added[i])
  {
  }

  // One more base file is counted.
  lemma CopiesBase(base: seq<File>, st: LevelState, k: nat, i: nat, r: seq<File>)
    requires k < |base| && i <= |st.added|
    requires forall f :: multiset(r)[f] == Copies(base[..k], LevelState(st.deleted, st.added[..i]), f)
    ensures forall f ::
      multiset(MaybeAddFile(r, st.deleted, base[k]))[f]
        == Copies(base[..k + 1], LevelState(st.deleted, st.added[..i]), f)
  {
    assert base[..k + 1] == base[..k] + [base[k]];
  }

  // One more added file is counted.
  lemma CopiesAdded(base: seq<File>, st: LevelState, k: nat, i: nat, r: seq<File>)
    requires k <= |base| && i < |st.added|
    requires forall f :: multiset(r)[f] == Copies(base[..k], LevelState(st.deleted, st.added[..i]), f)
    ensures forall f ::
      multiset(MaybeAddFile(r, st.deleted, st.added[i]))[f]
      == Copies(base[..k], LevelState(st.deleted, st.added[..i + 1]), f)
  {
    assert st.added[..i + 1] == st.added[..i] + [st.added[i]];
  }

  lemma EmitAdded(base: seq<File>, st: LevelState, k: nat, i: nat, r: seq<File>)
    requires Ordered(base) && StrictlyOrdered(st.added) && Merging(base, st, k, i, r) && i < |st.added|
    requires k < |base| ==> BySmallestKey(st.added[i], base[k])
    ensures Merging(base, st, k, i + 1, MaybeAddFile(r, st.deleted, st.added[i]))
  {
    hide StrictlyOrdered, Copies, MaybeAddFile;
    OrderedAppend(r, st.deleted, st.added[i]);
    CopiesAdded(base, st, k, i, r);
    AddedComesLater(base, st, k, i);
    hide *;
  }

  /** SaveTo, one level: merges the added files into the base files with upper_bound, and
      leaves out deleted numbers. */
  method SaveLevel(base: seq<File>, st: LevelState) returns (r: seq<File>)
    requires Ordered(base) && StrictlyOrdered(st.added)
    ensures Saved(base, st, r)
  {
    r := [];
    var k := 0;
    for i := 0 to |st.added|
      invariant Merging(base, st, k, i, r)
    {
      while k < |base| && !BySmallestKey(st.added[i], base[k])
        invariant Merging(base, st, k, i, r)
      {
        EmitBase(base, st, k, i, r);
        r := MaybeAddFile(r, st.deleted, base[k]);
        k := k + 1;
      }
      EmitAdded(base, st, k, i, r);
      r := MaybeAddFile(r, st.deleted, st.added[i]);
    }
    while k < |base|
      invariant Merging(base, st, k, |st.added|, r)
    {
      EmitBase(base, st, k, |st.added|, r);
      r := MaybeAddFile(r, st.deleted, base[k]);
      k := k + 1;
    }
    assert base[..k] == base && st.added[..|st.added|] == st.added;
  }

  // ------------------------------------------------------------------ many edits at once

  ghost predicate AddsNumber(edit: VersionEdit, level: nat, n: nat) {
    exists a :: a in edit.added && a.0 == level && a.1.number == n
  }

  // The edit deletes the number at the level and does not add it back.
  ghost predicate Deletes(edit: VersionEdit, level: nat, n: nat) {
    (level, n) in edit.deleted && !AddsNumber(edit, level, n)
  }

  // The files a level may ever mention: a number names one file.
  ghost predicate NamesOne(files: set<File>) {
    forall f, g :: f in files && g in files && f.number == g.number ==> f == g
  }

  ghost predicate Mentions(edit: VersionEdit, level: nat, files: set<File>) {
    forall a :: a in edit.added && a.0 == level ==> a.1 in files
  }

  lemma {:induction false} AddAllEffect(st: LevelState, added: seq<(nat, File)>, level: nat, files: set<File>, f: File)
    requires NamesOne(files) && f in files && StrictlyOrdered(st.added)
    requires forall a :: a in added && a.0 == level ==> a.1 in files
    requires forall g :: g in st.added ==> g in files
    ensures var r := AddAll(st, added, level);
      && StrictlyOrdered(r.added) && (forall g :: g in r.added ==> g in files)
      && (f in r.added <==> f in st.added || (level, f) in added)
      && (f.number in r.deleted <==> f.number in st.deleted && (level, f) !in added)
  {
    if |added| > 0 {
      var n := |added| - 1;
      assert forall a :: a in added <==> a in added[..n] || a == added[n];
      AddAllEffect(st, added[..n], level, files, f);
    }
  }

  lemma ApplyEffect(st: LevelState, edit: VersionEdit, level: nat, files: set<File>, f: File)
    requires NamesOne(files) && f in files && StrictlyOrdered(st.added) && Mentions(edit, level, files)
    requires forall g :: g in st.added ==> g in files
    ensures var r := ApplyLevel(st, edit, level);
      && StrictlyOrdered(r.added) && (forall g :: g in r.added ==> g in files)
      && (f in r.added <==> f in st.added || AddsNumber(edit, level, f.number))
      && (f.number in r.deleted <==>
        !AddsNumber(edit, level, f.number) && (f.number in st.deleted || (level, f.number) in edit.deleted))
  {
    AddAllEffect(DeleteAll(st, edit.deleted, level), edit.added, level, files, f);
    if AddsNumber(edit, level, f.number) {
      var a :| a in edit.added && a.0 == level && a.1.number == f.number;
      assert a == (level, f);
    }
  }

  // Facts about a file over a list of edits.
  ghost predicate EverAdded(edits: seq<VersionEdit>, level: nat, n: nat) {
    exists i :: 0 <= i < |edits| && AddsNumber(edits[i], level, n)
  }

  ghost predicate EverDeleted(edits: seq<VersionEdit>, level: nat, n: nat) {
    exists i :: 0 <= i < |edits| && Deletes(edits[i], level, n)
  }

  // How often the number is added after it was last deleted.
  ghost function AddsSince(edits: seq<VersionEdit>, level: nat, n: nat): nat {
    if |edits| == 0 then 0
    else
      var k := |edits| - 1;
      if Deletes(edits[k], level, n) then 0
      else AddsSince(edits[..k], level, n) + if AddsNumber(edits[k], level, n) then 1 else 0
  }

  // Deleted, and not added since.
  ghost predicate EndsDeleted(edits: seq<VersionEdit>, level: nat, n: nat) {
    EverDeleted(edits, level, n) && AddsSince(edits, level, n) == 0
  }

  ghost predicate AllMention(edits: seq<VersionEdit>, level: nat, files: set<File>) {
    forall i :: 0 <= i < |edits| ==> Mentions(edits[i], level, files)
  }

  lemma EverSnoc(edits: seq<VersionEdit>, level: nat, n: nat)
    requires |edits| > 0
    ensures var k := |edits| - 1;
      && (EverAdded(edits, level, n) <==> EverAdded(edits[..k], level, n) || AddsNumber(edits[k], level, n))
      && (EverDeleted(edits, level, n) <==> EverDeleted(edits[..k], level, n) || Deletes(edits[k], level, n))
  {
    var k := |edits| - 1;
    assert forall i :: 0 <= i < k ==> edits[..k][i] == edits[i];
  }

  lemma {:induction false} ApplyAllEffect(edits: seq<VersionEdit>, level: nat, files: set<File>, f: File)
    requires NamesOne(files) && f in files && AllMention(edits, level, files)
    ensures var r := ApplyAll(EMPTY, edits, level);
      && StrictlyOrdered(r.added) && (forall g :: g in r.added ==> g in files)
      && (f in r.added <==> EverAdded(edits, level, f.number))
      && (f.number in r.deleted <==> EndsDeleted(edits, level, f.number))
  {
    if |edits| > 0 {
      var k := |edits| - 1;
      ApplyAllEffect(edits[..k], level, files, f);
      ApplyEffect(ApplyAll(EMPTY, edits[..k], level), edits[k], level, files, f);
      EverSnoc(edits, level, f.number);
    }
  }

  lemma StrictMultiplicity(s: seq<File>, f: File)
    requires StrictlyOrdered(s)
    ensures multiset(s)[f] == if f in s then 1 else 0
  {
    if f in s {
      var i :| 0 <= i < |s| && s[i] == f;
      assert s == s[..i] + [f] + s[i + 1..];
      assert f !in s[..i] && f !in s[i + 1..];
    }
  }

  // A level saved after every single edit.
  ghost predicate SavedEach(base: seq<File>, edits: seq<VersionEdit>, level: nat, vs: seq<seq<File>>) {
    && |vs| == |edits| + 1 && vs[0] == base
    && forall i :: 0 <= i < |edits| ==> Saved(vs[i], ApplyLevel(EMPTY, edits[i], level), vs[i + 1])
  }

  lemma {:induction false} SavedEachCopies(base: seq<File>, edits: seq<VersionEdit>, level: nat, vs: seq<seq<File>>,
                                           files: set<File>, f: File)
    requires NamesOne(files) && f in files && AllMention(edits, level, files) && SavedEach(base, edits, level, vs)
    ensures multiset(vs[|edits|])[f]
         == (if EverDeleted(edits, level, f.number) then 0 else multiset(base)[f]) + AddsSince(edits, level, f.number)
  {
    if |edits| > 0 {
      var k := |edits| - 1;
      var e := edits[k];
      SavedEachCopies(base, edits[..k], level, vs[..k + 1], files, f);
      var st := ApplyLevel(EMPTY, e, level);
      ApplyEffect(EMPTY, e, level, files, f);
      StrictMultiplicity(st.added, f);
      EverSnoc(edits, level, f.number);
      assert Saved(vs[k], st, vs[k + 1]);
    }
  }

  lemma SavedOnceCopies(base: seq<File>, edits: seq<VersionEdit>, level: nat, r: seq<File>, files: set<File>, f: File)
    requires NamesOne(files) && f in files && AllMention(edits, level, files)
    requires Saved(base, ApplyAll(EMPTY, edits, level), r)
    ensures multiset(r)[f] == if EndsDeleted(edits, level, f.number) then 0
                              else multiset(base)[f] + if EverAdded(edits, level, f.number) then 1 else 0
  {
    ApplyAllEffect(edits, level, files, f);
    StrictMultiplicity(ApplyAll(EMPTY, edits, level).added, f);
  }

  /** The guard for one number at one level: it ends deleted; or it was never deleted and
      added at most once; or it came back exactly once more often than the base holds it. */
  ghost predicate FoldsAs(base: seq<File>, edits: seq<VersionEdit>, level: nat, f: File) {
    || EndsDeleted(edits, level, f.number)
    || (!EverDeleted(edits, level, f.number) && AddsSince(edits, level, f.number) <= 1)
    || (EverDeleted(edits, level, f.number) && AddsSince(edits, level, f.number) == 1 + multiset(base)[f])
  }

  lemma {:induction false} AddsSinceEver(edits: seq<VersionEdit>, level: nat, n: nat)
    ensures AddsSince(edits, level, n) > 0 ==> EverAdded(edits, level, n)
    ensures EverAdded(edits, level, n) && !EverDeleted(edits, level, n) ==> AddsSince(edits, level, n) > 0
  {
    if |edits| > 0 {
      AddsSinceEver(edits[..|edits| - 1], level, n);
      EverSnoc(edits, level, n);
    }
  }

  lemma SameHead(a: seq<File>, b: seq<File>, files: set<File>)
    requires Ordered(a) && Ordered(b) && NamesOne(files) && |a| > 0 && |b| > 0
    requires a[0] in b && b[0] in a && a[0] in files && b[0] in files
    ensures a[0] == b[0]
  {
    var i :| 0 <= i < |b| && b[i] == a[0];
    var j :| 0 <= j < |a| && a[j] == b[0];
    assert !BySmallestKey(b[i], b[0]) && !BySmallestKey(a[j], a[0]);
  }

  lemma SameTails<T>(a: seq<T>, b: seq<T>)
    requires multiset(a) == multiset(b) && |a| > 0 && |b| > 0 && a[0] == b[0]
    ensures multiset(a[1..]) == multiset(b[1..]) && a == [a[0]] + a[1..] && b == [b[0]] + b[1..]
  {
    assert a == [a[0]] + a[1..] && b == [b[0]] + b[1..];
    assert multiset(a[1..]) == multiset(a) - multiset{a[0]} == multiset(b[1..]);
  }

  // Two ordered lists over uniquely named files with the same elements are the same list.
  lemma {:induction false} OrderedUnique(a: seq<File>, b: seq<File>, files: set<File>)
    requires Ordered(a) && Ordered(b) && NamesOne(files) && multiset(a) == multiset(b)
    requires forall f :: f in a ==> f in files
    ensures a == b
  {
    hide NamesOne, BySmallestKey;
    assert |a| == |multiset(a)| && |b| == |multiset(b)|;
    if |a| > 0 {
      assert b[0] in multiset(b) && a[0] in multiset(a);
      assert a[0] in b && b[0] in a;
      SameHead(a, b, files);
      SameTails(a, b);
      OrderedUnique(a[1..], b[1..], files);
    }
  }

  lemma OnlyNamed(base: seq<File>, st: LevelState, r: seq<File>, files: set<File>)
    requires Saved(base, st, r)
    requires forall f :: f in base || f in st.added ==> f in files
    ensures forall f :: f in r ==> f in files
  {
    forall f | f in r ensures f in files {
      assert multiset(r)[f] > 0;
      assert f in multiset(base) || f in multiset(st.added);
    }
  }

  /** Manifest replay: one builder fed all the edits saves the same file list as saving a
      version after each edit, if and only if the guard holds for every file named. */
  lemma FoldEqualsSteps(base: seq<File>, edits: seq<VersionEdit>, level: nat, vs: seq<seq<File>>, r: seq<File>,
                        files: set<File>)
    requires Ordered(base) && NamesOne(files) && AllMention(edits, level, files) && forall f :: f in base ==> f in files
    requires SavedEach(base, edits, level, vs) && Saved(base, ApplyAll(EMPTY, edits, level), r)
    ensures r == vs[|edits|] <==> forall f :: f in files ==> FoldsAs(base, edits, level, f)
  {
    var last := vs[|edits|];
    forall f | f in files ensures multiset(r)[f] == multiset(last)[f] <==> FoldsAs(base, edits, level, f) {
      SavedOnceCopies(base, edits, level, r, files, f);
      SavedEachCopies(base, edits, level, vs, files, f);
      AddsSinceEver(edits, level, f.number);
    }
    if forall f :: f in files ==> FoldsAs(base, edits, level, f) {
      FoldNamed(base, edits, level, r, files);
      StepsNamed(base, edits, level, vs, files);
      forall f ensures multiset(r)[f] == multiset(last)[f] {
        if f !in files {
          assert f !in r && f !in last;
        }
      }
      assert multiset(r) == multiset(last);
      LastOrdered(base, edits, level, vs);
      OrderedUnique(r, last, files);
    }
  }

  lemma FoldNamed(base: seq<File>, edits: seq<VersionEdit>, level: nat, r: seq<File>, files: set<File>)
    requires NamesOne(files) && AllMention(edits, level, files) && forall f :: f in base ==> f in files
    requires Saved(base, ApplyAll(EMPTY, edits, level), r)
    ensures forall f :: f in r ==> f in files
  {
    forall f | f in r ensures f in files {
      assert multiset(r)[f] > 0;
      if f !in base {
        var st := ApplyAll(EMPTY, edits, level);
        assert f in st.added by {
          assert f in multiset(st.added);
        }
        AddedNamed(edits, level, files);
      }
    }
  }

  lemma {:induction false} AddedNamed(edits: seq<VersionEdit>, level: nat, files: set<File>)
    requires AllMention(edits, level, files)
    ensures forall g :: g in ApplyAll(EMPTY, edits, level).added ==> g in files
  {
    if |edits| > 0 {
      var k := |edits| - 1;
      AddedNamed(edits[..k], level, files);
      AddAllNamed(DeleteAll(ApplyAll(EMPTY, edits[..k], level), edits[k].deleted, level), edits[k].added, level, files);
    }
  }

  lemma {:induction false} AddAllNamed(st: LevelState, added: seq<(nat, File)>, level: nat, files: set<File>)
    requires forall a :: a in added && a.0 == level ==> a.1 in files
    requires forall g :: g in st.added ==> g in files
    ensures forall g :: g in AddAll(st, added, level).added ==> g in files
  {
    if |added| > 0 {
      AddAllNamed(st, added[..|added| - 1], level, files);
    }
  }

  lemma {:induction false} StepsNamed(base: seq<File>, edits: seq<VersionEdit>, level: nat, vs: seq<seq<File>>,
                                      files: set<File>)
    requires AllMention(edits, level, files) && SavedEach(base, edits, level, vs) && forall f :: f in base ==>
      f in files
    ensures forall f :: f in vs[|edits|] ==> f in files
  {
    if |edits| > 0 {
      var k := |edits| - 1;
      StepsNamed(base, edits[..k], level, vs[..k + 1], files);
      AddAllNamed(DeleteAll(EMPTY, edits[k].deleted, level), edits[k].added, level, files);
      assert Saved(vs[k], ApplyLevel(EMPTY, edits[k], level), vs[k + 1]);
      OnlyNamed(vs[k], ApplyLevel(EMPTY, edits[k], level), vs[k + 1], files);
    }
  }

  lemma LastOrdered(base: seq<File>, edits: seq<VersionEdit>, level: nat, vs: seq<seq<File>>)
    requires Ordered(base) && SavedEach(base, edits, level, vs)
    ensures Ordered(vs[|edits|])
  {
    if |edits| > 0 {
      assert Saved(vs[|edits| - 1], ApplyLevel(EMPTY, edits[|edits| - 1], level), vs[|edits| - 1 + 1]);
    }
  }

  lemma {:induction false} AddedOnce(edits: seq<VersionEdit>, level: nat, n: nat)
    requires forall i, j :: 0 <= i < j < |edits| && AddsNumber(edits[i], level, n) ==> !AddsNumber(edits[j], level, n)
    ensures AddsSince(edits, level, n) <= 1
    ensures !EverAdded(edits, level, n) ==> AddsSince(edits, level, n) == 0
  {
    if |edits| > 0 {
      AddedOnce(edits[..|edits| - 1], level, n);
      EverSnoc(edits, level, n);
    }
  }

  // File numbers that are new to the level and added once always fold.
  lemma FreshNumbersFold(base: seq<File>, edits: seq<VersionEdit>, level: nat, f: File)
    requires forall i, j :: 0 <= i < j < |edits| && AddsNumber(edits[i], level, f.number) ==>
      !AddsNumber(edits[j], level, f.number)
    requires EverAdded(edits, level, f.number) ==> f !in base
    ensures FoldsAs(base, edits, level, f)
  {
    AddedOnce(edits, level, f.number);
  }

  /** The guard fails when a number comes back to a level it left: the builder then lists
      the base copy and the added copy of the file. */
  lemma ReaddingDuplicates(f: File)
    ensures var edits := [VersionEdit({(1, f.number)}, []), VersionEdit({}, [(1, f)])];
      !FoldsAs([f], edits, 1, f)
  {
    var e0, e1 := VersionEdit({(1, f.number)}, []), VersionEdit({}, [(1, f)]);
    var edits := [e0, e1];
    assert (1, f) in e1.added && AddsNumber(e1, 1, f.number);
    assert Deletes(edits[0], 1, f.number);
    assert edits[..1] == [e0] && [e0][..0] == [];
    assert AddsSince([e0], 1, f.number) == 0;
    assert AddsSince(edits, 1, f.number) == 1;
  }
}
