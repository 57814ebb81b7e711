/** The manifest: replaying all its edits into one builder gives the version in force
    (VersionSet::LogAndApply and VersionSet::Recover in db/version_set.cc). */
module Manifest {
  import opened Version
  import opened VersionBuilder
  import opened Lsm
  import opened DbImpl

  const NO_FILES: Levels := [[], [], [], [], [], [], []]

  ghost function AllAdded(edits: seq<VersionEdit>): set<File> {
    set i, a | 0 <= i < |edits| && a in edits[i].added :: a.1
  }

  // The level after each edit, saved one by one, ends with these files.
  ghost predicate Chain(edits: seq<VersionEdit>, level: nat, files: seq<File>) {
    exists vs :: SavedEach([], edits, level, vs) && vs[|edits|] == files
  }

  ghost predicate AddsOnce(edits: seq<VersionEdit>) {
    forall l, n, i, j :: 0 <= i < j < |edits| && AddsNumber(edits[i], l, n) ==> !AddsNumber(edits[j], l, n)
  }

  // A file is never above a level its number was added at.
  ghost predicate OnlyDown(edits: seq<VersionEdit>, v: Levels) {
    forall l: nat, m: nat, f: File :: EverAdded(edits, l, f.number) && m < NUM_LEVELS && f in v[m] ==> l <= m
  }

  /** A manifest for version v, all of whose file numbers are below the bound. */
  ghost predicate ManifestOk(edits: seq<VersionEdit>, v: Levels, bound: nat) {
    && (forall l :: 0 <= l < NUM_LEVELS ==> Chain(edits, l, v[l]))
    && NamesOne(AllAdded(edits)) && (forall f :: f in AllAdded(edits) ==> f.number < bound)
    && AddsOnce(edits) && OnlyDown(edits, v)
    && forall i :: 0 <= i < |edits| ==> edits[i].Valid()
  }

  lemma EmptyManifest(bound: nat)
    ensures ManifestOk([], NO_FILES, bound)
  {
    forall l | 0 <= l < NUM_LEVELS ensures Chain([], l, NO_FILES[l]) {
      assert SavedEach([], [], l, [[]]);
    }
  }

  lemma AllMentioned(edits: seq<VersionEdit>, level: nat)
    ensures AllMention(edits, level, AllAdded(edits))
  {
  }

  /** Recovery reads back the version in force: one builder fed every edit saves it. */
  lemma Replays(edits: seq<VersionEdit>, v: Levels, bound: nat, r: Levels)
    requires ManifestOk(edits, v, bound)
    requires forall l :: 0 <= l < NUM_LEVELS ==> Saved([], ApplyAll(EMPTY, edits, l), r[l])
    ensures r == v
  {
    forall l | 0 <= l < NUM_LEVELS ensures r[l] == v[l] {
      assert Chain(edits, l, v[l]);
      var vs :| SavedEach([], edits, l, vs) && vs[|edits|] == v[l];
      AllMentioned(edits, l);
      forall f | f in AllAdded(edits) ensures FoldsAs([], edits, l, f) {
        FreshNumbersFold([], edits, l, f);
      }
      FoldEqualsSteps([], edits, l, vs, r[l], AllAdded(edits));
    }
  }

  lemma VersionNamed(edits: seq<VersionEdit>, v: Levels, bound: nat, l: nat, f: File)
    requires ManifestOk(edits, v, bound) && l < NUM_LEVELS && f in v[l]
    ensures f in AllAdded(edits) && f.number < bound
  {
    assert Chain(edits, l, v[l]);
    var vs :| SavedEach([], edits, l, vs) && vs[|edits|] == v[l];
    AllMentioned(edits, l);
    StepsNamed([], edits, l, vs, AllAdded(edits));
  }

  // An edit's files are new, or come down from a shallower level.
  ghost predicate FreshEdit(v: Levels, bound: nat, edit: VersionEdit, bound': nat) {
    && edit.Valid() && bound <= bound'
    && (forall a :: a in edit.added ==> a.1.number < bound')
    && (forall a :: a in edit.added ==> bound <= a.1.number || exists m :: 0 <= m < a.0 && a.1 in v[m])
    && forall a, b :: a in edit.added && b in edit.added && a.1.number == b.1.number ==> a.1 == b.1
  }

  // What the edit does to the version: nothing appears but what it adds.
  ghost predicate Effect(v: Levels, edit: VersionEdit, v': Levels, bound': nat) {
    && SavedAll(v, edit, v') && NumbersOk(v', bound')
    && (forall m, f :: 0 <= m < NUM_LEVELS && f in v'[m] ==> f in v[m] || (m, f) in edit.added)
    && forall a :: a in edit.added ==> a.0 < NUM_LEVELS && a.1 in v'[a.0]
  }

  lemma ChainGrows(edits: seq<VersionEdit>, v: Levels, edit: VersionEdit, v': Levels, l: nat)
    requires l < NUM_LEVELS && Chain(edits, l, v[l]) && SavedAll(v, edit, v')
    ensures Chain(edits + [edit], l, v'[l])
  {
    var vs :| SavedEach([], edits, l, vs) && vs[|edits|] == v[l];
    var all, ws := edits + [edit], vs + [v'[l]];
    forall i | 0 <= i < |all| ensures Saved(ws[i], ApplyLevel(EMPTY, all[i], l), ws[i + 1]) {
      assert i < |edits| ==> Saved(vs[i], ApplyLevel(EMPTY, edits[i], l), vs[i + 1]);
    }
    assert SavedEach([], all, l, ws);
  }

  lemma AddedGrows(edits: seq<VersionEdit>, edit: VersionEdit)
    ensures forall f :: f in AllAdded(edits + [edit]) <==> f in AllAdded(edits) || exists l: nat :: (l, f) in edit.added
  {
    var all := edits + [edit];
    forall f | f in AllAdded(edits) ensures f in AllAdded(all) {
      var i, a :| 0 <= i < |edits| && a in edits[i].added && a.1 == f;
      assert a in all[i].added;
    }
    forall f | exists l: nat :: (l, f) in edit.added ensures f in AllAdded(all) {
      var l: nat :| (l, f) in edit.added;
      assert (l, f) in all[|edits|].added;
    }
    forall f | f in AllAdded(all) ensures f in AllAdded(edits) || exists l: nat :: (l, f) in edit.added {
      var i, a :| 0 <= i < |all| && a in all[i].added && a.1 == f;
      assert i < |edits| ==> a in edits[i].added;
      assert a == (a.0, f);
    }
  }

  lemma NamesGrow(edits: seq<VersionEdit>, v: Levels, bound: nat, edit: VersionEdit, bound': nat)
    requires ManifestOk(edits, v, bound) && FreshEdit(v, bound, edit, bound')
    ensures NamesOne(AllAdded(edits + [edit])) && forall f :: f in AllAdded(edits + [edit]) ==> f.number < bound'
  {
    AddedGrows(edits, edit);
    forall a | a in edit.added && a.1.number < bound ensures a.1 in AllAdded(edits) {
      var m :| 0 <= m < a.0 && a.1 in v[m];
      VersionNamed(edits, v, bound, m, a.1);
    }
    hide ManifestOk, AllAdded;
    var all := AllAdded(edits + [edit]);
    forall f, g | f in all && g in all && f.number == g.number ensures f == g {
      NamesPair(edits, v, bound, edit, bound', f, g);
    }
    forall f | f in all ensures f.number < bound' {
      NamesPair(edits, v, bound, edit, bound', f, f);
    }
  }

  lemma NamesPair(edits: seq<VersionEdit>, v: Levels, bound: nat, edit: VersionEdit, bound': nat, f: File, g: File)
    requires ManifestOk(edits, v, bound) && FreshEdit(v, bound, edit, bound')
    requires f in AllAdded(edits) || exists l: nat :: (l, f) in edit.added
    requires g in AllAdded(edits) || exists l: nat :: (l, g) in edit.added
    requires forall a :: a in edit.added && a.1.number < bound ==> a.1 in AllAdded(edits)
    ensures f.number < bound' && (f.number == g.number ==> f == g)
  {
    if f !in AllAdded(edits) {
      var l: nat :| (l, f) in edit.added;
      assert (l, f).1.number >= bound;
      if g !in AllAdded(edits) {
        var m: nat :| (m, g) in edit.added;
      }
    } else if g !in AllAdded(edits) {
      var m: nat :| (m, g) in edit.added;
      assert (m, g).1.number >= bound;
    }
  }

  lemma OnceGrows(edits: seq<VersionEdit>, v: Levels, bound: nat, edit: VersionEdit, bound': nat)
    requires ManifestOk(edits, v, bound) && FreshEdit(v, bound, edit, bound')
    ensures AddsOnce(edits + [edit])
  {
    forall b | b in edit.added ensures !EverAdded(edits, b.0, b.1.number) {
      EverBelow(edits, b.0, b.1.number);
      if b.1.number < bound {
        var m :| 0 <= m < b.0 && b.1 in v[m];
      }
    }
    var all := edits + [edit];
    forall l, n, i, j | 0 <= i < j < |all| && AddsNumber(all[i], l, n) ensures !AddsNumber(all[j], l, n) {
      assert j == |edits| ==> EverAdded(edits, l, n);
    }
  }

  lemma EverBelow(edits: seq<VersionEdit>, l: nat, n: nat)
    ensures EverAdded(edits, l, n) ==> exists f :: f in AllAdded(edits) && f.number == n
  {
    if EverAdded(edits, l, n) {
      var i :| 0 <= i < |edits| && AddsNumber(edits[i], l, n);
      var a :| a in edits[i].added && a.0 == l && a.1.number == n;
      assert a.1 in AllAdded(edits);
    }
  }

  lemma DownGrows(edits: seq<VersionEdit>, v: Levels, bound: nat, edit: VersionEdit, v': Levels, bound': nat)
    requires ManifestOk(edits, v, bound) && FreshEdit(v, bound, edit, bound') && Effect(v, edit, v', bound')
    ensures OnlyDown(edits + [edit], v')
  {
    var all := edits + [edit];
    assert all[..|edits|] == edits;
    forall l: nat, m: nat, f: File | EverAdded(all, l, f.number) && m < NUM_LEVELS && f in v'[m] ensures l <= m {
      EverSnoc(all, l, f.number);
      if AddsNumber(edit, l, f.number) {
        var a :| a in edit.added && a.0 == l && a.1.number == f.number;
        assert a.1 in v'[l];
      } else if f !in v[m] {
        assert EverAdded(edits, l, f.number) && (m, f) in edit.added;
        MovedDown(edits, v, bound, edit, bound', l, m, f);
      }
    }
  }

  // A file with a number that was added before comes from a level above.
  lemma MovedDown(edits: seq<VersionEdit>, v: Levels, bound: nat, edit: VersionEdit, bound': nat, l: nat, m: nat,
                  f: File)
    requires ManifestOk(edits, v, bound) && FreshEdit(v, bound, edit, bound')
    requires EverAdded(edits, l, f.number) && (m, f) in edit.added && m < NUM_LEVELS
    ensures l < m
  {
    EverBelow(edits, l, f.number);
    assert (m, f).1.number < bound;
    var k :| 0 <= k < m && f in v[k];
  }

  /** LogAndApply: the record keeps the manifest one of the new version. */
  lemma Appends(edits: seq<VersionEdit>, v: Levels, bound: nat, edit: VersionEdit, v': Levels, bound': nat)
    requires ManifestOk(edits, v, bound) && FreshEdit(v, bound, edit, bound') && Effect(v, edit, v', bound')
    ensures ManifestOk(edits + [edit], v', bound')
  {
    NamesGrow(edits, v, bound, edit, bound');
    OnceGrows(edits, v, bound, edit, bound');
    DownGrows(edits, v, bound, edit, v', bound');
    hide AllAdded, AddsOnce, OnlyDown, Effect;
    forall l | 0 <= l < NUM_LEVELS ensures Chain(edits + [edit], l, v'[l]) {
      assert Chain(edits, l, v[l]);
      EffectSaves(v, edit, v', bound');
      ChainGrows(edits, v, edit, v', l);
    }
  }

  lemma EffectSaves(v: Levels, edit: VersionEdit, v': Levels, bound': nat)
    requires Effect(v, edit, v', bound')
    ensures SavedAll(v, edit, v')
  {
  }
}
