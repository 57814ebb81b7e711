/** The cursor over a whole database: the children of NewInternalIterator (db/db_impl.cc,
    Version::AddIterators in db/version_set.cc) and what a DBIter over their merge walks. */
module DbCursor {
  import opened Keys
  import opened Version
  import opened CompactionWork
  import opened CompactionReads
  import opened VersionBuilder
  import opened Lsm
  import opened Merger
  import opened DbImpl
  import opened DbIter

  // The memtables.
  function MemLists(s: Db): seq<seq<Entry>> {
    [s.mem] + if s.imm.Some? then [s.imm.value] else []
  }

  // A concatenating iterator for every level from 1 up to but not including `level` that has files.
  function DeepLists(v: Levels, level: nat): seq<seq<Entry>>
    requires 1 <= level <= NUM_LEVELS
  {
    if level == 1 then []
    else DeepLists(v, level - 1) + if |v[level - 1]| > 0 then [Flatten(v[level - 1])] else []
  }

  // NewInternalIterator: the memtables, one iterator for each level-0 file, and the deeper levels.
  function Children(s: Db): seq<seq<Entry>> {
    MemLists(s) + (UpperLists(0, s.version[0]) + DeepLists(s.version, NUM_LEVELS))
  }

  ghost function Held(lists: seq<seq<Entry>>): set<Entry> {
    set i, e | 0 <= i < |lists| && e in lists[i] :: e
  }

  lemma NewerIsApart(a: seq<Entry>, b: seq<Entry>)
    requires NewerThan(Contents(a), Contents(b))
    ensures KeysApart(a, b) && KeysApart(b, a)
  {
    forall d, e | d in a && e in b ensures d.key != e.key {
      assert d in Contents(a) && e in Contents(b);
    }
  }

  // Newer lists in front of older ones.
  lemma Layered(a: seq<seq<Entry>>, b: seq<seq<Entry>>)
    requires Mergeable(a) && Mergeable(b) && NewerThan(Held(a), Held(b))
    ensures Mergeable(a + b) && Held(a + b) == Held(a) + Held(b)
  {
    var all := a + b;
    HeldBoth(a, b);
    hide KeysApart, Sorted;
    forall i, j | 0 <= i < |all| && 0 <= j < |all| && i != j ensures KeysApart(all[i], all[j]) {
      if i < |a| <= j {
        PairApart(a, b, i, j - |a|);
      } else if j < |a| <= i {
        PairApart(a, b, j, i - |a|);
      } else if i < |a| {
        assert KeysApart(a[i], a[j]);
      } else {
        assert KeysApart(b[i - |a|], b[j - |a|]);
      }
    }
    forall i | 0 <= i < |all| ensures Sorted(all[i]) {
    }
  }

  lemma PairApart(a: seq<seq<Entry>>, b: seq<seq<Entry>>, i: nat, j: nat)
    requires i < |a| && j < |b| && NewerThan(Held(a), Held(b))
    ensures KeysApart(a[i], b[j]) && KeysApart(b[j], a[i])
  {
    assert Contents(a[i]) <= Held(a) && Contents(b[j]) <= Held(b);
    NewerIsApart(a[i], b[j]);
  }

  lemma HeldBoth(a: seq<seq<Entry>>, b: seq<seq<Entry>>)
    ensures Held(a + b) == Held(a) + Held(b)
  {
    var all := a + b;
    forall e | e in Held(a) + Held(b) ensures e in Held(all) {
      if e in Held(a) {
        var i :| 0 <= i < |a| && e in a[i];
        assert e in all[i];
      } else {
        var i :| 0 <= i < |b| && e in b[i];
        assert e in all[|a| + i];
      }
    }
    forall e | e in Held(all) ensures e in Held(a) + Held(b) {
      var i :| 0 <= i < |all| && e in all[i];
      assert i < |a| ==> e in a[i];
      assert i >= |a| ==> e in b[i - |a|];
    }
  }

  lemma OneList(list: seq<Entry>)
    requires Sorted(list)
    ensures Mergeable([list]) && Held([list]) == Contents(list)
  {
    assert [list][0] == list;
  }

  lemma MemChildren(s: Db)
    requires Structure(s)
    ensures Mergeable(MemLists(s)) && Held(MemLists(s)) == Front(s)
  {
    hide VersionOk, NumbersOk, HistoryOk, SnapshotsOk;
    OneList(s.mem);
    if s.imm.Some? {
      OneList(s.imm.value);
      Layered([s.mem], [s.imm.value]);
    } else {
      assert MemLists(s) == [s.mem];
      assert Front(s) == Contents(s.mem);
    }
  }

  lemma Level0Children(v: Levels, n: nat)
    requires VersionOk(v) && NumbersOk(v, n)
    ensures Mergeable(UpperLists(0, v[0])) && Held(UpperLists(0, v[0])) == Entries(v[0])
  {
    assert FilesOk(v[0]) && Level0Ok(v[0]) && StrictlyOrdered(v[0]);
    hide VersionOk, NumbersOk, StrictlyOrdered, Level0Ok;
    Level0Lists(v[0], v[0]);
  }

  // The entries of levels 1 up to but not including `level`.
  ghost function Deep(v: Levels, level: nat): set<Entry>
    requires level <= NUM_LEVELS
  {
    set l, e | 1 <= l < level && e in Entries(v[l]) :: e
  }

  lemma LevelList(v: Levels, l: nat)
    requires VersionOk(v) && 1 <= l < NUM_LEVELS
    ensures Sorted(Flatten(v[l])) && Contents(Flatten(v[l])) == Entries(v[l])
  {
    assert FilesOk(v[l]) && DisjointSorted(v[l]);
    hide VersionOk;
    FlattenSorted(v[l]);
    FlattenEntries(v[l]);
  }

  lemma {:induction false} DeepChildren(v: Levels, level: nat)
    requires VersionOk(v) && 1 <= level <= NUM_LEVELS
    ensures Mergeable(DeepLists(v, level)) && Held(DeepLists(v, level)) == Deep(v, level)
  {
    hide Entries, Mergeable, VersionOk;
    if level == 1 {
      assert Mergeable([]) by { NoLists(); }
    } else {
      var l := level - 1;
      DeepChildren(v, l);
      LevelList(v, l);
      assert Deep(v, level) == Deep(v, l) + Entries(v[l]);
      if |v[l]| > 0 {
        OneList(Flatten(v[l]));
        DeepIsNewer(v, l);
        Layered(DeepLists(v, l), [Flatten(v[l])]);
      } else {
        assert Entries(v[l]) == {} by { NoEntries(v[l]); }
        assert DeepLists(v, level) == DeepLists(v, l);
      }
    }
  }

  lemma NoLists()
    ensures Mergeable([])
  {
  }

  lemma NoEntries(files: seq<File>)
    requires |files| == 0
    ensures Entries(files) == {}
  {
  }

  lemma DeepIsNewer(v: Levels, l: nat)
    requires VersionOk(v) && 1 <= l < NUM_LEVELS
    ensures NewerThan(Deep(v, l), Entries(v[l]))
  {
    hide Entries, FilesOk, DisjointSorted, Level0Ok;
    forall a, b | a in Deep(v, l) && b in Entries(v[l]) && a.key.user == b.key.user
      ensures a.key.sequence > b.key.sequence {
      var k :| 1 <= k < l && a in Entries(v[k]);
      assert NewerThan(Entries(v[k]), Entries(v[l]));
    }
  }

  lemma Level0IsNewer(v: Levels)
    requires VersionOk(v)
    ensures NewerThan(Entries(v[0]), Deep(v, NUM_LEVELS)) && AllEntries(v) == Entries(v[0]) + Deep(v, NUM_LEVELS)
  {
    hide Entries, FilesOk, DisjointSorted, Level0Ok;
    forall a, b | a in Entries(v[0]) && b in Deep(v, NUM_LEVELS) && a.key.user == b.key.user
      ensures a.key.sequence > b.key.sequence {
      var k :| 1 <= k < NUM_LEVELS && b in Entries(v[k]);
      assert NewerThan(Entries(v[0]), Entries(v[k]));
    }
  }

  lemma StoredParts(s: Db)
    requires Structure(s)
    ensures VersionOk(s.version) && NumbersOk(s.version, s.nextFile) && NewerThan(Front(s), AllEntries(s.version))
    ensures Functional(StoredIn(s))
  {
    hide VersionOk, NumbersOk, AllEntries;
  }

  /** In every state that keeps the structural invariant the children can be merged, and their
      merge holds exactly what is stored. */
  lemma ChildrenMerge(s: Db)
    requires Structure(s)
    ensures Mergeable(Children(s)) && Sorted(SortedUnion(Children(s)))
    ensures Contents(SortedUnion(Children(s))) == StoredIn(s)
  {
    hide Structure, VersionOk, NumbersOk, Mergeable, Entries, Sorted, NewerThan, Held, Deep, AllEntries, Front;
    StoredParts(s);
    MemChildren(s);
    Level0Children(s.version, s.nextFile);
    DeepChildren(s.version, NUM_LEVELS);
    Level0IsNewer(s.version);
    Layered(UpperLists(0, s.version[0]), DeepLists(s.version, NUM_LEVELS));
    Layered(MemLists(s), UpperLists(0, s.version[0]) + DeepLists(s.version, NUM_LEVELS));
    SortedUnionSound(Children(s));
    UnionIsHeld(Children(s));
  }

  lemma UnionIsHeld(lists: seq<seq<Entry>>)
    requires forall e :: e in SortedUnion(lists) <==> exists i :: 0 <= i < |lists| && e in lists[i]
    ensures Contents(SortedUnion(lists)) == Held(lists)
  {
  }

  /** The cursor of a database walks, at any protected sequence number, exactly the keys that a
      read finds in the history, with the values read, in strictly ascending order. */
  lemma CursorWalksHistory(s: Db, q: nat, user: UserKey, value: Bytes)
    requires Inv(s) && q >= SmallestSnapshot(s)
    ensures var data := SortedUnion(Children(s)); var all := Live(data, q, |data|);
      && ((user, value) in all <==> Read(s.history, user, q) == Some(value))
      && forall i, j :: 0 <= i < j < |all| ==> all[i].0 < all[j].0
  {
    hide Structure, Children, Live, StoredIn, Sorted, Functional;
    StoredParts(s);
    ChildrenMerge(s);
    var data := SortedUnion(Children(s));
    LiveIsRead(data, q, user, value);
    ReadsMatch(s, user, q);
    forall i, j | 0 <= i < j < |Live(data, q, |data|)| ensures Live(data, q, |data|)[i].0 < Live(data, q, |data|)[j].0 {
      LiveSorted(data, q, i, j);
    }
  }
}
