/** The skip list as its one writer uses it, its iterator, and the memtable on top
    (db/skiplist.h, db/memtable.cc). */
module MemTables {
  import opened Keys
  import opened SkipLists
  import opened Version

  // The writer on its own: every two consecutive states are joined by one store.
  ghost predicate WriterRun(run: seq<(Mem, Writer)>) {
    |run| > 0 && forall k :: 0 <= k < |run| - 1 ==> Stores(run, k)
  }

  ghost predicate Stores(run: seq<(Mem, Writer)>, k: nat)
    requires k < |run| - 1
  {
    WriterStep(run[k].0, ListsOf(run[k].0), run[k].1, run[k + 1].0, run[k + 1].1)
  }

  lemma RunBegins(m: Mem)
    requires Good(m)
    ensures WriterRun([(m, Idle)]) && WriterOk(m, ListsOf(m), Idle)
  {
  }

  lemma RunExtends(run: seq<(Mem, Writer)>, m: Mem, w: Writer, m': Mem, w': Writer)
    requires |run| > 0 && WriterRun(run) && run[|run| - 1] == (m, w) && WriterStep(m, ListsOf(m), w, m', w')
    ensures WriterRun(run + [(m', w')])
  {
    hide WriterStep;
    var r := run + [(m', w')];
    forall k | 0 <= k < |r| - 1 ensures Stores(r, k) {
      assert k < |run| - 1 ==> Stores(run, k);
    }
  }

  ghost predicate Good(m: Mem) {
    Shape(m, ListsOf(m))
  }

  // The nodes of the bottom level.
  ghost function Bottom(m: Mem): set<nat>
    ensures Bottom(m) == ListsOf(m)[0]
  {
    Elements(Level(m, 0))
  }

  // The list as readers see it: its entries, in order.
  ghost function EntriesOf(m: Mem): (s: seq<Entry>)
    requires Good(m)
    ensures |s| == |Level(m, 0)|
  {
    hide Linked, Distinct;
    var w := Level(m, 0);
    LevelIs(m, ListsOf(m), 0);
    seq(|w|, i requires 0 <= i < |w| => m.nodes[w[i]].entry)
  }

  lemma EntriesSorted(m: Mem)
    requires Good(m)
    ensures Sorted(EntriesOf(m))
    ensures forall e :: e in EntriesOf(m) <==> exists x :: x in Bottom(m) && x < |m.nodes| && m.nodes[x].entry == e
  {
    hide Linked, Distinct;
    var w, s := Level(m, 0), EntriesOf(m);
    LevelIs(m, ListsOf(m), 0);
    forall e | exists x :: x in Bottom(m) && x < |m.nodes| && m.nodes[x].entry == e ensures e in s {
      var x :| x in Bottom(m) && x < |m.nodes| && m.nodes[x].entry == e;
      var i :| 0 <= i < |w| && w[i] == x;
      assert s[i] == e;
    }
    forall e | e in s ensures exists x :: x in Bottom(m) && x < |m.nodes| && m.nodes[x].entry == e {
      var i :| 0 <= i < |s| && s[i] == e;
      assert w[i] in Bottom(m);
    }
  }

  class SkipList {
    var mem: Mem

    ghost predicate Valid()
      reads this
    {
      Good(mem)
    }

    constructor (dummy: Entry)
      ensures Valid() && EntriesOf(mem) == []
    {
      mem := Mem([Node(dummy, seq(MAX_HEIGHT, _ => NULL))], 1);
      new;
      InitialInv(Conf(mem, Idle, map[]));
      assert Level(mem, 0) == [];
    }

    // FindGreaterOrEqual with prev
    method FindGreaterOrEqual(key: IKey) returns (r: int, prev: seq<int>)
      requires Valid()
      ensures |prev| == MAX_HEIGHT && InMemory(mem, Bottom(mem)) && 0 < |mem.nodes|
      ensures Result(mem, Bottom(mem), AtOrAfter(key), r)
      ensures (forall y :: y in Bottom(mem) ==> KeyOf(mem, y) != key) ==>
        forall l :: 0 <= l < mem.maxHeight ==>
          InMemory(mem, ListsOf(mem)[l]) && IsPrev(mem, ListsOf(mem)[l], key, prev[l])
    {
      ghost var s := ListsOf(mem);
      var x: nat := 0;
      var level := mem.maxHeight - 1;
      prev := seq(MAX_HEIGHT, _ => 0);
      while true
        invariant 0 <= level < mem.maxHeight && |prev| == MAX_HEIGHT
        invariant ReaderOk(mem, s, Searching(AtOrAfter(key), x, level))
        invariant (forall y :: y in s[0] ==> KeyOf(mem, y) != key) ==>
          forall l :: level < l < mem.maxHeight ==> IsPrev(mem, s[l], key, prev[l])
        decreases level, Rest(mem, s[0], x)
      {
        ghost var r0 := Searching(AtOrAfter(key), x, level);
        ReaderLoads(mem, s, r0);
        var next := mem.nodes[x].next[level];
        if next != NULL && Before(mem.nodes[next].entry.key, key) {
          RestShrinks(mem, s, level, x, next);
          x := next;
        } else {
          prev := prev[level := x];
          PrevFound(mem, s, level, x, key);
          if level == 0 {
            return next, prev;
          }
          level := level - 1;
        }
      }
    }

    // FindLessThan, and FindLast when there is no key.
    method FindLessThan(goal: Goal) returns (r: nat)
      requires Valid() && !goal.AtOrAfter?
      ensures InMemory(mem, Bottom(mem)) && 0 < |mem.nodes| && Result(mem, Bottom(mem), goal, r)
    {
      ghost var s := ListsOf(mem);
      var x: nat := 0;
      var level := mem.maxHeight - 1;
      while true
        invariant 0 <= level < mem.maxHeight && ReaderOk(mem, s, Searching(goal, x, level))
        decreases level, Rest(mem, s[0], x)
      {
        ghost var r0 := Searching(goal, x, level);
        ReaderLoads(mem, s, r0);
        var next := mem.nodes[x].next[level];
        if next == NULL || !Passes(goal, mem.nodes[next].entry.key) {
          if level == 0 {
            return x;
          }
          level := level - 1;
        } else {
          RestShrinks(mem, s, level, x, next);
          x := next;
        }
      }
    }

    /** Insert: its stores are steps of the writer of the concurrent model, and at the end the
        list holds exactly one entry more. */
    method Insert(entry: Entry, height: nat) returns (ghost run: seq<(Mem, Writer)>)
      requires Valid() && 1 <= height <= MAX_HEIGHT
      requires forall e :: e in EntriesOf(mem) ==> e.key != entry.key
      modifies this
      ensures Valid() && |run| > 0 && WriterRun(run) && run[0] == (old(mem), Idle) && run[|run| - 1] == (mem, Idle)
      ensures Contents(EntriesOf(mem)) == Contents(old(EntriesOf(mem))) + {entry}
    {
      hide Shape, WriterOk, ListsOf, WriterRun, WriterStep, EntriesOf, Result, IsPrev, Level;
      KeysAreNew(mem, entry.key);
      var _, prev := FindGreaterOrEqual(entry.key);
      var i := mem.maxHeight;
      while i < height
        invariant mem.maxHeight <= i && |prev| == MAX_HEIGHT && mem == old(mem)
        invariant forall l :: 0 <= l < i && l < MAX_HEIGHT ==> PrevIs(mem, l, entry.key, prev[l])
      {
        EmptyPrev(mem, i, entry.key);
        prev := prev[i := 0];
        i := i + 1;
      }
      ghost var m, w := mem, Idle;
      run := [(mem, Idle)];
      RunBegins(mem);
      var x := |mem.nodes|;
      mem := Mem(mem.nodes + [Node(entry, seq(height, _ => NULL))], if height > mem.maxHeight then height
        else mem.maxHeight);
      w := Linking(x, height, prev, 0, false);
      StartsInsert(m, entry, height, prev, mem);
      run := Extend(run, m, Idle, mem, w);
      i := 0;
      while i < height
        invariant 0 <= i <= height && |run| > 0 && WriterRun(run) && run[0] == (old(mem), Idle)
        invariant run[|run| - 1] == (mem, w)
        invariant Good(mem) && WriterOk(mem, ListsOf(mem), w)
        invariant w == if i == height then Idle else Linking(x, height, prev, i, false)
        invariant Bottom(mem) == if i == 0 then Bottom(old(mem)) else Bottom(old(mem)) + {x}
        invariant Appended(old(mem), mem, entry)
      {
        m := mem;
        NextLevel(mem, w);
        mem := SetNext(mem, x, i, mem.nodes[prev[i]].next[i]);
        run := Extend(run, m, w, mem, w.(ready := true));
        w := w.(ready := true);
        m := mem;
        NextLevel(mem, w);
        mem := SetNext(mem, prev[i], i, x);
        i := i + 1;
        run := Extend(run, m, w, mem, if i == height then Idle else Linking(x, height, prev, i, false));
        w := if i == height then Idle else Linking(x, height, prev, i, false);
      }
      InsertedEntries(old(mem), mem, entry);
    }

    method Contains(key: IKey) returns (r: bool)
      requires Valid()
      ensures r <==> exists e :: e in EntriesOf(mem) && e.key == key
    {
      EntriesSorted(mem);
      var x, _ := FindGreaterOrEqual(key);
      r := x != NULL && !Before(key, mem.nodes[x].entry.key);
      if r {
        assert mem.nodes[x].entry in EntriesOf(mem);
      }
    }
  }

  lemma RestShrinks(m: Mem, s: Lists, l: nat, x: nat, n: nat)
    requires Shape(m, s) && l < MAX_HEIGHT && x < |m.nodes| && IsNext(m, s[l], x, n)
    ensures n < |m.nodes| && Rest(m, s[0], n) < Rest(m, s[0], x)
  {
    hide Linked, Distinct;
    assert s[l] <= s[0];
    assert n in Rest(m, s[0], x) && n !in Rest(m, s[0], n);
  }

  lemma PrevFound(m: Mem, s: Lists, l: nat, x: nat, key: IKey)
    requires Shape(m, s) && l < MAX_HEIGHT && x < |m.nodes| && ReaderOk(m, s, Searching(AtOrAfter(key), x, l))
    requires l < |m.nodes[x].next| && IsNext(m, s[l], x, m.nodes[x].next[l])
    requires var n := m.nodes[x].next[l]; n == NULL || !Before(KeyOf(m, n), key)
    ensures (forall y :: y in s[0] ==> KeyOf(m, y) != key) ==> IsPrev(m, s[l], key, x)
  {
    hide Linked, Distinct;
    assert s[l] <= s[0];
  }

  ghost predicate PrevIs(m: Mem, l: nat, key: IKey, p: int) {
    && l < MAX_HEIGHT && 0 < |m.nodes| && InMemory(m, ListsOf(m)[l]) && IsPrev(m, ListsOf(m)[l], key, p)
  }

  // Old nodes keep their entries; the new one holds the entry.
  ghost predicate Appended(m: Mem, m': Mem, entry: Entry) {
    && |m'.nodes| == |m.nodes| + 1 && m'.nodes[|m.nodes|].entry == entry
    && forall x :: 0 <= x < |m.nodes| ==> m'.nodes[x].entry == m.nodes[x].entry
  }

  lemma KeysAreNew(m: Mem, key: IKey)
    requires Good(m) && forall e :: e in EntriesOf(m) ==> e.key != key
    ensures 0 < |m.nodes| && 1 <= m.maxHeight && InMemory(m, Bottom(m)) && forall y :: y in Bottom(m) ==>
      KeyOf(m, y) != key
  {
    hide Linked, Distinct, EntriesOf;
    EntriesSorted(m);
    forall y | y in Bottom(m) ensures KeyOf(m, y) != key {
      assert m.nodes[y].entry in EntriesOf(m);
    }
  }

  lemma EmptyPrev(m: Mem, l: nat, key: IKey)
    requires Good(m) && m.maxHeight <= l < MAX_HEIGHT
    ensures PrevIs(m, l, key, 0)
  {
    hide Linked, Distinct;
    assert ListsOf(m)[l] == {};
  }

  lemma StartsInsert(m: Mem, entry: Entry, height: nat, prev: seq<int>, m': Mem)
    requires Good(m) && 1 <= height <= MAX_HEIGHT && |prev| == MAX_HEIGHT
    requires InMemory(m, Bottom(m)) && forall y :: y in Bottom(m) ==> KeyOf(m, y) != entry.key
    requires forall l :: 0 <= l < height ==> PrevIs(m, l, entry.key, prev[l])
    requires m' == Mem(m.nodes + [Node(entry, seq(height, _ => NULL))], if height > m.maxHeight then height
      else m.maxHeight)
    ensures WriterStep(m, ListsOf(m), Idle, m', Linking(|m.nodes|, height, prev, 0, false))
    ensures Appended(m, m', entry)
  {
    hide Linked, Distinct, IsPrev;
    forall l | 0 <= l < height ensures IsPrev(m, ListsOf(m)[l], entry.key, prev[l]) {
      assert PrevIs(m, l, entry.key, prev[l]);
    }
    assert Start(m, ListsOf(m), entry, Linking(|m.nodes|, height, prev, 0, false), m');
  }

  // One more store, and what it keeps.
  lemma Extend(run: seq<(Mem, Writer)>, m: Mem, w: Writer, m': Mem, w': Writer) returns (r: seq<(Mem, Writer)>)
    requires |run| > 0 && WriterRun(run) && run[|run| - 1] == (m, w)
    requires Good(m) && WriterOk(m, ListsOf(m), w) && WriterStep(m, ListsOf(m), w, m', w')
    ensures r == run + [(m', w')] && WriterRun(r) && r[0] == run[0]
    ensures Good(m') && WriterOk(m', ListsOf(m'), w')
    ensures Bottom(m') == if w.Linking? && w.ready && w.level == 0 then Bottom(m) + {w.x} else Bottom(m)
    ensures |m.nodes| <= |m'.nodes| && forall x :: 0 <= x < |m.nodes| ==> m'.nodes[x].entry == m.nodes[x].entry
  {
    hide Linked, Distinct, WriterStep, ListsOf, WriterOk;
    RunExtends(run, m, w, m', w');
    r := run + [(m', w')];
    WriterKeeps(m, ListsOf(m), w, m', w');
    ShapeIsLists(m', ListsAfter(ListsOf(m), w));
    EntriesStay(m, ListsOf(m), w, m', w');
  }

  // The pointers of the level the writer links next are there.
  lemma NextLevel(m: Mem, w: Writer)
    requires Good(m) && WriterOk(m, ListsOf(m), w) && w.Linking?
    ensures w.level < w.height <= |w.prev| && w.level < MAX_HEIGHT
    ensures w.x < |m.nodes| && w.level < |m.nodes[w.x].next|
    ensures 0 <= w.prev[w.level] < |m.nodes| && w.level < |m.nodes[w.prev[w.level]].next|
    ensures !w.ready ==>
      WriterStep(m, ListsOf(m), w, SetNext(m, w.x, w.level, m.nodes[w.prev[w.level]].next[w.level]), w.(ready := true))
    ensures w.ready ==> WriterStep(m, ListsOf(m), w, SetNext(m, w.prev[w.level], w.level, w.x),
                                   if w.level + 1 == w.height then Idle else w.(level := w.level + 1, ready := false))
  {
    hide Linked, Distinct, Start;
    var p := w.prev[w.level];
    assert IsPrev(m, ListsOf(m)[w.level], KeyOf(m, w.x), p);
    NextIs(m, ListsOf(m)[w.level], w.level, p);
  }

  lemma InsertedEntries(m: Mem, m': Mem, entry: Entry)
    requires Good(m) && Good(m') && Bottom(m') == Bottom(m) + {|m.nodes|} && Appended(m, m', entry)
    ensures Contents(EntriesOf(m')) == Contents(EntriesOf(m)) + {entry}
  {
    hide Linked, Distinct, EntriesOf;
    EntriesSorted(m);
    EntriesSorted(m');
    var a, b := EntriesOf(m), EntriesOf(m');
    assert InMemory(m, Bottom(m));
    forall e ensures e in b <==> e in a || e == entry {
      if e in b {
        var x :| x in Bottom(m') && x < |m'.nodes| && m'.nodes[x].entry == e;
        assert x in Bottom(m) ==> m.nodes[x].entry == e;
      }
      if e in a {
        var x :| x in Bottom(m) && x < |m.nodes| && m.nodes[x].entry == e;
        assert x in Bottom(m') && m'.nodes[x].entry == e;
      }
      if e == entry {
        assert |m.nodes| in Bottom(m') && m'.nodes[|m.nodes|].entry == e;
      }
    }
  }

  // ------------------------------------------------------------------ positions

  // Where a node stands in the list; the end for no node.
  ghost predicate StandsAt(m: Mem, node: int, p: nat) {
    p <= |Level(m, 0)| && if p == |Level(m, 0)| then node == NULL else node == Level(m, 0)[p]
  }

  lemma NextStands(m: Mem, x: nat, n: int, p: int)
    requires Good(m) && x < |m.nodes| && -1 <= p < |Level(m, 0)| && x == (if p < 0 then 0 else Level(m, 0)[p])
    requires InMemory(m, Bottom(m)) && IsNext(m, Bottom(m), x, n)
    ensures StandsAt(m, n, p + 1)
  {
    LevelIs(m, ListsOf(m), 0);
    hide Shape, Level, ListsOf;
    NextInOrder(m, Level(m, 0), x, n, p);
  }

  lemma StandsNext(m: Mem, node: int, p: nat)
    requires Good(m) && StandsAt(m, node, p) && p < |EntriesOf(m)|
    ensures 0 < node < |m.nodes| && 0 < |m.nodes[node].next| && StandsAt(m, m.nodes[node].next[0], p + 1)
  {
    var s := ListsOf(m);
    BottomLinked(m);
    LevelIs(m, s, 0);
    hide Shape, ListsOf, Linked, StandsAt, IsNext, SortedNodes, Level;
    StandsThere(m, node, p);
    assert node in Elements(Level(m, 0));
    NextIs(m, s[0], 0, node);
    NextStands(m, node, m.nodes[node].next[0], p);
  }

  lemma StandsThere(m: Mem, node: int, p: nat)
    requires Good(m) && StandsAt(m, node, p) && p < |EntriesOf(m)|
    ensures p < |Level(m, 0)| && node == Level(m, 0)[p] && 0 < node < |m.nodes|
  {
    LevelIs(m, ListsOf(m), 0);
    hide Shape, Level, ListsOf;
  }

  lemma BottomLinked(m: Mem)
    requires Good(m)
    ensures 0 < |m.nodes| && |ListsOf(m)| == MAX_HEIGHT && InMemory(m, ListsOf(m)[0]) && Linked(m, ListsOf(m)[0], 0)
  {
    hide ListsOf, InMemory, Linked, Distinct;
  }

  lemma NextInOrder(m: Mem, w: seq<nat>, x: nat, n: int, p: int)
    requires SortedNodes(m, w) && x < |m.nodes| && -1 <= p < |w| && x == (if p < 0 then 0 else w[p])
    requires InMemory(m, Elements(w)) && IsNext(m, Elements(w), x, n)
    ensures if p + 1 == |w| then n == NULL else n == w[p + 1]
  {
    forall q | 0 <= q <= p ensures !After(m, x, w[q]) {
    }
    if p + 1 < |w| {
      assert w[p + 1] in Elements(w) && After(m, x, w[p + 1]);
      var q :| 0 <= q < |w| && w[q] == n;
      assert q > p;
    }
  }

  lemma ResultStands(m: Mem, key: IKey, r: int)
    requires Good(m) && InMemory(m, Bottom(m)) && 0 < |m.nodes| && Result(m, Bottom(m), AtOrAfter(key), r)
    ensures StandsAt(m, r, FirstFrom(EntriesOf(m), key))
  {
    var w, s := Level(m, 0), EntriesOf(m);
    var i := FirstFrom(s, key);
    LevelIs(m, ListsOf(m), 0);
    assert forall k :: 0 <= k < |w| ==> s[k].key == KeyOf(m, w[k]);
    hide Shape, Level, ListsOf, FirstFrom, EntriesOf;
    ResultInOrder(m, w, key, r, i);
  }

  lemma ResultInOrder(m: Mem, w: seq<nat>, key: IKey, r: int, i: nat)
    requires SortedNodes(m, w) && 0 < |m.nodes| && InMemory(m, Elements(w)) && Result(m, Elements(w), AtOrAfter(key), r)
    requires i <= |w| && (forall k :: 0 <= k < i ==> Before(KeyOf(m, w[k]), key))
    requires i < |w| ==> !Before(KeyOf(m, w[i]), key)
    ensures if i == |w| then r == NULL else r == w[i]
  {
    forall k | i <= k < |w| ensures !Before(KeyOf(m, w[k]), key) && (k == i || After(m, w[i], w[k])) {
    }
    hide Before;
    assert i < |w| ==> w[i] in Elements(w);
  }

  // The last node the goal passes stands just before the first one it does not.
  lemma LastStands(m: Mem, goal: Goal, r: nat, i: nat)
    requires Good(m) && InMemory(m, Bottom(m)) && 0 < |m.nodes| && !goal.AtOrAfter? && Result(m, Bottom(m), goal, r)
    requires i <= |Level(m, 0)| && forall k :: 0 <= k < |Level(m, 0)| ==> Level(m, 0)[k] < |m.nodes|
    requires forall k :: 0 <= k < |Level(m, 0)| ==> (k < i <==> Passes(goal, KeyOf(m, Level(m, 0)[k])))
    ensures if i == 0 then r == 0 else r == Level(m, 0)[i - 1]
  {
    LevelIs(m, ListsOf(m), 0);
    hide Shape, Level, ListsOf;
    LastInOrder(m, Level(m, 0), goal, r, i);
  }

  lemma LastInOrder(m: Mem, w: seq<nat>, goal: Goal, r: nat, i: nat)
    requires SortedNodes(m, w) && 0 < |m.nodes| && InMemory(m, Elements(w)) && i <= |w| && !goal.AtOrAfter?
    requires r == 0 || (r in Elements(w) && Passes(goal, KeyOf(m, r)))
    requires forall y :: y in Elements(w) && Passes(goal, KeyOf(m, y)) ==> y == r || !After(m, r, y)
    requires forall k :: 0 <= k < |w| ==> (k < i <==> Passes(goal, KeyOf(m, w[k])))
    ensures if i == 0 then r == 0 else r == w[i - 1]
  {
    forall q | 0 <= q < |w| && Passes(goal, KeyOf(m, w[q])) ensures q < i && (q == i - 1 || After(m, w[q], w[i - 1])) {
    }
    if i > 0 {
      assert w[i - 1] in Elements(w) && Passes(goal, KeyOf(m, w[i - 1]));
      assert !After(m, r, w[i - 1]) || r == w[i - 1];
    }
  }

  /** SkipList::Iterator: a cursor over the list. */
  class ListIterator {
    const list: SkipList
    var node: int
    ghost var pos: nat

    ghost predicate Valid()
      reads this, list
    {
      list.Valid() && StandsAt(list.mem, node, pos)
    }

    ghost function All(): seq<Entry>
      requires list.Valid()
      reads list
    {
      EntriesOf(list.mem)
    }

    constructor (list: SkipList)
      requires list.Valid()
      ensures Valid() && this.list == list && pos == |All()|
    {
      this.list := list;
      node := NULL;
      pos := |Level(list.mem, 0)|;
    }

    // Valid() and key()
    method Current() returns (e: Option<Entry>)
      requires Valid()
      ensures e == if pos < |All()| then Some(All()[pos]) else None
    {
      NodeIs();
      e := if node != NULL then Some(list.mem.nodes[node].entry) else None;
    }

    lemma NodeIs()
      requires Valid()
      ensures node == NULL <==> pos == |All()|
      ensures node != NULL ==>
        0 < node < |list.mem.nodes| && node in Bottom(list.mem) && list.mem.nodes[node].entry == All()[pos]
    {
      LevelIs(list.mem, ListsOf(list.mem), 0);
      assert node != NULL ==> node in Level(list.mem, 0);
    }

    method Next()
      requires Valid() && pos < |All()|
      modifies this
      ensures Valid() && pos == old(pos) + 1
    {
      hide Good, StandsAt, EntriesOf;
      StandsNext(list.mem, node, pos);
      node := list.mem.nodes[node].next[0];
      pos := pos + 1;
    }

    /** Prev searches for the last node before the key. */
    method Prev()
      requires Valid() && pos < |All()|
      modifies this
      ensures Valid() && pos == if old(pos) == 0 then |All()| else old(pos) - 1
    {
      hide Shape, Result, Level, ListsOf;
      NodeIs();
      var goal := JustBefore(list.mem.nodes[node].entry.key);
      var r := list.FindLessThan(goal);
      SmallerBefore(list.mem, pos);
      LastStands(list.mem, goal, r, pos);
      pos := if pos == 0 then |All()| else pos - 1;
      node := if r == 0 then NULL else r;
    }

    method Seek(target: IKey)
      requires Valid()
      modifies this
      ensures Valid() && pos == FirstFrom(All(), target)
    {
      var r, _ := list.FindGreaterOrEqual(target);
      ResultStands(list.mem, target, r);
      node := r;
      pos := FirstFrom(All(), target);
    }

    method SeekToFirst()
      requires Valid()
      modifies this
      ensures Valid() && pos == 0
    {
      NextIs(list.mem, ListsOf(list.mem)[0], 0, 0);
      NextStands(list.mem, 0, list.mem.nodes[0].next[0], -1);
      node := list.mem.nodes[0].next[0];
      pos := 0;
    }

    method SeekToLast()
      requires Valid()
      modifies this
      ensures Valid() && pos == if |All()| == 0 then 0 else |All()| - 1
    {
      hide Shape, Result, Level, ListsOf;
      var r := list.FindLessThan(AtEnd);
      LevelIs(list.mem, ListsOf(list.mem), 0);
      LastStands(list.mem, AtEnd, r, |Level(list.mem, 0)|);
      pos := if |All()| == 0 then 0 else |All()| - 1;
      node := if r == 0 then NULL else r;
    }
  }

  lemma SmallerBefore(m: Mem, p: nat)
    requires Good(m) && p < |Level(m, 0)|
    ensures forall k :: 0 <= k < |Level(m, 0)| ==> 0 < Level(m, 0)[k] < |m.nodes|
    ensures forall k :: 0 <= k < |Level(m, 0)| ==>
      (k < p <==> Before(KeyOf(m, Level(m, 0)[k]), KeyOf(m, Level(m, 0)[p])))
  {
    hide Shape, Level, ListsOf, Before, SortedNodes;
    LevelIs(m, ListsOf(m), 0);
    var w := Level(m, 0);
    NodesInOrder(m, w);
    forall k | 0 <= k < |w| ensures k < p <==> Before(KeyOf(m, w[k]), KeyOf(m, w[p])) {
      OnlyOneWay(KeyOf(m, w[k]), KeyOf(m, w[p]));
    }
  }

  lemma NodesInOrder(m: Mem, w: seq<nat>)
    requires SortedNodes(m, w)
    ensures forall k :: 0 <= k < |w| ==> 0 < w[k] < |m.nodes|
    ensures forall j, k :: 0 <= j < k < |w| ==> Before(KeyOf(m, w[j]), KeyOf(m, w[k]))
  {
    hide Before;
  }

  lemma OnlyOneWay(a: IKey, b: IKey)
    ensures !(Before(a, b) && Before(b, a)) && !Before(a, a)
  {
  }

  // ------------------------------------------------------------------ the memtable

  class MemTable {
    const table: SkipList

    ghost function Entries(): seq<Entry>
      requires table.Valid()
      reads table
    {
      EntriesOf(table.mem)
    }

    constructor ()
      ensures fresh(table) && table.Valid() && Entries() == []
    {
      table := new SkipList(Entry(SeekKey(0.0, 0), []));
    }

    /** Add: one entry more, whatever height the node is given. */
    method Add(sequence: nat, kind: Kind, key: UserKey, value: Bytes, height: nat)
      requires table.Valid() && 1 <= height <= MAX_HEIGHT
      requires forall e :: e in Entries() ==> e.key != IKey(key, sequence, kind)
      modifies table
      ensures table.Valid() && Sorted(Entries())
      ensures Contents(Entries()) == Contents(old(Entries())) + {Entry(IKey(key, sequence, kind), value)}
    {
      ghost var run := table.Insert(Entry(IKey(key, sequence, kind), value), height);
      EntriesSorted(table.mem);
    }

    /** Get: what a search of all the entries answers. */
    method Get(user: UserKey, q: nat) returns (r: Saver)
      requires table.Valid()
      ensures Answers(Contents(Entries()), user, q, r)
    {
      EntriesSorted(table.mem);
      var iter := new ListIterator(table);
      iter.Seek(SeekKey(user, q));
      ReadSorted(Entries(), user, q, iter.pos);
      var e := iter.Current();
      if e.Some? && e.value.key.user == user {
        r := if e.value.key.kind.Value? then Found(e.value.value) else Deleted;
      } else {
        r := NotFound;
      }
    }
  }
}
