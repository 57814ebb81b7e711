/** The skip list that readers search without a lock while one writer inserts (db/skiplist.h).

    Memory is a list of nodes; every load and every store of a pointer is one step. */
module SkipLists {
  import opened Keys

  const MAX_HEIGHT: nat := 12
  const NULL: int := -1

  datatype Node = Node(entry: Entry, next: seq<int>)

  // Node 0 is head_; its entry means nothing.
  datatype Mem = Mem(nodes: seq<Node>, maxHeight: nat)

  // The nodes linked in at each level: auxiliary, for the proof.
  type Lists = seq<set<nat>>

  function KeyOf(m: Mem, x: nat): IKey
    requires x < |m.nodes|
  {
    m.nodes[x].entry.key
  }

  // y comes after x; everything comes after the head.
  predicate After(m: Mem, x: nat, y: nat)
    requires x < |m.nodes| && y < |m.nodes|
  {
    x == 0 || Before(KeyOf(m, x), KeyOf(m, y))
  }

  ghost predicate InMemory(m: Mem, s: set<nat>) {
    forall x :: x in s ==> 0 < x < |m.nodes|
  }

  // n is the first of the nodes after x.
  ghost predicate IsNext(m: Mem, s: set<nat>, x: nat, n: int)
    requires InMemory(m, s) && x < |m.nodes|
  {
    if n == NULL then forall y :: y in s ==> !After(m, x, y)
    else 0 <= n && n in s && After(m, x, n) && forall y :: y in s && After(m, x, y) ==> y == n || After(m, n, y)
  }

  // Level l holds exactly the nodes of s, linked in key order from the head.
  ghost predicate Linked(m: Mem, s: set<nat>, l: nat)
    requires InMemory(m, s) && 0 < |m.nodes|
  {
    forall x :: x in s || x == 0 ==> l < |m.nodes[x].next| && IsNext(m, s, x, m.nodes[x].next[l])
  }

  ghost predicate Distinct(m: Mem, s: set<nat>)
    requires InMemory(m, s)
  {
    forall x, y :: x in s && y in s && x != y ==> KeyOf(m, x) != KeyOf(m, y)
  }

  ghost predicate Shape(m: Mem, s: Lists) {
    && 0 < |m.nodes| && |s| == MAX_HEIGHT && 1 <= m.maxHeight <= MAX_HEIGHT
    && (forall l :: 0 <= l < MAX_HEIGHT ==> InMemory(m, s[l]) && Linked(m, s[l], l))
    && (forall k, l :: 0 <= k < l < MAX_HEIGHT ==> s[l] <= s[k])
    && (forall l :: m.maxHeight <= l < MAX_HEIGHT ==> s[l] == {})
    && Distinct(m, s[0])
  }

  // ------------------------------------------------------------------ the writer

  // Where Insert is: which level it links next, and whether that level's pointer is prepared.
  datatype Writer = Idle | Linking(x: nat, height: nat, prev: seq<int>, level: nat, ready: bool)

  // p is the last of the nodes before the key, or the head.
  ghost predicate IsPrev(m: Mem, s: set<nat>, key: IKey, p: int)
    requires InMemory(m, s) && 0 < |m.nodes|
  {
    && 0 <= p && (p in s || p == 0) && (p == 0 || Before(KeyOf(m, p), key))
    && forall y :: y in s && After(m, p, y) ==> Before(key, KeyOf(m, y))
  }

  function SetNext(m: Mem, x: nat, l: nat, n: int): (r: Mem)
    requires x < |m.nodes| && l < |m.nodes[x].next|
  {
    m.(nodes := m.nodes[x := m.nodes[x].(next := m.nodes[x].next[l := n])])
  }

  // max_height_.store and NewNode; the new node's pointers hold anything.
  ghost predicate Start(m: Mem, s: Lists, entry: Entry, w': Writer, m': Mem) {
    && 0 < |m.nodes| && |s| == MAX_HEIGHT && (forall l :: 0 <= l < MAX_HEIGHT ==> InMemory(m, s[l]))
    && w'.Linking? && w'.x == |m.nodes| && w'.level == 0 && !w'.ready
    && 1 <= w'.height <= MAX_HEIGHT && |w'.prev| == MAX_HEIGHT
    && (forall x :: x in s[0] ==> KeyOf(m, x) != entry.key)
    && (forall l :: 0 <= l < w'.height ==> IsPrev(m, s[l], entry.key, w'.prev[l]))
    && |m'.nodes| == |m.nodes| + 1 && m'.nodes == m.nodes + [m'.nodes[|m.nodes|]]
    && m'.nodes[w'.x].entry == entry && |m'.nodes[w'.x].next| == w'.height
    && m'.maxHeight == if w'.height > m.maxHeight then w'.height else m.maxHeight
  }

  // x->NoBarrier_SetNext(i, prev[i]->NoBarrier_Next(i))
  ghost predicate Prepare(m: Mem, w: Writer, m': Mem, w': Writer) {
    && w.Linking? && !w.ready && w.level < w.height <= |w.prev| && w' == w.(ready := true)
    && 0 <= w.prev[w.level] < |m.nodes| && w.level < |m.nodes[w.prev[w.level]].next|
    && w.x < |m.nodes| && w.level < |m.nodes[w.x].next|
    && m' == SetNext(m, w.x, w.level, m.nodes[w.prev[w.level]].next[w.level])
  }

  // prev[i]->SetNext(i, x)
  ghost predicate Publish(m: Mem, w: Writer, m': Mem, w': Writer) {
    && w.Linking? && w.ready && w.level < w.height <= |w.prev|
    && 0 <= w.prev[w.level] < |m.nodes| && w.level < |m.nodes[w.prev[w.level]].next|
    && m' == SetNext(m, w.prev[w.level], w.level, w.x)
    && w' == if w.level + 1 == w.height then Idle else w.(level := w.level + 1, ready := false)
  }

  // What holds between the stores of an Insert.
  ghost predicate WriterOk(m: Mem, s: Lists, w: Writer)
    requires Shape(m, s)
  {
    w.Linking? ==>
      && w.level < w.height <= m.maxHeight && |w.prev| == MAX_HEIGHT
      && 0 < w.x < |m.nodes| && |m.nodes[w.x].next| == w.height
      && (forall l :: 0 <= l < MAX_HEIGHT ==> (w.x in s[l] <==> l < w.level))
      && (forall y :: y in s[0] && y != w.x ==> KeyOf(m, y) != KeyOf(m, w.x))
      && (forall l :: w.level <= l < w.height ==> IsPrev(m, s[l], KeyOf(m, w.x), w.prev[l]))
      && (w.ready ==>
        w.level < |m.nodes[w.prev[w.level]].next|
        && m.nodes[w.x].next[w.level] == m.nodes[w.prev[w.level]].next[w.level])
  }

  // The level lists after a step of the writer.
  ghost function ListsAfter(s: Lists, w: Writer): Lists {
    if w.Linking? && w.ready && w.level < |s| then s[w.level := s[w.level] + {w.x}] else s
  }

  ghost predicate WriterStep(m: Mem, s: Lists, w: Writer, m': Mem, w': Writer) {
    || (w.Idle? && exists entry :: Start(m, s, entry, w', m'))
    || Prepare(m, w, m', w')
    || Publish(m, w, m', w')
  }

  // The nodes of a level, and the head, keep their keys and their pointers there.
  ghost predicate SameLevel(m: Mem, m': Mem, s: set<nat>, l: nat) {
    && 0 < |m.nodes| <= |m'.nodes| && InMemory(m, s)
    && forall x :: x in s || x == 0 ==>
         && m'.nodes[x].entry == m.nodes[x].entry
         && l < |m.nodes[x].next| && l < |m'.nodes[x].next| && m'.nodes[x].next[l] == m.nodes[x].next[l]
  }

  lemma LinkedFrame(m: Mem, m': Mem, s: set<nat>, l: nat)
    requires SameLevel(m, m', s, l) && Linked(m, s, l)
    ensures InMemory(m', s) && Linked(m', s, l)
  {
    forall x | x in s || x == 0 ensures IsNext(m', s, x, m'.nodes[x].next[l]) {
      assert IsNext(m, s, x, m.nodes[x].next[l]);
    }
  }

  lemma ShapeFrame(m: Mem, m': Mem, s: Lists)
    requires Shape(m, s) && |m.nodes| <= |m'.nodes| && m.maxHeight <= m'.maxHeight <= MAX_HEIGHT
    requires forall l :: 0 <= l < MAX_HEIGHT ==> SameLevel(m, m', s[l], l)
    ensures Shape(m', s)
  {
    forall l | 0 <= l < MAX_HEIGHT ensures InMemory(m', s[l]) && Linked(m', s[l], l) {
      LinkedFrame(m, m', s[l], l);
    }
    assert SameLevel(m, m', s[0], 0);
    forall x, y | x in s[0] && y in s[0] && x != y ensures KeyOf(m', x) != KeyOf(m', y) {
      assert KeyOf(m, x) != KeyOf(m, y);
    }
  }

  // The store of a pointer that no level reads leaves all levels as they are.
  lemma SetNextFrame(m: Mem, s: set<nat>, l: nat, x: nat, k: nat, n: int)
    requires 0 < |m.nodes| && InMemory(m, s) && Linked(m, s, l)
    requires 0 < x < |m.nodes| && k < |m.nodes[x].next| && (x !in s || k != l)
    ensures SameLevel(m, SetNext(m, x, k, n), s, l)
  {
    forall z | z in s || z == 0 ensures l < |m.nodes[z].next| {
      assert IsNext(m, s, z, m.nodes[z].next[l]);
    }
  }

  lemma GrowFrame(m: Mem, m': Mem, s: set<nat>, l: nat)
    requires 0 < |m.nodes| && InMemory(m, s) && Linked(m, s, l)
    requires |m.nodes| <= |m'.nodes| && forall x :: 0 <= x < |m.nodes| ==> m'.nodes[x] == m.nodes[x]
    ensures SameLevel(m, m', s, l)
  {
    forall z | z in s || z == 0 ensures l < |m.nodes[z].next| {
      assert IsNext(m, s, z, m.nodes[z].next[l]);
    }
  }

  // What IsPrev says does not depend on pointers.
  lemma IsPrevFrame(m: Mem, m': Mem, s: set<nat>, key: IKey, p: int)
    requires 0 < |m.nodes| <= |m'.nodes| && InMemory(m, s) && IsPrev(m, s, key, p)
    requires forall x :: 0 <= x < |m.nodes| ==> m'.nodes[x].entry == m.nodes[x].entry
    ensures InMemory(m', s) && IsPrev(m', s, key, p)
  {
  }

  // One pointer store links the prepared node into its level.
  lemma LinkIn(m: Mem, s: set<nat>, l: nat, p: nat, x: nat, m': Mem)
    requires 0 < |m.nodes| && InMemory(m, s) && Linked(m, s, l) && Distinct(m, s)
    requires 0 < x < |m.nodes| && x !in s && l < |m.nodes[x].next|
    requires forall y :: y in s ==> KeyOf(m, y) != KeyOf(m, x)
    requires IsPrev(m, s, KeyOf(m, x), p) && l < |m.nodes[p].next|
    requires m.nodes[x].next[l] == m.nodes[p].next[l] && m' == SetNext(m, p, l, x)
    ensures InMemory(m', s + {x}) && Linked(m', s + {x}, l)
  {
    var t := s + {x};
    assert forall y :: 0 <= y < |m.nodes| ==> m'.nodes[y].entry == m.nodes[y].entry;
    forall z | z in t || z == 0 ensures l < |m'.nodes[z].next| && IsNext(m', t, z, m'.nodes[z].next[l]) {
      LinkInAt(m, s, l, p, x, z);
      IsNextFrame(m, m', t, z, m'.nodes[z].next[l]);
    }
  }

  lemma IsNextFrame(m: Mem, m': Mem, t: set<nat>, z: nat, n: int)
    requires |m.nodes| == |m'.nodes| && z < |m.nodes| && InMemory(m, t)
    requires forall y :: 0 <= y < |m.nodes| ==> m'.nodes[y].entry == m.nodes[y].entry
    ensures InMemory(m', t) && (IsNext(m, t, z, n) ==> IsNext(m', t, z, n))
  {
  }

  lemma LinkInAt(m: Mem, s: set<nat>, l: nat, p: nat, x: nat, z: nat)
    requires 0 < |m.nodes| && InMemory(m, s) && Linked(m, s, l) && Distinct(m, s)
    requires 0 < x < |m.nodes| && x !in s && l < |m.nodes[x].next|
    requires forall y :: y in s ==> KeyOf(m, y) != KeyOf(m, x)
    requires IsPrev(m, s, KeyOf(m, x), p) && l < |m.nodes[p].next|
    requires m.nodes[x].next[l] == m.nodes[p].next[l] && (z in s + {x} || z == 0)
    ensures l < |m.nodes[z].next| && IsNext(m, s + {x}, z, if z == p then x else m.nodes[z].next[l])
  {
    if z == p {
    } else if z == x {
      assert IsNext(m, s, p, m.nodes[p].next[l]);
    } else {
      var n := m.nodes[z].next[l];
      assert IsNext(m, s, z, n);
      if After(m, z, x) {
        assert p in s ==> KeyOf(m, z) != KeyOf(m, p) || z == 0;
      }
    }
  }

  /** Every store of an Insert keeps every level a sorted list, and a sublist of the level
      below; nothing leaves a list. */
  lemma WriterKeeps(m: Mem, s: Lists, w: Writer, m': Mem, w': Writer)
    requires Shape(m, s) && WriterOk(m, s, w) && WriterStep(m, s, w, m', w')
    ensures Shape(m', ListsAfter(s, w)) && WriterOk(m', ListsAfter(s, w), w')
    ensures forall l :: 0 <= l < MAX_HEIGHT ==> s[l] <= ListsAfter(s, w)[l]
  {
    if w.Idle? {
      StartKeeps(m, s, m', w');
    } else if Prepare(m, w, m', w') {
      PrepareKeeps(m, s, w, m', w');
    } else {
      PublishKeeps(m, s, w, m', w');
    }
  }

  lemma StartKeeps(m: Mem, s: Lists, m': Mem, w': Writer)
    requires Shape(m, s) && exists entry :: Start(m, s, entry, w', m')
    ensures Shape(m', s) && WriterOk(m', s, w')
  {
    var entry :| Start(m, s, entry, w', m');
    assert forall x :: 0 <= x < |m.nodes| ==> m'.nodes[x] == m.nodes[x];
    forall l | 0 <= l < MAX_HEIGHT ensures SameLevel(m, m', s[l], l) {
      GrowFrame(m, m', s[l], l);
    }
    ShapeFrame(m, m', s);
    forall l | 0 <= l < w'.height ensures IsPrev(m', s[l], entry.key, w'.prev[l]) {
      IsPrevFrame(m, m', s[l], entry.key, w'.prev[l]);
    }
  }

  lemma PrepareKeeps(m: Mem, s: Lists, w: Writer, m': Mem, w': Writer)
    requires Shape(m, s) && WriterOk(m, s, w) && Prepare(m, w, m', w')
    ensures Shape(m', s) && WriterOk(m', s, w')
  {
    forall l | 0 <= l < MAX_HEIGHT ensures SameLevel(m, m', s[l], l) {
      assert Linked(m, s[l], l);
      SetNextFrame(m, s[l], l, w.x, w.level, m.nodes[w.prev[w.level]].next[w.level]);
    }
    ShapeFrame(m, m', s);
    forall l | w.level <= l < w.height ensures IsPrev(m', s[l], KeyOf(m', w.x), w.prev[l]) {
      IsPrevFrame(m, m', s[l], KeyOf(m, w.x), w.prev[l]);
    }
    assert w.prev[w.level] != w.x;
  }

  lemma PublishKeeps(m: Mem, s: Lists, w: Writer, m': Mem, w': Writer)
    requires Shape(m, s) && WriterOk(m, s, w) && Publish(m, w, m', w')
    ensures Shape(m', ListsAfter(s, w)) && WriterOk(m', ListsAfter(s, w), w')
  {
    hide IsNext, IsPrev, Linked, Distinct, Before, After;
    var t := ListsAfter(s, w);
    PublishLinks(m, s, w, m', w');
    PublishDistinct(m, s[0], m', w.x);
    PublishNests(s, m.maxHeight, w);
    assert t[0] == s[0] || t[0] == s[0] + {w.x};
    assert Shape(m', t);
    if w'.Linking? {
      PublishPrevs(m, s, w, m', w');
    }
  }

  lemma PublishNests(s: Lists, maxHeight: nat, w: Writer)
    requires |s| == MAX_HEIGHT && (forall k, l :: 0 <= k < l < MAX_HEIGHT ==> s[l] <= s[k])
    requires forall l :: maxHeight <= l < MAX_HEIGHT ==> s[l] == {}
    requires w.Linking? && w.level < maxHeight <= MAX_HEIGHT && forall l :: 0 <= l < MAX_HEIGHT ==>
      (w.x in s[l] <==> l < w.level)
    ensures var t := ListsAfter(s, w);
      && (forall k, l :: 0 <= k < l < MAX_HEIGHT ==> t[l] <= t[k])
      && (forall l :: maxHeight <= l < MAX_HEIGHT ==> t[l] == {})
  {
  }

  lemma PublishPrevs(m: Mem, s: Lists, w: Writer, m': Mem, w': Writer)
    requires Shape(m, s) && WriterOk(m, s, w) && Publish(m, w, m', w') && w'.Linking?
    requires Shape(m', ListsAfter(s, w))
    ensures WriterOk(m', ListsAfter(s, w), w')
  {
    hide IsNext, IsPrev, Linked, Distinct, Before, After;
    var t := ListsAfter(s, w);
    assert t[0] == s[0] || t[0] == s[0] + {w.x};
    forall l | w.level + 1 <= l < w.height ensures IsPrev(m', t[l], KeyOf(m', w.x), w.prev[l]) {
      IsPrevFrame(m, m', s[l], KeyOf(m, w.x), w.prev[l]);
    }
  }

  lemma PublishLinks(m: Mem, s: Lists, w: Writer, m': Mem, w': Writer)
    requires Shape(m, s) && WriterOk(m, s, w) && Publish(m, w, m', w')
    ensures forall l :: 0 <= l < MAX_HEIGHT ==> var t := ListsAfter(s, w); InMemory(m', t[l]) && Linked(m', t[l], l)
  {
    var i, p, t := w.level, w.prev[w.level], ListsAfter(s, w);
    assert Linked(m, s[i], i) && s[i] <= s[0] && 0 <= p < |m.nodes|;
    hide IsNext, IsPrev, Linked, Distinct, Before, After;
    SubsetDistinct(m, s[0], s[i]);
    LinkIn(m, s[i], i, p, w.x, m');
    forall l | 0 <= l < MAX_HEIGHT ensures InMemory(m', t[l]) && Linked(m', t[l], l) {
      if l != i {
        PublishFrame(m, s[l], l, p, i, w.x);
        LinkedFrame(m, m', s[l], l);
      }
    }
  }

  lemma SubsetDistinct(m: Mem, s: set<nat>, t: set<nat>)
    requires InMemory(m, s) && Distinct(m, s) && t <= s
    ensures InMemory(m, t) && Distinct(m, t)
  {
  }

  lemma PublishFrame(m: Mem, s: set<nat>, l: nat, p: nat, i: nat, x: nat)
    requires 0 < |m.nodes| && InMemory(m, s) && Linked(m, s, l) && l != i
    requires p < |m.nodes| && i < |m.nodes[p].next|
    ensures SameLevel(m, SetNext(m, p, i, x), s, l)
  {
    forall z | z in s || z == 0 ensures l < |m.nodes[z].next| {
      assert IsNext(m, s, z, m.nodes[z].next[l]);
    }
  }

  lemma PublishDistinct(m: Mem, s: set<nat>, m': Mem, x: nat)
    requires InMemory(m, s) && Distinct(m, s) && 0 < x < |m.nodes| <= |m'.nodes|
    requires forall y :: 0 <= y < |m.nodes| ==> m'.nodes[y].entry == m.nodes[y].entry
    requires forall y :: y in s && y != x ==> KeyOf(m, y) != KeyOf(m, x)
    ensures InMemory(m', s + {x}) && Distinct(m', s + {x}) && Distinct(m', s)
  {
  }

  // ------------------------------------------------------------------ readers

  // FindGreaterOrEqual, FindLessThan and FindLast.
  datatype Goal = AtOrAfter(target: IKey) | JustBefore(target: IKey) | AtEnd

  datatype Reader = Searching(goal: Goal, x: nat, level: nat) | Done(goal: Goal, result: int)

  // Whether the search moves on over a node with this key.
  predicate Passes(goal: Goal, key: IKey) {
    goal.AtEnd? || Before(key, goal.target)
  }

  // One load of a pointer, and what the search does with it.
  function Load(m: Mem, r: Reader): (r': Reader)
    requires r.Searching? && r.x < |m.nodes| && r.level < |m.nodes[r.x].next|
    requires m.nodes[r.x].next[r.level] == NULL || 0 <= m.nodes[r.x].next[r.level] < |m.nodes|
  {
    var next := m.nodes[r.x].next[r.level];
    if next != NULL && Passes(r.goal, KeyOf(m, next)) then r.(x := next)
    else if r.level > 0 then r.(level := r.level - 1)
    else Done(r.goal, if r.goal.AtOrAfter? then next else r.x)
  }

  // GetMaxHeight() - 1, at whatever time it is loaded.
  function Begin(m: Mem, goal: Goal): Reader
    requires 1 <= m.maxHeight
  {
    Searching(goal, 0, m.maxHeight - 1)
  }

  // A search stands on a node of its level that it may pass, or on the head.
  ghost predicate ReaderOk(m: Mem, s: Lists, r: Reader)
    requires Shape(m, s)
  {
    r.Searching? ==>
      && r.level < MAX_HEIGHT && (r.x == 0 || (r.x in s[r.level] && Passes(r.goal, KeyOf(m, r.x))))
  }

  lemma ReaderLoads(m: Mem, s: Lists, r: Reader)
    requires Shape(m, s) && r.Searching? && ReaderOk(m, s, r)
    ensures r.x < |m.nodes| && r.level < |m.nodes[r.x].next| && IsNext(m, s[r.level], r.x, m.nodes[r.x].next[r.level])
    ensures ReaderOk(m, s, Load(m, r))
    ensures Load(m, r).Done? ==> r.level == 0 && Result(m, s[0], r.goal, Load(m, r).result)
  {
    assert Linked(m, s[r.level], r.level);
    NextIs(m, s[r.level], r.level, r.x);
    if r.level > 0 {
      assert s[r.level] <= s[r.level - 1];
    }
  }

  // What a search must give, over the nodes of the bottom level.
  ghost predicate Result(m: Mem, s: set<nat>, goal: Goal, result: int)
    requires InMemory(m, s) && 0 < |m.nodes|
  {
    match goal
    case AtOrAfter(target) =>
      if result == NULL then forall y :: y in s ==> Before(KeyOf(m, y), target)
      else
        && 0 <= result && result in s && !Before(KeyOf(m, result), target)
        && forall y :: y in s && !Before(KeyOf(m, y), target) ==> y == result || After(m, result, y)
    case _ =>
      && 0 <= result && (result == 0 || (result in s && Passes(goal, KeyOf(m, result))))
      && forall y :: y in s && Passes(goal, KeyOf(m, y)) ==> y == result || !After(m, result, y)
  }

  // ------------------------------------------------------------------ the lists themselves

  // The nodes met by following the pointers of a level from x.
  ghost function Walk(m: Mem, l: nat, x: nat, fuel: nat): seq<nat>
    decreases fuel
  {
    if fuel == 0 || x >= |m.nodes| || l >= |m.nodes[x].next| || m.nodes[x].next[l] < 0 then []
    else [m.nodes[x].next[l]] + Walk(m, l, m.nodes[x].next[l], fuel - 1)
  }

  // A level of the list: what its pointers lead to from the head.
  ghost function Level(m: Mem, l: nat): seq<nat> {
    Walk(m, l, 0, |m.nodes|)
  }

  ghost function Rest(m: Mem, s: set<nat>, x: nat): set<nat>
    requires InMemory(m, s) && x < |m.nodes|
  {
    set y | y in s && After(m, x, y)
  }

  lemma {:induction false} BoundedSet(s: set<nat>, n: nat)
    requires forall x :: x in s ==> x < n
    ensures |s| <= n
  {
    if n > 0 {
      BoundedSet(s - {n - 1}, n - 1);
      if n - 1 in s {
        assert s == (s - {n - 1}) + {n - 1};
      }
    } else {
      assert s == {};
    }
  }

  ghost predicate SortedNodes(m: Mem, w: seq<nat>) {
    && (forall i :: 0 <= i < |w| ==> 0 < w[i] < |m.nodes|)
    && forall i, j :: 0 <= i < j < |w| ==> Before(KeyOf(m, w[i]), KeyOf(m, w[j]))
  }

  lemma RestStep(m: Mem, s: set<nat>, x: nat, n: nat)
    requires InMemory(m, s) && Distinct(m, s) && x < |m.nodes| && IsNext(m, s, x, n)
    ensures Rest(m, s, x) == Rest(m, s, n) + {n} && |Rest(m, s, x)| == |Rest(m, s, n)| + 1
  {
    assert n !in Rest(m, s, n);
  }

  ghost function Elements(w: seq<nat>): set<nat> {
    set y | y in w
  }

  lemma NextIs(m: Mem, s: set<nat>, l: nat, x: nat)
    requires 0 < |m.nodes| && InMemory(m, s) && Linked(m, s, l) && (x in s || x == 0)
    ensures x < |m.nodes| && l < |m.nodes[x].next| && IsNext(m, s, x, m.nodes[x].next[l])
  {
  }

  lemma {:induction false} WalkIsRest(m: Mem, s: set<nat>, l: nat, x: nat, fuel: nat)
    requires 0 < |m.nodes| && InMemory(m, s) && Linked(m, s, l) && Distinct(m, s) && (x in s || x == 0)
    requires fuel >= |Rest(m, s, x)|
    ensures Elements(Walk(m, l, x, fuel)) == Rest(m, s, x) && SortedNodes(m, Walk(m, l, x, fuel))
    decreases fuel
  {
    hide Linked, Distinct, SortedNodes;
    NextIs(m, s, l, x);
    var n := m.nodes[x].next[l];
    if n == NULL {
      assert Rest(m, s, x) == {};
      NoneSorted(m);
    } else {
      RestStep(m, s, x, n);
      assert n in s;
      WalkIsRest(m, s, l, n, fuel - 1);
      WalkStep(m, l, x, n, fuel);
      PrependWalk(m, s, n, Walk(m, l, n, fuel - 1));
    }
  }

  lemma NoneSorted(m: Mem)
    ensures SortedNodes(m, []) && Elements([]) == {}
  {
  }

  lemma PrependWalk(m: Mem, s: set<nat>, n: nat, w: seq<nat>)
    requires InMemory(m, s) && n in s && SortedNodes(m, w) && Elements(w) == Rest(m, s, n)
    ensures SortedNodes(m, [n] + w) && Elements([n] + w) == Rest(m, s, n) + {n}
  {
    forall k | 0 <= k < |w| ensures Before(KeyOf(m, n), KeyOf(m, w[k])) {
      assert w[k] in Elements(w);
    }
    forall y ensures y in Elements([n] + w) <==> y in Elements(w) + {n} {
    }
  }

  lemma WalkStep(m: Mem, l: nat, x: nat, n: nat, fuel: nat)
    requires fuel > 0 && x < |m.nodes| && l < |m.nodes[x].next| && m.nodes[x].next[l] == n
    ensures Walk(m, l, x, fuel) == [n] + Walk(m, l, n, fuel - 1)
  {
  }

  lemma LevelIs(m: Mem, s: Lists, l: nat)
    requires Shape(m, s) && l < MAX_HEIGHT
    ensures Elements(Level(m, l)) == s[l]
    ensures SortedNodes(m, Level(m, l))
  {
    assert Linked(m, s[l], l) && s[l] <= s[0];
    BoundedSet(Rest(m, s[l], 0), |m.nodes|);
    assert Rest(m, s[l], 0) == s[l];
    WalkIsRest(m, s[l], l, 0, |m.nodes|);
  }

  // ------------------------------------------------------------------ every interleaving

  // The lists themselves, as sets of nodes.
  ghost function ListsOf(m: Mem): Lists {
    seq(MAX_HEIGHT, l requires 0 <= l => Elements(Level(m, l)))
  }

  lemma ShapeIsLists(m: Mem, s: Lists)
    requires Shape(m, s)
    ensures ListsOf(m) == s
  {
    forall l | 0 <= l < MAX_HEIGHT ensures ListsOf(m)[l] == s[l] {
      LevelIs(m, s, l);
    }
  }

  // One writer and any number of searches.
  datatype Conf = Conf(mem: Mem, writer: Writer, readers: map<nat, Reader>)

  ghost predicate Initial(c: Conf) {
    && |c.mem.nodes| == 1 && c.mem.nodes[0].next == seq(MAX_HEIGHT, _ => NULL) && c.mem.maxHeight == 1
    && c.writer.Idle? && c.readers == map[]
  }

  ghost predicate Inv(c: Conf) {
    && Shape(c.mem, ListsOf(c.mem)) && WriterOk(c.mem, ListsOf(c.mem), c.writer)
    && forall i :: i in c.readers ==> ReaderOk(c.mem, ListsOf(c.mem), c.readers[i])
  }

  datatype Move = Write | Search(reader: nat, goal: Goal) | Read(reader: nat)

  ghost predicate Step(c: Conf, move: Move, c': Conf) {
    match move
    case Write => WriterStep(c.mem, ListsOf(c.mem), c.writer, c'.mem, c'.writer) && c'.readers == c.readers
    case Search(i, goal) => 1 <= c.mem.maxHeight && c' == c.(readers := c.readers[i := Begin(c.mem, goal)])
    case Read(i) =>
      && i in c.readers && c.readers[i].Searching?
      && Loads(c.mem, c.readers[i])
      && c' == c.(readers := c.readers[i := Load(c.mem, c.readers[i])])
  }

  // The search can load its next pointer.
  predicate Loads(m: Mem, r: Reader) {
    && r.Searching? && r.x < |m.nodes| && r.level < |m.nodes[r.x].next|
    && (m.nodes[r.x].next[r.level] == NULL || 0 <= m.nodes[r.x].next[r.level] < |m.nodes|)
  }

  lemma InitialInv(c: Conf)
    requires Initial(c)
    ensures Inv(c)
  {
    var s: Lists := seq(MAX_HEIGHT, _ => {});
    assert Shape(c.mem, s);
    ShapeIsLists(c.mem, s);
  }

  lemma ReaderStays(m: Mem, s: Lists, m': Mem, s': Lists, r: Reader)
    requires Shape(m, s) && Shape(m', s') && ReaderOk(m, s, r) && |m.nodes| <= |m'.nodes|
    requires forall l :: 0 <= l < MAX_HEIGHT ==> s[l] <= s'[l]
    requires forall x :: 0 <= x < |m.nodes| ==> m'.nodes[x].entry == m.nodes[x].entry
    ensures ReaderOk(m', s', r)
  {
    hide Linked, Distinct;
  }

  /** Every step keeps every level sorted and a sublist of the one below, loses no node, and
      leaves every search where it can go on. */
  lemma StepKeeps(c: Conf, move: Move, c': Conf)
    requires Inv(c) && Step(c, move, c')
    ensures Inv(c')
    ensures forall l :: 0 <= l < MAX_HEIGHT ==> ListsOf(c.mem)[l] <= ListsOf(c'.mem)[l]
    ensures |c.mem.nodes| <= |c'.mem.nodes| && forall x :: 0 <= x < |c.mem.nodes| ==>
      c'.mem.nodes[x].entry == c.mem.nodes[x].entry
  {
    hide Shape, WriterOk, ListsOf;
    var s := ListsOf(c.mem);
    match move {
      case Write =>
        WriterKeeps(c.mem, s, c.writer, c'.mem, c'.writer);
        ShapeIsLists(c'.mem, ListsAfter(s, c.writer));
        EntriesStay(c.mem, s, c.writer, c'.mem, c'.writer);
        forall i | i in c.readers ensures ReaderOk(c'.mem, ListsAfter(s, c.writer), c.readers[i]) {
          ReaderStays(c.mem, s, c'.mem, ListsAfter(s, c.writer), c.readers[i]);
        }
      case Search(i, goal) =>
        BeginOk(c.mem, s, goal);
      case Read(i) =>
        ReaderLoads(c.mem, s, c.readers[i]);
    }
  }

  lemma BeginOk(m: Mem, s: Lists, goal: Goal)
    requires Shape(m, s)
    ensures ReaderOk(m, s, Begin(m, goal))
  {
  }

  lemma EntriesStay(m: Mem, s: Lists, w: Writer, m': Mem, w': Writer)
    requires Shape(m, s) && WriterStep(m, s, w, m', w')
    ensures |m.nodes| <= |m'.nodes| && forall x :: 0 <= x < |m.nodes| ==> m'.nodes[x].entry == m.nodes[x].entry
  {
    if w.Idle? {
      var entry :| Start(m, s, entry, w', m');
      assert forall x :: 0 <= x < |m.nodes| ==> m'.nodes[x] == m.nodes[x];
    }
  }

  // A run: configurations joined by steps.
  ghost predicate Run(run: seq<Conf>, moves: seq<Move>) {
    && |run| == |moves| + 1 && Initial(run[0])
    && forall k :: 0 <= k < |moves| ==> NthStep(run, moves, k)
  }

  ghost predicate NthStep(run: seq<Conf>, moves: seq<Move>, k: nat)
    requires k < |moves| < |run|
  {
    Step(run[k], moves[k], run[k + 1])
  }

  lemma {:induction false} RunInv(run: seq<Conf>, moves: seq<Move>, k: nat)
    requires Run(run, moves) && k < |run|
    ensures Inv(run[k])
  {
    if k == 0 {
      InitialInv(run[0]);
    } else {
      RunInv(run, moves, k - 1);
      assert NthStep(run, moves, k - 1);
      StepKeeps(run[k - 1], moves[k - 1], run[k]);
    }
  }

  /** In every run, at every moment between two stores, each level is a list in key order and
      the nodes of a level are on every level below. */
  lemma LevelsAreSorted(run: seq<Conf>, moves: seq<Move>, k: nat, l: nat)
    requires Run(run, moves) && k < |run| && l < MAX_HEIGHT
    ensures SortedNodes(run[k].mem, Level(run[k].mem, l))
    ensures l > 0 ==> Elements(Level(run[k].mem, l)) <= Elements(Level(run[k].mem, l - 1))
  {
    hide Shape, WriterOk, ReaderOk, Level;
    RunInv(run, moves, k);
    LevelNests(run[k].mem, l);
  }

  lemma LevelNests(m: Mem, l: nat)
    requires Shape(m, ListsOf(m)) && l < MAX_HEIGHT
    ensures SortedNodes(m, Level(m, l))
    ensures l > 0 ==> Elements(Level(m, l)) <= Elements(Level(m, l - 1))
  {
    hide Linked, Distinct, Level;
    LevelIs(m, ListsOf(m), l);
    if l > 0 {
      assert ListsOf(m)[l] <= ListsOf(m)[l - 1];
    }
  }

  lemma NodesInMemory(m: Mem, l: nat, x: nat)
    requires Shape(m, ListsOf(m)) && l < MAX_HEIGHT && x in Level(m, l)
    ensures x < |m.nodes|
  {
    hide Linked, Distinct;
    assert x in ListsOf(m)[l];
  }

  // The nodes that hold an entry once in a list stay there.
  lemma {:induction false} ListsGrow(run: seq<Conf>, moves: seq<Move>, j: nat, k: nat, l: nat, x: nat)
    requires Run(run, moves) && j <= k < |run| && l < MAX_HEIGHT && x in Level(run[j].mem, l)
    ensures x in Level(run[k].mem, l) && x < |run[j].mem.nodes| <= |run[k].mem.nodes|
    ensures run[k].mem.nodes[x].entry == run[j].mem.nodes[x].entry
    decreases k - j
  {
    hide Shape, WriterOk, Level;
    RunInv(run, moves, j);
    NodesInMemory(run[j].mem, l, x);
    if j == k {
      assert x in ListsOf(run[j].mem)[l];
    } else {
      assert NthStep(run, moves, j);
      StepKeeps(run[j], moves[j], run[j + 1]);
      assert x in ListsOf(run[j].mem)[l] && x in ListsOf(run[j + 1].mem)[l];
      ListsGrow(run, moves, j + 1, k, l, x);
    }
  }

  /** A search takes effect at its last load: its answer is right for the list as it is then. */
  lemma SearchLinearizes(run: seq<Conf>, moves: seq<Move>, k: nat, i: nat)
    requires Run(run, moves) && k < |moves| && moves[k] == Read(i)
    requires i in run[k + 1].readers && run[k + 1].readers[i].Done?
    ensures var m, r := run[k].mem, run[k + 1].readers[i];
      InMemory(m, Elements(Level(m, 0))) && 0 < |m.nodes| && Result(m, Elements(Level(m, 0)), r.goal, r.result)
  {
    RunInv(run, moves, k);
    assert NthStep(run, moves, k);
    var m := run[k].mem;
    hide Linked, Distinct, Result;
    ReaderLoads(m, ListsOf(m), run[k].readers[i]);
  }

  /** A key that was in the list at any time before a search ends is not missed by it. */
  lemma SearchMissesNothing(run: seq<Conf>, moves: seq<Move>, j: nat, k: nat, i: nat, x: nat, target: IKey)
    requires Run(run, moves) && j <= k < |moves| && moves[k] == Read(i)
    requires i in run[k + 1].readers && run[k + 1].readers[i].Done? && run[k + 1].readers[i].goal == AtOrAfter(target)
    requires x in Level(run[j].mem, 0) && x < |run[j].mem.nodes| && !Before(KeyOf(run[j].mem, x), target)
    ensures var m, r := run[k].mem, run[k + 1].readers[i].result;
      0 < r < |m.nodes| && !Before(KeyOf(m, r), target) && x < |m.nodes| && (r == x || Before(KeyOf(m, r), KeyOf(m, x)))
  {
    ListsGrow(run, moves, j, k, 0, x);
    SearchLinearizes(run, moves, k, i);
    assert x in Elements(Level(run[k].mem, 0));
  }
}
