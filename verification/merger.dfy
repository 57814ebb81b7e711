/** Cursors over sorted entries and the merging iterator (table/merger.cc,
    table/iterator_wrapper.h, include/leveldb/iterator.h). */
module Merger {
  import opened Keys
  import opened Version

  /** What the Iterator interface promises of a child: a position in a sorted list of
      entries; the one invalid position is the end of the list. */
  class Cursor {
    const data: seq<Entry>
    var pos: nat

    constructor (data: seq<Entry>)
      ensures this.data == data && pos == |data|
    {
      this.data := data;
      pos := |data|;
    }

    predicate Valid()
      reads this
    {
      pos < |data|
    }

    function Current(): Entry
      requires Valid()
      reads this
    {
      data[pos]
    }

    method SeekToFirst()
      modifies this`pos
      ensures pos == 0
    {
      pos := 0;
    }

    method SeekToLast()
      modifies this`pos
      ensures pos == if |data| == 0 then 0 else |data| - 1
    {
      pos := if |data| == 0 then 0 else |data| - 1;
    }

    method Seek(target: IKey)
      modifies this`pos
      ensures pos == FirstFrom(data, target)
    {
      pos := FirstFrom(data, target);
    }

    method Next()
      requires Valid()
      modifies this`pos
      ensures pos == old(pos) + 1
    {
      pos := pos + 1;
    }

    method Prev()
      requires Valid()
      modifies this`pos
      ensures pos == if old(pos) == 0 then |data| else old(pos) - 1
    {
      pos := if pos == 0 then |data| else pos - 1;
    }
  }

  // ------------------------------------------------------------------ the sorted union

  function Merge(a: seq<Entry>, b: seq<Entry>): seq<Entry>
    decreases |a| + |b|
  {
    if |a| == 0 then b
    else if |b| == 0 then a
    else if Before(b[0].key, a[0].key) then [b[0]] + Merge(a, b[1..])
    else [a[0]] + Merge(a[1..], b)
  }

  ghost predicate KeysApart(a: seq<Entry>, b: seq<Entry>) {
    forall d, e :: d in a && e in b ==> d.key != e.key
  }

  lemma {:induction false} MergeSorted(a: seq<Entry>, b: seq<Entry>)
    requires Sorted(a) && Sorted(b) && KeysApart(a, b)
    ensures forall e :: e in Merge(a, b) <==> e in a || e in b
    ensures Sorted(Merge(a, b))
    decreases |a| + |b|
  {
    hide Sorted, Before;
    if |a| > 0 && |b| > 0 {
      HeadAndTail(a);
      HeadAndTail(b);
      if Before(b[0].key, a[0].key) {
        MergeSorted(a, b[1..]);
        AllBehind(b[0], a);
        PrependSorted(b[0], Merge(a, b[1..]));
      } else {
        HeadsApart(a, b);
        MergeSorted(a[1..], b);
        AllBehind(a[0], b);
        PrependSorted(a[0], Merge(a[1..], b));
      }
    }
  }

  lemma HeadAndTail(s: seq<Entry>)
    requires Sorted(s) && |s| > 0
    ensures Sorted(s[1..]) && forall e :: e in s[1..] ==> Before(s[0].key, e.key)
    ensures forall e :: e in s <==> e == s[0] || e in s[1..]
  {
    hide Before;
    assert s == [s[0]] + s[1..];
  }

  lemma HeadsApart(a: seq<Entry>, b: seq<Entry>)
    requires |a| > 0 && |b| > 0 && KeysApart(a, b) && !Before(b[0].key, a[0].key)
    ensures Before(a[0].key, b[0].key)
  {
    assert a[0] in a && b[0] in b;
  }

  // What comes before the first comes before all.
  lemma AllBehind(e: Entry, s: seq<Entry>)
    requires Sorted(s) && |s| > 0 && Before(e.key, s[0].key)
    ensures forall d :: d in s ==> Before(e.key, d.key)
  {
  }

  lemma PrependSorted(e: Entry, s: seq<Entry>)
    requires Sorted(s) && forall d :: d in s ==> Before(e.key, d.key)
    ensures Sorted([e] + s)
  {
  }

  // The list a merging iterator over these lists walks.
  function SortedUnion(lists: seq<seq<Entry>>): seq<Entry> {
    if |lists| == 0 then [] else Merge(SortedUnion(lists[..|lists| - 1]), lists[|lists| - 1])
  }

  ghost predicate Mergeable(lists: seq<seq<Entry>>) {
    && (forall i :: 0 <= i < |lists| ==> Sorted(lists[i]))
    && forall i, j :: 0 <= i < |lists| && 0 <= j < |lists| && i != j ==> KeysApart(lists[i], lists[j])
  }

  ghost predicate InSome(lists: seq<seq<Entry>>, e: Entry) {
    exists i :: 0 <= i < |lists| && e in lists[i]
  }

  lemma InSomeSteps(lists: seq<seq<Entry>>, e: Entry)
    requires |lists| > 0
    ensures InSome(lists, e) <==> InSome(lists[..|lists| - 1], e) || e in lists[|lists| - 1]
  {
    var n := |lists| - 1;
    if i :| 0 <= i < n && e in lists[i] {
      assert e in lists[..n][i];
    }
    if i :| 0 <= i < n && e in lists[..n][i] {
      assert e in lists[i];
    }
  }

  lemma UnionApart(lists: seq<seq<Entry>>, u: seq<Entry>)
    requires Mergeable(lists) && |lists| > 0
    requires forall e :: e in u <==> InSome(lists[..|lists| - 1], e)
    ensures KeysApart(u, lists[|lists| - 1])
  {
    var n := |lists| - 1;
    forall d, e | d in u && e in lists[n] ensures d.key != e.key {
      var i :| 0 <= i < n && d in lists[..n][i];
      assert KeysApart(lists[i], lists[n]);
    }
  }

  lemma {:induction false} SortedUnionSound(lists: seq<seq<Entry>>)
    requires Mergeable(lists)
    ensures Sorted(SortedUnion(lists))
    ensures forall e :: e in SortedUnion(lists) <==> exists i :: 0 <= i < |lists| && e in lists[i]
  {
    UnionHolds(lists);
    hide Sorted, SortedUnion, Mergeable;
    forall e ensures e in SortedUnion(lists) <==> exists i :: 0 <= i < |lists| && e in lists[i] {
      assert e in SortedUnion(lists) <==> InSome(lists, e);
    }
  }

  lemma {:induction false} UnionHolds(lists: seq<seq<Entry>>)
    requires Mergeable(lists)
    ensures Sorted(SortedUnion(lists))
    ensures forall e :: e in SortedUnion(lists) <==> InSome(lists, e)
  {
    if |lists| > 0 {
      hide Sorted, KeysApart, Merge, InSome;
      var n := |lists| - 1;
      var u := SortedUnion(lists[..n]);
      UnionHolds(lists[..n]);
      UnionApart(lists, u);
      MergeSorted(u, lists[n]);
      forall e ensures e in SortedUnion(lists) <==> InSome(lists, e) {
        InSomeSteps(lists, e);
      }
    }
  }

  // ------------------------------------------------------------------ positions

  // The entry comes before position p of the merged list.
  ghost predicate InFront(m: seq<Entry>, p: nat, e: Entry)
    requires p <= |m|
  {
    p == |m| || Before(e.key, m[p].key)
  }

  // A child standing at its first entry at or after position p of the merged list.
  ghost predicate AtOrAfter(m: seq<Entry>, p: nat, data: seq<Entry>, pos: nat)
    requires p <= |m|
  {
    pos <= |data| && forall k :: 0 <= k < |data| ==> (InFront(m, p, data[k]) <==> k < pos)
  }

  // A child standing at its last entry before position p, or invalid when it has none.
  ghost predicate JustBefore(m: seq<Entry>, p: nat, data: seq<Entry>, pos: nat)
    requires p <= |m|
  {
    if pos < |data| then AtOrAfter(m, p, data, pos + 1) else pos == |data| && AtOrAfter(m, p, data, 0)
  }

  // m is the sorted union of the children's lists.
  ghost predicate IsUnion(m: seq<Entry>, lists: seq<seq<Entry>>) {
    && Sorted(m) && Mergeable(lists)
    && forall e :: e in m <==> exists i :: 0 <= i < |lists| && e in lists[i]
  }

  lemma InUnion(m: seq<Entry>, lists: seq<seq<Entry>>, i: nat, k: nat) returns (j: nat)
    requires IsUnion(m, lists) && i < |lists| && k < |lists[i]|
    ensures j < |m| && m[j] == lists[i][k]
  {
    assert lists[i][k] in lists[i];
    assert lists[i][k] in m;
    j :| 0 <= j < |m| && m[j] == lists[i][k];
  }

  lemma FromUnion(m: seq<Entry>, lists: seq<seq<Entry>>, p: nat) returns (i: nat, k: nat)
    requires IsUnion(m, lists) && p < |m|
    ensures i < |lists| && k < |lists[i]| && lists[i][k] == m[p]
  {
    assert m[p] in m;
    i :| 0 <= i < |lists| && m[p] in lists[i];
    k :| 0 <= k < |lists[i]| && lists[i][k] == m[p];
  }

  // When every child stands at or after p, the child holding m[p] stands on it.
  lemma HolderStandsOn(m: seq<Entry>, lists: seq<seq<Entry>>, p: nat, i: nat, k: nat, pos: nat)
    requires IsUnion(m, lists) && p < |m| && i < |lists| && k < |lists[i]| && lists[i][k] == m[p]
    ensures AtOrAfter(m, p, lists[i], pos) <==> pos == k
  {
    var data := lists[i];
    forall q | 0 <= q < |data| ensures InFront(m, p, data[q]) <==> q < k {
      Rank(data, q, k);
    }
    assert !InFront(m, p, data[k]);
    if pos < |data| {
      assert InFront(m, p, data[pos]) <==> pos < k;
    }
  }

  lemma Rank(m: seq<Entry>, r: nat, p: nat)
    requires Sorted(m) && r < |m| && p < |m|
    ensures Before(m[r].key, m[p].key) <==> r < p
  {
  }

  // When every child stands just before p, the child holding m[p - 1] stands on it.
  lemma HolderStandsBefore(m: seq<Entry>, lists: seq<seq<Entry>>, p: nat, i: nat, k: nat, pos: nat)
    requires IsUnion(m, lists) && 0 < p <= |m| && i < |lists| && k < |lists[i]| && lists[i][k] == m[p - 1]
    ensures JustBefore(m, p, lists[i], pos) <==> pos == k
  {
    var data := lists[i];
    forall q | 0 <= q < |data| ensures InFront(m, p, data[q]) <==> q <= k {
      var r := InUnion(m, lists, i, q);
      Rank(data, q, k);
      Rank(data, k, q);
      Rank(m, r, p - 1);
      Rank(m, p - 1, r);
      if p < |m| {
        Rank(m, r, p);
      }
    }
    assert InFront(m, p, data[k]);
    if pos < |data| {
      assert InFront(m, p, data[pos]) <==> pos <= k;
    }
  }

  // Children that do not hold m[p] stand the same relative to p and to p + 1.
  lemma OthersStay(m: seq<Entry>, lists: seq<seq<Entry>>, p: nat, i: nat, k: nat, j: nat, pos: nat)
    requires IsUnion(m, lists) && p < |m| && i < |lists| && k < |lists[i]| && lists[i][k] == m[p] && j < |lists|
    requires j != i
    ensures AtOrAfter(m, p, lists[j], pos) <==> AtOrAfter(m, p + 1, lists[j], pos)
  {
    var data := lists[j];
    assert KeysApart(lists[i], data);
    assert lists[i][k] in lists[i];
    forall q | 0 <= q < |data|
      ensures InFront(m, p, data[q]) <==> InFront(m, p + 1, data[q])
    {
      var r := InUnion(m, lists, j, q);
      assert data[q] in data;
      Rank(m, r, p);
      if p + 1 < |m| {
        Rank(m, r, p + 1);
      }
    }
  }

  // ------------------------------------------------------------------ the merging iterator

  class MergingIterator {
    const children: seq<Cursor>
    ghost const merged: seq<Entry>  // the sorted union of the children
    var current: Option<nat>        // the child current_ points at
    var forward: bool               // direction_
    ghost var at: nat               // position in the merged list; |merged| when invalid

    ghost function Lists(): seq<seq<Entry>> {
      seq(|children|, i requires 0 <= i < |children| => children[i].data)
    }

    ghost predicate Shape() {
      && (forall i, j :: 0 <= i < j < |children| ==> children[i] != children[j])
      && IsUnion(merged, Lists())
    }

    // Where child i stands, when the iterator is at position p.
    ghost predicate Placed(i: nat, p: nat, fwd: bool)
      requires i < |children| && p <= |merged|
      reads children[i]
    {
      if fwd then AtOrAfter(merged, p, children[i].data, children[i].pos)
      else JustBefore(merged, p, children[i].data, children[i].pos)
    }

    ghost predicate Inv()
      reads this, children
    {
      && Shape() && at <= |merged|
      && (current.None? <==> at == |merged|)
      && (current.Some? ==>
            && current.value < |children|
            && children[current.value].Valid() && children[current.value].Current() == merged[at]
            && forall i :: 0 <= i < |children| && i != current.value ==> Placed(i, at, forward))
    }

    constructor (children: seq<Cursor>, ghost merged: seq<Entry>)
      requires forall i, j :: 0 <= i < j < |children| ==> children[i] != children[j]
      requires IsUnion(merged, seq(|children|, i requires 0 <= i < |children| => children[i].data))
      ensures Inv() && this.children == children && this.merged == merged && at == |merged|
    {
      this.children, this.merged := children, merged;
      current, forward := None, true;
      at := |merged|;
    }

    predicate Valid()
      reads this
    {
      current.Some?
    }

    // key() and value()
    function Current(): (e: Entry)
      requires Inv() && Valid()
      reads this, children
      ensures e == merged[at]
    {
      children[current.value].Current()
    }

    // FindSmallest
    method FindSmallest(ghost p: nat)
      requires Shape() && p <= |merged|
      requires forall i :: 0 <= i < |children| ==> Placed(i, p, true)
      modifies this`current, this`at
      ensures at == p && (current.None? <==> p == |merged|)
      ensures current.Some? ==> current.value < |children| && children[current.value].Valid()
                                && children[current.value].Current() == merged[p]
    {
      assert p == |merged| ==> forall j :: 0 <= j < |children| ==> Placed(j, p, true) && !children[j].Valid() by {
        if p == |merged| {
          NothingAfterLast();
        }
      }
      current := None;
      var i := 0;
      while i < |children|
        invariant 0 <= i <= |children|
        invariant current.Some? ==> current.value < i && children[current.value].Valid()
        invariant forall j :: 0 <= j < i && children[j].Valid() ==>
          current.Some? && !Before(children[j].Current().key, children[current.value].Current().key)
      {
        if children[i].Valid() {
          if current.None? {
            current := Some(i);
          } else if Before(children[i].Current().key, children[current.value].Current().key) {
            current := Some(i);
          }
        }
        i := i + 1;
      }
      at := p;
      if p < |merged| {
        var h, k := FromUnion(merged, Lists(), p);
        HolderStandsOn(merged, Lists(), p, h, k, children[h].pos);
        assert Placed(h, p, true);
        assert children[h].Valid() && children[h].Current() == merged[p];
        var c := current.value;
        assert Placed(c, p, true);
        var r := InUnion(merged, Lists(), c, children[c].pos);
        Rank(merged, r, p);
        Rank(merged, p, r);
      }
    }

    lemma NothingAfterLast()
      requires Shape()
      requires forall i :: 0 <= i < |children| ==> Placed(i, |merged|, true)
      ensures forall i :: 0 <= i < |children| ==> !children[i].Valid()
    {
      forall i | 0 <= i < |children| ensures !children[i].Valid() {
        assert Placed(i, |merged|, true);
        assert children[i].Valid() ==> InFront(merged, |merged|, children[i].data[children[i].pos]);
      }
    }

    lemma NothingBeforeFirst()
      requires Shape()
      requires forall i :: 0 <= i < |children| ==> Placed(i, 0, false)
      ensures forall i :: 0 <= i < |children| ==> !children[i].Valid()
    {
      forall i | 0 <= i < |children| ensures !children[i].Valid() {
        assert Placed(i, 0, false);
        if children[i].Valid() {
          var r := InUnion(merged, Lists(), i, children[i].pos);
          Rank(merged, r, 0);
        }
      }
    }

    // FindLargest
    method FindLargest(ghost p: nat)
      requires Shape() && p <= |merged|
      requires forall i :: 0 <= i < |children| ==> Placed(i, p, false)
      modifies this`current, this`at
      ensures at == (if p == 0 then |merged| else p - 1) && (current.None? <==> p == 0)
      ensures current.Some? ==> current.value < |children| && children[current.value].Valid()
                                && children[current.value].Current() == merged[p - 1]
    {
      assert p == 0 ==> forall j :: 0 <= j < |children| ==> Placed(j, p, false) && !children[j].Valid() by {
        if p == 0 {
          NothingBeforeFirst();
        }
      }
      current := None;
      var i := |children|;
      while i > 0
        invariant 0 <= i <= |children|
        invariant current.Some? ==> i <= current.value < |children| && children[current.value].Valid()
        invariant forall j :: i <= j < |children| && children[j].Valid() ==>
          current.Some? && !Before(children[current.value].Current().key, children[j].Current().key)
      {
        i := i - 1;
        if children[i].Valid() {
          if current.None? {
            current := Some(i);
          } else if Before(children[current.value].Current().key, children[i].Current().key) {
            current := Some(i);
          }
        }
      }
      at := if p == 0 then |merged| else p - 1;
      if p > 0 {
        var h, k := FromUnion(merged, Lists(), p - 1);
        HolderStandsBefore(merged, Lists(), p, h, k, children[h].pos);
        assert Placed(h, p, false);
        assert children[h].Valid() && children[h].Current() == merged[p - 1];
        var c := current.value;
        assert Placed(c, p, false);
        var r := InUnion(merged, Lists(), c, children[c].pos);
        Rank(merged, r, p - 1);
        Rank(merged, p - 1, r);
        if p < |merged| {
          Rank(merged, r, p);
        }
      }
    }

    // SeekToFirst
    method SeekToFirst()
      requires Inv()
      modifies this, children
      ensures Inv() && at == 0
    {
      for i := 0 to |children|
        invariant forall j :: 0 <= j < i ==> children[j].pos == 0
      {
        children[i].SeekToFirst();
      }
      forall i | 0 <= i < |children| ensures Placed(i, 0, true) {
        StartPlaced(merged, Lists(), i);
      }
      FindSmallest(0);
      forward := true;
    }

    // SeekToLast
    method SeekToLast()
      requires Inv()
      modifies this, children
      ensures Inv() && at == if |merged| == 0 then 0 else |merged| - 1
    {
      for i := 0 to |children|
        invariant forall j :: 0 <= j < i ==> Placed(j, |merged|, false)
      {
        children[i].SeekToLast();
      }
      FindLargest(|merged|);
      ReversePlaced(merged, Lists(), |merged|);
      forward := false;
    }

    // Seek
    method Seek(target: IKey)
      requires Inv()
      modifies this, children
      ensures Inv() && at == FirstFrom(merged, target)
    {
      for i := 0 to |children|
        invariant forall j :: 0 <= j < i ==> children[j].pos == FirstFrom(children[j].data, target)
      {
        children[i].Seek(target);
      }
      forall i | 0 <= i < |children| ensures Placed(i, FirstFrom(merged, target), true) {
        SeekPlaced(merged, Lists(), i, target);
      }
      FindSmallest(FirstFrom(merged, target));
      forward := true;
    }

    /** Next: from a reverse position every other child is first moved past key(). */
    method Next()
      requires Inv() && Valid()
      modifies this, children
      ensures Inv() && at == old(at) + 1
    {
      var c := current.value;
      ghost var p, k := at, children[c].pos;
      if !forward {
        var key := children[c].Current().key;
        for i := 0 to |children|
          invariant at == p && children[c].pos == k
          invariant forall j :: 0 <= j < i && j != c ==> Placed(j, p, true)
        {
          if i != c {
            assert Sorted(Lists()[i]);
            MovePast(children[i], key);
            PastPlaced(merged, Lists(), p, c, k, i, children[i].pos);
          }
        }
        forward := true;
      }
      children[c].Next();
      ghost var next := p + 1;
      forall i | 0 <= i < |children| ensures Placed(i, next, true) {
        if i == c {
          HolderStandsBefore(merged, Lists(), next, c, k, k);
        } else {
          assert Placed(i, p, true);
          OthersStay(merged, Lists(), p, c, k, i, children[i].pos);
        }
      }
      FindSmallest(next);
    }

    /** Prev: from a forward position every other child is first moved before key(). */
    method Prev()
      requires Inv() && Valid()
      modifies this, children
      ensures Inv() && at == if old(at) == 0 then |merged| else old(at) - 1
    {
      var c := current.value;
      ghost var p, k := at, children[c].pos;
      if forward {
        var key := children[c].Current().key;
        for i := 0 to |children|
          invariant at == p && children[c].pos == k
          invariant forall j :: 0 <= j < i && j != c ==> Placed(j, p, false)
        {
          if i != c {
            assert Sorted(Lists()[i]);
            MoveBefore(children[i], key);
            BeforePlaced(merged, p, children[i].data, children[i].pos);
          }
        }
        forward := false;
      }
      children[c].Prev();
      forall i | 0 <= i < |children| ensures Placed(i, p, false) {
        if i == c {
          HolderStandsOn(merged, Lists(), p, c, k, k);
        }
      }
      FindLargest(p);
      ReversePlaced(merged, Lists(), p);
    }

    // After FindLargest, the children other than the current one stand just before the new position.
    lemma ReversePlaced(m: seq<Entry>, lists: seq<seq<Entry>>, p: nat)
      requires Shape() && m == merged && lists == Lists() && p <= |merged|
      requires forall i :: 0 <= i < |children| ==> Placed(i, p, false)
      requires p > 0 ==> current.Some? && current.value < |children| && children[current.value].Valid()
                         && children[current.value].Current() == merged[p - 1]
      ensures p > 0 ==> var q: nat := p - 1; forall i :: 0 <= i < |children| && i != current.value ==>
        Placed(i, q, false)
    {
      if p > 0 {
        var c, q: nat := current.value, p - 1;
        forall i | 0 <= i < |children| && i != c ensures Placed(i, q, false) {
          assert Placed(i, p, false);
          var pos := children[i].pos;
          OthersStay(m, lists, q, c, children[c].pos, i, if pos < |lists[i]| then pos + 1 else 0);
        }
      }
    }
  }

  lemma StartPlaced(m: seq<Entry>, lists: seq<seq<Entry>>, i: nat)
    requires IsUnion(m, lists) && i < |lists|
    ensures AtOrAfter(m, 0, lists[i], 0)
  {
    forall k | 0 <= k < |lists[i]| ensures !InFront(m, 0, lists[i][k]) {
      var r := InUnion(m, lists, i, k);
      Rank(m, r, 0);
    }
  }

  lemma SeekPlaced(m: seq<Entry>, lists: seq<seq<Entry>>, i: nat, target: IKey)
    requires IsUnion(m, lists) && i < |lists|
    ensures AtOrAfter(m, FirstFrom(m, target), lists[i], FirstFrom(lists[i], target))
  {
    var p, data := FirstFrom(m, target), lists[i];
    var pos := FirstFrom(data, target);
    forall k | 0 <= k < |data| ensures InFront(m, p, data[k]) <==> k < pos {
      var r := InUnion(m, lists, i, k);
      if p < |m| {
        Rank(m, r, p);
      }
      if pos < |data| {
        Rank(data, k, pos);
      }
    }
  }

  // MergingIterator::Next: positions a child at its first entry after the key.
  method MovePast(child: Cursor, key: IKey)
    requires Sorted(child.data)
    modifies child`pos
    ensures child.pos <= |child.data|
    ensures forall k :: 0 <= k < |child.data| ==> (k < child.pos <==> !Before(key, child.data[k].key))
  {
    child.Seek(key);
    if child.Valid() && child.Current().key == key {
      child.Next();
    }
  }

  // MergingIterator::Prev: positions a child at its last entry before the key, if any.
  method MoveBefore(child: Cursor, key: IKey)
    requires Sorted(child.data)
    modifies child`pos
    ensures child.pos <= |child.data|
    ensures child.pos < |child.data| ==> forall k :: 0 <= k < |child.data| ==>
      (k <= child.pos <==> Before(child.data[k].key, key))
    ensures child.pos == |child.data| ==> forall k :: 0 <= k < |child.data| ==> !Before(child.data[k].key, key)
  {
    child.Seek(key);
    if child.Valid() {
      child.Prev();
    } else {
      child.SeekToLast();
    }
  }

  lemma PastPlaced(m: seq<Entry>, lists: seq<seq<Entry>>, p: nat, c: nat, kc: nat, i: nat, pos: nat)
    requires IsUnion(m, lists) && p < |m| && c < |lists| && kc < |lists[c]| && lists[c][kc] == m[p] && i < |lists|
    requires i != c
    requires pos <= |lists[i]| && forall k :: 0 <= k < |lists[i]| ==> (k < pos <==> !Before(m[p].key, lists[i][k].key))
    ensures AtOrAfter(m, p, lists[i], pos)
  {
    assert KeysApart(lists[c], lists[i]) && lists[c][kc] in lists[c];
    forall k | 0 <= k < |lists[i]| ensures InFront(m, p, lists[i][k]) <==> k < pos {
      var r := InUnion(m, lists, i, k);
      assert lists[i][k] in lists[i];
      assert r != p;
      Rank(m, r, p);
      Rank(m, p, r);
    }
  }

  lemma BeforePlaced(m: seq<Entry>, p: nat, data: seq<Entry>, pos: nat)
    requires p < |m| && pos <= |data|
    requires pos < |data| ==> forall k :: 0 <= k < |data| ==> (k <= pos <==> Before(data[k].key, m[p].key))
    requires pos == |data| ==> forall k :: 0 <= k < |data| ==> !Before(data[k].key, m[p].key)
    ensures JustBefore(m, p, data, pos)
  {
  }
}
