/** The list of snapshots (db/snapshot.h): doubly linked and circular, around a dummy head.
    Pointers are numbers: the head is 0, and every new snapshot gets one that is not in use. */
module Snapshots {

  type Pointer = nat
  const HEAD: Pointer := 0

  // The prev_ and next_ fields of everything in the list.
  datatype Links = Links(prev: map<Pointer, Pointer>, next: map<Pointer, Pointer>)

  // The head first and again at the end, and nothing else twice.
  ghost predicate Circle(ring: seq<Pointer>) {
    && |ring| >= 2 && ring[0] == ring[|ring| - 1] == HEAD
    && forall i, j :: 0 <= i < j < |ring| - 1 ==> ring[i] != ring[j]
  }

  ghost predicate Linked(l: Links, ring: seq<Pointer>) {
    forall i, j :: 0 <= i < |ring| - 1 && j == i + 1 ==> Joined(l, ring[i], ring[j])
  }

  ghost predicate Joined(l: Links, a: Pointer, b: Pointer) {
    a in l.next && l.next[a] == b && b in l.prev && l.prev[b] == a
  }

  // Oldest first.
  ghost predicate Ascending(sequence: map<Pointer, nat>, nodes: seq<Pointer>) {
    && (forall i :: 0 <= i < |nodes| ==> nodes[i] in sequence)
    && forall i, j :: 0 <= i < j < |nodes| ==> sequence[nodes[i]] <= sequence[nodes[j]]
  }

  function Without<T>(s: seq<T>, k: nat): (r: seq<T>)
    requires k < |s|
    ensures |r| == |s| - 1 && forall i :: 0 <= i < |r| ==> r[i] == if i < k then s[i] else s[i + 1]
  {
    s[..k] + s[k + 1..]
  }

  /** Appending between the last entry and the head. */
  lemma LinkIn(l: Links, ring: seq<Pointer>, s: Pointer, last: Pointer)
    requires Circle(ring) && Linked(l, ring) && s !in ring && last == ring[|ring| - 2]
    ensures HEAD in l.prev && l.prev[HEAD] == last
    ensures var n := |ring| - 1; var r := ring[..n] + [s, HEAD];
      Circle(r) && Linked(Links(l.prev[s := last][HEAD := s], l.next[s := HEAD][last := s]), r)
  {
    var n := |ring| - 1;
    var m := n - 1;
    var r := ring[..n] + [s, HEAD];
    assert Joined(l, ring[m], ring[n]);
    forall i, j | 0 <= i < |r| - 1 && j == i + 1
      ensures Joined(Links(l.prev[s := last][HEAD := s], l.next[s := HEAD][last := s]), r[i], r[j])
    {
      assert i < m ==> Joined(l, ring[i], ring[j]);
    }
  }

  /** Taking out an entry joins its neighbours and leaves every other link. */
  lemma LinkOut(l: Links, ring: seq<Pointer>, k: nat)
    requires Circle(ring) && Linked(l, ring) && 0 < k < |ring| - 1
    ensures var s := ring[k]; s in l.prev && s in l.next
    ensures var s := ring[k]; var p, n := l.prev[s], l.next[s];
      Circle(Without(ring, k)) && Linked(Links(l.prev[n := p], l.next[p := n]), Without(ring, k))
  {
    var before, after := k - 1, k + 1;
    assert Joined(l, ring[before], ring[k]) && Joined(l, ring[k], ring[after]);
    var r, l' := Without(ring, k), Links(l.prev[ring[after] := ring[before]], l.next[ring[before] := ring[after]]);
    forall i, j | 0 <= i < |r| - 1 && j == i + 1 ensures Joined(l', r[i], r[j]) {
      var j' := j + 1;
      assert i < before ==> Joined(l, ring[i], ring[j]);
      assert i > before ==> Joined(l, ring[j], ring[j']);
    }
  }

  function NodesOf(ring: seq<Pointer>): seq<Pointer> {
    if |ring| >= 2 then ring[1..|ring| - 1] else []
  }

  lemma NodesWithout(ring: seq<Pointer>, k: nat)
    requires k + 2 < |ring|
    ensures NodesOf(Without(ring, k + 1)) == Without(NodesOf(ring), k)
  {
    var a, b := NodesOf(Without(ring, k + 1)), Without(NodesOf(ring), k);
    assert |a| == |b|;
    forall i | 0 <= i < |a| ensures a[i] == b[i] {
      assert a[i] == Without(ring, k + 1)[i + 1];
    }
  }

  // The sequence numbers of these snapshots.
  ghost function Numbers(sequence: map<Pointer, nat>, nodes: seq<Pointer>): (r: seq<nat>)
    requires forall i :: 0 <= i < |nodes| ==> nodes[i] in sequence
    ensures |r| == |nodes| && forall i :: 0 <= i < |r| ==> r[i] == sequence[nodes[i]]
  {
    seq(|nodes|, i requires 0 <= i < |nodes| => sequence[nodes[i]])
  }

  lemma NumbersWithout(sequence: map<Pointer, nat>, nodes: seq<Pointer>, k: nat)
    requires Ascending(sequence, nodes) && k < |nodes|
    ensures Ascending(sequence, Without(nodes, k))
    ensures Numbers(sequence, Without(nodes, k)) == Without(Numbers(sequence, nodes), k)
  {
  }

  lemma NumbersWith(sequence: map<Pointer, nat>, nodes: seq<Pointer>, s: Pointer, number: nat)
    requires Ascending(sequence, nodes) && s !in nodes
    requires forall i :: 0 <= i < |nodes| ==> sequence[nodes[i]] <= number
    ensures Ascending(sequence[s := number], nodes + [s])
    ensures Numbers(sequence[s := number], nodes + [s]) == Numbers(sequence, nodes) + [number]
  {
  }

  class SnapshotList {
    var links: Links
    var sequence: map<Pointer, nat>
    ghost var ring: seq<Pointer>

    ghost predicate Valid()
      reads this
    {
      Circle(ring) && Linked(links, ring) && Ascending(sequence, Nodes())
    }

    ghost function Nodes(): seq<Pointer>
      reads this
    {
      NodesOf(ring)
    }

    // The sequence numbers, oldest first.
    ghost function Sequences(): seq<nat>
      requires Valid()
      reads this
    {
      Numbers(sequence, Nodes())
    }

    constructor ()
      ensures Valid() && Nodes() == []
    {
      links, sequence, ring := Links(map[HEAD := HEAD], map[HEAD := HEAD]), map[], [HEAD, HEAD];
    }

    method Empty() returns (empty: bool)
      requires Valid()
      ensures empty == (Nodes() == [])
    {
      assert Joined(links, ring[0], ring[1]);
      empty := links.next[HEAD] == HEAD;
    }

    /** Oldest: no snapshot in the list has a smaller sequence number. */
    method Oldest() returns (s: Pointer)
      requires Valid() && Nodes() != []
      ensures s == Nodes()[0] && s in sequence && forall n :: n in Sequences() ==> sequence[s] <= n
    {
      assert Joined(links, ring[0], ring[1]);
      s := links.next[HEAD];
    }

    method Newest() returns (s: Pointer)
      requires Valid() && Nodes() != []
      ensures s == Nodes()[|Nodes()| - 1] && s in sequence && forall n :: n in Sequences() ==> n <= sequence[s]
    {
      ghost var n := |ring| - 2;
      ghost var m := n + 1;
      assert Joined(links, ring[n], ring[m]);
      s := links.prev[HEAD];
    }

    /** New: appends, at an address that is not in use. */
    method New(number: nat, s: Pointer)
      requires Valid() && s !in ring && forall n :: n in Sequences() ==> n <= number
      modifies this
      ensures Valid() && Nodes() == old(Nodes()) + [s]
      ensures Sequences() == old(Sequences()) + [number]
    {
      ghost var n := |ring| - 1;
      ghost var r := ring[..n] + [s, HEAD];
      LinkIn(links, ring, s, ring[n - 1]);
      forall i | 0 <= i < |Nodes()| ensures sequence[Nodes()[i]] <= number {
        assert Sequences()[i] in Sequences();
      }
      NumbersWith(sequence, Nodes(), s, number);
      assert NodesOf(r) == Nodes() + [s];
      hide Circle, Linked, Ascending, Numbers;
      var last := links.prev[HEAD];
      var next, prev := links.next[s := HEAD], links.prev[s := last];
      links := Links(prev[HEAD := s], next[last := s]);
      sequence := sequence[s := number];
      ring := r;
    }

    /** Delete: takes out the snapshot and nothing else. */
    method Delete(s: Pointer, ghost k: nat)
      requires Valid() && k < |Nodes()| && Nodes()[k] == s
      modifies this
      ensures Valid() && Nodes() == Without(old(Nodes()), k)
      ensures Sequences() == Without(old(Sequences()), k)
    {
      LinkOut(links, ring, k + 1);
      NodesWithout(ring, k);
      NumbersWithout(sequence, Nodes(), k);
      hide Circle, Linked, Ascending, Numbers, Without;
      var p, n := links.prev[s], links.next[s];
      links := Links(links.prev[n := p], links.next[p := n]);
      ring := Without(ring, k + 1);
    }
  }
}
