/** The versions that are still referenced and the files they need: Version::Ref and Unref, the
    circular list of versions, AppendVersion and AddLiveFiles (db/version_set.cc), and what
    RemoveObsoleteFiles deletes (db/db_impl.cc). */
module VersionLists {
  import opened Version
  import opened Snapshots

  // The list in order, the reference counts, the files of each version, and current_.
  datatype Versions = Versions(nodes: seq<Pointer>, refs: map<Pointer, nat>, files: map<Pointer, Levels>,
                               current: Pointer)

  // refs_; a version that is gone has none.
  function Refs(refs: map<Pointer, nat>, p: Pointer): nat {
    if p in refs then refs[p] else 0
  }

  function FileNumbers(v: Levels): set<nat> {
    set l, f | 0 <= l < NUM_LEVELS && f in v[l] :: f.number
  }

  /** The list holds exactly the versions with a reference, each once, and the current one. */
  ghost predicate ListOk(l: Versions) {
    && Distinct(l.nodes) && (forall p :: p in l.nodes <==> Refs(l.refs, p) >= 1)
    && (forall p :: p in l.nodes ==> p in l.files && p != HEAD) && l.current in l.nodes
  }

  ghost predicate Distinct(s: seq<Pointer>) {
    forall i, j :: 0 <= i < j < |s| ==> s[i] != s[j]
  }

  // A version's references are those of its holders, and one for being the current one.
  ghost predicate Counted(l: Versions, holders: multiset<Pointer>) {
    forall p :: Refs(l.refs, p) == holders[p] + if p == l.current then 1 else 0
  }

  // AddLiveFiles
  ghost function LiveFiles(l: Versions): set<nat> {
    set p, n | p in l.nodes && p in l.files && n in FileNumbers(l.files[p]) :: n
  }

  function Remove(s: seq<Pointer>, p: Pointer): (r: seq<Pointer>)
    ensures forall q :: q in r <==> q in s && q != p
  {
    if |s| == 0 then []
    else
      var n := |s| - 1;
      assert s == s[..n] + [s[n]];
      Remove(s[..n], p) + if s[n] == p then [] else [s[n]]
  }

  lemma {:induction false} RemoveIsWithout(s: seq<Pointer>, k: nat)
    requires k < |s| && Distinct(s)
    ensures Remove(s, s[k]) == Without(s, k) && Distinct(Remove(s, s[k]))
  {
    var n := |s| - 1;
    if k < n {
      RemoveIsWithout(s[..n], k);
      assert Without(s, k) == Without(s[..n], k) + [s[n]];
    } else {
      NotThere(s[..n], s[n]);
      assert Without(s, k) == s[..n];
    }
  }

  lemma {:induction false} NotThere(s: seq<Pointer>, p: Pointer)
    requires p !in s
    ensures Remove(s, p) == s
  {
    if |s| > 0 {
      NotThere(s[..|s| - 1], p);
    }
  }

  lemma RemoveDistinct(s: seq<Pointer>, p: Pointer)
    requires Distinct(s)
    ensures Distinct(Remove(s, p))
  {
    if p in s {
      var k :| 0 <= k < |s| && s[k] == p;
      RemoveIsWithout(s, k);
    } else {
      NotThere(s, p);
    }
  }

  function RefTo(l: Versions, p: Pointer): Versions {
    l.(refs := l.refs[p := Refs(l.refs, p) + 1])
  }

  // Unref deletes the version, which takes it out of the list, with its last reference.
  function UnrefOf(l: Versions, p: Pointer): Versions {
    var n := if Refs(l.refs, p) == 0 then 0 else Refs(l.refs, p) - 1;
    l.(refs := l.refs[p := n], nodes := if n == 0 then Remove(l.nodes, p) else l.nodes)
  }

  function Append(l: Versions, p: Pointer, v: Levels): Versions {
    var rest := UnrefOf(l, l.current);
    Versions(rest.nodes + [p], rest.refs[p := 1], rest.files[p := v], p)
  }

  /** A holder takes a reference to the current version. */
  lemma RefKeeps(l: Versions, holders: multiset<Pointer>)
    requires ListOk(l) && Counted(l, holders)
    ensures ListOk(RefTo(l, l.current)) && Counted(RefTo(l, l.current), holders + multiset{l.current})
    ensures LiveFiles(RefTo(l, l.current)) == LiveFiles(l)
  {
  }

  /** A holder gives its reference back: the files of every other version in use stay live. */
  lemma UnrefKeeps(l: Versions, holders: multiset<Pointer>, p: Pointer)
    requires ListOk(l) && Counted(l, holders) && p in holders
    ensures ListOk(UnrefOf(l, p)) && Counted(UnrefOf(l, p), holders - multiset{p})
    ensures LiveFiles(UnrefOf(l, p)) <= LiveFiles(l)
  {
    hide FileNumbers, Remove, Distinct;
    RemoveDistinct(l.nodes, p);
    assert Refs(UnrefOf(l, p).refs, l.current) >= 1;
  }

  /** A new version takes over; the old one goes unless somebody holds it. */
  lemma AppendKeeps(l: Versions, holders: multiset<Pointer>, p: Pointer, v: Levels)
    requires ListOk(l) && Counted(l, holders) && p !in l.nodes && p != HEAD
    ensures ListOk(Append(l, p, v)) && Counted(Append(l, p, v), holders)
    ensures LiveFiles(Append(l, p, v)) <= LiveFiles(l) + FileNumbers(v)
    ensures Append(l, p, v).files[p] == v
    ensures forall q :: q in holders ==> q in Append(l, p, v).nodes && Append(l, p, v).files[q] == l.files[q]
  {
    assert Refs(l.refs, p) == 0;
    AppendKeepsList(l, p, v);
    hide ListOk;
    AppendCounts(l, holders, p, v);
    AppendFiles(l, p, v);
    forall q | q in holders ensures q in Append(l, p, v).nodes && q != p {
      StaysReferenced(l, holders, p, v, q);
    }
  }

  lemma AppendKeepsList(l: Versions, p: Pointer, v: Levels)
    requires ListOk(l) && Refs(l.refs, p) == 0 && p != HEAD
    ensures ListOk(Append(l, p, v)) && p !in UnrefOf(l, l.current).nodes
  {
    hide Remove, Distinct;
    var rest := UnrefOf(l, l.current);
    RemoveDistinct(l.nodes, l.current);
    assert forall q :: q in rest.nodes <==> Refs(rest.refs, q) >= 1;
    OneMore(rest.nodes, p);
  }

  lemma OneMore(s: seq<Pointer>, p: Pointer)
    ensures p !in s && Distinct(s) ==> Distinct(s + [p])
  {
  }

  lemma AppendCounts(l: Versions, holders: multiset<Pointer>, p: Pointer, v: Levels)
    requires Counted(l, holders) && Refs(l.refs, p) == 0
    ensures Counted(Append(l, p, v), holders)
  {
    hide Remove;
  }

  lemma AppendFiles(l: Versions, p: Pointer, v: Levels)
    requires ListOk(l)
    ensures LiveFiles(Append(l, p, v)) <= LiveFiles(l) + FileNumbers(v)
  {
    hide FileNumbers, Distinct;
    var l' := Append(l, p, v);
    forall n | n in LiveFiles(l') ensures n in LiveFiles(l) + FileNumbers(v) {
      var q :| q in l'.nodes && q in l'.files && n in FileNumbers(l'.files[q]);
      assert q != p ==> q in l.nodes && l'.files[q] == l.files[q];
    }
  }

  lemma StaysReferenced(l: Versions, holders: multiset<Pointer>, p: Pointer, v: Levels, q: Pointer)
    requires ListOk(l) && Counted(l, holders) && q in holders && Refs(l.refs, p) == 0 && p != HEAD
    ensures q in Append(l, p, v).nodes && q != p
  {
    hide Distinct, Remove;
    AppendKeepsList(l, p, v);
    AppendCounts(l, holders, p, v);
    assert Refs(Append(l, p, v).refs, q) >= 1 && Refs(l.refs, q) >= 1;
  }

  /** What a holder holds is in the list: none of its files is garbage. */
  lemma HeldIsLive(l: Versions, holders: multiset<Pointer>, p: Pointer)
    requires ListOk(l) && Counted(l, holders) && (p in holders || p == l.current)
    ensures p in l.nodes && FileNumbers(l.files[p]) <= LiveFiles(l)
  {
    hide FileNumbers;
  }

  // ------------------------------------------------------------------ the object

  class VersionSet {
    var links: Links
    var refs: map<Pointer, nat>
    var files: map<Pointer, Levels>
    var current: Pointer
    ghost var ring: seq<Pointer>     // dummy_versions_, the versions, and dummy_versions_ again

    ghost function State(): Versions
      reads this
    {
      Versions(NodesOf(ring), refs, files, current)
    }

    ghost predicate Valid()
      reads this
    {
      Circle(ring) && Linked(links, ring) && ListOk(State())
    }

    constructor (p: Pointer, v: Levels)
      requires p != HEAD
      ensures Valid() && State() == Versions([p], map[p := 1], map[p := v], p)
    {
      links := Links(map[HEAD := p, p := HEAD], map[HEAD := p, p := HEAD]);
      refs, files, current := map[p := 1], map[p := v], p;
      ring := [HEAD, p, HEAD];
      new;
      assert Joined(links, ring[0], ring[1]) && Joined(links, ring[1], ring[2]);
      assert NodesOf(ring) == [p];
    }

    // Version::Ref
    method Ref(p: Pointer)
      requires Valid() && p in State().nodes
      modifies this`refs
      ensures Valid() && State() == RefTo(old(State()), p)
    {
      refs := refs[p := Refs(refs, p) + 1];
    }

    // Version::Unref; the destructor unlinks.
    method Unref(p: Pointer)
      requires Valid() && Refs(refs, p) >= 1 && (p == current ==> Refs(refs, p) >= 2)
      modifies this
      ensures Valid() && State() == UnrefOf(old(State()), p)
    {
      ghost var l' := UnrefOf(State(), p);
      UnrefKeepsList(State(), p);
      UnrefParts(State(), p);
      hide Circle, Linked, ListOk, Remove, NodesOf, UnrefOf;
      var n := Refs(refs, p) - 1;
      refs := refs[p := n];
      if n == 0 {
        Unlink(p);
      }
      assert State() == l';
    }

    // The destructor of Version.
    method Unlink(p: Pointer)
      requires Circle(ring) && Linked(links, ring) && p in NodesOf(ring)
      modifies this`links, this`ring
      ensures Circle(ring) && Linked(links, ring) && NodesOf(ring) == Remove(old(NodesOf(ring)), p)
    {
      ghost var ring' := UnlinkedRing(links, ring, p);
      hide Circle, Linked, Remove, NodesOf;
      var a, b := links.prev[p], links.next[p];
      links := Links(links.prev[b := a], links.next[a := b]);
      ring := ring';
    }

    /** AppendVersion */
    method AppendVersion(p: Pointer, v: Levels)
      requires Valid() && p !in ring && Refs(refs, p) == 0
      modifies this
      ensures Valid() && State() == Append(old(State()), p, v)
    {
      hide Circle, Linked, ListOk, Remove, NodesOf, UnrefOf, Append;
      ghost var l' := Append(State(), p, v);
      OnlyNodes(ring);
      AppendKeepsList(State(), p, v);
      InList(State());
      UnrefParts(State(), current);
      AppendParts(State(), p, v);
      var n := Refs(refs, current) - 1;
      var rest := refs[current := n];
      if n == 0 {
        Unlink(current);
      }
      OnlyNodes(ring);
      Link(p);
      refs, files, current := rest[p := 1], files[p := v], p;
      assert State() == l';
    }

    method Link(p: Pointer)
      requires Circle(ring) && Linked(links, ring) && p !in ring
      modifies this`links, this`ring
      ensures Circle(ring) && Linked(links, ring) && NodesOf(ring) == old(NodesOf(ring)) + [p]
    {
      ghost var n := |ring| - 1;
      ghost var r := ring[..n] + [p, HEAD];
      LinkIn(links, ring, p, ring[n - 1]);
      assert NodesOf(r) == NodesOf(ring) + [p];
      hide Circle, Linked;
      var last := links.prev[HEAD];
      var next, prev := links.next[p := HEAD], links.prev[p := last];
      links := Links(prev[HEAD := p], next[last := p]);
      ring := r;
    }

    /** AddLiveFiles: one walk around the list. */
    method AddLiveFiles(live: set<nat>) returns (all: set<nat>)
      requires Valid()
      ensures all == live + LiveFiles(State())
    {
      hide FileNumbers;
      all := live;
      ghost var k := 1;
      StepInRing(links, ring, 0);
      var v := links.next[HEAD];
      while v != HEAD
        invariant 1 <= k < |ring| && v == ring[k]
        invariant all == live + set i, n | 0 < i < k && ring[i] in files && n in FileNumbers(files[ring[i]]) :: n
        decreases |ring| - k
      {
        InRing(ring, k);
        all := all + FileNumbers(files[v]);
        StepInRing(links, ring, k);
        v := links.next[v];
        k := k + 1;
      }
      LastInRing(ring, k);
      WholeRing(ring, files, current, refs);
    }
  }

  lemma UnlinkedRing(l: Links, ring: seq<Pointer>, p: Pointer) returns (r: seq<Pointer>)
    requires Circle(ring) && Linked(l, ring) && p in NodesOf(ring)
    ensures p in l.prev && p in l.next && Circle(r)
    ensures Linked(Links(l.prev[l.next[p] := l.prev[p]], l.next[l.prev[p] := l.next[p]]), r)
    ensures NodesOf(r) == Remove(NodesOf(ring), p)
  {
    var nodes := NodesOf(ring);
    var k :| 0 <= k < |nodes| && nodes[k] == p;
    assert ring[k + 1] == p;
    NodesApart(ring);
    hide Circle, Linked, Distinct, Remove, NodesOf;
    LinkOut(l, ring, k + 1);
    NodesWithout(ring, k);
    RemoveIsWithout(nodes, k);
    r := Without(ring, k + 1);
  }

  lemma UnrefParts(l: Versions, p: Pointer)
    requires Refs(l.refs, p) >= 1
    ensures var n := Refs(l.refs, p) - 1;
      UnrefOf(l, p) == Versions(if n == 0 then Remove(l.nodes, p) else l.nodes, l.refs[p := n], l.files, l.current)
  {
    hide Remove;
  }

  lemma AppendParts(l: Versions, p: Pointer, v: Levels)
    ensures Append(l, p, v)
         == Versions(UnrefOf(l, l.current).nodes + [p], UnrefOf(l, l.current).refs[p := 1], l.files[p := v], p)
  {
    hide Remove;
  }

  lemma InList(l: Versions)
    requires ListOk(l)
    ensures l.current in l.nodes && l.current in l.refs && Refs(l.refs, l.current) >= 1
  {
  }

  lemma UnrefKeepsList(l: Versions, p: Pointer)
    requires ListOk(l) && Refs(l.refs, p) >= 1 && (p == l.current ==> Refs(l.refs, p) >= 2)
    ensures ListOk(UnrefOf(l, p)) && p in l.nodes
  {
    hide Remove, Distinct;
    RemoveDistinct(l.nodes, p);
    assert Refs(UnrefOf(l, p).refs, l.current) >= 1;
  }

  lemma NodesApart(ring: seq<Pointer>)
    requires Circle(ring)
    ensures Distinct(NodesOf(ring))
  {
  }

  lemma OnlyNodes(ring: seq<Pointer>)
    requires Circle(ring)
    ensures forall p :: p in ring <==> p == HEAD || p in NodesOf(ring)
  {
    forall p | p in ring && p != HEAD ensures p in NodesOf(ring) {
      var i :| 0 <= i < |ring| && ring[i] == p;
      assert NodesOf(ring)[i - 1] == p;
    }
  }

  lemma StepInRing(l: Links, ring: seq<Pointer>, k: nat)
    requires Linked(l, ring) && k < |ring| - 1
    ensures ring[k] in l.next && l.next[ring[k]] == ring[k + 1]
  {
    var j := k + 1;
    assert Joined(l, ring[k], ring[j]);
  }

  lemma InRing(ring: seq<Pointer>, k: nat)
    requires Circle(ring) && 1 <= k < |ring| && ring[k] != HEAD
    ensures k < |ring| - 1 && ring[k] in NodesOf(ring)
  {
    assert NodesOf(ring)[k - 1] == ring[k];
  }

  lemma LastInRing(ring: seq<Pointer>, k: nat)
    requires Circle(ring) && 1 <= k < |ring| && ring[k] == HEAD
    ensures k == |ring| - 1
  {
  }

  lemma WholeRing(ring: seq<Pointer>, files: map<Pointer, Levels>, current: Pointer, refs: map<Pointer, nat>)
    requires Circle(ring)
    ensures (set i, n | 0 < i < |ring| - 1 && ring[i] in files && n in FileNumbers(files[ring[i]]) :: n)
         == LiveFiles(Versions(NodesOf(ring), refs, files, current))
  {
    hide FileNumbers;
    var nodes := NodesOf(ring);
    forall n | n in LiveFiles(Versions(nodes, refs, files, current))
      ensures exists i :: 0 < i < |ring| - 1 && ring[i] in files && n in FileNumbers(files[ring[i]]) {
      var p :| p in nodes && p in files && n in FileNumbers(files[p]);
      var k :| 0 <= k < |nodes| && nodes[k] == p;
      var i := k + 1;
      assert ring[i] == p;
    }
    forall i, n | 0 < i < |ring| - 1 && ring[i] in files && n in FileNumbers(files[ring[i]])
      ensures n in LiveFiles(Versions(nodes, refs, files, current)) {
      assert nodes[i - 1] == ring[i];
    }
  }

  // ------------------------------------------------------------------ garbage

  // The files of the directory, by type.
  datatype FileName = LogFile(number: nat) | Descriptor(number: nat) | Table(number: nat) | Temp(number: nat) | Other

  // What RemoveObsoleteFiles keeps.
  predicate Keep(f: FileName, live: set<nat>, logNumber: nat, prevLogNumber: nat, manifestNumber: nat) {
    match f
    case LogFile(n) => n >= logNumber || n == prevLogNumber
    case Descriptor(n) => n >= manifestNumber
    case Table(n) => n in live
    case Temp(n) => n in live
    case Other => true
  }

  /** RemoveObsoleteFiles, up to where it lets go of the mutex.  A table goes if no version has
      it and nobody is writing it, a temporary file if nobody is writing it, a log if it is
      older than the log number and not the one before it, a manifest if it is older than the
      current one, and nothing else goes. */
  method ObsoleteFiles(children: seq<FileName>, vs: VersionSet, pending: set<nat>, logNumber: nat, prevLogNumber: nat,
                       manifestNumber: nat)
    returns (doomed: seq<FileName>)
    requires vs.Valid()
    ensures forall f :: f in doomed ==> f in children && !f.Other?
    ensures forall n: nat :: Table(n) in children ==>
      (Table(n) in doomed <==> n !in pending && n !in LiveFiles(vs.State()))
    ensures forall n: nat :: Temp(n) in children ==>
      (Temp(n) in doomed <==> n !in pending && n !in LiveFiles(vs.State()))
    ensures forall n: nat :: LogFile(n) in children ==> (LogFile(n) in doomed <==> n < logNumber && n != prevLogNumber)
    ensures forall n: nat :: Descriptor(n) in children ==> (Descriptor(n) in doomed <==> n < manifestNumber)
  {
    hide LiveFiles;
    var live := vs.AddLiveFiles(pending);
    doomed := [];
    for i := 0 to |children|
      invariant forall f :: f in doomed <==>
        f in children[..i] && !Keep(f, live, logNumber, prevLogNumber, manifestNumber)
    {
      assert children[..i + 1] == children[..i] + [children[i]];
      if !Keep(children[i], live, logNumber, prevLogNumber, manifestNumber) {
        doomed := doomed + [children[i]];
      }
    }
    assert children[..|children|] == children;
  }
}
