/** Sorted blocks: prefix-compressed entries and restart points (table/block_builder.cc,
    table/block.cc). */
module Blocks {
  import opened Keys
  import opened Coding
  import opened Comparators

  datatype Pair = Pair(key: Bytes, value: Bytes)

  ghost predicate Increasing(less: Less, ps: seq<Pair>) {
    forall i, j :: 0 <= i < j < |ps| ==> less(ps[i].key, ps[j].key)
  }

  // ------------------------------------------------------------------ entries

  // Lengths are cut to 32 bits; in a block under 4 GB that changes nothing.
  function Cut32(n: nat): U32 {
    n % 0x1_0000_0000
  }

  function EntryBytes(shared: nat, key: Bytes, value: Bytes): (b: Bytes)
    requires shared <= |key|
    ensures |b| >= 3 + |key| - shared + |value|
  {
    Varint(Cut32(shared)) + Varint(Cut32(|key| - shared)) + Varint(Cut32(|value|)) + key[shared..] + value
  }

  // DecodeEntry on the bytes from p to limit: shared, non_shared, value_length, and how many
  // bytes come before the key delta.
  function DecodeEntry(d: Bytes): (r: Option<(nat, nat, nat, nat)>)
    ensures r.Some? ==> 3 <= r.value.3 <= |d| && r.value.3 + (r.value.1 + r.value.2) % 0x1_0000_0000 <= |d|
  {
    hide *;
    if |d| < 3 then None
    else if d[0] < 128 && d[1] < 128 && d[2] < 128 then Fitting(d[0] as nat, d[1] as nat, d[2] as nat, 3, |d|)
    else
      match ThreeVarints(d)
      case None => None
      case Some((s, n, v, used)) => Fitting(s, n, v, used, |d|)
  }

  function ThreeVarints(d: Bytes): (r: Option<(nat, nat, nat, nat)>)
    ensures r.Some? ==> 3 <= r.value.3 <= |d|
  {
    match ReadVarint(d, 32)
    case None => None
    case Some((s, x)) =>
      match ReadVarint(d[x..], 32)
      case None => None
      case Some((n, y)) =>
        match ReadVarint(d[x..][y..], 32)
        case None => None
        case Some((v, z)) => Some((s, n, v, x + y + z))
  }

  // static_cast<uint32_t>(limit - p) < *non_shared + *value_length, added in 32 bits
  function Fitting(s: nat, n: nat, v: nat, used: nat, size: nat): (r: Option<(nat, nat, nat, nat)>)
    requires used <= size
    ensures r.Some? ==> r.value == (s, n, v, used) && used + (n + v) % 0x1_0000_0000 <= size
  {
    if (size - used) % 0x1_0000_0000 < (n + v) % 0x1_0000_0000 then None else Some((s, n, v, used))
  }

  lemma DecodesOne(v: U32, a: Bytes, tail: Bytes)
    requires a == Varint(v) + tail
    ensures ReadVarint(a, 32) == Some((v, |Varint(v)|)) && a[|Varint(v)|..] == tail
    ensures v < 128 ==> |Varint(v)| == 1 && a[0] as nat == v
    ensures v >= 128 ==> a[0] >= 128
  {
    Varint32RoundTrip(v, tail);
  }

  // Three numbers, and what follows them.
  lemma DecodesThree(d: Bytes, s: U32, a: Bytes, n: U32, b: Bytes, v: U32, c: Bytes)
    requires d == Varint(s) + a && a == Varint(n) + b && b == Varint(v) + c
    requires n + v <= |c| && |d| < 0x1_0000_0000
    ensures var q := |d| - |c|; 3 <= q && d[q..] == c && DecodeEntry(d) == Some((s, n, v, q))
  {
    hide Varint, ReadVarint, DecodeEntry;
    DecodesOne(s, d, a);
    DecodesOne(n, a, b);
    DecodesOne(v, b, c);
    FastPath(d, |Varint(s)|, a, |Varint(n)|, b);
    Drops(d, |Varint(s)|, a, |Varint(n)|, b, |Varint(v)|, c);
    DecodesParts(d, s, |Varint(s)|, a, n, |Varint(n)|, b, v, |Varint(v)|);
  }

  lemma Drops(d: Bytes, x: nat, a: Bytes, y: nat, b: Bytes, z: nat, c: Bytes)
    requires x <= |d| && d[x..] == a && y <= |a| && a[y..] == b && z <= |b| && b[z..] == c
    ensures |d| == x + y + z + |c| && d[x + y + z..] == c
  {
    forall i | 0 <= i < |c| ensures d[x + y + z..][i] == c[i] {
      assert b[z + i] == c[i] && a[y + (z + i)] == b[z + i] && d[x + (y + (z + i))] == a[y + (z + i)];
    }
  }

  // The fast path looks at the first byte of each number.
  lemma FastPath(d: Bytes, x: nat, a: Bytes, y: nat, b: Bytes)
    requires 1 <= x <= |d| && d[x..] == a && 1 <= y <= |a| && a[y..] == b && |b| > 0
    ensures |d| >= 3 && (x == 1 ==> d[1] == a[0]) && (x == 1 && y == 1 ==> d[2] == b[0])
  {
    assert x == 1 && y == 1 ==> d[2] == a[1];
  }

  lemma DecodesParts(d: Bytes, s: U32, x: nat, a: Bytes, n: U32, y: nat, b: Bytes, v: U32, z: nat)
    requires |d| >= 3 && ReadVarint(d, 32) == Some((s, x)) && ReadVarint(a, 32) == Some((n, y))
    requires ReadVarint(b, 32) == Some((v, z))
    requires d[x..] == a && a[y..] == b && n + v <= |b| - z && |d| < 0x1_0000_0000
    requires (s < 128 <==> d[0] < 128) && (s < 128 ==> x == 1 && d[0] as nat == s && (n < 128 <==> d[1] < 128))
    requires s < 128 && n < 128 ==> y == 1 && d[1] as nat == n && (v < 128 <==> d[2] < 128)
    requires s < 128 && n < 128 && v < 128 ==> z == 1 && d[2] as nat == v
    ensures DecodeEntry(d) == Some((s, n, v, x + y + z))
  {
    hide ReadVarint, ThreeVarints, Fitting;
    AllThree(d, s, x, a, n, y, b, v, z);
    ItFits(s, n, v, x + y + z, |d|);
  }

  lemma AllThree(d: Bytes, s: U32, x: nat, a: Bytes, n: U32, y: nat, b: Bytes, v: U32, z: nat)
    requires ReadVarint(d, 32) == Some((s, x)) && d[x..] == a && ReadVarint(a, 32) == Some((n, y))
    requires a[y..] == b && ReadVarint(b, 32) == Some((v, z))
    ensures ThreeVarints(d) == Some((s, n, v, x + y + z)) && |b| == |d| - x - y
  {
    hide ReadVarint;
  }

  lemma ItFits(s: U32, n: U32, v: U32, used: nat, size: nat)
    requires used <= size < 0x1_0000_0000 && n + v <= size - used
    ensures Fitting(s, n, v, used, size) == Some((s, n, v, used))
  {
  }

  lemma EntryParts(shared: nat, key: Bytes, value: Bytes, tail: Bytes) returns (a: Bytes, b: Bytes, c: Bytes)
    requires shared <= |key|
    ensures EntryBytes(shared, key, value) + tail == Varint(Cut32(shared)) + a
    ensures a == Varint(Cut32(|key| - shared)) + b && b == Varint(Cut32(|value|)) + c
    ensures c == key[shared..] + (value + tail)
  {
    hide Varint, Cut32;
    c := key[shared..] + (value + tail);
    b := Varint(Cut32(|value|)) + c;
    a := Varint(Cut32(|key| - shared)) + b;
  }

  /** Decoding at the start of an entry gives back what was encoded. */
  lemma DecodeEncoded(shared: nat, key: Bytes, value: Bytes, tail: Bytes)
    requires shared <= |key| < 0x1_0000_0000 && |EntryBytes(shared, key, value) + tail| < 0x1_0000_0000
    ensures var d, n := EntryBytes(shared, key, value) + tail, |key| - shared; var q := |d| - |tail| - |value| - n;
      && 3 <= q && DecodeEntry(d) == Some((shared, n, |value|, q))
      && d[q..q + n] == key[shared..] && d[q + n..q + n + |value|] == value
  {
    hide EntryBytes, Varint, DecodeEntry;
    var a, b, c := EntryParts(shared, key, value, tail);
    var d, n := EntryBytes(shared, key, value) + tail, |key| - shared;
    assert |c| == n + |value| + |tail|;
    DecodesThree(d, shared, a, n, b, |value|, c);
    TwoParts(d, |d| - |c|, key[shared..], value, tail);
  }

  lemma TwoParts(d: Bytes, q: nat, a: Bytes, b: Bytes, tail: Bytes)
    requires q <= |d| && d[q..] == a + (b + tail)
    ensures q + |a| + |b| <= |d| && d[q..q + |a|] == a && d[q + |a|..q + |a| + |b|] == b
  {
    forall i | 0 <= i < |a| ensures d[q..q + |a|][i] == a[i] {
      assert d[q..][i] == a[i];
    }
    forall i | 0 <= i < |b| ensures d[q + |a|..q + |a| + |b|][i] == b[i] {
      assert d[q..][|a| + i] == b[i];
    }
  }

  // ------------------------------------------------------------------ the layout of a block

  // Where each entry starts, how much of the key before it it shares, and which entries are
  // restart points.
  datatype Layout = Layout(pairs: seq<Pair>, offs: seq<nat>, shared: seq<nat>, starts: seq<nat>)

  const EMPTY: Layout := Layout([], [0], [], [0])

  ghost predicate EntryOk(l: Layout, data: Bytes, i: nat)
    requires i < |l.pairs| && |l.offs| == |l.pairs| + 1 && |l.shared| == |l.pairs|
  {
    var (s, k, v) := (l.shared[i], l.pairs[i].key, l.pairs[i].value);
    && s <= |k|
    && l.offs[i] + |EntryBytes(s, k, v)| == l.offs[i + 1] <= |data|
    && EntryBytes(s, k, v) <= data[l.offs[i]..]
    && (s > 0 ==> i > 0 && s <= |l.pairs[i - 1].key| && l.pairs[i - 1].key[..s] == k[..s])
  }

  ghost predicate StartOk(l: Layout, r: nat)
    requires r < |l.starts| && |l.shared| == |l.pairs|
  {
    if |l.pairs| == 0 then l.starts[r] == 0 else l.starts[r] < |l.pairs| && l.shared[l.starts[r]] == 0
  }

  ghost predicate LayoutOk(l: Layout, data: Bytes) {
    && |l.offs| == |l.pairs| + 1 && |l.shared| == |l.pairs|
    && l.offs[0] == 0 && l.offs[|l.pairs|] == |data|
    && (forall i :: 0 <= i < |l.pairs| ==> EntryOk(l, data, i))
    && |l.starts| > 0 && l.starts[0] == 0
    && (forall r :: 0 <= r < |l.starts| ==> StartOk(l, r))
    && forall q, r :: 0 <= q < r < |l.starts| ==> l.starts[q] < l.starts[r]
  }

  lemma {:induction false} OffsetsGrow(l: Layout, data: Bytes, i: nat, j: nat)
    requires LayoutOk(l, data) && i <= j <= |l.pairs|
    ensures l.offs[i] + 3 * (j - i) <= l.offs[j]
    decreases j
  {
    if i < j {
      OffsetsGrow(l, data, i, j - 1);
      assert EntryOk(l, data, j - 1);
    }
  }

  // A key is spelled out by the entries up to its own.
  lemma {:induction false} KeyFits(l: Layout, data: Bytes, i: nat)
    requires LayoutOk(l, data) && i < |l.pairs|
    ensures |l.pairs[i].key| <= l.offs[i + 1] <= |data|
  {
    assert EntryOk(l, data, i);
    if l.shared[i] > 0 {
      KeyFits(l, data, i - 1);
    }
  }

  // The longest common prefix of two keys.
  method SharedPrefix(a: Bytes, b: Bytes) returns (n: nat)
    ensures n <= |a| && n <= |b| && a[..n] == b[..n]
    ensures n < |a| && n < |b| ==> a[n] != b[n]
  {
    var minLength := if |a| < |b| then |a| else |b|;
    n := 0;
    while n < minLength && a[n] == b[n]
      invariant n <= minLength && a[..n] == b[..n]
    {
      n := n + 1;
    }
  }

  // One more entry, which may be a restart point.
  // Nothing is shared at a restart, and the longest common prefix otherwise.
  ghost predicate SharesRight(a: Bytes, b: Bytes, restart: bool, n: nat) {
    if restart then n == 0
    else n <= |a| && n <= |b| && a[..n] == b[..n] && (n < |a| && n < |b| ==> a[n] != b[n])
  }

  lemma Shares(a: Bytes, b: Bytes, restart: bool, n: nat)
    requires if restart then n == 0
             else n <= |a| && n <= |b| && a[..n] == b[..n] && (n < |a| && n < |b| ==> a[n] != b[n])
    ensures SharesRight(a, b, restart, n)
  {
  }

  function Grown(l: Layout, p: Pair, shared: nat, end: nat, restart: bool): Layout {
    Layout(l.pairs + [p], l.offs + [end], l.shared + [shared], if restart then l.starts + [|l.pairs|] else l.starts)
  }

  lemma LayoutGrows(l: Layout, data: Bytes, p: Pair, shared: nat, restart: bool)
    requires LayoutOk(l, data) && shared <= |p.key|
    requires shared > 0 ==> |l.pairs| > 0 && !restart
    requires shared > 0 ==> var k := l.pairs[|l.pairs| - 1].key; shared <= |k| && k[..shared] == p.key[..shared]
    requires restart ==> |l.pairs| > 0
    ensures var e := EntryBytes(shared, p.key, p.value);
      LayoutOk(Grown(l, p, shared, |data| + |e|, restart), data + e)
  {
    hide EntryBytes, EntryOk, StartOk;
    var e := EntryBytes(shared, p.key, p.value);
    EntriesGrow(l, data, p, shared, restart, e);
    RestartsGrow(l, data, Grown(l, p, shared, |data| + |e|, restart), p, shared, |data| + |e|, restart);
  }

  lemma EntriesGrow(l: Layout, data: Bytes, p: Pair, shared: nat, restart: bool, e: Bytes)
    requires LayoutOk(l, data) && shared <= |p.key| && e == EntryBytes(shared, p.key, p.value)
    requires shared > 0 ==> |l.pairs| > 0 && !restart
    requires shared > 0 ==> var k := l.pairs[|l.pairs| - 1].key; shared <= |k| && k[..shared] == p.key[..shared]
    ensures var m := Grown(l, p, shared, |data| + |e|, restart);
      forall i :: 0 <= i < |m.pairs| ==> EntryOk(m, data + e, i)
  {
    var m, n := Grown(l, p, shared, |data| + |e|, restart), |l.pairs|;
    hide EntryBytes, StartOk;
    forall i | 0 <= i < |m.pairs| ensures EntryOk(m, data + e, i) {
      if i < n {
        assert EntryOk(l, data, i);
        assert (data + e)[l.offs[i]..] == data[l.offs[i]..] + e;
      } else {
        assert (data + e)[|data|..] == e;
      }
    }
  }

  lemma RestartsGrow(l: Layout, data: Bytes, m: Layout, p: Pair, shared: nat, end: nat, restart: bool)
    requires LayoutOk(l, data) && m == Grown(l, p, shared, end, restart)
    requires (shared > 0 ==> |l.pairs| > 0 && !restart) && (restart ==> |l.pairs| > 0)
    ensures forall r :: 0 <= r < |m.starts| ==> StartOk(m, r)
    ensures forall q, r :: 0 <= q < r < |m.starts| ==> m.starts[q] < m.starts[r]
  {
    hide EntryOk;
    forall r | 0 <= r < |m.starts| ensures StartOk(m, r) {
      assert r < |l.starts| ==> StartOk(l, r);
    }
    forall q, r | 0 <= q < r < |m.starts| ensures m.starts[q] < m.starts[r] {
      assert StartOk(l, q);
    }
  }

  // ------------------------------------------------------------------ the restart array

  // The offsets of the restart points.
  function StartOffsets(l: Layout): (rs: seq<nat>)
    requires forall r :: 0 <= r < |l.starts| ==> l.starts[r] < |l.offs|
    ensures |rs| == |l.starts|
  {
    seq(|l.starts|, r requires 0 <= r < |l.starts| => l.offs[l.starts[r]])
  }

  /** A finished block: entries, restart array, number of restarts. */
  ghost predicate IsBlock(block: Bytes, l: Layout, data: Bytes) {
    && LayoutOk(l, data) && (forall r :: 0 <= r < |l.starts| ==> l.starts[r] < |l.offs|)
    && block == data + Words(StartOffsets(l)) + Fixed(|l.starts|, 4) && |block| < 0x1_0000_0000
  }

  // ------------------------------------------------------------------ the builder

  class BlockBuilder {
    const less: Less
    const interval: nat          // block_restart_interval
    var buffer: Bytes
    var restarts: seq<nat>
    var counter: nat
    var finished: bool
    var lastKey: Bytes
    ghost var l: Layout

    ghost predicate Valid()
      reads this
    {
      && interval >= 1 && !finished && LayoutOk(l, buffer)
      && (forall r :: 0 <= r < |l.starts| ==> l.starts[r] < |l.offs|) && restarts == StartOffsets(l)
      && lastKey == (if |l.pairs| == 0 then [] else l.pairs[|l.pairs| - 1].key)
      && counter <= interval && counter == |l.pairs| - l.starts[|l.starts| - 1]
      && StrictOrder(less) && Increasing(less, l.pairs)
    }

    constructor (less: Less, interval: nat)
      requires interval >= 1 && StrictOrder(less)
      ensures Valid() && l.pairs == [] && this.less == less && this.interval == interval
    {
      this.less, this.interval := less, interval;
      buffer, restarts, counter, finished, lastKey := [], [0], 0, false, [];
      l := EMPTY;
    }

    method Reset()
      requires interval >= 1 && StrictOrder(less)
      modifies this
      ensures Valid() && l.pairs == []
    {
      buffer, restarts, counter, finished, lastKey := [], [0], 0, false, [];
      l := EMPTY;
    }

    function CurrentSizeEstimate(): nat
      reads this
    {
      |buffer| + |restarts| * 4 + 4
    }

    /** Add: the pair comes after all pairs added before. */
    method Add(key: Bytes, value: Bytes)
      requires Valid()
      requires |l.pairs| > 0 ==> less(lastKey, key)
      modifies this
      ensures Valid() && l.pairs == old(l.pairs) + [Pair(key, value)]
      ensures |l.shared| == |l.pairs|
        && SharesRight(old(lastKey), key, old(counter) == interval, l.shared[|l.pairs| - 1])
    {
      hide SharesRight, LayoutOk, EntryBytes, Varint, Cut32, Increasing, StrictOrder, StartOffsets;
      var shared := 0;
      ghost var restart := counter == interval;
      if counter < interval {
        shared := SharedPrefix(lastKey, key);
      } else {
        restarts := restarts + [|buffer|];
        counter := 0;
      }
      Shares(lastKey, key, restart, shared);
      FirstStart(l, old(buffer));
      LayoutGrows(l, buffer, Pair(key, value), shared, restart);
      var nonShared := |key| - shared;
      var delta := key[shared..];
      EntryIs(shared, key, value);
      ghost var was := buffer;
      buffer := buffer + (Varint(Cut32(shared)) + Varint(Cut32(nonShared)) + Varint(Cut32(|value|)) + delta + value);
      ghost var m := Grown(l, Pair(key, value), shared, |buffer|, restart);
      StartsGrow(l, was, Pair(key, value), shared, |buffer|, restart);
      IncreasingGrows(less, l.pairs, Pair(key, value));
      l := m;
      lastKey := lastKey[..shared] + delta;
      counter := counter + 1;
    }

    /** Finish: a block that can be read back if it is under 4 GB. */
    method Finish() returns (block: Bytes)
      requires Valid()
      modifies this
      ensures l == old(l) && |block| == old(CurrentSizeEstimate())
      ensures |block| < 0x1_0000_0000 ==> IsBlock(block, l, old(buffer))
    {
      hide LayoutOk, Words, Fixed, Increasing, StrictOrder, StartOffsets;
      var i := 0;
      NoWords(restarts);
      while i < |restarts|
        invariant 0 <= i <= |restarts| && restarts == old(restarts) && l == old(l)
        invariant buffer == old(buffer) + Words(restarts[..i])
      {
        NextWord(restarts, i);
        buffer := buffer + Fixed(restarts[i] % 0x1_0000_0000, 4);
        i := i + 1;
      }
      assert restarts[..i] == restarts;
      buffer := buffer + Fixed(|restarts| % 0x1_0000_0000, 4);
      finished := true;
      block := buffer;
    }
  }

  lemma EntryIs(shared: nat, key: Bytes, value: Bytes)
    requires shared <= |key|
    ensures EntryBytes(shared, key, value)
      == Varint(Cut32(shared)) + Varint(Cut32(|key| - shared)) + Varint(Cut32(|value|)) + key[shared..] + value
  {
  }

  lemma FirstStart(l: Layout, data: Bytes)
    requires LayoutOk(l, data)
    ensures |l.starts| > 0 && |l.offs| == |l.pairs| + 1 && (|l.pairs| == 0 ==> l.starts[|l.starts| - 1] == 0)
    ensures l.offs[|l.pairs|] == |data| && |l.shared| == |l.pairs|
  {
    assert StartOk(l, |l.starts| - 1);
  }

  lemma StartsGrow(l: Layout, data: Bytes, p: Pair, shared: nat, end: nat, restart: bool)
    requires LayoutOk(l, data) && (forall r :: 0 <= r < |l.starts| ==> l.starts[r] < |l.offs|)
    ensures var m := Grown(l, p, shared, end, restart);
      && (forall r :: 0 <= r < |m.starts| ==> m.starts[r] < |m.offs|)
      && StartOffsets(m) == StartOffsets(l) + if restart then [|data|] else []
  {
  }

  lemma IncreasingGrows(less: Less, ps: seq<Pair>, p: Pair)
    requires StrictOrder(less) && Increasing(less, ps) && (|ps| > 0 ==> less(ps[|ps| - 1].key, p.key))
    ensures Increasing(less, ps + [p])
  {
  }

  // ------------------------------------------------------------------ the iterator

  // n bytes at p; bytes outside the block, which only a corrupted length reaches, are not modelled.
  function Slice(data: Bytes, p: nat, n: nat): Bytes {
    if p + n <= |data| then data[p..p + n] else []
  }

  // Offsets are 32 bits wide.
  function NextOffset(start: nat, length: nat): nat {
    (start + length) % 0x1_0000_0000
  }

  // GetRestartPoint
  function RestartPoint(data: Bytes, restarts: nat, r: nat): U32
    requires restarts + 4 * r + 4 <= |data|
  {
    Decode32(data[restarts + 4 * r..restarts + 4 * r + 4])
  }

  lemma BlockRestarts(block: Bytes, l: Layout, data: Bytes, r: nat)
    requires IsBlock(block, l, data) && r < |l.starts|
    ensures |data| + 4 * |l.starts| + 4 == |block| && RestartPoint(block, |data|, r) == l.offs[l.starts[r]]
  {
    OffsetsGrow(l, data, l.starts[r], |l.pairs|);
    hide LayoutOk, Words, Decode32, Fixed;
    ArrayWord(data, StartOffsets(l), Fixed(|l.starts|, 4), r);
  }

  lemma ArrayWord(data: Bytes, ns: seq<nat>, tail: Bytes, r: nat)
    requires r < |ns| && ns[r] < 0x1_0000_0000
    ensures var b := data + Words(ns) + tail;
      |data| + 4 * r + 4 <= |b| && Decode32(b[|data| + 4 * r..|data| + 4 * r + 4]) == ns[r]
  {
    hide Words, Decode32, Fixed;
    WordAt(ns, r);
    MiddleSlice(data, Words(ns), tail, 4 * r, 4 * r + 4);
  }

  lemma BlockCount(block: Bytes, l: Layout, data: Bytes)
    requires IsBlock(block, l, data)
    ensures |data| + 4 * |l.starts| + 4 == |block| && Decode32(block[|block| - 4..]) == |l.starts|
  {
    hide LayoutOk, Words, Decode32, Fixed;
    assert block[|block| - 4..] == Fixed(|l.starts|, 4);
    Fixed32RoundTrip(|l.starts|);
  }

  lemma BlockParts(block: Bytes, l: Layout, data: Bytes, i: nat)
    requires IsBlock(block, l, data) && i < |l.pairs|
    ensures LayoutOk(l, data) && data <= block && |block| < 0x1_0000_0000
    ensures |l.offs| == |l.pairs| + 1 && |l.shared| == |l.pairs|
  {
    hide EntryOk, StartOk, Words;
  }

  lemma EntryPlace(l: Layout, data: Bytes, i: nat)
    requires LayoutOk(l, data) && i < |l.pairs|
    ensures |l.offs| == |l.pairs| + 1 && |l.shared| == |l.pairs| && l.offs[i] <= l.offs[i + 1] <= |data|
    ensures var p, s := l.pairs[i], l.shared[i];
      s <= |p.key| && l.offs[i] + |EntryBytes(s, p.key, p.value)| == l.offs[i + 1]
        && EntryBytes(s, p.key, p.value) <= data[l.offs[i]..]
  {
    hide EntryBytes;
    assert EntryOk(l, data, i);
  }

  // Decoding the entry at its offset.
  lemma BlockEntry(block: Bytes, l: Layout, data: Bytes, i: nat)
    requires IsBlock(block, l, data) && i < |l.pairs|
    ensures var k, v := l.pairs[i].key, l.pairs[i].value; var o, n := l.offs[i], |k| - l.shared[i];
      && l.shared[i] <= |k| && o < |data| <= |block|
      && var d := DecodeEntry(block[o..|data|]);
         d.Some? && d.value.0 == l.shared[i] && d.value.1 == n && d.value.2 == |v|
         && o + d.value.3 + n + |v| == l.offs[i + 1] <= |data|
         && Slice(block, o + d.value.3, n) == k[l.shared[i]..]
         && Slice(block, o + d.value.3 + n, |v|) == v
  {
    hide LayoutOk, EntryBytes, DecodeEntry, Words, IsBlock, Slice;
    BlockParts(block, l, data, i);
    DataEntry(l, data, i);
    var k, v, o := l.pairs[i].key, l.pairs[i].value, l.offs[i];
    var n, end := |k| - l.shared[i], l.offs[i + 1] - l.offs[i];
    Inside(block, data, o, end - |v| - n, n);
    Inside(block, data, o, end - |v|, |v|);
  }

  // The same in the bytes of the entries.
  lemma DataEntry(l: Layout, data: Bytes, i: nat)
    requires LayoutOk(l, data) && |data| < 0x1_0000_0000 && i < |l.pairs|
    ensures var k, v := l.pairs[i].key, l.pairs[i].value; var o, n := l.offs[i], |k| - l.shared[i];
      && l.shared[i] <= |k| && o + 3 + n + |v| <= l.offs[i + 1] <= |data|
      && var d, q := data[o..], l.offs[i + 1] - o - |v| - n;
         DecodeEntry(d) == Some((l.shared[i], n, |v|, q)) && d[q..q + n] == k[l.shared[i]..]
           && d[q + n..q + n + |v|] == v
  {
    hide LayoutOk, EntryBytes, DecodeEntry;
    EntryPlace(l, data, i);
    KeyFits(l, data, i);
    var p, s, d := l.pairs[i], l.shared[i], data[l.offs[i]..];
    var e := EntryBytes(s, p.key, p.value);
    var tail := d[|e|..];
    assert d == e + tail;
    DecodeEncoded(s, p.key, p.value, tail);
  }

  // The bytes of the entries are the first bytes of the block.
  lemma Inside(block: Bytes, data: Bytes, o: nat, a: nat, n: nat)
    requires data <= block && o <= |data| && a + n <= |data| - o
    ensures block[o..|data|] == data[o..] && Slice(block, o + a, n) == data[o..][a..a + n]
  {
  }

  class BlockIter {
    const less: Less
    const data: Bytes
    const restarts: nat          // where the restart array starts
    const numRestarts: nat
    var current: nat
    var restartIndex: nat
    var key: Bytes
    var valueStart: nat
    var valueLength: nat
    var corrupt: bool            // status_
    ghost const l: Layout        // of a block the builder made
    ghost var pos: nat

    ghost predicate Safe()
    {
      restarts + 4 * numRestarts + 4 == |data| < 0x1_0000_0000 && numRestarts > 0
    }

    // The block is one that the builder made.
    ghost predicate Good()
    {
      Safe() && IsBlock(data, l, data[..restarts]) && numRestarts == |l.starts| && StrictOrder(less)
        && Increasing(less, l.pairs)
    }

    // Valid(), key(), value()
    predicate Valid()
      reads this
    {
      current < restarts
    }

    function Value(): Bytes
      reads this
    {
      Slice(data, valueStart, valueLength)
    }

    function NextEntryOffset(): nat
      reads this
    {
      NextOffset(valueStart, valueLength)
    }

    // The restart point in whose region entry i is.
    ghost predicate InRegion(r: nat, i: nat)
    {
      && r < numRestarts == |l.starts| && l.starts[r] <= i
      && (r + 1 < numRestarts ==> i <= l.starts[r + 1])
    }

    ghost predicate At(i: nat)
      requires Good() && i < |l.pairs|
      reads this
    {
      && current == l.offs[i] && key == l.pairs[i].key && Value() == l.pairs[i].value
      && NextEntryOffset() == l.offs[i + 1] && InRegion(restartIndex, i)
    }

    // The cursor stands on pair pos, or at the end.
    ghost predicate Stands()
      requires Good()
      reads this
    {
      && !corrupt && pos <= |l.pairs|
      && if pos < |l.pairs| then At(pos) else current == restarts
    }

    // The next entry to parse is entry i.
    ghost predicate Ready(i: nat)
      requires Good()
      reads this
    {
      && i <= |l.pairs| && NextEntryOffset() == l.offs[i] && !corrupt
      && restartIndex < numRestarts && l.starts[restartIndex] <= i
      && (i < |l.pairs| ==> l.shared[i] <= |key| && l.shared[i] <= |l.pairs[i].key|
                            && key[..l.shared[i]] == l.pairs[i].key[..l.shared[i]])
    }

    constructor (less: Less, data: Bytes, restarts: nat, numRestarts: nat, ghost l: Layout)
      ensures this.less == less && this.data == data && this.restarts == restarts && this.numRestarts == numRestarts
      ensures this.l == l
      ensures !corrupt && current == restarts
      ensures Good() ==> Stands() && pos == |l.pairs|
    {
      this.less, this.data, this.restarts, this.numRestarts, this.l := less, data, restarts, numRestarts, l;
      current, restartIndex, key, valueStart, valueLength, corrupt := restarts, numRestarts, [], 0, 0, false;
      pos := |l.pairs|;
    }

    method CorruptionError()
      modifies this
      ensures current == restarts && corrupt
    {
      current, restartIndex, corrupt, key, valueStart, valueLength := restarts, numRestarts, true, [], 0, 0;
    }

    method SeekToRestartPoint(index: nat)
      requires Safe() && index < numRestarts
      modifies this
      ensures restartIndex == index && pos == old(pos) && current == old(current)
      ensures Good() && !old(corrupt) ==> Ready(l.starts[index])
    {
      key := [];
      restartIndex := index;
      valueStart, valueLength := RestartPoint(data, restarts, index), 0;
      if Good() {
        BlockRestarts(data, l, data[..restarts], index);
        assert StartOk(l, index);
      }
    }

    // The restart point of the entry just parsed.
    method AdvanceRestart(ghost i: nat)
      requires Safe() && restartIndex < numRestarts
      modifies this`restartIndex
      ensures restartIndex < numRestarts
      ensures Good() && i < |l.pairs| && current == l.offs[i] && l.starts[old(restartIndex)] <= i ==>
        InRegion(restartIndex, i)
    {
      hide EntryOk, Increasing, StrictOrder, RestartPoint;
      ghost var known := Good() && i < |l.pairs| && current == l.offs[i] && l.starts[restartIndex] <= i;
      while restartIndex + 1 < numRestarts && RestartPoint(data, restarts, restartIndex + 1) < current
        invariant restartIndex < numRestarts && (known ==> l.starts[restartIndex] <= i)
      {
        if known {
          RestartOrder(restartIndex + 1, i);
        }
        restartIndex := restartIndex + 1;
      }
      if known && restartIndex + 1 < numRestarts {
        RestartOrder(restartIndex + 1, i);
      }
    }

    // Restart points are ordered as the entries they point to.
    lemma RestartOrder(r: nat, i: nat)
      requires Good() && r < numRestarts && i <= |l.pairs|
      ensures RestartPoint(data, restarts, r) == l.offs[l.starts[r]]
      ensures RestartPoint(data, restarts, r) < l.offs[i] <==> l.starts[r] < i
    {
      BlockRestarts(data, l, data[..restarts], r);
      if l.starts[r] < i {
        OffsetsGrow(l, data[..restarts], l.starts[r], i);
      } else {
        OffsetsGrow(l, data[..restarts], i, l.starts[r]);
      }
    }

    // What parsing finds at entry i.
    lemma EntryHere(i: nat, key0: Bytes)
      requires Good() && i < |l.pairs| && l.shared[i] <= |key0| && l.shared[i] <= |l.pairs[i].key|
      requires key0[..l.shared[i]] == l.pairs[i].key[..l.shared[i]]
      ensures var o := l.offs[i];
        && o < restarts <= |data| && o < l.offs[i + 1] <= restarts
        && var d := DecodeEntry(data[o..restarts]);
           d.Some? && d.value.0 == l.shared[i]
           && key0[..d.value.0] + Slice(data, o + d.value.3, d.value.1) == l.pairs[i].key
           && Slice(data, o + d.value.3 + d.value.1, d.value.2) == l.pairs[i].value
           && NextOffset(o + d.value.3 + d.value.1, d.value.2) == l.offs[i + 1]
    {
      hide EntryOk, StartOk, Increasing, StrictOrder, DecodeEntry, Slice, Words, StartOffsets;
      BlockEntry(data, l, data[..restarts], i);
      var k, s := l.pairs[i].key, l.shared[i];
      assert k[..s] + k[s..] == k;
    }

    lemma OffsetHere(i: nat)
      requires Good() && i <= |l.pairs|
      ensures l.offs[i] <= restarts && (l.offs[i] == restarts <==> i == |l.pairs|)
    {
      OffsetsGrow(l, data[..restarts], i, |l.pairs|);
    }

    method ParseNextKey(ghost i: nat) returns (ok: bool)
      requires Safe() && restartIndex < numRestarts
      modifies this
      ensures !ok ==> current == restarts
      ensures ok ==> current == old(NextEntryOffset()) < restarts && restartIndex < numRestarts
      ensures ok ==> current < NextEntryOffset() <= restarts
      ensures Good() && old(Ready(i)) ==> Stands() && pos == i && (ok <==> i < |l.pairs|)
    {
      hide IsBlock, Increasing, StrictOrder, DecodeEntry, Slice, NextOffset;
      ghost var known := Good() && Ready(i);
      pos := i;
      current := NextEntryOffset();
      if known {
        OffsetHere(i);
        if i < |l.pairs| {
          EntryHere(i, key);
        }
      }
      if current >= restarts {
        current, restartIndex := restarts, numRestarts;
        return false;
      }
      var d := DecodeEntry(data[current..restarts]);
      if d.None? || |key| < d.value.0 {
        CorruptionError();
        return false;
      }
      key := key[..d.value.0] + Slice(data, current + d.value.3, d.value.1);
      valueStart, valueLength := current + d.value.3 + d.value.1, d.value.2;
      AfterEntry(current, restarts, d.value.3, d.value.1, d.value.2);
      AdvanceRestart(i);
      return true;
    }

    /** Where the cursor stands, it reads the pair that was added there. */
    lemma Reads()
      requires Good() && Stands()
      ensures !corrupt && pos <= |l.pairs| && (Valid() <==> pos < |l.pairs|)
      ensures Valid() ==> key == l.pairs[pos].key && Value() == l.pairs[pos].value
    {
      EndsThere();
    }

    // Past entry i, entry i + 1 is next.
    lemma ReadyNext(i: nat)
      requires Good() && i < |l.pairs| && At(i) && !corrupt
      ensures Ready(i + 1)
    {
      assert i + 1 < |l.pairs| ==> EntryOk(l, data[..restarts], i + 1);
    }

    ghost predicate Usable()
      reads this
    {
      Safe() && (Valid() ==> restartIndex < numRestarts)
    }

    method Next()
      requires Usable() && Valid()
      modifies this
      ensures Usable()
      ensures Good() && old(Stands()) ==> Stands() && pos == old(pos) + 1
    {
      hide IsBlock, Increasing, StrictOrder;
      ghost var i := pos;
      if Good() && Stands() {
        EndsThere();
        ReadyNext(i);
      }
      var _ := ParseNextKey(i + 1);
    }

    lemma EndsThere()
      requires Good() && Stands()
      ensures Valid() <==> pos < |l.pairs|
    {
      OffsetHere(pos);
    }

    /** Prev undoes Next: it goes back to a restart point and parses forward to the entry
        that ends where this one starts. */
    method Prev()
      requires Usable() && Valid()
      modifies this
      ensures Usable()
      ensures Good() && old(Stands()) ==> Stands() && pos == if old(pos) == 0 then |l.pairs| else old(pos) - 1
    {
      hide IsBlock, Increasing, StrictOrder, RestartPoint, At, Ready;
      var original := current;
      ghost var known, p := Good() && Stands(), pos;
      if known {
        EndsThere();
        AtEntry(p);
      }
      while RestartPoint(data, restarts, restartIndex) >= original
        invariant restartIndex < numRestarts && current == original && corrupt == old(corrupt)
        invariant known ==> l.starts[restartIndex] <= p
        decreases restartIndex
      {
        if known {
          RestartOrder(restartIndex, p);
        }
        if restartIndex == 0 {
          current, restartIndex := restarts, numRestarts;
          if known {
            FirstRestart();
          }
          pos := |l.pairs|;
          return;
        }
        if known {
          StartsOrder(restartIndex - 1, restartIndex);
        }
        restartIndex := restartIndex - 1;
      }
      if known {
        RestartOrder(restartIndex, p);
      }
      ghost var i: nat := if known then l.starts[restartIndex] else 0;
      SeekToRestartPoint(restartIndex);
      var more := ParseNextKey(i);
      while more && NextEntryOffset() < original
        invariant Usable() && (more ==> current < NextEntryOffset() <= restarts && restartIndex < numRestarts)
        invariant known ==> Stands() && pos == i < p && more
        decreases more, restarts - NextEntryOffset()
      {
        if known {
          AtEntry(i);
          OffsetOrder(i + 1, p);
          ReadyNext(i);
        }
        more := ParseNextKey(i + 1);
        i := i + 1;
      }
      if known {
        AtEntry(i);
        OffsetOrder(i + 1, p);
      }
    }

    lemma AtEntry(i: nat)
      requires Good() && i < |l.pairs| && At(i)
      ensures current == l.offs[i] && NextEntryOffset() == l.offs[i + 1]
      ensures restartIndex < numRestarts && l.starts[restartIndex] <= i
    {
      hide IsBlock, Increasing, StrictOrder;
    }

    lemma FirstRestart()
      requires Good()
      ensures l.starts[0] == 0
    {
    }

    lemma StartsOrder(q: nat, r: nat)
      requires Good() && q < r < numRestarts
      ensures l.starts[q] < l.starts[r]
    {
    }

    lemma OffsetOrder(i: nat, p: nat)
      requires Good() && i <= |l.pairs| && p <= |l.pairs|
      ensures |l.offs| == |l.pairs| + 1 && (l.offs[i] < l.offs[p] <==> i < p)
    {
      if i < p {
        OffsetsGrow(l, data[..restarts], i, p);
      } else {
        OffsetsGrow(l, data[..restarts], p, i);
      }
    }

    method SeekToFirst()
      requires Safe()
      modifies this
      ensures Usable()
      ensures Good() && !old(corrupt) ==> Stands() && pos == 0
    {
      hide IsBlock, Increasing, StrictOrder;
      SeekToRestartPoint(0);
      if Good() {
        FirstRestart();
      }
      var _ := ParseNextKey(0);
    }

    method SeekToLast()
      requires Safe()
      modifies this
      ensures Usable()
      ensures Good() && !old(corrupt) ==> Stands() && pos == if |l.pairs| == 0 then 0 else |l.pairs| - 1
    {
      hide IsBlock, Increasing, StrictOrder;
      ghost var known := Good() && !corrupt;
      ghost var i: nat := if known then l.starts[numRestarts - 1] else 0;
      SeekToRestartPoint(numRestarts - 1);
      if known {
        LastStart(numRestarts - 1);
      }
      var more := ParseNextKey(i);
      while more && NextEntryOffset() < restarts
        invariant Usable() && (more ==> current < NextEntryOffset() <= restarts && restartIndex < numRestarts)
        invariant known ==> Stands() && pos == i && (more <==> i < |l.pairs|) && (|l.pairs| > 0 ==> i < |l.pairs|)
        decreases more, restarts - NextEntryOffset()
      {
        if known {
          OffsetHere(i + 1);
          ReadyNext(i);
        }
        more := ParseNextKey(i + 1);
        i := i + 1;
      }
      if known && more {
        OffsetHere(i + 1);
      }
    }

    // The key of a restart point, found without parsing from the front.
    lemma RestartKey(r: nat)
      requires Good() && r < numRestarts && |l.pairs| > 0
      ensures l.starts[r] < |l.pairs|
      ensures var o := RestartPoint(data, restarts, r);
        && o <= restarts <= |data|
        && var d := DecodeEntry(data[o..restarts]);
           d.Some? && d.value.0 == 0 && Slice(data, o + d.value.3, d.value.1) == l.pairs[l.starts[r]].key
    {
      hide DecodeEntry, Slice, RestartPoint, IsBlock, Increasing, StrictOrder;
      RestartPlace(r);
      EntryHere(l.starts[r], []);
      var d := DecodeEntry(data[l.offs[l.starts[r]]..restarts]);
      assert [][..d.value.0] + Slice(data, l.offs[l.starts[r]] + d.value.3, d.value.1)
          == Slice(data, l.offs[l.starts[r]] + d.value.3, d.value.1);
    }

    // The entry of a restart point, and where it starts.
    lemma RestartPlace(r: nat)
      requires Good() && r < numRestarts && |l.pairs| > 0
      ensures r < |l.starts| && l.starts[r] < |l.pairs| == |l.shared| && |l.offs| == |l.pairs| + 1
      ensures l.shared[l.starts[r]] == 0 && RestartPoint(data, restarts, r) == l.offs[l.starts[r]]
    {
      LastStart(r);
      assert StartOk(l, r);
      RestartOrder(r, 0);
      hide DecodeEntry, Slice;
    }

    // All keys before the target, from entry i on backwards.
    ghost predicate AllBelow(i: nat, target: Bytes)
    {
      i <= |l.pairs| && forall j :: 0 <= j < i ==> less(l.pairs[j].key, target)
    }

    lemma BelowGrows(i: nat, target: Bytes)
      requires Good() && i < |l.pairs| && less(l.pairs[i].key, target)
      ensures AllBelow(i + 1, target) && AllBelow(i, target)
    {
    }

    /** Seek lands on the first key at or after the target. */
    method Seek(target: Bytes)
      requires Safe()
      modifies this
      ensures Usable()
      ensures Good() && !old(corrupt) ==>
        && Stands() && (forall j :: 0 <= j < pos ==> less(l.pairs[j].key, target))
        && (pos < |l.pairs| ==> !less(l.pairs[pos].key, target))
    {
      hide IsBlock, Increasing, StrictOrder, RestartPoint, DecodeEntry;
      ghost var known := Good() && !corrupt;
      var left, right := 0, numRestarts - 1;
      while left < right
        invariant 0 <= left <= right < numRestarts && corrupt == old(corrupt)
        invariant known && left > 0 ==> l.starts[left] < |l.pairs| && less(l.pairs[l.starts[left]].key, target)
      {
        var mid := (left + right + 1) / 2;
        var regionOffset := RestartPoint(data, restarts, mid);
        if known {
          MoreStarts(mid);
          RestartKey(mid);
        }
        var d := if regionOffset <= restarts then DecodeEntry(data[regionOffset..restarts]) else None;
        if d.None? || d.value.0 != 0 {
          CorruptionError();
          return;
        }
        var midKey := Slice(data, regionOffset + d.value.3, d.value.1);
        if less(midKey, target) {
          left := mid;
        } else {
          right := mid - 1;
        }
      }
      if known {
        FirstRestart();
        if left > 0 {
          BelowGrows(l.starts[left], target);
        }
      }
      ghost var i: nat := if known then l.starts[left] else 0;
      SeekToRestartPoint(left);
      while true
        invariant Safe() && restartIndex < numRestarts && NextEntryOffset() < 0x1_0000_0000
        invariant known ==> !corrupt && Ready(i) && AllBelow(i, target)
        decreases 0x1_0000_0000 - NextEntryOffset()
      {
        var more := ParseNextKey(i);
        if !more {
          return;
        }
        if !less(key, target) {
          return;
        }
        if known {
          ReadyNext(i);
          BelowGrows(i, target);
        }
        i := i + 1;
      }
    }

    // A second restart point means that there are entries.
    lemma MoreStarts(r: nat)
      requires Good() && 0 < r < numRestarts
      ensures |l.pairs| > 0
    {
      FirstRestart();
      StartsOrder(0, r);
      assert StartOk(l, r);
    }

    lemma LastStart(r: nat)
      requires Good() && r < numRestarts
      ensures if |l.pairs| == 0 then l.starts[r] == 0 else l.starts[r] < |l.pairs|
    {
      assert StartOk(l, r);
    }
  }

  lemma AfterEntry(o: nat, limit: nat, q: nat, n: nat, v: nat)
    requires limit < 0x1_0000_0000 && q >= 3 && o + q + (n + v) % 0x1_0000_0000 <= limit
    ensures o < NextOffset(o + q + n, v) <= limit
  {
    assert (o + q + n + v) % 0x1_0000_0000 == o + q + (n + v) % 0x1_0000_0000;
  }

  // Block::Block and Block::NewIterator: no iterator for contents that cannot be a block, or
  // for a block without restart points.
  method NewIterator(less: Less, data: Bytes, ghost l: Layout) returns (iter: Option<BlockIter>, corrupt: bool)
    requires |data| < 0x1_0000_0000
    ensures iter.Some? ==>
      fresh(iter.value) && iter.value.Safe() && iter.value.data == data && iter.value.less == less && iter.value.l == l
    ensures forall entries :: IsBlock(data, l, entries) && StrictOrder(less) && Increasing(less, l.pairs) ==>
      iter.Some? && !corrupt && iter.value.Good() && !iter.value.corrupt
  {
    hide IsBlock, Increasing, StrictOrder;
    if entries :| IsBlock(data, l, entries) {
      BlockCount(data, l, entries);
      EntriesAreFirst(data, l, entries);
    }
    if |data| < 4 {
      return None, true;
    }
    var numRestarts := Decode32(data[|data| - 4..]);
    if numRestarts > (|data| - 4) / 4 {
      return None, true;
    }
    if numRestarts == 0 {
      return None, false;
    }
    var it := new BlockIter(less, data, |data| - (1 + numRestarts) * 4, numRestarts, l);
    iter, corrupt := Some(it), false;
  }

  lemma EntriesAreFirst(block: Bytes, l: Layout, data: Bytes)
    requires IsBlock(block, l, data)
    ensures |data| + 4 * |l.starts| + 4 == |block| && block[..|data|] == data
    ensures |l.starts| > 0
  {
  }
}
