/** The filter block: one filter for every 2 KB of table file (table/filter_block.cc). */
module FilterBlocks {
  import opened Keys
  import opened Coding

  // FilterPolicy: Name, CreateFilter and KeyMayMatch.
  datatype Policy = Policy(name: Bytes, create: seq<Bytes> -> Bytes, mayMatch: (Bytes, Bytes) -> bool)

  // A filter accepts every key it was made from.
  ghost predicate NoFalseNegatives(policy: Policy) {
    forall keys: seq<Bytes>, i: nat :: i < |keys| ==> policy.mayMatch(keys[i], policy.create(keys))
  }

  const BASE_LG: nat := 11
  const BASE: nat := 2048

  // The keys of a flattened list; `starts` holds where each one begins.
  function KeyList(keys: Bytes, starts: seq<nat>): (r: seq<Bytes>)
    requires Flat(keys, starts)
    ensures |r| == |starts|
  {
    seq(|starts|, i requires 0 <= i < |starts| => keys[starts[i]..if i + 1 < |starts| then starts[i + 1] else |keys|])
  }

  predicate Flat(keys: Bytes, starts: seq<nat>) {
    && (forall i :: 0 <= i < |starts| ==> starts[i] <= |keys|)
    && forall i, j :: 0 <= i < j < |starts| ==> starts[i] <= starts[j]
  }

  lemma KeyListGrows(keys: Bytes, starts: seq<nat>, k: Bytes)
    requires Flat(keys, starts)
    ensures Flat(keys + k, starts + [|keys|])
    ensures KeyList(keys + k, starts + [|keys|]) == KeyList(keys, starts) + [k]
  {
    var a, b := KeyList(keys, starts), KeyList(keys + k, starts + [|keys|]);
    forall i | 0 <= i < |b| ensures b[i] == (a + [k])[i] {
      if i < |a| {
        var end := if i + 1 < |starts| then starts[i + 1] else |keys|;
        assert (keys + k)[starts[i]..end] == keys[starts[i]..end];
      }
    }
  }

  // The filters made so far: filter i was made from groups[i], and none from no keys.
  function FilterOf(policy: Policy, group: seq<Bytes>): Bytes {
    if |group| == 0 then [] else policy.create(group)
  }

  function Filters(policy: Policy, groups: seq<seq<Bytes>>): Bytes {
    if |groups| == 0 then [] else Filters(policy, groups[..|groups| - 1]) + FilterOf(policy, groups[|groups| - 1])
  }

  function Offsets(policy: Policy, groups: seq<seq<Bytes>>): (r: seq<nat>)
    ensures |r| == |groups|
  {
    seq(|groups|, i requires 0 <= i < |groups| => |Filters(policy, groups[..i])|)
  }

  lemma FiltersGrow(policy: Policy, groups: seq<seq<Bytes>>, g: seq<Bytes>)
    ensures Filters(policy, groups + [g]) == Filters(policy, groups) + FilterOf(policy, g)
    ensures Offsets(policy, groups + [g]) == Offsets(policy, groups) + [|Filters(policy, groups)|]
  {
    var all := groups + [g];
    assert all[..|groups|] == groups;
    assert forall i :: 0 <= i < |groups| ==> all[..i] == groups[..i];
  }

  lemma {:induction false} FiltersPrefix(policy: Policy, groups: seq<seq<Bytes>>, n: nat)
    requires n <= |groups|
    ensures Filters(policy, groups[..n]) <= Filters(policy, groups)
    decreases |groups|
  {
    if n < |groups| {
      var m := |groups| - 1;
      FiltersPrefix(policy, groups[..m], n);
      assert groups[..m][..n] == groups[..n];
    } else {
      assert groups[..n] == groups;
    }
  }

  lemma FilterIsThere(policy: Policy, groups: seq<seq<Bytes>>, i: nat)
    requires i < |groups|
    ensures var all, start := Filters(policy, groups), |Filters(policy, groups[..i])|;
      var limit := |Filters(policy, groups[..i + 1])|;
      start <= limit <= |all| && all[start..limit] == FilterOf(policy, groups[i])
  {
    FiltersPrefix(policy, groups, i + 1);
    assert groups[..i + 1][..i] == groups[..i] && groups[..i + 1][i] == groups[i];
    var all, a, b := Filters(policy, groups), Filters(policy, groups[..i]), Filters(policy, groups[..i + 1]);
    assert b == a + FilterOf(policy, groups[i]);
    hide Filters, FilterOf;
    assert all[..|b|] == b;
    assert all[|a|..|b|] == b[|a|..];
  }

  // A key added while the block at this offset was built.
  datatype Added = Added(offset: nat, key: Bytes)

  // Each key is in the filter of its block's offset, or still waiting for it.
  ghost predicate Covered(added: seq<Added>, groups: seq<seq<Bytes>>, pending: seq<Bytes>) {
    forall i :: 0 <= i < |added| ==>
      var index := added[i].offset / BASE;
      && index <= |groups|
      && added[i].key in if index < |groups| then groups[index] else pending
  }

  class FilterBlockBuilder {
    const policy: Policy
    var keys: Bytes
    var start: seq<nat>
    var result: Bytes
    var filterOffsets: seq<nat>
    ghost var groups: seq<seq<Bytes>>
    ghost var offset: nat             // of the block being built
    ghost var added: seq<Added>

    ghost predicate Valid()
      reads this
    {
      && Flat(keys, start) && result == Filters(policy, groups) && filterOffsets == Offsets(policy, groups)
      && Covered(added, groups, KeyList(keys, start))
      && offset / BASE == |groups|
    }

    constructor (policy: Policy)
      ensures Valid() && this.policy == policy && added == [] && offset == 0
    {
      this.policy := policy;
      keys, start, result, filterOffsets := [], [], [], [];
      groups, offset, added := [], 0, [];
    }

    method GenerateFilter()
      requires Flat(keys, start) && result == Filters(policy, groups) && filterOffsets == Offsets(policy, groups)
      requires Covered(added, groups, KeyList(keys, start))
      modifies this
      ensures Flat(keys, start) && result == Filters(policy, groups) && filterOffsets == Offsets(policy, groups)
      ensures KeyList(keys, start) == [] && groups == old(groups) + [old(KeyList(keys, start))]
      ensures Covered(added, groups, []) && added == old(added) && offset == old(offset)
    {
      ghost var pending := KeyList(keys, start);
      FiltersGrow(policy, groups, pending);
      filterOffsets := filterOffsets + [|result|];
      if |start| > 0 {
        result := result + policy.create(KeyList(keys, start));
        keys, start := [], [];
      } else {
        assert result + [] == result;
      }
      CoveredMoves(added, groups, pending);
      groups := groups + [pending];
    }

    method StartBlock(blockOffset: nat)
      requires Valid() && blockOffset >= offset
      modifies this
      ensures Valid() && added == old(added) && offset == blockOffset
    {
      var filterIndex := blockOffset / BASE;
      while filterIndex > |filterOffsets|
        invariant Flat(keys, start) && result == Filters(policy, groups) && filterOffsets == Offsets(policy, groups)
        invariant Covered(added, groups, KeyList(keys, start)) && added == old(added)
        invariant |groups| <= filterIndex
      {
        GenerateFilter();
      }
      offset := blockOffset;
    }

    method AddKey(key: Bytes)
      requires Valid()
      modifies this
      ensures Valid() && added == old(added) + [Added(offset, key)] && offset == old(offset)
    {
      KeyListGrows(keys, start, key);
      start := start + [|keys|];
      keys := keys + key;
      added := added + [Added(offset, key)];
    }

    /** Finish: the filters, their offsets, where the offsets start, and the base. */
    method Finish() returns (block: Bytes)
      requires Valid()
      modifies this
      ensures |block| < 0x1_0000_0000 ==> IsFilterBlock(policy, block, groups)
      ensures Covered(old(added), groups, []) && added == old(added)
    {
      hide Words, Fixed, Filters, Offsets, KeyList, Covered;
      FinishedKeys();
      if |start| > 0 {
        GenerateFilter();
      }
      ghost var filters := result;
      var arrayOffset := |result|;
      var i := 0;
      NoWords(filterOffsets);
      while i < |filterOffsets|
        invariant 0 <= i <= |filterOffsets| && result == filters + Words(filterOffsets[..i])
        invariant filterOffsets == Offsets(policy, groups) && filters == Filters(policy, groups)
        invariant Covered(old(added), groups, []) && added == old(added)
      {
        NextWord(filterOffsets, i);
        result := result + Fixed(filterOffsets[i] % 0x1_0000_0000, 4);
        i := i + 1;
      }
      assert filterOffsets[..i] == filterOffsets;
      WordsGrow(filterOffsets, arrayOffset);
      result := result + Fixed(arrayOffset % 0x1_0000_0000, 4);
      result := result + [BASE_LG as Byte];
      block := result;
    }

    lemma FinishedKeys()
      requires Valid()
      ensures |start| == 0 ==> KeyList(keys, start) == []
    {
    }
  }

  lemma WordsGrow(ns: seq<nat>, n: nat)
    ensures Words(ns + [n]) == Words(ns) + Fixed(n % 0x1_0000_0000, 4)
  {
    assert (ns + [n])[..|ns|] == ns;
  }

  lemma CoveredMoves(added: seq<Added>, groups: seq<seq<Bytes>>, pending: seq<Bytes>)
    requires Covered(added, groups, pending)
    ensures Covered(added, groups + [pending], [])
  {
  }

  // The offsets are followed by the offset of the array itself.
  ghost predicate IsFilterBlock(policy: Policy, block: Bytes, groups: seq<seq<Bytes>>) {
    && block == Filters(policy, groups) + Words(Offsets(policy, groups) + [|Filters(policy, groups)|])
      + [BASE_LG as Byte]
    && |block| < 0x1_0000_0000
  }

  // ------------------------------------------------------------------ the reader

  class FilterBlockReader {
    const policy: Policy
    const data: Bytes
    const offsets: nat        // where the offset array starts
    const num: nat
    const baseLg: nat

    constructor (policy: Policy, contents: Bytes)
      requires |contents| < 0x1_0000_0000
      ensures this.policy == policy && (num > 0 ==> offsets + 4 * num + 5 <= |data|)
      ensures forall groups :: IsFilterBlock(policy, contents, groups) ==>
        data == contents && Reads(groups)
    {
      hide Filters, Offsets, Words;
      this.policy := policy;
      data, offsets, num, baseLg := [], 0, 0, 0;
      var n := |contents|;
      if n >= 5 {
        var lastWord := Decode32(contents[n - 5..n - 1]);
        baseLg := contents[n - 1] as nat;
        if lastWord <= n - 5 {
          data, offsets, num := contents, lastWord, (n - 5 - lastWord) / 4;
        }
      }
      new;
      forall groups | IsFilterBlock(policy, contents, groups)
        ensures data == contents && Reads(groups) {
        LastWord(policy, contents, groups);
      }
    }

    function IndexAt(blockOffset: nat): nat {
      PowerPositive(baseLg);
      blockOffset / Power(2, baseLg)
    }

    // FilterBlockReader::KeyMayMatch
    function KeyMayMatch(blockOffset: nat, key: Bytes): bool
      requires num > 0 ==> offsets + 4 * num + 5 <= |data|
    {
      var index := IndexAt(blockOffset);
      if index < num then
        var start := Decode32(data[offsets + index * 4..offsets + index * 4 + 4]);
        var limit := Decode32(data[offsets + index * 4 + 4..offsets + index * 4 + 8]);
        if start <= limit && limit <= offsets then policy.mayMatch(key, data[start..limit])
        else start != limit
      else true
    }

    // This reader reads the filter block of these groups.
    ghost predicate Reads(groups: seq<seq<Bytes>>) {
      IsFilterBlock(policy, data, groups) && offsets == |Filters(policy, groups)| && num == |groups|
        && baseLg == BASE_LG
    }

    /** No false negatives: a key added while the block at an offset was built is accepted
        there, even by the last filter, whose end is where the offset array starts. */
    lemma AcceptsAdded(groups: seq<seq<Bytes>>, added: seq<Added>, i: nat)
      requires Reads(groups) && Covered(added, groups, []) && i < |added| && NoFalseNegatives(policy)
      ensures offsets + 4 * num + 5 <= |data| && KeyMayMatch(added[i].offset, added[i].key)
    {
      var index := added[i].offset / BASE;
      var group := groups[index];
      var j :| 0 <= j < |group| && group[j] == added[i].key;
      assert policy.mayMatch(group[j], policy.create(group));
      hide NoFalseNegatives, Covered;
      AcceptsMatch(groups, added[i].offset, added[i].key);
    }

    /** The reader accepts a key at an offset exactly if the filter made for that offset does. */
    lemma AcceptsMatch(groups: seq<seq<Bytes>>, offset: nat, key: Bytes)
      requires Reads(groups) && offset / BASE < |groups|
      ensures offsets + 4 * num + 5 <= |data|
      ensures KeyMayMatch(offset, key) == policy.mayMatch(key, FilterOf(policy, groups[offset / BASE]))
    {
      hide Filters, Offsets, Words, Power, Decode32, FilterOf, KeyMayMatch;
      var index := offset / BASE;
      var start, limit := |Filters(policy, groups[..index])|, |Filters(policy, groups[..index + 1])|;
      FilterIsThere(policy, groups, index);
      ReadsOffset(policy, data, groups, index);
      ReadsOffset(policy, data, groups, index + 1);
      LastWord(policy, data, groups);
      FirstSlice(Filters(policy, groups), data, start, limit);
      MayMatch(offset, index, start, limit, key);
    }

    lemma MayMatch(offset: nat, index: nat, start: nat, limit: nat, key: Bytes)
      requires offsets + 4 * num + 5 <= |data| && baseLg == BASE_LG && index == offset / BASE && index < num
      requires Decode32(data[offsets + index * 4..offsets + index * 4 + 4]) == start
      requires Decode32(data[offsets + (index + 1) * 4..offsets + (index + 1) * 4 + 4]) == limit
      requires start <= limit <= offsets
      ensures KeyMayMatch(offset, key) == policy.mayMatch(key, data[start..limit])
    {
      hide Power, Decode32;
      BasePower();
      assert offsets + (index + 1) * 4 == offsets + index * 4 + 4;
    }
  }

  lemma FirstSlice(a: Bytes, b: Bytes, i: nat, j: nat)
    requires i <= j <= |a| && a <= b
    ensures b[i..j] == a[i..j]
  {
  }

  lemma BasePower()
    ensures Power(2, BASE_LG) == BASE
  {
    PowerSeven(11);
    assert Power(2, 4) == 16;
  }

  lemma LastWord(policy: Policy, contents: Bytes, groups: seq<seq<Bytes>>)
    requires IsFilterBlock(policy, contents, groups)
    ensures var n := |contents|;
      && n == |Filters(policy, groups)| + 4 * |groups| + 5 && contents[n - 1] as nat == BASE_LG
      && Decode32(contents[n - 5..n - 1]) == |Filters(policy, groups)|
  {
    hide Filters, Words, Decode32, Offsets;
    ArrayAt(Filters(policy, groups), Offsets(policy, groups) + [|Filters(policy, groups)|], [BASE_LG as Byte],
            |groups|);
  }

  lemma ArrayAt(data: Bytes, ns: seq<nat>, tail: Bytes, i: nat)
    requires i < |ns| && ns[i] < 0x1_0000_0000
    ensures var b := data + Words(ns) + tail;
      |data| + 4 * i + 4 <= |b| && Decode32(b[|data| + 4 * i..|data| + 4 * i + 4]) == ns[i]
  {
    hide Words, Decode32;
    WordAt(ns, i);
    MiddleSlice(data, Words(ns), tail, 4 * i, 4 * i + 4);
  }

  // Where filter i starts and the one before it ends; after the last filter it is the word
  // that says where the array starts.
  lemma ReadsOffset(policy: Policy, data: Bytes, groups: seq<seq<Bytes>>, i: nat)
    requires IsFilterBlock(policy, data, groups) && i <= |groups|
    ensures var at := |Filters(policy, groups)| + i * 4;
      at + 4 <= |data| && Decode32(data[at..at + 4]) == |Filters(policy, groups[..i])|
  {
    OffsetAt(policy, groups, i);
    FiltersPrefix(policy, groups, i);
    hide Filters, Words, Decode32, Offsets;
    ArrayAt(Filters(policy, groups), Offsets(policy, groups) + [|Filters(policy, groups)|], [BASE_LG as Byte], i);
  }

  lemma OffsetAt(policy: Policy, groups: seq<seq<Bytes>>, i: nat)
    requires i <= |groups|
    ensures (Offsets(policy, groups) + [|Filters(policy, groups)|])[i] == |Filters(policy, groups[..i])|
  {
    if i == |groups| {
      assert groups[..i] == groups;
    }
  }
}
