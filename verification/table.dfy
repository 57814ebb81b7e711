/** Tables: data blocks, an index of shortened separators, a filter, a metaindex that names it, and
    a footer that finds both (table/table_builder.cc, table/table.cc). */
module Tables {
  import opened Keys
  import opened Coding
  import opened Comparators
  import opened LogFormat
  import opened Blocks
  import opened TableFormat
  import opened FilterBlocks
  import opened DbFormat

  function Internal(c: Comparator): Less {
    (a, b) => InternalLess(c, a, b)
  }

  // ------------------------------------------------------------------ the blocks of a table

  // A finished data block: its bytes, its layout, where it is, and its key in the index.
  datatype BlockInfo = BlockInfo(raw: Bytes, entries: Bytes, l: Layout, handle: Handle, separator: Bytes) {
    function Pairs(): seq<Pair> {
      l.pairs
    }
  }

  function First(b: BlockInfo): Bytes
    requires |b.Pairs()| > 0
  {
    b.Pairs()[0].key
  }

  function Last(b: BlockInfo): Bytes
    requires |b.Pairs()| > 0
  {
    b.Pairs()[|b.Pairs()| - 1].key
  }

  // The separator is not before the block.
  ghost predicate BlockOrder(c: Comparator, b: BlockInfo) {
    && |b.Pairs()| > 0 && Increasing(Internal(c), b.Pairs())
    && (b.separator == Last(b) || c.less(UserKeyOf(Last(b)), UserKeyOf(b.separator)))
  }

  ghost predicate Follows(c: Comparator, a: BlockInfo, b: BlockInfo)
    requires |a.Pairs()| > 0 && |b.Pairs()| > 0
  {
    InternalLess(c, Last(a), First(b)) && Separates(c, Last(a), a.separator, First(b))
  }

  ghost predicate TableOrder(c: Comparator, blocks: seq<BlockInfo>) {
    && (forall j :: 0 <= j < |blocks| ==> BlockOrder(c, blocks[j]))
    && forall j :: 0 < j < |blocks| ==> Follows(c, blocks[j - 1], blocks[j])
  }

  // InternalLess as an order on three given keys.
  lemma Order3(c: Comparator, x: Bytes, y: Bytes, z: Bytes)
    requires ComparatorOk(c)
    ensures InternalLess(c, x, y) && InternalLess(c, y, z) ==> InternalLess(c, x, z)
    ensures InternalLess(c, x, y) && !InternalLess(c, z, y) ==> InternalLess(c, x, z)
    ensures !InternalLess(c, y, x) && InternalLess(c, y, z) ==> InternalLess(c, x, z)
    ensures !(InternalLess(c, x, y) && InternalLess(c, y, x))
    ensures c.less(UserKeyOf(x), UserKeyOf(y)) ==> InternalLess(c, x, y) && !InternalLess(c, y, x)
  {
    var (a, b, d) := (UserKeyOf(x), UserKeyOf(y), UserKeyOf(z));
    assert a == b || c.less(a, b) || c.less(b, a);
    assert b == d || c.less(b, d) || c.less(d, b);
    assert a == d || c.less(a, d) || c.less(d, a);
  }

  // The separator of a block is before the first key of any later block.
  // Two neighbours: the separator of the first comes before the second.
  lemma NeighboursOrdered(c: Comparator, blocks: seq<BlockInfo>, j: nat)
    requires ComparatorOk(c) && TableOrder(c, blocks) && 0 < j < |blocks|
    ensures |blocks[j - 1].Pairs()| > 0 && |blocks[j].Pairs()| > 0 && BlockOrder(c, blocks[j - 1])
    ensures InternalLess(c, blocks[j - 1].separator, First(blocks[j]))
      && InternalLess(c, Last(blocks[j - 1]), First(blocks[j]))
  {
    var a, b := blocks[j - 1], blocks[j];
    assert Follows(c, a, b) && BlockOrder(c, a) && BlockOrder(c, b);
    hide ComparatorOk, TableOrder, InternalLess, UserKeyOf, Increasing;
    Order3(c, a.separator, First(b), First(b));
  }

  lemma {:induction false} SeparatorBefore(c: Comparator, blocks: seq<BlockInfo>, i: nat, j: nat)
    requires ComparatorOk(c) && TableOrder(c, blocks) && i < j < |blocks|
    ensures |blocks[j].Pairs()| > 0 && InternalLess(c, blocks[i].separator, First(blocks[j]))
  {
    hide *;
    var a, b := blocks[j - 1], blocks[j];
    NeighboursOrdered(c, blocks, j);
    if i < j - 1 {
      SeparatorBefore(c, blocks, i, j - 1);
      FirstToLast(c, a);
      Order3(c, blocks[i].separator, First(a), Last(a));
      Order3(c, blocks[i].separator, Last(a), First(b));
    }
  }

  lemma FirstToLast(c: Comparator, b: BlockInfo)
    requires ComparatorOk(c) && BlockOrder(c, b)
    ensures !InternalLess(c, Last(b), First(b))
    ensures !InternalLess(c, b.separator, Last(b))
    ensures forall i :: 0 <= i < |b.Pairs()| ==> !InternalLess(c, Last(b), b.Pairs()[i].key)
  {
    InternalOrder(c);
    Order3(c, Last(b), b.separator, b.separator);
    Order3(c, Last(b), Last(b), Last(b));
    forall i | 0 <= i < |b.Pairs()| - 1 ensures !InternalLess(c, Last(b), b.Pairs()[i].key) {
      assert Internal(c)(b.Pairs()[i].key, Last(b));
      Order3(c, b.Pairs()[i].key, Last(b), Last(b));
    }
  }

  // Pair i of block j is the first of the table at or after the key.
  ghost predicate IsFirst(c: Comparator, blocks: seq<BlockInfo>, key: Bytes, j: nat, i: nat) {
    && j < |blocks| && i < |blocks[j].Pairs()| && !InternalLess(c, blocks[j].Pairs()[i].key, key)
    && (forall h :: 0 <= h < i ==> InternalLess(c, blocks[j].Pairs()[h].key, key))
    && forall g, h :: 0 <= g < j && 0 <= h < |blocks[g].Pairs()| ==> InternalLess(c, blocks[g].Pairs()[h].key, key)
  }

  // The index sends a lookup to this block: the first whose separator is not before the key.
  ghost predicate IndexChooses(c: Comparator, blocks: seq<BlockInfo>, key: Bytes, j: nat) {
    && j <= |blocks| && (forall g :: 0 <= g < j ==> InternalLess(c, blocks[g].separator, key))
    && (j < |blocks| ==> !InternalLess(c, blocks[j].separator, key))
  }

  /** What a block seek finds in the chosen block is the first in the whole table. */
  lemma ChosenIsFirst(c: Comparator, blocks: seq<BlockInfo>, key: Bytes, j: nat, i: nat)
    requires ComparatorOk(c) && TableOrder(c, blocks) && IndexChooses(c, blocks, key, j)
    requires j < |blocks| && i < |blocks[j].Pairs()| && !InternalLess(c, blocks[j].Pairs()[i].key, key)
    requires forall h :: 0 <= h < i ==> InternalLess(c, blocks[j].Pairs()[h].key, key)
    ensures IsFirst(c, blocks, key, j, i)
  {
    forall g, h | 0 <= g < j && 0 <= h < |blocks[g].Pairs()| ensures InternalLess(c, blocks[g].Pairs()[h].key, key) {
      var b := blocks[g];
      assert BlockOrder(c, b);
      hide ComparatorOk, TableOrder, InternalLess, UserKeyOf, Increasing;
      FirstToLast(c, b);
      Order3(c, Last(b), b.separator, key);
      Order3(c, b.Pairs()[h].key, Last(b), key);
    }
  }

  /** A lookup is never sent to an earlier block, although its separator may be beyond every
      key of that block: when the first pair at or after the key has the key's user key, the
      index chooses its block. */
  lemma IndexFinds(c: Comparator, blocks: seq<BlockInfo>, key: Bytes, j: nat, i: nat, chosen: nat)
    requires ComparatorOk(c) && TableOrder(c, blocks) && IsFirst(c, blocks, key, j, i)
    requires UserKeyOf(blocks[j].Pairs()[i].key) == UserKeyOf(key) && IndexChooses(c, blocks, key, chosen)
    ensures chosen == j
  {
    var b := blocks[j];
    assert BlockOrder(c, b);
    assert !InternalLess(c, b.separator, key) by {
      hide TableOrder, InternalLess, UserKeyOf, Increasing, ComparatorOk;
      FirstToLast(c, b);
      Order3(c, b.separator, key, b.Pairs()[i].key);
      Order3(c, b.separator, b.Pairs()[i].key, Last(b));
      Order3(c, b.separator, Last(b), Last(b));
      NotBeforeChain(c, key, b.Pairs()[i].key, Last(b), b.separator);
    }
    if chosen < j {
      SeparatorBelow(c, blocks, key, j, i, chosen);
    }
  }

  lemma NotBeforeChain(c: Comparator, w: Bytes, x: Bytes, y: Bytes, z: Bytes)
    requires ComparatorOk(c) && !InternalLess(c, x, w) && !InternalLess(c, y, x) && !InternalLess(c, z, y)
    ensures !InternalLess(c, z, w)
  {
    hide InternalLess, UserKeyOf, ComparatorOk;
    if InternalLess(c, z, w) {
      Order3(c, z, w, x);
      Order3(c, z, x, y);
    }
  }

  lemma SeparatorBelow(c: Comparator, blocks: seq<BlockInfo>, key: Bytes, j: nat, i: nat, g: nat)
    requires ComparatorOk(c) && TableOrder(c, blocks) && IsFirst(c, blocks, key, j, i) && g < j
    requires UserKeyOf(blocks[j].Pairs()[i].key) == UserKeyOf(key)
    ensures InternalLess(c, blocks[g].separator, key)
  {
    var a, b := blocks[g], blocks[g + 1];
    assert Follows(c, blocks[g + 1 - 1], b) && BlockOrder(c, a) && BlockOrder(c, b);
    if a.separator == Last(a) {
      assert InternalLess(c, a.Pairs()[|a.Pairs()| - 1].key, key);
    } else {
      hide TableOrder, ComparatorOk;
      if g + 1 == j && i == 0 {
        Order3(c, a.separator, key, key);
      } else {
        assert InternalLess(c, First(b), key) by {
          assert InternalLess(c, b.Pairs()[0].key, key);
        }
        Order3(c, a.separator, First(b), key);
      }
    }
  }

  // ------------------------------------------------------------------ the builder

  // The block is in the file, and can be read if it is under 4 GB.
  ghost predicate BlockOk(crc: Crc, codec: Codec, file: Bytes, b: BlockInfo) {
    && (var (contents, kind) := Stored(codec, b.raw); StoredAt(crc, file, b.handle, contents, kind))
    && (|b.raw| < 0x1_0000_0000 ==> IsBlock(b.raw, b.l, b.entries))
  }

  function IndexPairs(blocks: seq<BlockInfo>): (ps: seq<Pair>)
    ensures |ps| == |blocks|
  {
    seq(|blocks|, j requires 0 <= j < |blocks| => Pair(blocks[j].separator, EncodeHandle(blocks[j].handle)))
  }

  // Every key of a block was added to the filter while the block was built.
  ghost predicate InFilter(added: seq<Added>, offset: nat, ps: seq<Pair>) {
    forall i :: 0 <= i < |ps| ==> Added(offset, ps[i].key) in added
  }

  class TableBuilder {
    const cmp: Comparator        // the user comparator
    const crc: Crc
    const codec: Codec
    const blockSize: nat
    const dataBlock: BlockBuilder
    const indexBlock: BlockBuilder
    const filter: Option<FilterBlockBuilder>
    var file: Bytes
    var offset: nat
    var lastKey: Bytes
    var numEntries: nat
    var pendingIndexEntry: bool
    var pendingHandle: Handle
    ghost var blocks: seq<BlockInfo>

    ghost function Objects(): set<object> {
      {this, dataBlock, indexBlock} + if filter.Some? then {filter.value} else {}
    }

    ghost predicate Valid()
      reads Objects()
    {
      && dataBlock != indexBlock && dataBlock.Valid() && indexBlock.Valid()
      && dataBlock.less == Internal(cmp) && indexBlock.less == Internal(cmp) && offset == |file|
      && BlocksOk(cmp, crc, codec, file, blocks)
      && KeysOk(cmp, blocks, dataBlock.l.pairs, lastKey, numEntries, pendingIndexEntry, pendingHandle)
      && IndexOk(blocks, pendingIndexEntry, indexBlock.l.pairs)
      && (filter.Some? ==>
            && filter.value.Valid() && filter.value.offset == offset
            && KeysInFilter(filter.value.added, offset, dataBlock.l.pairs, blocks))
    }

    constructor (cmp: Comparator, crc: Crc, codec: Codec, blockSize: nat, interval: nat, policy: Option<Policy>)
      requires ComparatorOk(cmp) && interval >= 1
      ensures Valid() && fresh(Objects()) && this.cmp == cmp && this.crc == crc && this.codec == codec
      ensures blocks == [] && dataBlock.l.pairs == []
      ensures filter.Some? <==> policy.Some?
      ensures filter.Some? ==> filter.value.policy == InternalPolicy(policy.value)
    {
      hide ComparatorOk, BlockBuilder.Valid, FilterBlockBuilder.Valid, StrictOrder, InternalLess;
      SameOrder(cmp);
      this.cmp, this.crc, this.codec, this.blockSize := cmp, crc, codec, blockSize;
      dataBlock := new BlockBuilder(Internal(cmp), interval);
      indexBlock := new BlockBuilder(Internal(cmp), 1);
      if policy.Some? {
        var f := new FilterBlockBuilder(InternalPolicy(policy.value));
        f.StartBlock(0);
        filter := Some(f);
      } else {
        filter := None;
      }
      file, offset, lastKey, numEntries, pendingIndexEntry, pendingHandle := [], 0, [], 0, false, Handle(0, 0);
      blocks := [];
    }

    // WriteRawBlock
    method WriteRawBlock(contents: Bytes, kind: Byte) returns (handle: Handle)
      requires offset == |file|
      modifies this`file, this`offset
      ensures file == old(file) + (contents + Trailer(crc, contents, kind)) && offset == |file|
      ensures handle == Handle(old(offset), |contents|) && StoredAt(crc, file, handle, contents, kind)
    {
      handle := Handle(offset, |contents|);
      file := file + (contents + Trailer(crc, contents, kind));
      offset := offset + |contents| + TRAILER;
    }

    // WriteBlock
    method WriteBlock(block: BlockBuilder) returns (handle: Handle, ghost raw: Bytes)
      requires offset == |file| && block.Valid() && block as object != this
      modifies this`file, this`offset, block
      ensures offset == |file| && old(file) <= file && handle.offset == old(offset)
      ensures var (contents, kind) := Stored(codec, raw); StoredAt(crc, file, handle, contents, kind)
      ensures |raw| < 0x1_0000_0000 ==> IsBlock(raw, old(block.l), old(block.buffer))
      ensures block.Valid() && block.l.pairs == []
    {
      var r := block.Finish();
      var (contents, kind) := Stored(codec, r);
      handle := WriteRawBlock(contents, kind);
      block.Reset();
      raw := r;
    }

    method Flush()
      requires Valid()
      modifies Objects()
      ensures Valid() && dataBlock.l.pairs == [] && (|blocks| > 0 ==> pendingIndexEntry)
      ensures lastKey == old(lastKey) && numEntries == old(numEntries)
      ensures AllPairs(blocks) == old(AllPairs(blocks) + dataBlock.l.pairs)
    {
      hide BlocksOk, KeysOk, IndexOk, KeysInFilter, StoredAt, IsBlock, BlockBuilder.Valid, FilterBlockBuilder.Valid,
        Stored, AllPairs;
      if |dataBlock.buffer| == 0 {
        EmptyBuffer(dataBlock);
        NothingPending(cmp, blocks, lastKey, numEntries, pendingIndexEntry, pendingHandle);
        return;
      }
      FullBuffer(dataBlock);
      ghost var l, entries, before, handle := dataBlock.l, dataBlock.buffer, file, pendingHandle;
      ghost var raw;
      pendingHandle, raw := WriteBlock(dataBlock);
      ghost var b := BlockInfo(raw, entries, l, pendingHandle, lastKey);
      BlockFlushed(cmp, crc, codec, before, file, blocks, b, numEntries, pendingIndexEntry, handle, indexBlock.l.pairs);
      AllGrow(blocks, b);
      if filter.Some? {
        filter.value.StartBlock(offset);
        FilterFlushed(filter.value.added, offset, blocks, b);
      }
      blocks := blocks + [b];
      pendingIndexEntry := true;
    }

    // Add, when the last block still waits for its index entry: now its separator is known.
    method AddIndexEntry(key: Bytes)
      requires Valid() && pendingIndexEntry && InternalLess(cmp, lastKey, key)
      modifies this, indexBlock
      ensures BlocksReady(key) && file == old(file) && numEntries == old(numEntries)
      ensures AllPairs(blocks) == old(AllPairs(blocks)) && dataBlock.l.pairs == []
    {
      hide BlocksOk, KeysOk, IndexOk, KeysInFilter, BlockBuilder.Valid, FilterBlockBuilder.Valid, InternalSeparator,
        EncodeHandle, AllPairs;
      ghost var ps := dataBlock.l.pairs;
      ghost var b := Indexed(cmp, blocks, ps, lastKey, numEntries, pendingHandle, indexBlock.l.pairs, key);
      IsComparator(cmp, crc, codec, file, blocks);
      LeadsThere(cmp, blocks[|blocks| - 1], b, key);
      IndexEntry(cmp, crc, codec, file, blocks, b, indexBlock.l.pairs);
      if filter.Some? {
        FilterIndexed(filter.value.added, offset, dataBlock.l.pairs, blocks, b);
      }
      SetSeparator(blocks, b);
      lastKey := InternalSeparator(cmp, lastKey, key);
      IndexKeyGrows(cmp, indexBlock, lastKey);
      indexBlock.Add(lastKey, EncodeHandle(pendingHandle));
      blocks := blocks[|blocks| - 1 := b];
      pendingIndexEntry := false;
    }

    // Every finished block is in the index, and leads to this key.
    ghost predicate BlocksReady(key: Bytes)
      reads Objects()
    {
      && dataBlock != indexBlock && dataBlock.Valid() && indexBlock.Valid()
      && dataBlock.less == Internal(cmp) && indexBlock.less == Internal(cmp) && offset == |file|
      && BlocksOk(cmp, crc, codec, file, blocks) && !pendingIndexEntry
      && IndexOk(blocks, false, indexBlock.l.pairs)
      && (|blocks| > 0 ==>
        LeadsTo(cmp, blocks[|blocks| - 1], if |dataBlock.l.pairs| == 0 then key else dataBlock.l.pairs[0].key))
      && (filter.Some? ==>
            && filter.value.Valid() && filter.value.offset == offset
            && KeysInFilter(filter.value.added, offset, dataBlock.l.pairs, blocks))
    }

    lemma ReadyNow(key: Bytes)
      requires Valid() && !pendingIndexEntry && (numEntries > 0 ==> InternalLess(cmp, lastKey, key))
      ensures BlocksReady(key)
      ensures |dataBlock.l.pairs| > 0 ==> Internal(cmp)(dataBlock.l.pairs[|dataBlock.l.pairs| - 1].key, key)
    {
      hide BlocksOk, IndexOk, KeysInFilter, BlockBuilder.Valid, FilterBlockBuilder.Valid, InternalLess, LeadsTo;
      assert |dataBlock.l.pairs| > 0 ==> lastKey == dataBlock.l.pairs[|dataBlock.l.pairs| - 1].key;
    }

    // The pair goes into the filter and the current block.
    method AddReady(key: Bytes, value: Bytes)
      requires BlocksReady(key)
      requires |dataBlock.l.pairs| > 0 ==> Internal(cmp)(dataBlock.l.pairs[|dataBlock.l.pairs| - 1].key, key)
      modifies Objects()
      ensures Valid() && lastKey == key && numEntries == old(numEntries) + 1
      ensures blocks == old(blocks) && dataBlock.l.pairs == old(dataBlock.l.pairs) + [Pair(key, value)]
    {
      hide BlocksOk, KeysOk, IndexOk, KeysInFilter, BlockBuilder.Valid, FilterBlockBuilder.Valid, InternalLess, LeadsTo;
      ghost var ps := dataBlock.l.pairs;
      KeysGrow(cmp, blocks, ps, Pair(key, value), numEntries, pendingHandle);
      IndexKeyGrows(cmp, dataBlock, key);
      if filter.Some? {
        FilterGrows(filter.value.added, offset, ps, blocks, Pair(key, value));
        filter.value.AddKey(key);
      }
      lastKey := key;
      numEntries := numEntries + 1;
      dataBlock.Add(key, value);
    }

    /** Add: one pair more, after all pairs added before. */
    method Add(key: Bytes, value: Bytes)
      requires Valid() && (numEntries > 0 ==> InternalLess(cmp, lastKey, key))
      modifies Objects()
      ensures Valid() && lastKey == key && numEntries == old(numEntries) + 1
      ensures AllPairs(blocks) + dataBlock.l.pairs == old(AllPairs(blocks) + dataBlock.l.pairs) + [Pair(key, value)]
      ensures dataBlock.l.pairs == [] || dataBlock.CurrentSizeEstimate() < blockSize
    {
      hide BlocksOk, KeysOk, IndexOk, KeysInFilter, BlockBuilder.Valid, FilterBlockBuilder.Valid, AllPairs,
        InternalLess, LeadsTo;
      ghost var all := AllPairs(blocks);
      if pendingIndexEntry {
        PendingMeansSome(cmp, blocks, dataBlock.l.pairs, lastKey, numEntries, pendingHandle);
        AddIndexEntry(key);
      } else {
        ReadyNow(key);
      }
      AddReady(key, value);
      Associates(all, old(dataBlock.l.pairs), Pair(key, value));
      var estimatedBlockSize := dataBlock.CurrentSizeEstimate();
      if estimatedBlockSize >= blockSize {
        Flush();
        Associates(AllPairs(blocks), [], Pair(key, value));
      }
    }

    // Finish, when there is a last block: its separator needs only to follow its keys.
    method AddLastEntry()
      requires indexBlock.Valid() && indexBlock.less == Internal(cmp)
      requires BlocksOk(cmp, crc, codec, file, blocks) && IndexOk(blocks, true, indexBlock.l.pairs)
      requires KeysOk(cmp, blocks, [], lastKey, numEntries, true, pendingHandle)
      modifies this, indexBlock
      ensures indexBlock.Valid() && indexBlock.less == Internal(cmp) && file == old(file) && offset == old(offset)
      ensures BlocksOk(cmp, crc, codec, file, blocks) && IndexOk(blocks, false, indexBlock.l.pairs)
      ensures SameData(old(blocks), blocks)
    {
      hide BlocksOk, KeysOk, IndexOk, BlockBuilder.Valid, EncodeHandle, InternalSuccessor, InternalSeparator,
        InternalLess;
      var sep := InternalSuccessor(cmp, lastKey);
      ghost var a := Indexed(cmp, blocks, [], lastKey, numEntries, pendingHandle, indexBlock.l.pairs, lastKey);
      ghost var b := a.(separator := sep);
      IsComparator(cmp, crc, codec, file, blocks);
      SuccessorFollows(cmp, lastKey);
      IndexEntry(cmp, crc, codec, file, blocks, b, indexBlock.l.pairs);
      lastKey := sep;
      IndexKeyGrows(cmp, indexBlock, lastKey);
      indexBlock.Add(lastKey, EncodeHandle(pendingHandle));
      blocks := blocks[|blocks| - 1 := b];
      pendingIndexEntry := false;
    }

    // The filter block, if there is a filter.
    method WriteFilter() returns (handle: Option<Handle>, ghost raw: Bytes, ghost groups: seq<seq<Bytes>>)
      requires offset == |file| && (filter.Some? ==> filter.value.Valid())
      modifies this`file, this`offset, if filter.Some? then {filter.value} else {}
      ensures offset == |file| && old(file) <= file && (handle.Some? <==> filter.Some?)
      ensures handle.Some? ==>
        && StoredAt(crc, file, handle.value, raw, 0)
        && (|raw| < 0x1_0000_0000 ==> IsFilterBlock(filter.value.policy, raw, groups))
        && Covered(old(filter.value.added), groups, [])
    {
      hide FilterBlockBuilder.Valid, IsFilterBlock, Covered, StoredAt;
      handle, raw, groups := None, [], [];
      if filter.Some? {
        var r := filter.value.Finish();
        raw, groups := r, filter.value.groups;
        var h := WriteRawBlock(r, 0);
        handle := Some(h);
      }
    }

    // The metaindex block says where the filter of a name is.
    method WriteMetaindex(filterHandle: Option<Handle>) returns (handle: Handle, ghost meta: BlockInfo)
      requires offset == |file| && ComparatorOk(cmp) && dataBlock.Valid() && (filterHandle.Some? <==> filter.Some?)
      modifies this`file, this`offset
      ensures offset == |file| && old(file) <= file
      ensures BlockOk(crc, codec, file, meta) && meta.handle == handle
      ensures meta.Pairs() == MetaPairs(if filter.Some? then filter.value.policy.name else [], filterHandle)
    {
      hide ComparatorOk, StrictOrder, StoredAt, Stored, IsBlock, EncodeHandle;
      SameOrder(cmp);
      ValidInterval(dataBlock);
      var block := new BlockBuilder(Internal(cmp), dataBlock.interval);
      if filterHandle.Some? {
        block.Add(FILTER + filter.value.policy.name, EncodeHandle(filterHandle.value));
      }
      ghost var l, entries, raw := block.l, block.buffer, [];
      handle, raw := WriteBlock(block);
      meta := BlockInfo(raw, entries, l, handle, []);
    }

    method WriteFooter(footer: Footer)
      requires offset == |file|
      modifies this`file, this`offset
      ensures file == old(file) + EncodeFooter(footer) && offset == |file|
    {
      var encoding := EncodeFooter(footer);
      file := file + encoding;
      offset := offset + |encoding|;
    }

    /** Finish: filter, metaindex, index and footer go into the file after the data blocks. */
    method Finish() returns (ghost info: TableInfo)
      requires Valid()
      modifies Objects()
      ensures IsTable(cmp, crc, codec, file, info)
      ensures AllPairs(info.blocks) == old(AllPairs(blocks) + dataBlock.l.pairs)
      ensures info.filterHandle.Some? <==> filter.Some?
      ensures filter.Some? ==> info.policy == filter.value.policy
    {
      hide BlocksOk, KeysOk, IndexOk, KeysInFilter, BlockBuilder.Valid, FilterBlockBuilder.Valid, AllPairs, IsTable,
        SameData, StoredAt, Stored, IsBlock, IsFilterBlock, Covered, BlockOk, Increasing, ComparatorOk, MetaPairs,
        EncodeFooter;
      Flush();
      ghost var added := if filter.Some? then filter.value.added else [];
      ghost var policy := if filter.Some? then filter.value.policy else Policy([], _ => [], (_, _) => true);
      ghost var written, flushed, filterOffset := blocks, file, offset;
      ghost var filterRaw, groups, meta;
      var filterHandle, metaHandle;
      filterHandle, filterRaw, groups := WriteFilter();
      ghost var filtered := file;
      IsComparator(cmp, crc, codec, flushed, blocks);
      metaHandle, meta := WriteMetaindex(filterHandle);
      BlocksStay(cmp, crc, codec, flushed, file, blocks);
      if pendingIndexEntry {
        AddLastEntry();
      } else {
        NothingAtAll(cmp, blocks, lastKey, numEntries, pendingHandle, indexBlock.l.pairs);
      }
      SameInFilter(written, blocks);
      ghost var middle := file;
      ghost var l, entries, raw := indexBlock.l, indexBlock.buffer, [];
      IsIncreasing(indexBlock);
      var indexHandle;
      indexHandle, raw := WriteBlock(indexBlock);
      info := TableInfo(blocks, BlockInfo(raw, entries, l, indexHandle, []), meta, filterHandle, filterRaw, policy,
                        groups,
                        added);
      FilterStays(crc, filtered, middle, info);
      Finished(cmp, crc, codec, middle, file, info, filterOffset, written);
      ghost var before := file;
      WriteFooter(Footer(metaHandle, indexHandle));
      FooterCloses(cmp, crc, codec, middle, before, file, info);
    }
  }

  // The same blocks, perhaps with another separator.
  ghost predicate SameData(a: seq<BlockInfo>, b: seq<BlockInfo>) {
    |a| == |b| && forall j :: 0 <= j < |a| ==> b[j] == a[j].(separator := b[j].separator)
  }

  lemma NothingAtAll(c: Comparator, blocks: seq<BlockInfo>, lastKey: Bytes, numEntries: nat, handle: Handle,
                     index: seq<Pair>)
    requires KeysOk(c, blocks, [], lastKey, numEntries, false, handle)
    ensures blocks == [] && SameData(blocks, blocks)
  {
  }

  lemma {:induction false} SameInFilter(a: seq<BlockInfo>, b: seq<BlockInfo>)
    requires SameData(a, b)
    ensures AllPairs(a) == AllPairs(b)
  {
    if |a| > 0 {
      SameInFilter(a[..|a| - 1], b[..|b| - 1]);
    }
  }

  lemma BlocksStay(c: Comparator, crc: Crc, codec: Codec, before: Bytes, file: Bytes, blocks: seq<BlockInfo>)
    requires BlocksOk(c, crc, codec, before, blocks) && before <= file
    ensures BlocksOk(c, crc, codec, file, blocks)
  {
    hide ComparatorOk, TableOrder, BlockOk;
    forall j | 0 <= j < |blocks| ensures BlockOk(crc, codec, file, blocks[j]) {
      BlockStays(crc, codec, before, file, blocks[j]);
    }
  }

  lemma IsIncreasing(b: BlockBuilder)
    requires b.Valid()
    ensures Increasing(b.less, b.l.pairs)
  {
  }

  lemma Finished(c: Comparator, crc: Crc, codec: Codec, before: Bytes, file: Bytes, t: TableInfo, offset: nat,
                 written: seq<BlockInfo>)
    requires before <= file && BlocksOk(c, crc, codec, before, t.blocks)
    requires IndexOk(t.blocks, false, t.index.Pairs()) && Increasing(Internal(c), t.index.Pairs())
    requires var (contents, kind) := Stored(codec, t.index.raw); StoredAt(crc, file, t.index.handle, contents, kind)
    requires |t.index.raw| < 0x1_0000_0000 ==> IsBlock(t.index.raw, t.index.l, t.index.entries)
    requires t.filterHandle.Some? ==>
      && StoredAt(crc, before, t.filterHandle.value, t.filterRaw, 0)
      && (|t.filterRaw| < 0x1_0000_0000 ==> IsFilterBlock(t.policy, t.filterRaw, t.groups))
      && Covered(t.added, t.groups, [])
      && KeysInFilter(t.added, offset, [], written) && SameData(written, t.blocks)
    ensures TableParts(c, crc, codec, file, t)
  {
    hide BlocksOk, StoredAt, Stored, IsBlock, IsFilterBlock, Covered, InFilter, Increasing;
    BlocksStay(c, crc, codec, before, file, t.blocks);
    assert t.blocks[..|t.blocks|] == t.blocks;
    if t.filterHandle.Some? {
      assert before + file[|before|..] == file;
      StoredStays(crc, before, file[|before|..], t.filterHandle.value, t.filterRaw, 0);
      forall j | 0 <= j < |t.blocks| ensures InFilter(t.added, t.blocks[j].handle.offset, t.blocks[j].Pairs()) {
        assert InFilter(t.added, written[j].handle.offset, written[j].Pairs());
      }
    }
  }

  lemma FilterStays(crc: Crc, before: Bytes, file: Bytes, t: TableInfo)
    requires before <= file && (t.filterHandle.Some? ==> StoredAt(crc, before, t.filterHandle.value, t.filterRaw, 0))
    ensures t.filterHandle.Some? ==> StoredAt(crc, file, t.filterHandle.value, t.filterRaw, 0)
  {
    hide StoredAt;
    if t.filterHandle.Some? {
      assert before + file[|before|..] == file;
      StoredStays(crc, before, file[|before|..], t.filterHandle.value, t.filterRaw, 0);
    }
  }

  // The footer makes a table of the parts.
  lemma FooterCloses(c: Comparator, crc: Crc, codec: Codec, middle: Bytes, before: Bytes, file: Bytes, t: TableInfo)
    requires TableParts(c, crc, codec, before, t) && middle <= before && BlockOk(crc, codec, middle, t.meta)
    requires t.meta.Pairs() == MetaPairs(t.policy.name, t.filterHandle)
    requires file == before + EncodeFooter(Footer(t.meta.handle, t.index.handle))
    ensures IsTable(c, crc, codec, file, t)
  {
    hide BlocksOk, BlockOk, StoredAt, IsFilterBlock, Covered, InFilter, Increasing, EncodeFooter, MetaPairs;
    BlocksStay(c, crc, codec, before, file, t.blocks);
    BlockStays(crc, codec, before, file, t.index);
    BlockStays(crc, codec, middle, file, t.meta);
    FilterStays(crc, before, file, t);
  }

  lemma ValidInterval(b: BlockBuilder)
    requires b.Valid()
    ensures b.interval >= 1
  {
  }

  // All that a finished table holds.
  datatype TableInfo = TableInfo(blocks: seq<BlockInfo>, index: BlockInfo, meta: BlockInfo,
                                 filterHandle: Option<Handle>, filterRaw: Bytes, policy: Policy,
                                 groups: seq<seq<Bytes>>, added: seq<Added>)

  const FILTER: Bytes := [102, 105, 108, 116, 101, 114, 46]    // "filter."

  function MetaPairs(name: Bytes, filterHandle: Option<Handle>): seq<Pair> {
    if filterHandle.None? then [] else [Pair(FILTER + name, EncodeHandle(filterHandle.value))]
  }

  /** The file is a table: its blocks, and at its end the footer that leads to them. */
  ghost predicate IsTable(c: Comparator, crc: Crc, codec: Codec, file: Bytes, t: TableInfo) {
    && TableParts(c, crc, codec, file, t)
    && BlockOk(crc, codec, file, t.meta) && t.meta.Pairs() == MetaPairs(t.policy.name, t.filterHandle)
    && FOOTER <= |file| && file[|file| - FOOTER..] == EncodeFooter(Footer(t.meta.handle, t.index.handle))
  }

  ghost predicate TableParts(c: Comparator, crc: Crc, codec: Codec, file: Bytes, t: TableInfo) {
    && BlocksOk(c, crc, codec, file, t.blocks) && BlockOk(crc, codec, file, t.index)
    && t.index.Pairs() == IndexPairs(t.blocks) && Increasing(Internal(c), t.index.Pairs())
    && (t.filterHandle.Some? ==>
          && StoredAt(crc, file, t.filterHandle.value, t.filterRaw, 0)
          && (|t.filterRaw| < 0x1_0000_0000 ==> IsFilterBlock(t.policy, t.filterRaw, t.groups))
          && Covered(t.added, t.groups, [])
          && forall j :: 0 <= j < |t.blocks| ==> InFilter(t.added, t.blocks[j].handle.offset, t.blocks[j].Pairs()))
  }

  // ------------------------------------------------------------------ what the builder keeps

  // The data written so far and the order of its blocks.
  ghost predicate BlocksOk(c: Comparator, crc: Crc, codec: Codec, file: Bytes, blocks: seq<BlockInfo>) {
    ComparatorOk(c) && TableOrder(c, blocks) && forall j :: 0 <= j < |blocks| ==> BlockOk(crc, codec, file, blocks[j])
  }

  // The keys of the current block come after those of the last one; a pending index entry
  // belongs to that last block, while the current one is empty.
  ghost predicate KeysOk(c: Comparator, blocks: seq<BlockInfo>, ps: seq<Pair>, lastKey: Bytes, numEntries: nat,
                         pending: bool, handle: Handle) {
    && (numEntries > 0 <==> |blocks| > 0 || |ps| > 0)
    && (|ps| > 0 ==> lastKey == ps[|ps| - 1].key && !pending)
    && (|blocks| > 0 && |ps| == 0 ==> pending)
    && (pending ==> |blocks| > 0 && IsPending(blocks[|blocks| - 1], lastKey, handle))
    && (|blocks| > 0 && |ps| > 0 ==> LeadsTo(c, blocks[|blocks| - 1], ps[0].key))
  }

  ghost predicate IsPending(b: BlockInfo, lastKey: Bytes, handle: Handle) {
    |b.Pairs()| > 0 && lastKey == Last(b) && b.separator == Last(b) && handle == b.handle
  }

  ghost predicate LeadsTo(c: Comparator, b: BlockInfo, key: Bytes) {
    |b.Pairs()| > 0 && InternalLess(c, Last(b), key) && Separates(c, Last(b), b.separator, key)
  }

  ghost predicate IndexOk(blocks: seq<BlockInfo>, pending: bool, index: seq<Pair>) {
    var n := if pending then 1 else 0;
    |blocks| >= n && index == IndexPairs(blocks[..|blocks| - n])
  }

  ghost predicate KeysInFilter(added: seq<Added>, offset: nat, ps: seq<Pair>, blocks: seq<BlockInfo>) {
    && InFilter(added, offset, ps)
    && forall j :: 0 <= j < |blocks| ==> InFilter(added, blocks[j].handle.offset, blocks[j].Pairs())
  }

  lemma IsComparator(c: Comparator, crc: Crc, codec: Codec, file: Bytes, blocks: seq<BlockInfo>)
    requires BlocksOk(c, crc, codec, file, blocks)
    ensures ComparatorOk(c)
  {
  }

  lemma NothingPending(c: Comparator, blocks: seq<BlockInfo>, lastKey: Bytes, numEntries: nat, pending: bool,
                       handle: Handle)
    requires KeysOk(c, blocks, [], lastKey, numEntries, pending, handle)
    ensures |blocks| > 0 ==> pending
    ensures AllPairs(blocks) + [] == AllPairs(blocks)
  {
  }

  // A block in the file stays there.
  lemma BlockStays(crc: Crc, codec: Codec, before: Bytes, file: Bytes, b: BlockInfo)
    requires before <= file && BlockOk(crc, codec, before, b)
    ensures BlockOk(crc, codec, file, b)
  {
    var (contents, kind) := Stored(codec, b.raw);
    StoredStays(crc, before, file[|before|..], b.handle, contents, kind);
    assert before + file[|before|..] == file;
  }

  lemma BlockFlushed(c: Comparator, crc: Crc, codec: Codec, before: Bytes, file: Bytes, blocks: seq<BlockInfo>,
                     b: BlockInfo,
                     numEntries: nat, pending: bool, handle: Handle, index: seq<Pair>)
    requires BlocksOk(c, crc, codec, before, blocks) && before <= file
    requires |b.Pairs()| > 0 && KeysOk(c, blocks, b.Pairs(), b.separator, numEntries, pending, handle)
    requires Increasing(Internal(c), b.Pairs()) && IndexOk(blocks, pending, index)
    requires var (contents, kind) := Stored(codec, b.raw); StoredAt(crc, file, b.handle, contents, kind)
    requires |b.raw| < 0x1_0000_0000 ==> IsBlock(b.raw, b.l, b.entries)
    ensures BlocksOk(c, crc, codec, file, blocks + [b])
    ensures KeysOk(c, blocks + [b], [], b.separator, numEntries, true, b.handle)
    ensures IndexOk(blocks + [b], true, index)
  {
    assert blocks[..|blocks|] == blocks && (blocks + [b])[..|blocks|] == blocks;
    OrderGrows(c, blocks, b);
    hide ComparatorOk, TableOrder, Increasing, IsBlock, StoredAt, Stored;
    forall j | 0 <= j < |blocks| + 1 ensures BlockOk(crc, codec, file, (blocks + [b])[j]) {
      if j < |blocks| {
        BlockStays(crc, codec, before, file, blocks[j]);
      }
    }
  }

  // The last block with its real separator.
  lemma Indexed(c: Comparator, blocks: seq<BlockInfo>, ps: seq<Pair>, lastKey: Bytes, numEntries: nat, handle: Handle,
                index: seq<Pair>, key: Bytes) returns (b: BlockInfo)
    requires KeysOk(c, blocks, ps, lastKey, numEntries, true, handle) && IndexOk(blocks, true, index)
    ensures |blocks| > 0 && ps == [] && IsPending(blocks[|blocks| - 1], lastKey, handle)
    ensures b == blocks[|blocks| - 1].(separator := InternalSeparator(c, lastKey, key))
  {
    b := blocks[|blocks| - 1].(separator := InternalSeparator(c, lastKey, key));
  }

  // The separator is not before the block it stands for.
  ghost predicate AtOrPast(c: Comparator, last: Bytes, sep: Bytes) {
    sep == last || c.less(UserKeyOf(last), UserKeyOf(sep))
  }

  lemma IndexEntry(c: Comparator, crc: Crc, codec: Codec, file: Bytes, blocks: seq<BlockInfo>, b: BlockInfo,
                   index: seq<Pair>)
    requires BlocksOk(c, crc, codec, file, blocks) && |blocks| > 0 && IndexOk(blocks, true, index)
    requires var a := blocks[|blocks| - 1];
      |a.Pairs()| > 0 && b == a.(separator := b.separator) && AtOrPast(c, Last(a), b.separator)
    ensures var all := blocks[|blocks| - 1 := b];
      && BlocksOk(c, crc, codec, file, all)
      && IndexOk(all, false, index + [Pair(b.separator, EncodeHandle(b.handle))])
      && (|index| > 0 ==> Internal(c)(index[|index| - 1].key, b.separator))
  {
    hide BlocksOk, IndexOk, InternalLess, EncodeHandle, AtOrPast, TableOrder;
    IndexedBlocks(c, crc, codec, file, blocks, b);
    IndexGrows(blocks, b, index);
    if |index| > 0 {
      LastIndexKey(c, crc, codec, file, blocks, b, index);
    }
  }

  lemma IndexedBlocks(c: Comparator, crc: Crc, codec: Codec, file: Bytes, blocks: seq<BlockInfo>, b: BlockInfo)
    requires BlocksOk(c, crc, codec, file, blocks) && |blocks| > 0
    requires var a := blocks[|blocks| - 1];
      |a.Pairs()| > 0 && b == a.(separator := b.separator) && AtOrPast(c, Last(a), b.separator)
    ensures BlocksOk(c, crc, codec, file, blocks[|blocks| - 1 := b])
  {
    hide InternalLess, BlockOk, TableOrder, AtOrPast, ComparatorOk;
    BlockMoves(crc, codec, file, blocks[|blocks| - 1], b);
    SeparatorOrder(c, blocks, b);
  }

  lemma IndexGrows(blocks: seq<BlockInfo>, b: BlockInfo, index: seq<Pair>)
    requires |blocks| > 0 && IndexOk(blocks, true, index) && b == blocks[|blocks| - 1].(separator := b.separator)
    ensures IndexOk(blocks[|blocks| - 1 := b], false, index + [Pair(b.separator, EncodeHandle(b.handle))])
  {
    hide EncodeHandle;
    var n := |blocks| - 1;
    var all := blocks[n := b];
    assert all[..n + 1] == all && all[..n] == blocks[..n];
  }

  lemma LastIndexKey(c: Comparator, crc: Crc, codec: Codec, file: Bytes, blocks: seq<BlockInfo>, b: BlockInfo,
                     index: seq<Pair>)
    requires |blocks| > 0 && BlocksOk(c, crc, codec, file, blocks[|blocks| - 1 := b])
    requires IndexOk(blocks, true, index) && |index| > 0
    requires var a := blocks[|blocks| - 1];
      |a.Pairs()| > 0 && b == a.(separator := b.separator) && AtOrPast(c, Last(a), b.separator)
    ensures Internal(c)(index[|index| - 1].key, b.separator)
  {
    hide InternalLess, EncodeHandle, BlockOk, TableOrder, ComparatorOk, AtOrPast;
    var n := |blocks| - 1;
    var all := blocks[n := b];
    assert index[n - 1].key == all[n - 1].separator;
    SeparatorBefore(c, all, n - 1, n);
    BlockIsOrdered(c, all, n);
    FirstToLast(c, b);
    NotBefore3(c, all[n - 1].separator, First(b), Last(b), b.separator);
  }

  lemma BlockIsOrdered(c: Comparator, blocks: seq<BlockInfo>, j: nat)
    requires TableOrder(c, blocks) && j < |blocks|
    ensures BlockOrder(c, blocks[j])
  {
    hide BlockOrder;
  }

  lemma LeadsThere(c: Comparator, a: BlockInfo, b: BlockInfo, key: Bytes)
    requires ComparatorOk(c) && |a.Pairs()| > 0 && InternalLess(c, Last(a), key)
    requires b == a.(separator := InternalSeparator(c, Last(a), key))
    ensures LeadsTo(c, b, key) && AtOrPast(c, Last(a), b.separator)
  {
    SeparatorSeparates(c, Last(a), key);
  }

  lemma BlockMoves(crc: Crc, codec: Codec, file: Bytes, a: BlockInfo, b: BlockInfo)
    requires BlockOk(crc, codec, file, a) && b == a.(separator := b.separator)
    ensures BlockOk(crc, codec, file, b)
  {
  }

  lemma NotBefore3(c: Comparator, w: Bytes, x: Bytes, y: Bytes, z: Bytes)
    requires ComparatorOk(c) && InternalLess(c, w, x) && !InternalLess(c, y, x) && !InternalLess(c, z, y)
    ensures InternalLess(c, w, z)
  {
    hide InternalLess, UserKeyOf, ComparatorOk;
    Order3(c, w, x, y);
    Order3(c, w, y, z);
  }

  lemma SeparatorOrder(c: Comparator, blocks: seq<BlockInfo>, b: BlockInfo)
    requires TableOrder(c, blocks) && |blocks| > 0
    requires var a := blocks[|blocks| - 1];
      |a.Pairs()| > 0 && b == a.(separator := b.separator) && AtOrPast(c, Last(a), b.separator)
    ensures TableOrder(c, blocks[|blocks| - 1 := b])
  {
    var n, all := |blocks| - 1, blocks[|blocks| - 1 := b];
    hide InternalLess, Increasing;
    forall j | 0 <= j < |all| ensures BlockOrder(c, all[j]) {
      assert BlockOrder(c, blocks[j]);
    }
    forall j | 0 < j < |all| ensures Follows(c, all[j - 1], all[j]) {
      assert Follows(c, blocks[j - 1], blocks[j]);
    }
  }

  lemma FilterIndexed(added: seq<Added>, offset: nat, ps: seq<Pair>, blocks: seq<BlockInfo>, b: BlockInfo)
    requires KeysInFilter(added, offset, ps, blocks) && |blocks| > 0
    requires b == blocks[|blocks| - 1].(separator := b.separator)
    ensures KeysInFilter(added, offset, ps, blocks[|blocks| - 1 := b])
  {
    hide InFilter;
  }

  lemma SetSeparator(blocks: seq<BlockInfo>, b: BlockInfo)
    requires |blocks| > 0 && b == blocks[|blocks| - 1].(separator := b.separator)
    ensures AllPairs(blocks[|blocks| - 1 := b]) == AllPairs(blocks)
  {
    assert blocks[|blocks| - 1 := b][..|blocks| - 1] == blocks[..|blocks| - 1];
  }

  lemma IndexKeyGrows(c: Comparator, index: BlockBuilder, key: Bytes)
    requires index.Valid() && index.less == Internal(c)
    requires |index.l.pairs| > 0 ==> Internal(c)(index.l.pairs[|index.l.pairs| - 1].key, key)
    ensures |index.l.pairs| > 0 ==> index.less(index.lastKey, key)
  {
  }

  lemma PendingMeansSome(c: Comparator, blocks: seq<BlockInfo>, ps: seq<Pair>, lastKey: Bytes, numEntries: nat,
                         handle: Handle)
    requires KeysOk(c, blocks, ps, lastKey, numEntries, true, handle)
    ensures numEntries > 0 && ps == []
  {
  }

  lemma Associates(all: seq<Pair>, ps: seq<Pair>, p: Pair)
    ensures all + (ps + [p]) == (all + ps) + [p] && all + [] == all
  {
  }

  lemma KeysGrow(c: Comparator, blocks: seq<BlockInfo>, ps: seq<Pair>, p: Pair, numEntries: nat, handle: Handle)
    requires |blocks| > 0 ==> LeadsTo(c, blocks[|blocks| - 1], if |ps| == 0 then p.key else ps[0].key)
    ensures KeysOk(c, blocks, ps + [p], p.key, numEntries + 1, false, handle)
  {
    hide LeadsTo;
  }

  lemma FilterGrows(added: seq<Added>, offset: nat, ps: seq<Pair>, blocks: seq<BlockInfo>, p: Pair)
    requires KeysInFilter(added, offset, ps, blocks)
    ensures KeysInFilter(added + [Added(offset, p.key)], offset, ps + [p], blocks)
  {
    var more := added + [Added(offset, p.key)];
    assert more[|added|] == Added(offset, p.key);
    assert forall a :: a in added ==> a in more;
    forall j | 0 <= j < |blocks| ensures InFilter(more, blocks[j].handle.offset, blocks[j].Pairs()) {
      assert InFilter(added, blocks[j].handle.offset, blocks[j].Pairs());
    }
  }

  lemma FilterFlushed(added: seq<Added>, offset: nat, blocks: seq<BlockInfo>, b: BlockInfo)
    requires KeysInFilter(added, b.handle.offset, b.Pairs(), blocks)
    ensures KeysInFilter(added, offset, [], blocks + [b])
  {
  }

  function AllPairs(blocks: seq<BlockInfo>): seq<Pair> {
    if |blocks| == 0 then [] else AllPairs(blocks[..|blocks| - 1]) + blocks[|blocks| - 1].Pairs()
  }

  lemma AllGrow(blocks: seq<BlockInfo>, b: BlockInfo)
    ensures AllPairs(blocks + [b]) == AllPairs(blocks) + b.Pairs()
  {
    assert (blocks + [b])[..|blocks|] == blocks;
  }

  lemma EmptyBuffer(b: BlockBuilder)
    requires b.Valid() && |b.buffer| == 0
    ensures b.l.pairs == []
  {
    OffsetsGrow(b.l, b.buffer, 0, |b.l.pairs|);
  }

  lemma FullBuffer(b: BlockBuilder)
    requires b.Valid() && |b.buffer| > 0
    ensures |b.l.pairs| > 0 && Increasing(b.less, b.l.pairs)
  {
  }

  lemma OrderGrows(c: Comparator, blocks: seq<BlockInfo>, b: BlockInfo)
    requires TableOrder(c, blocks) && |b.Pairs()| > 0 && Increasing(Internal(c), b.Pairs()) && b.separator == Last(b)
    requires |blocks| > 0 ==> var a := blocks[|blocks| - 1];
      |a.Pairs()| > 0 && InternalLess(c, Last(a), First(b)) && Separates(c, Last(a), a.separator, First(b))
    ensures TableOrder(c, blocks + [b])
  {
    var all := blocks + [b];
    forall j | 0 <= j < |all| ensures BlockOrder(c, all[j]) {
    }
    forall j | 0 < j < |all| ensures Follows(c, all[j - 1], all[j]) {
      assert j < |blocks| ==> Follows(c, blocks[j - 1], blocks[j]);
    }
  }

  lemma SameOrder(c: Comparator)
    requires ComparatorOk(c)
    ensures StrictOrder(Internal(c))
  {
    InternalOrder(c);
    var less := (a, b) => InternalLess(c, a, b);
    forall a, b, d
      ensures Internal(c)(a, b) ==> !Internal(c)(b, a)
      ensures Internal(c)(a, b) && Internal(c)(b, d) ==> Internal(c)(a, d) {
      assert Internal(c)(a, b) == less(a, b) && Internal(c)(b, a) == less(b, a);
      assert Internal(c)(b, d) == less(b, d) && Internal(c)(a, d) == less(a, d);
    }
  }

  // ------------------------------------------------------------------ the reader

  // A table that the reader can take in: lengths fit their fields, and the policy of the
  // filter is one over user keys without false negatives.
  ghost predicate Readable(file: Bytes, t: TableInfo, user: Policy) {
    && |file| < 0x1_0000_0000_0000_0000 && |t.index.raw| < 0x1_0000_0000 && |t.filterRaw| < 0x1_0000_0000
    && |t.meta.raw| < 0x1_0000_0000
    && (forall j :: 0 <= j < |t.blocks| ==> |t.blocks[j].raw| < 0x1_0000_0000)
    && (t.filterHandle.Some? ==> t.policy == InternalPolicy(user) && NoFalseNegatives(user))
  }

  class Table {
    const cmp: Comparator
    const crc: Crc
    const codec: Codec
    const file: Bytes
    const index: Bytes
    const filter: Option<FilterBlockReader>
    ghost const t: TableInfo
    ghost const user: Policy

    ghost predicate Good() {
      && ComparatorOk(cmp) && CodecOk(codec) && IsTable(cmp, crc, codec, file, t) && Readable(file, t, user)
      && index == t.index.raw
        && (filter.Some? ==> t.filterHandle.Some? && filter.value.policy == t.policy && filter.value.Reads(t.groups))
    }

    predicate FilterSafe() {
      filter.Some? ==> Askable(filter.value)
    }

    // Table::Open, once the footer and the metaindex have given the two handles.
    constructor (cmp: Comparator, crc: Crc, codec: Codec, file: Bytes, index: Bytes, filter: Option<FilterBlockReader>,
                 ghost t: TableInfo, ghost user: Policy)
      ensures this.cmp == cmp && this.crc == crc && this.codec == codec && this.file == file && this.index == index
      ensures this.filter == filter && this.t == t && this.user == user
    {
      this.cmp, this.crc, this.codec, this.file := cmp, crc, codec, file;
      this.index, this.filter, this.t, this.user := index, filter, t, user;
    }

    // BlockReader: the iterator over the block a handle leads to, if it can be read.
    method BlockReader(encoded: Bytes, verify: bool, ghost b: BlockInfo) returns (iter: Option<BlockIter>)
      ensures iter.Some? ==> fresh(iter.value) && iter.value.Safe()
      ensures Good() && b in t.blocks && encoded == EncodeHandle(b.handle) ==>
        && iter.Some? && iter.value.Good() && !iter.value.corrupt && iter.value.l == b.l
          && iter.value.less == Internal(cmp)
    {
      hide IsTable, Readable, CodecOk, StoredAt, Stored, IsBlock, FilterBlockReader.Reads, ComparatorOk;
      ghost var known := Good() && b in t.blocks && encoded == EncodeHandle(b.handle);
      if known {
        BlockKnown(b, verify);
      }
      var h := DecodeHandle(encoded);
      if h.None? {
        return None;
      }
      var contents := ReadBlock(crc, codec, file, h.value, verify);
      if contents.None? || |contents.value| >= 0x1_0000_0000 {
        return None;
      }
      var it, corrupt := NewIterator(Internal(cmp), contents.value, b.l);
      iter := it;
    }

    lemma BlockKnown(b: BlockInfo, verify: bool)
      requires Good() && b in t.blocks
      ensures DecodeHandle(EncodeHandle(b.handle)) == Some(b.handle)
      ensures ReadBlock(crc, codec, file, b.handle, verify) == Some(b.raw) && |b.raw| < 0x1_0000_0000
      ensures IsBlock(b.raw, b.l, b.entries) && StrictOrder(Internal(cmp)) && Increasing(Internal(cmp), b.l.pairs)
    {
      var j :| 0 <= j < |t.blocks| && t.blocks[j] == b;
      assert BlockOk(crc, codec, file, t.blocks[j]) && BlockOrder(cmp, t.blocks[j]);
      hide IsTable, CodecOk, IsBlock, DecodeHandle, EncodeHandle, ReadBlock;
      HandleRoundTrip(b.handle);
      ReadsStored(crc, codec, file, b.handle, b.raw, verify);
      SameOrder(cmp);
    }

    lemma IndexKnown()
      requires Good()
      ensures IsBlock(index, t.index.l, t.index.entries) && StrictOrder(Internal(cmp))
      ensures Increasing(Internal(cmp), t.index.l.pairs)
      ensures t.index.l.pairs == IndexPairs(t.blocks)
    {
      hide IsBlock, CodecOk;
      SameOrder(cmp);
    }

    // Where the seek in the index ends.
    lemma Chooses(k: Bytes, p: nat)
      requires Good() && p <= |t.blocks|
      requires forall j :: 0 <= j < p ==> Internal(cmp)(IndexPairs(t.blocks)[j].key, k)
      requires p < |t.blocks| ==> !Internal(cmp)(IndexPairs(t.blocks)[p].key, k)
      ensures IndexChooses(cmp, t.blocks, k, p)
    {
      hide IsTable, InternalLess;
      forall g | 0 <= g < p ensures InternalLess(cmp, t.blocks[g].separator, k) {
        assert Internal(cmp)(IndexPairs(t.blocks)[g].key, k);
      }
    }

    // A pair that the lookup is for: the first at or after the key, with its user key.
    ghost predicate Wanted(k: Bytes, j: nat, i: nat) {
      IsFirst(cmp, t.blocks, k, j, i) && UserKeyOf(t.blocks[j].Pairs()[i].key) == UserKeyOf(k)
    }

    lemma WantedIsChosen(k: Bytes, p: nat, j: nat, i: nat)
      requires Good() && IndexChooses(cmp, t.blocks, k, p) && Wanted(k, j, i)
      ensures j == p
    {
      hide InternalLess, TableOrder, IndexChooses, IsFirst, UserKeyOf, ComparatorOk, CodecOk;
      IndexFinds(cmp, t.blocks, k, j, i, p);
    }

    lemma OnlyChosen(k: Bytes, p: nat)
      requires Good() && IndexChooses(cmp, t.blocks, k, p)
      ensures forall j: nat, i: nat :: Wanted(k, j, i) ==> j == p < |t.blocks|
    {
      hide IsTable, InternalLess, TableOrder, IndexChooses, UserKeyOf, ComparatorOk, CodecOk;
      forall j: nat, i: nat | Wanted(k, j, i) ensures j == p < |t.blocks| {
        WantedIsChosen(k, p, j, i);
      }
    }

    // The filter of the chosen block accepts the key of a wanted pair.
    lemma FilterAccepts(k: Bytes, p: nat, i: nat)
      requires Good() && filter.Some? && p < |t.blocks| && i < |t.blocks[p].Pairs()|
      requires UserKeyOf(t.blocks[p].Pairs()[i].key) == UserKeyOf(k)
      ensures FilterSafe() && filter.value.KeyMayMatch(t.blocks[p].handle.offset, k)
    {
      var offset, key := t.blocks[p].handle.offset, t.blocks[p].Pairs()[i].key;
      assert InFilter(t.added, offset, t.blocks[p].Pairs());
      var m :| 0 <= m < |t.added| && t.added[m] == Added(offset, key);
      var group := t.groups[offset / BASE];
      assert key in group;
      var h :| 0 <= h < |group| && group[h] == key;
      hide IsTable, NoFalseNegatives, FilterBlockReader.KeyMayMatch, UserKeyOf, ComparatorOk, CodecOk;
      UserKeyAccepted(user, group, h, k);
      filter.value.AcceptsMatch(t.groups, offset, k);
    }

    // When the filter of the chosen block rejects the key, no pair is wanted.
    lemma FilterRight(k: Bytes, p: nat)
      requires Good() && filter.Some? && p < |t.blocks| && IndexChooses(cmp, t.blocks, k, p)
      requires FilterSafe() && !filter.value.KeyMayMatch(t.blocks[p].handle.offset, k)
      ensures forall j: nat, i: nat :: !Wanted(k, j, i)
    {
      hide IsTable, InternalLess, TableOrder, IndexChooses, UserKeyOf, ComparatorOk, CodecOk,
        FilterBlockReader.KeyMayMatch, FilterBlockReader.Reads;
      OnlyChosen(k, p);
      forall j: nat, i: nat ensures !Wanted(k, j, i) {
        if Wanted(k, j, i) {
          FilterAccepts(k, p, i);
        }
      }
    }

    // Where the seek in the block ends.
    lemma FoundInBlock(k: Bytes, p: nat, q: nat)
      requires Good() && IndexChooses(cmp, t.blocks, k, p) && p < |t.blocks| && q <= |t.blocks[p].Pairs()|
      requires forall h :: 0 <= h < q ==> Internal(cmp)(t.blocks[p].Pairs()[h].key, k)
      requires q < |t.blocks[p].Pairs()| ==> !Internal(cmp)(t.blocks[p].Pairs()[q].key, k)
      ensures q < |t.blocks[p].Pairs()| ==> IsFirst(cmp, t.blocks, k, p, q)
      ensures forall j: nat, i: nat :: Wanted(k, j, i) ==> j == p && i == q < |t.blocks[p].Pairs()|
    {
      hide InternalLess, TableOrder, UserKeyOf, ComparatorOk, CodecOk, IndexChooses, Readable;
      forall h | 0 <= h < q ensures InternalLess(cmp, t.blocks[p].Pairs()[h].key, k) {
        assert Internal(cmp)(t.blocks[p].Pairs()[h].key, k);
      }
      if q < |t.blocks[p].Pairs()| {
        ChosenIsFirst(cmp, t.blocks, k, p, q);
      }
      forall j: nat, i: nat | Wanted(k, j, i) ensures j == p && i == q < |t.blocks[p].Pairs()| {
        WantedIsChosen(k, p, j, i);
      }
    }

    /** InternalGet hands over nothing but the first pair of the table at or after the key,
        and hands that over whenever it has the user key that is looked up. */
    method InternalGet(k: Bytes, verify: bool) returns (r: Option<Pair>, ok: bool)
      requires FilterSafe() && |index| < 0x1_0000_0000
      ensures Good() ==> ok
      ensures Good() && r.Some? ==>
        exists j: nat, i: nat :: IsFirst(cmp, t.blocks, k, j, i) && r.value == t.blocks[j].Pairs()[i]
      ensures Good() ==> forall j: nat, i: nat :: Wanted(k, j, i) ==> r == Some(t.blocks[j].Pairs()[i])
    {
      hide IsTable, Readable, CodecOk, IsBlock, FilterBlockReader.Reads, ComparatorOk, IsFirst, IndexChooses,
        InternalLess, UserKeyOf,
        EncodeHandle, DecodeHandle, BlockIter.Stands, Increasing, StrictOrder, Wanted;
      ghost var known := Good();
      if known {
        IndexKnown();
      }
      var iiter, corrupt := NewIterator(Internal(cmp), index, t.index.l);
      if iiter.None? {
        return None, !corrupt;
      }
      var it := iiter.value;
      it.Seek(k);
      ghost var p := it.pos;
      if known {
        it.Reads();
        Chooses(k, p);
        OnlyChosen(k, p);
      }
      if !it.Valid() {
        return None, !it.corrupt;
      }
      var handle := DecodeHandle(it.Value());
      if known {
        BlockKnown(t.blocks[p], verify);
      }
      if filter.Some? && handle.Some? && !filter.value.KeyMayMatch(handle.value.offset, k) {
        if known {
          FilterRight(k, p);
        }
        return None, !it.corrupt;
      }
      var biter := BlockReader(it.Value(), verify, if known then t.blocks[p] else t.index);
      if biter.None? {
        return None, false;
      }
      var bit := biter.value;
      bit.Seek(k);
      if known {
        bit.Reads();
        FoundInBlock(k, p, bit.pos);
      }
      r := if bit.Valid() then Some(Pair(bit.key, bit.Value())) else None;
      ok := !bit.corrupt && !it.corrupt;
    }
  }

  // The blocks that the footer and the metaindex lead to.
  lemma PartsRead(c: Comparator, crc: Crc, codec: Codec, file: Bytes, t: TableInfo, user: Policy, verify: bool)
    requires CodecOk(codec) && IsTable(c, crc, codec, file, t) && Readable(file, t, user)
    ensures FOOTER <= |file| && DecodeFooter(file[|file| - FOOTER..]) == Some(Footer(t.meta.handle, t.index.handle))
    ensures ReadBlock(crc, codec, file, t.index.handle, verify) == Some(t.index.raw) && |t.index.raw| < 0x1_0000_0000
    ensures ReadBlock(crc, codec, file, t.meta.handle, verify) == Some(t.meta.raw) && |t.meta.raw| < 0x1_0000_0000
    ensures IsBlock(t.meta.raw, t.meta.l, t.meta.entries) && t.meta.l.pairs == MetaPairs(t.policy.name, t.filterHandle)
    ensures t.filterHandle.Some? ==>
      && DecodeHandle(EncodeHandle(t.filterHandle.value)) == t.filterHandle
      && ReadBlock(crc, codec, file, t.filterHandle.value, verify) == Some(t.filterRaw)
      && IsFilterBlock(t.policy, t.filterRaw, t.groups) && |t.filterRaw| < 0x1_0000_0000
      && t.policy == InternalPolicy(user)
  {
    hide IsBlock, IsFilterBlock, Stored, BlocksOk, Increasing, ReadBlock, CodecOk, Covered, InFilter, NoFalseNegatives,
      InternalPolicy, DecodeFooter, EncodeFooter, DecodeHandle, EncodeHandle, MetaPairs;
    StoredFits(crc, codec, file, t.index);
    StoredFits(crc, codec, file, t.meta);
    ReadsStored(crc, codec, file, t.index.handle, t.index.raw, verify);
    ReadsStored(crc, codec, file, t.meta.handle, t.meta.raw, verify);
    FooterRoundTrip(Footer(t.meta.handle, t.index.handle));
    if t.filterHandle.Some? {
      ReadsRaw(crc, codec, file, t.filterHandle.value, t.filterRaw, 0, verify);
      HandleRoundTrip(t.filterHandle.value);
    }
  }

  lemma StoredFits(crc: Crc, codec: Codec, file: Bytes, b: BlockInfo)
    requires BlockOk(crc, codec, file, b) && |file| < 0x1_0000_0000_0000_0000
    ensures HandleFits(b.handle)
  {
    hide Stored, IsBlock;
  }

  // A metaindex block of one pair or none is in any order.
  lemma MetaInOrder(name: Bytes, filterHandle: Option<Handle>)
    ensures StrictOrder(BytewiseLess) && Increasing(BytewiseLess, MetaPairs(name, filterHandle))
  {
    forall a, b, d
      ensures BytewiseLess(a, b) ==> !BytewiseLess(b, a)
      ensures BytewiseLess(a, b) && BytewiseLess(b, d) ==> BytewiseLess(a, d) {
      BytewiseTotal(a, b);
      if BytewiseLess(a, b) && BytewiseLess(b, d) {
        BytewiseTransitive(a, b, d);
      }
    }
  }

  // ReadMeta: the filter that the metaindex block knows by the name of the policy.
  method ReadMeta(crc: Crc, codec: Codec, file: Bytes, metaindex: Handle, policy: Policy, verify: bool,
                  ghost c: Comparator, ghost t: TableInfo)
    returns (filter: Option<FilterBlockReader>)
    ensures filter.Some? ==> Askable(filter.value)
    ensures
      && CodecOk(codec) && IsTable(c, crc, codec, file, t) && Readable(file, t, policy)
        && metaindex == t.meta.handle ==>
      && (filter.Some? <==> t.filterHandle.Some?)
      && (filter.Some? ==> filter.value.policy == t.policy && filter.value.Reads(t.groups))
  {
    hide IsTable, Readable, CodecOk, IsBlock, IsFilterBlock, Increasing, StrictOrder, ReadBlock, DecodeHandle,
      EncodeHandle,
      DecodeFooter, InternalPolicy, MetaPairs, Askable, FilterBlockReader.Reads;
    ghost var known := CodecOk(codec) && IsTable(c, crc, codec, file, t) && Readable(file, t, policy)
      && metaindex == t.meta.handle;
    if known {
      PartsRead(c, crc, codec, file, t, policy, verify);
      MetaKnown(t, policy);
    }
    var contents := ReadBlock(crc, codec, file, metaindex, verify);
    if contents.None? || |contents.value| >= 0x1_0000_0000 {
      return None;
    }
    var value := FindMeta(contents.value, policy.name, t.meta.l, t.meta.entries, t.filterHandle);
    if value.None? {
      return None;
    }
    filter := ReadFilter(crc, codec, file, policy, value.value, verify, t.groups);
  }

  // The value of "filter." and the name in a metaindex block.
  method FindMeta(contents: Bytes, name: Bytes, ghost l: Layout, ghost entries: Bytes,
                  ghost filterHandle: Option<Handle>)
    returns (value: Option<Bytes>)
    requires |contents| < 0x1_0000_0000
    ensures IsBlock(contents, l, entries) && l.pairs == MetaPairs(name, filterHandle) ==>
      value == if filterHandle.None? then None else Some(EncodeHandle(filterHandle.value))
  {
    hide IsBlock, Increasing, StrictOrder, EncodeHandle, BlockIter.Good, BlockIter.Stands, BytewiseLess;
    ghost var known := IsBlock(contents, l, entries) && l.pairs == MetaPairs(name, filterHandle);
    MetaInOrder(name, filterHandle);
    var iter, corrupt := NewIterator(BytewiseLess, contents, l);
    if iter.None? {
      return None;
    }
    var key := FILTER + name;
    var it := iter.value;
    it.Seek(key);
    BytewiseTotal(key, key);
    if known {
      it.Reads();
      assert filterHandle.Some? ==> l.pairs[0].key == key && !it.less(key, key);
    }
    value := if it.Valid() && it.key == key then Some(it.Value()) else None;
  }

  ghost predicate FilterThere(crc: Crc, codec: Codec, file: Bytes, policy: Policy, encoded: Bytes, verify: bool,
                              groups: seq<seq<Bytes>>) {
    var h := DecodeHandle(encoded);
    var b := if h.Some? then ReadBlock(crc, codec, file, h.value, verify) else None;
    b.Some? && |b.value| < 0x1_0000_0000 && IsFilterBlock(InternalPolicy(policy), b.value, groups)
  }

  // ReadFilter
  method ReadFilter(crc: Crc, codec: Codec, file: Bytes, policy: Policy, encoded: Bytes, verify: bool,
                    ghost groups: seq<seq<Bytes>>)
    returns (filter: Option<FilterBlockReader>)
    ensures filter.Some? ==> Askable(filter.value) && filter.value.policy == InternalPolicy(policy)
    ensures FilterThere(crc, codec, file, policy, encoded, verify, groups) ==>
      filter.Some? && filter.value.Reads(groups)
  {
    hide ReadBlock, DecodeHandle, IsFilterBlock, InternalPolicy, FilterBlockReader.Reads;
    var h := DecodeHandle(encoded);
    if h.None? {
      return None;
    }
    var block := ReadBlock(crc, codec, file, h.value, verify);
    if block.None? || |block.value| >= 0x1_0000_0000 {
      return None;
    }
    var reader := new FilterBlockReader(InternalPolicy(policy), block.value);
    filter := Some(reader);
  }

  // A filter reader can be asked.
  predicate Askable(reader: FilterBlockReader) {
    reader.num > 0 ==> reader.offsets + 4 * reader.num + 5 <= |reader.data|
  }

  lemma MetaKnown(t: TableInfo, user: Policy)
    requires t.filterHandle.Some? ==> t.policy == InternalPolicy(user)
    ensures MetaPairs(t.policy.name, t.filterHandle) == MetaPairs(user.name, t.filterHandle)
  {
  }

  /** Table::Open: the footer leads to the index and the metaindex, and that to the filter: a
      finished table can be opened from its bytes alone. */
  method Open(cmp: Comparator, crc: Crc, codec: Codec, file: Bytes, policy: Option<Policy>, verify: bool,
              ghost t: TableInfo, ghost user: Policy)
    returns (table: Option<Table>)
    ensures table.Some? ==> table.value.FilterSafe() && |table.value.index| < 0x1_0000_0000
    ensures
      && ComparatorOk(cmp) && CodecOk(codec) && IsTable(cmp, crc, codec, file, t) && Readable(file, t, user)
      && (policy.Some? ==> policy.value == user) ==>
      && table.Some? && table.value.Good() && table.value.t == t && table.value.user == user
      && (table.value.filter.Some? <==> policy.Some? && t.filterHandle.Some?)
  {
    hide IsTable, Readable, FilterBlockReader.Reads, ReadBlock, CodecOk, ComparatorOk, DecodeFooter, IsBlock,
      IsFilterBlock, MetaPairs, InternalPolicy;
    ghost var known := CodecOk(codec) && IsTable(cmp, crc, codec, file, t) && Readable(file, t, user);
    if known {
      PartsRead(cmp, crc, codec, file, t, user, verify);
    }
    if |file| < FOOTER {
      return None;
    }
    var footer := DecodeFooter(file[|file| - FOOTER..]);
    if footer.None? {
      return None;
    }
    var index := ReadBlock(crc, codec, file, footer.value.index, verify);
    if index.None? || |index.value| >= 0x1_0000_0000 {
      return None;
    }
    var filter: Option<FilterBlockReader> := None;
    if policy.Some? {
      filter := ReadMeta(crc, codec, file, footer.value.metaindex, policy.value, verify, cmp, t);
    }
    var r := new Table(cmp, crc, codec, file, index.value, filter, t, user);
    table := Some(r);
  }
}
