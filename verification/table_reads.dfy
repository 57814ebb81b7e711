/** Point lookups in a table file: the pair that Table::InternalGet hands over is the newest
    entry at or below the sequence number (TableCache::Get in db/table_cache.cc, SaveValue in
    db/version_set.cc, BuildTable in db/builder.cc). */
module TableReads {
  import opened Keys
  import opened Version
  import opened Comparators
  import opened DbFormat
  import opened Blocks
  import opened TableFormat
  import opened Tables

  // How user keys are written, and the rank of every string under the comparator.
  ghost predicate RankOk(c: Comparator, rank: Bytes -> real) {
    forall a, b :: c.less(a, b) <==> rank(a) < rank(b)
  }

  function Written(e: Entry, name: UserKey -> Bytes): Pair {
    Pair(Encode(name(e.key.user), e.key.sequence, e.key.kind), e.value)
  }

  // The number of pairs before block j.
  function Start(blocks: seq<BlockInfo>, j: nat): nat
    requires j <= |blocks|
  {
    if j == 0 then 0 else Start(blocks, j - 1) + |blocks[j - 1].Pairs()|
  }

  function WrittenAll(entries: seq<Entry>, name: UserKey -> Bytes): (r: seq<Pair>)
    ensures |r| == |entries|
  {
    seq(|entries|, i requires 0 <= i < |entries| => Written(entries[i], name))
  }

  // The names are the strings of these keys, and sequence numbers fit their field.
  ghost predicate NamesOk(entries: seq<Entry>, name: UserKey -> Bytes, rank: Bytes -> real) {
    forall n :: 0 <= n < |entries| ==>
      entries[n].key.sequence <= MAX_SEQUENCE && rank(name(entries[n].key.user)) == entries[n].key.user
  }

  /** The table holds these entries, in this order. */
  ghost predicate HoldsEntries(blocks: seq<BlockInfo>, entries: seq<Entry>, name: UserKey -> Bytes,
                               rank: Bytes -> real) {
    AllPairs(blocks) == WrittenAll(entries, name) && NamesOk(entries, name, rank)
  }

  // Pair i of block j stands in the whole table after the pairs of the blocks before.
  lemma {:induction false} InAll(blocks: seq<BlockInfo>, m: nat, j: nat, i: nat)
    requires j < m <= |blocks| && i < |blocks[j].Pairs()|
    ensures |AllPairs(blocks[..m])| == Start(blocks, m) > Start(blocks, j) + i
    ensures AllPairs(blocks[..m])[Start(blocks, j) + i] == blocks[j].Pairs()[i]
    decreases m
  {
    assert blocks[..m][..m - 1] == blocks[..m - 1];
    if j < m - 1 {
      InAll(blocks, m - 1, j, i);
    } else {
      AllLength(blocks, m - 1);
    }
  }

  lemma {:induction false} AllLength(blocks: seq<BlockInfo>, m: nat)
    requires m <= |blocks|
    ensures |AllPairs(blocks[..m])| == Start(blocks, m)
  {
    if m > 0 {
      AllLength(blocks, m - 1);
      assert blocks[..m][..m - 1] == blocks[..m - 1];
    }
  }

  ghost predicate HoldsAt(blocks: seq<BlockInfo>, entries: seq<Entry>, name: UserKey -> Bytes, rank: Bytes -> real,
                          j: nat, i: nat)
    requires j < |blocks| && i < |blocks[j].Pairs()|
  {
    var n := Start(blocks, j) + i;
    && n < |entries| && blocks[j].Pairs()[i] == Written(entries[n], name)
    && entries[n].key.sequence <= MAX_SEQUENCE && rank(name(entries[n].key.user)) == entries[n].key.user
  }

  lemma Holds(blocks: seq<BlockInfo>, entries: seq<Entry>, name: UserKey -> Bytes, rank: Bytes -> real, j: nat, i: nat)
    requires HoldsEntries(blocks, entries, name, rank) && j < |blocks| && i < |blocks[j].Pairs()|
    ensures HoldsAt(blocks, entries, name, rank, j, i)
  {
    hide Written;
    InAll(blocks, |blocks|, j, i);
    assert blocks[..|blocks|] == blocks;
  }

  lemma HowMany(blocks: seq<BlockInfo>, entries: seq<Entry>, name: UserKey -> Bytes, rank: Bytes -> real)
    requires HoldsEntries(blocks, entries, name, rank)
    ensures Start(blocks, |blocks|) == |entries|
  {
    AllLength(blocks, |blocks|);
    assert blocks[..|blocks|] == blocks;
  }

  lemma {:induction false} StartGrows(blocks: seq<BlockInfo>, g: nat, j: nat)
    requires g < j <= |blocks|
    ensures Start(blocks, g) + |blocks[g].Pairs()| <= Start(blocks, j)
    decreases j
  {
    if g < j - 1 {
      StartGrows(blocks, g, j - 1);
    }
  }

  // Every entry is in a block.
  lemma {:induction false} Place(blocks: seq<BlockInfo>, m: nat, n: nat) returns (j: nat, i: nat)
    requires m <= |blocks| && n < Start(blocks, m)
    ensures j < m && i < |blocks[j].Pairs()| && n == Start(blocks, j) + i
  {
    if n < Start(blocks, m - 1) {
      j, i := Place(blocks, m - 1, n);
    } else {
      j, i := m - 1, n - Start(blocks, m - 1);
    }
  }

  // A written entry compares with the key of a lookup as its internal key does.
  lemma WrittenCompares(c: Comparator, e: Entry, name: UserKey -> Bytes, rank: Bytes -> real, user: Bytes, q: nat)
    requires RankOk(c, rank) && e.key.sequence <= MAX_SEQUENCE && rank(name(e.key.user)) == e.key.user
    requires q <= MAX_SEQUENCE
    ensures InternalLess(c, Written(e, name).key, Encode(user, q, Value)) <==> Before(e.key, SeekKey(rank(user), q))
    ensures UserKeyOf(Written(e, name).key) == name(e.key.user) && UserKeyOf(Encode(user, q, Value)) == user
  {
    hide InternalLess, Encode;
    CompareEncoded(c, name(e.key.user), e.key.sequence, e.key.kind, user, q, Value, rank);
    EncodedUser(name(e.key.user), e.key.sequence, e.key.kind);
    EncodedUser(user, q, Value);
  }

  lemma EncodedUser(user: Bytes, q: nat, kind: Kind)
    requires q <= MAX_SEQUENCE
    ensures UserKeyOf(Encode(user, q, kind)) == user
  {
    EncodeParts(user, IKey(0.0, q, kind).Tag());
  }

  // The first entry at or after the key, when there is one, is the first pair at or after it.
  lemma FirstPair(c: Comparator, blocks: seq<BlockInfo>, entries: seq<Entry>, name: UserKey -> Bytes,
                  rank: Bytes -> real,
                  user: Bytes, q: nat, n: nat) returns (j: nat, i: nat)
    requires RankOk(c, rank) && HoldsEntries(blocks, entries, name, rank) && q <= MAX_SEQUENCE && n < |entries|
    requires (forall m :: 0 <= m < n ==> Before(entries[m].key, SeekKey(rank(user), q)))
    requires !Before(entries[n].key, SeekKey(rank(user), q))
    ensures IsFirst(c, blocks, Encode(user, q, Value), j, i) && blocks[j].Pairs()[i] == Written(entries[n], name)
  {
    hide InternalLess, Encode, RankOk, Written, Before, HoldsEntries;
    HowMany(blocks, entries, name, rank);
    j, i := Place(blocks, |blocks|, n);
    Holds(blocks, entries, name, rank, j, i);
    WrittenCompares(c, entries[n], name, rank, user, q);
    forall h | 0 <= h < i ensures InternalLess(c, blocks[j].Pairs()[h].key, Encode(user, q, Value)) {
      Holds(blocks, entries, name, rank, j, h);
      WrittenCompares(c, entries[Start(blocks, j) + h], name, rank, user, q);
    }
    forall g, h | 0 <= g < j && 0 <= h < |blocks[g].Pairs()|
      ensures InternalLess(c, blocks[g].Pairs()[h].key, Encode(user, q, Value)) {
      StartGrows(blocks, g, j);
      Holds(blocks, entries, name, rank, g, h);
      WrittenCompares(c, entries[Start(blocks, g) + h], name, rank, user, q);
    }
  }

  // The other way round.
  lemma FirstIsFirst(c: Comparator, blocks: seq<BlockInfo>, entries: seq<Entry>, name: UserKey -> Bytes,
                     rank: Bytes -> real,
                     user: Bytes, q: nat, j: nat, i: nat) returns (n: nat)
    requires RankOk(c, rank) && HoldsEntries(blocks, entries, name, rank) && q <= MAX_SEQUENCE
    requires IsFirst(c, blocks, Encode(user, q, Value), j, i)
    ensures n < |entries| && blocks[j].Pairs()[i] == Written(entries[n], name)
    ensures (forall m :: 0 <= m < n ==> Before(entries[m].key, SeekKey(rank(user), q)))
    ensures !Before(entries[n].key, SeekKey(rank(user), q))
  {
    hide InternalLess, Encode, RankOk, Written, Before, HoldsEntries;
    HowMany(blocks, entries, name, rank);
    n := Start(blocks, j) + i;
    Holds(blocks, entries, name, rank, j, i);
    WrittenCompares(c, entries[n], name, rank, user, q);
    forall m | 0 <= m < n ensures Before(entries[m].key, SeekKey(rank(user), q)) {
      var g, h := Place(blocks, |blocks|, m);
      assert g > j ==> Start(blocks, j) + |blocks[j].Pairs()| <= Start(blocks, g) by {
        if g > j {
          StartGrows(blocks, j, g);
        }
      }
      Holds(blocks, entries, name, rank, g, h);
      WrittenCompares(c, entries[m], name, rank, user, q);
    }
  }

  // SaveValue
  function Save(c: Comparator, user: Bytes, r: Option<Pair>): Option<Saver> {
    if r.None? then Some(NotFound)
    else match ParseInternalKey(r.value.key)
      case None => None
      case Some(parsed) =>
        Some(if c.less(parsed.user, user) || c.less(user, parsed.user) then NotFound
             else if parsed.kind.Value? then Found(r.value.value) else Deleted)
  }

  lemma SaveWritten(c: Comparator, e: Entry, name: UserKey -> Bytes, rank: Bytes -> real, user: Bytes)
    requires RankOk(c, rank) && e.key.sequence <= MAX_SEQUENCE && rank(name(e.key.user)) == e.key.user
    ensures Save(c, user, Some(Written(e, name)))
         == Some(if e.key.user != rank(user) then NotFound else if e.key.kind.Value? then Found(e.value) else Deleted)
  {
    hide Encode, ParseInternalKey;
    ParseEncoded(name(e.key.user), e.key.sequence, e.key.kind);
  }

  // What the pair that InternalGet hands over, or its silence, says of the entries.
  ghost predicate Handed(t: Table, user: Bytes, q: nat, r: Option<Pair>) {
    && (r.Some? ==> exists j: nat, i: nat ::
          IsFirst(t.cmp, t.t.blocks, Encode(user, q, Value), j, i) && r.value == t.t.blocks[j].Pairs()[i])
    && forall j: nat, i: nat :: t.Wanted(Encode(user, q, Value), j, i) ==> r == Some(t.t.blocks[j].Pairs()[i])
  }

  lemma HandedAnswers(t: Table, entries: seq<Entry>, name: UserKey -> Bytes, rank: Bytes -> real, user: Bytes, q: nat,
                      r: Option<Pair>)
    requires ComparatorOk(t.cmp) && RankOk(t.cmp, rank) && HoldsEntries(t.t.blocks, entries, name, rank)
    requires Sorted(entries)
    requires q <= MAX_SEQUENCE && Handed(t, user, q, r)
    ensures Save(t.cmp, user, r).Some? && Answers(Contents(entries), rank(user), q, Save(t.cmp, user, r).value)
  {
    hide Encode, Written, Save, Before, Sorted, InternalLess;
    if r.Some? {
      var j: nat, i: nat :| IsFirst(t.cmp, t.t.blocks, Encode(user, q, Value), j, i)
        && r.value == t.t.blocks[j].Pairs()[i];
      var n := FirstIsFirst(t.cmp, t.t.blocks, entries, name, rank, user, q, j, i);
      assert NamesOk(entries, name, rank);
      SaveWritten(t.cmp, entries[n], name, rank, user);
      EntryAnswers(entries, rank(user), q, n);
    } else {
      assert Save(t.cmp, user, r) == Some(NotFound) by { SaveNothing(t.cmp, user); }
      var n := FirstFrom(entries, SeekKey(rank(user), q));
      if n < |entries| && entries[n].key.user == rank(user) {
        SilentIsAbsent(t, entries, name, rank, user, q, r, n);
      } else {
        EntryAnswers(entries, rank(user), q, n);
      }
    }
  }

  lemma SaveNothing(c: Comparator, user: Bytes)
    ensures Save(c, user, None) == Some(NotFound)
  {
  }

  lemma EntryAnswers(entries: seq<Entry>, user: UserKey, q: nat, n: nat)
    requires Sorted(entries) && n <= |entries| && forall m :: 0 <= m < n ==> Before(entries[m].key, SeekKey(user, q))
    requires n < |entries| ==> !Before(entries[n].key, SeekKey(user, q))
    ensures n < |entries| && entries[n].key.user == user ==>
              Answers(Contents(entries), user, q, if entries[n].key.kind.Value? then Found(entries[n].value)
                else Deleted)
    ensures n == |entries| || entries[n].key.user != user ==> Answers(Contents(entries), user, q, NotFound)
  {
    ReadSorted(entries, user, q, n);
    hide Sorted, Before;
  }

  // A pair with the user key would have been handed over.
  lemma SilentIsAbsent(t: Table, entries: seq<Entry>, name: UserKey -> Bytes, rank: Bytes -> real, user: Bytes, q: nat,
                       r: Option<Pair>, n: nat)
    requires ComparatorOk(t.cmp) && RankOk(t.cmp, rank) && HoldsEntries(t.t.blocks, entries, name, rank)
    requires q <= MAX_SEQUENCE && n < |entries|
    requires (forall m :: 0 <= m < n ==> Before(entries[m].key, SeekKey(rank(user), q)))
    requires !Before(entries[n].key, SeekKey(rank(user), q))
    requires entries[n].key.user == rank(user) && Handed(t, user, q, r)
    ensures r.Some?
  {
    hide Encode, Written, Before, InternalLess;
    var j, i := FirstPair(t.cmp, t.t.blocks, entries, name, rank, user, q, n);
    WrittenCompares(t.cmp, entries[n], name, rank, user, q);
    SameRank(t.cmp, rank, name(entries[n].key.user), user);
    assert t.Wanted(Encode(user, q, Value), j, i);
  }

  lemma SameRank(c: Comparator, rank: Bytes -> real, a: Bytes, b: Bytes)
    requires ComparatorOk(c) && RankOk(c, rank) && rank(a) == rank(b)
    ensures a == b
  {
  }

  /** TableCache::Get with SaveValue: on a finished table that holds the entries of a file, the
      lookup answers what the newest entry of the user key at or below the sequence number says. */
  method TableGet(table: Table, user: Bytes, q: nat, verify: bool, ghost entries: seq<Entry>,
                  ghost name: UserKey -> Bytes, ghost rank: Bytes -> real)
    returns (s: Option<Saver>, ok: bool)
    requires table.FilterSafe() && |table.index| < 0x1_0000_0000 && q <= MAX_SEQUENCE
    ensures
      && table.Good() && RankOk(table.cmp, rank) && HoldsEntries(table.t.blocks, entries, name, rank)
      && Sorted(entries) ==>
      ok && s.Some? && Answers(Contents(entries), rank(user), q, s.value)
  {
    hide Encode, Answers, HoldsEntries, IsFirst, RankOk, Sorted, Save;
    var r;
    r, ok := table.InternalGet(Encode(user, q, Value), verify);
    s := Save(table.cmp, user, r);
    if table.Good() && RankOk(table.cmp, rank) && HoldsEntries(table.t.blocks, entries, name, rank) && Sorted(entries) {
      assert Handed(table, user, q, r);
      GoodComparator(table);
      HandedAnswers(table, entries, name, rank, user, q, r);
    }
  }

  lemma GoodComparator(table: Table)
    requires table.Good()
    ensures ComparatorOk(table.cmp)
  {
    hide ComparatorOk, CodecOk, IsTable, Readable;
  }

  // ------------------------------------------------------------------ building

  lemma KeysAscend(c: Comparator, entries: seq<Entry>, name: UserKey -> Bytes, rank: Bytes -> real, i: nat)
    requires RankOk(c, rank) && NamesOk(entries, name, rank) && Sorted(entries) && 0 < i < |entries|
    ensures InternalLess(c, Written(entries[i - 1], name).key, Written(entries[i], name).key)
  {
    var d, e := entries[i - 1].key, entries[i].key;
    assert Before(d, e);
    hide InternalLess, Encode, Sorted;
    CompareEncoded(c, name(d.user), d.sequence, d.kind, name(e.user), e.sequence, e.kind, rank);
  }

  lemma OneMoreWritten(entries: seq<Entry>, name: UserKey -> Bytes, i: nat)
    requires i < |entries|
    ensures WrittenAll(entries[..i + 1], name) == WrittenAll(entries[..i], name) + [Written(entries[i], name)]
  {
    hide Written;
  }

  /** BuildTable on sorted entries: a finished table that holds them, with the bounds of the file. */
  method BuildTable(builder: TableBuilder, number: nat, entries: seq<Entry>, name: UserKey -> Bytes,
                    ghost rank: Bytes -> real)
    returns (f: File, ghost info: TableInfo)
    requires builder.Valid() && builder.numEntries == 0 && builder.blocks == [] && builder.dataBlock.l.pairs == []
    requires RankOk(builder.cmp, rank) && NamesOk(entries, name, rank) && Sorted(entries) && |entries| > 0
    modifies builder.Objects()
    ensures IsTable(builder.cmp, builder.crc, builder.codec, builder.file, info)
    ensures HoldsEntries(info.blocks, entries, name, rank)
    ensures FileOk(f) && f.entries == entries && f.number == number && f.size == |builder.file|
  {
    hide TableBuilder.Valid, AllPairs, InternalLess, Written, NamesOk, RankOk, Sorted, IsTable, WrittenAll;
    assert AllPairs([]) + [] == WrittenAll(entries[..0], name) by { NothingWritten(entries, name); }
    for i := 0 to |entries|
      invariant builder.Valid() && builder.numEntries == i
      invariant i > 0 ==> builder.lastKey == Written(entries[i - 1], name).key
      invariant AllPairs(builder.blocks) + builder.dataBlock.l.pairs == WrittenAll(entries[..i], name)
    {
      if i > 0 {
        KeysAscend(builder.cmp, entries, name, rank, i);
      }
      OneMoreWritten(entries, name, i);
      var p := Written(entries[i], name);
      builder.Add(p.key, p.value);
    }
    assert entries[..|entries|] == entries;
    info := builder.Finish();
    f := File(number, |builder.file|, entries[0].key, entries[|entries| - 1].key, entries);
  }

  lemma NothingWritten(entries: seq<Entry>, name: UserKey -> Bytes)
    ensures AllPairs([]) + [] == WrittenAll(entries[..0], name)
  {
  }
}
