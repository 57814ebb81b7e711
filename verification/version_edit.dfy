/** Version edits as bytes (db/version_edit.h, db/version_edit.cc): the records of the manifest. */
module VersionEdits {
  import opened Keys
  import opened Coding
  import Version

  // FileMetaData; the bounds are encoded internal keys.
  datatype FileMeta = FileMeta(number: U64, size: U64, smallest: Bytes, largest: Bytes)

  // deleted_files_ is a std::set of pairs: its elements in order.
  datatype Edit = Edit(comparator: Option<Bytes>, logNumber: Option<U64>, prevLogNumber: Option<U64>,
                       nextFileNumber: Option<U64>, lastSequence: Option<U64>,
                       compactPointers: seq<(nat, Bytes)>, deleted: seq<(nat, U64)>, newFiles: seq<(nat, FileMeta)>)

  // What one tag announces.
  datatype Item =
    | Comparator(name: Bytes)
    | LogNumber(n: U64)
    | PrevLogNumber(n: U64)
    | NextFileNumber(n: U64)
    | LastSequence(n: U64)
    | CompactPointer(level: nat, key: Bytes)
    | DeletedFile(level: nat, n: U64)
    | NewFile(level: nat, f: FileMeta)

  predicate PairBefore(a: (nat, U64), b: (nat, U64)) {
    a.0 < b.0 || (a.0 == b.0 && a.1 < b.1)
  }

  ghost predicate InOrder(s: seq<(nat, U64)>) {
    forall i, j :: 0 <= i < j < |s| ==> PairBefore(s[i], s[j])
  }

  // std::set::insert
  function Insert(s: seq<(nat, U64)>, p: (nat, U64)): (r: seq<(nat, U64)>)
    ensures forall q :: q in r <==> q in s || q == p
  {
    if |s| == 0 then [p]
    else
      var n := |s| - 1;
      assert s == s[..n] + [s[n]];
      if s[n] == p then s
      else if PairBefore(s[n], p) then s + [p]
      else Insert(s[..n], p) + [s[n]]
  }

  lemma {:induction false} InsertInOrder(s: seq<(nat, U64)>, p: (nat, U64))
    requires InOrder(s)
    ensures InOrder(Insert(s, p))
  {
    var r, n := Insert(s, p), |s| - 1;
    if |s| > 0 && s[n] != p && !PairBefore(s[n], p) {
      var front := Insert(s[..n], p);
      InsertInOrder(s[..n], p);
      forall i | 0 <= i < |front| ensures PairBefore(front[i], s[n]) {
        assert front[i] in s[..n] || front[i] == p;
      }
    }
  }

  lemma InsertLast(s: seq<(nat, U64)>, p: (nat, U64))
    requires |s| > 0 ==> PairBefore(s[|s| - 1], p)
    ensures Insert(s, p) == s + [p]
  {
  }

  // What the setters of the class keep: keys are non-empty, lengths and levels fit their widths.
  ghost predicate Valid(e: Edit) {
    && (e.comparator.Some? ==> |e.comparator.value| < 0x1_0000_0000)
    && (forall i :: 0 <= i < |e.compactPointers| ==>
      e.compactPointers[i].0 < Version.NUM_LEVELS && KeyOk(e.compactPointers[i].1))
    && InOrder(e.deleted) && (forall i :: 0 <= i < |e.deleted| ==> e.deleted[i].0 < Version.NUM_LEVELS)
    && forall i :: 0 <= i < |e.newFiles| ==> e.newFiles[i].0 < Version.NUM_LEVELS && FileOk(e.newFiles[i].1)
  }

  predicate KeyOk(key: Bytes) {
    0 < |key| < 0x1_0000_0000
  }

  predicate FileOk(f: FileMeta) {
    KeyOk(f.smallest) && KeyOk(f.largest)
  }

  // ------------------------------------------------------------------ bytes

  // PutLengthPrefixedSlice
  function PutSlice(b: Bytes): Bytes {
    Varint(|b| % 0x1_0000_0000) + b
  }

  function ItemBytes(it: Item): (b: Bytes)
    ensures |b| > 0
  {
    match it
    case Comparator(name) => Varint(1) + PutSlice(name)
    case LogNumber(n) => Varint(2) + Varint(n)
    case NextFileNumber(n) => Varint(3) + Varint(n)
    case LastSequence(n) => Varint(4) + Varint(n)
    case CompactPointer(level, key) => Varint(5) + Varint(level) + PutSlice(key)
    case DeletedFile(level, n) => Varint(6) + Varint(level) + Varint(n)
    case NewFile(level, f) =>
      Varint(7) + Varint(level) + Varint(f.number) + Varint(f.size) + PutSlice(f.smallest) + PutSlice(f.largest)
    case PrevLogNumber(n) => Varint(9) + Varint(n)
  }

  function ItemsBytes(items: seq<Item>): Bytes {
    if |items| == 0 then [] else ItemsBytes(items[..|items| - 1]) + ItemBytes(items[|items| - 1])
  }

  // GetVarint32, GetVarint64
  function GetVarint(s: Bytes, bits: nat): (r: Read<nat>)
    ensures r.Got? ==> |r.rest| < |s| && r.value < Power(2, bits)
  {
    match ReadVarint(s, bits)
    case None => Failed
    case Some(r) => Got(r.0, s[r.1..])
  }

  function GetNumber(s: Bytes): (r: Read<U64>)
    ensures r.Got? ==> |r.rest| < |s|
  {
    Power64();
    match GetVarint(s, 64)
    case Failed => Failed
    case Got(n, rest) => Got(n, rest)
  }

  function GetSlice(s: Bytes): (r: Read<Bytes>)
    ensures r.Got? ==> |r.rest| < |s|
  {
    match GetVarint(s, 32)
    case Failed => Failed
    case Got(n, rest) => if |rest| < n then Failed else Got(rest[..n], rest[n..])
  }

  // GetInternalKey: InternalKey::DecodeFrom refuses the empty string.
  function GetKey(s: Bytes): (r: Read<Bytes>)
    ensures r.Got? ==> |r.rest| < |s|
  {
    match GetSlice(s)
    case Failed => Failed
    case Got(key, rest) => if |key| == 0 then Failed else Got(key, rest)
  }

  function GetLevel(s: Bytes): (r: Read<nat>)
    ensures r.Got? ==> |r.rest| < |s|
  {
    match GetVarint(s, 32)
    case Failed => Failed
    case Got(n, rest) => if n < Version.NUM_LEVELS then Got(n, rest) else Failed
  }

  function GetFile(s: Bytes): (r: Read<FileMeta>)
    ensures r.Got? ==> |r.rest| < |s|
  {
    match GetNumber(s)
    case Failed => Failed
    case Got(number, s1) =>
      match GetNumber(s1)
      case Failed => Failed
      case Got(size, s2) =>
        match GetKey(s2)
        case Failed => Failed
        case Got(smallest, s3) =>
          match GetKey(s3)
          case Failed => Failed
          case Got(largest, rest) => Got(FileMeta(number, size, smallest, largest), rest)
  }

  // One round of the switch in DecodeFrom, after the tag.
  function GetItem(tag: nat, s: Bytes): (r: Read<Item>)
    ensures r.Got? ==> |r.rest| <= |s|
  {
    if tag == 1 then (match GetSlice(s) case Failed => Failed case Got(b, rest) => Got(Comparator(b), rest))
    else if tag == 2 then (match GetNumber(s) case Failed => Failed case Got(n, rest) => Got(LogNumber(n), rest))
    else if tag == 9 then (match GetNumber(s) case Failed => Failed case Got(n, rest) => Got(PrevLogNumber(n), rest))
    else if tag == 3 then (match GetNumber(s) case Failed => Failed case Got(n, rest) => Got(NextFileNumber(n), rest))
    else if tag == 4 then (match GetNumber(s) case Failed => Failed case Got(n, rest) => Got(LastSequence(n), rest))
    else if tag == 5 || tag == 6 || tag == 7 then
      match GetLevel(s)
      case Failed => Failed
      case Got(level, s1) =>
        if tag == 5 then (match GetKey(s1) case Failed => Failed case Got(k, rest) =>
          Got(CompactPointer(level, k), rest))
        else if tag == 6 then (match GetNumber(s1) case Failed => Failed case Got(n, rest) =>
          Got(DeletedFile(level, n), rest))
        else (match GetFile(s1) case Failed => Failed case Got(f, rest) => Got(NewFile(level, f), rest))
    else Failed
  }

  function Apply(e: Edit, it: Item): Edit {
    match it
    case Comparator(name) => e.(comparator := Some(name))
    case LogNumber(n) => e.(logNumber := Some(n))
    case PrevLogNumber(n) => e.(prevLogNumber := Some(n))
    case NextFileNumber(n) => e.(nextFileNumber := Some(n))
    case LastSequence(n) => e.(lastSequence := Some(n))
    case CompactPointer(level, key) => e.(compactPointers := e.compactPointers + [(level, key)])
    case DeletedFile(level, n) => e.(deleted := Insert(e.deleted, (level, n)))
    case NewFile(level, f) => e.(newFiles := e.newFiles + [(level, f)])
  }

  function ApplyAll(e: Edit, items: seq<Item>): Edit {
    if |items| == 0 then e else Apply(ApplyAll(e, items[..|items| - 1]), items[|items| - 1])
  }

  // DecodeFrom, once the edit is cleared.
  function Parse(s: Bytes, e: Edit): Option<Edit>
    decreases |s|
  {
    match GetVarint(s, 32)
    case Failed => if |s| == 0 then Some(e) else None
    case Got(tag, rest) =>
      match GetItem(tag, rest)
      case Failed => None
      case Got(it, after) => Parse(after, Apply(e, it))
  }

  // The items of an edit, in the order of EncodeTo.
  function Items(e: Edit): seq<Item> {
    Scalars(e) + Pointers(e.compactPointers) + Deletions(e.deleted) + Additions(e.newFiles)
  }

  function Scalars(e: Edit): seq<Item> {
    (if e.comparator.Some? then [Comparator(e.comparator.value)] else [])
    + (if e.logNumber.Some? then [LogNumber(e.logNumber.value)] else [])
    + (if e.prevLogNumber.Some? then [PrevLogNumber(e.prevLogNumber.value)] else [])
    + (if e.nextFileNumber.Some? then [NextFileNumber(e.nextFileNumber.value)] else [])
    + (if e.lastSequence.Some? then [LastSequence(e.lastSequence.value)] else [])
  }

  function Pointers(ps: seq<(nat, Bytes)>): (r: seq<Item>)
    ensures |r| == |ps|
  {
    seq(|ps|, i requires 0 <= i < |ps| => CompactPointer(ps[i].0, ps[i].1))
  }

  function Deletions(ds: seq<(nat, U64)>): (r: seq<Item>)
    ensures |r| == |ds|
  {
    seq(|ds|, i requires 0 <= i < |ds| => DeletedFile(ds[i].0, ds[i].1))
  }

  function Additions(fs: seq<(nat, FileMeta)>): (r: seq<Item>)
    ensures |r| == |fs|
  {
    seq(|fs|, i requires 0 <= i < |fs| => NewFile(fs[i].0, fs[i].1))
  }

  // VersionEdit::Clear does not touch the compaction pointers.
  function Cleared(e: Edit): Edit {
    Edit(None, None, None, None, None, e.compactPointers, [], [])
  }

  // ------------------------------------------------------------------ reading back

  ghost predicate ItemOk(it: Item) {
    match it
    case Comparator(name) => |name| < 0x1_0000_0000
    case CompactPointer(level, key) => level < Version.NUM_LEVELS && KeyOk(key)
    case DeletedFile(level, n) => level < Version.NUM_LEVELS
    case NewFile(level, f) => level < Version.NUM_LEVELS && FileOk(f)
    case _ => true
  }

  lemma GetVarint32Of(n: U32, rest: Bytes)
    ensures GetVarint(Varint(n) + rest, 32) == Got(n, rest)
  {
    Varint32RoundTrip(n, rest);
  }

  lemma GetNumberOf(n: U64, rest: Bytes)
    ensures GetNumber(Varint(n) + rest) == Got(n, rest)
  {
    Power64();
    VarintRoundTrip(n, rest, 64);
  }

  lemma GetSliceOf(b: Bytes, rest: Bytes)
    requires |b| < 0x1_0000_0000
    ensures GetSlice(PutSlice(b) + rest) == Got(b, rest)
  {
    hide GetVarint, Varint, GetSlice;
    GetVarint32Of(|b|, b + rest);
    assert PutSlice(b) + rest == Varint(|b|) + (b + rest);
    SliceRead(PutSlice(b) + rest, |b|, b + rest);
    assert (b + rest)[..|b|] == b && (b + rest)[|b|..] == rest;
  }

  lemma SliceRead(s: Bytes, n: nat, rest: Bytes)
    requires GetVarint(s, 32) == Got(n, rest) && n <= |rest|
    ensures GetSlice(s) == Got(rest[..n], rest[n..])
  {
    hide GetVarint;
  }

  lemma GetFileOf(f: FileMeta, rest: Bytes)
    requires FileOk(f)
    ensures GetFile(Varint(f.number) + Varint(f.size) + PutSlice(f.smallest) + PutSlice(f.largest) + rest)
      == Got(f, rest)
  {
    hide GetVarint, Varint, PutSlice, GetNumber, GetSlice;
    var s3 := PutSlice(f.largest) + rest;
    var s2 := PutSlice(f.smallest) + s3;
    var s1 := Varint(f.size) + s2;
    GetNumberOf(f.number, s1);
    GetNumberOf(f.size, s2);
    GetSliceOf(f.smallest, s3);
    GetSliceOf(f.largest, rest);
    Regroup(Varint(f.number), Varint(f.size), PutSlice(f.smallest), PutSlice(f.largest), rest);
  }

  lemma Regroup(a: Bytes, b: Bytes, c: Bytes, d: Bytes, e: Bytes)
    ensures a + b + c + d + e == a + (b + (c + (d + e)))
  {
    assert a + b + c + d + e == a + b + c + (d + e);
    assert a + b + c + (d + e) == a + b + (c + (d + e));
  }

  // The tag of an item, and what follows it.
  function TagOf(it: Item): (tag: nat)
    ensures 1 <= tag <= 9
  {
    match it
    case Comparator(_) => 1
    case LogNumber(_) => 2
    case PrevLogNumber(_) => 9
    case NextFileNumber(_) => 3
    case LastSequence(_) => 4
    case CompactPointer(_, _) => 5
    case DeletedFile(_, _) => 6
    case NewFile(_, _) => 7
  }

  function BodyOf(it: Item): Bytes {
    match it
    case Comparator(name) => PutSlice(name)
    case CompactPointer(level, key) => Varint(level) + PutSlice(key)
    case DeletedFile(level, n) => Varint(level) + Varint(n)
    case NewFile(level, f) =>
      Varint(level) + (Varint(f.number) + Varint(f.size) + PutSlice(f.smallest) + PutSlice(f.largest))
    case _ => Varint(it.n)
  }

  lemma ItemParts(it: Item)
    ensures ItemBytes(it) == Varint(TagOf(it)) + BodyOf(it)
  {
    hide Varint, PutSlice;
    match it
    case CompactPointer(level, key) => assert ItemBytes(it) == Varint(5) + (Varint(level) + PutSlice(key));
    case DeletedFile(level, n) => assert ItemBytes(it) == Varint(6) + (Varint(level) + Varint(n));
    case NewFile(level, f) =>
      assert ItemBytes(it)
          == Varint(7) + (Varint(level)
            + (Varint(f.number) + Varint(f.size) + PutSlice(f.smallest) + PutSlice(f.largest)));
    case _ =>
  }

  lemma GetItemOf(it: Item, rest: Bytes)
    requires ItemOk(it)
    ensures GetItem(TagOf(it), BodyOf(it) + rest) == Got(it, rest)
  {
    hide Varint, PutSlice, GetVarint, GetNumber, GetSlice, GetFile;
    match it
    case Comparator(name) => GetSliceOf(name, rest);
    case CompactPointer(level, key) =>
      GetVarint32Of(level, PutSlice(key) + rest);
      GetSliceOf(key, rest);
      assert BodyOf(it) + rest == Varint(level) + (PutSlice(key) + rest);
    case DeletedFile(level, n) =>
      GetVarint32Of(level, Varint(n) + rest);
      GetNumberOf(n, rest);
      assert BodyOf(it) + rest == Varint(level) + (Varint(n) + rest);
    case NewFile(level, f) =>
      var body := Varint(f.number) + Varint(f.size) + PutSlice(f.smallest) + PutSlice(f.largest);
      GetVarint32Of(level, body + rest);
      GetFileOf(f, rest);
      assert BodyOf(it) + rest == Varint(level) + (body + rest);
    case _ => GetNumberOf(it.n, rest);
  }

  lemma ParseOne(it: Item, rest: Bytes, e: Edit)
    requires ItemOk(it)
    ensures Parse(ItemBytes(it) + rest, e) == Parse(rest, Apply(e, it))
  {
    hide ItemBytes, Varint, BodyOf, GetVarint, GetItem, Apply, TagOf, ItemOk;
    ItemParts(it);
    GetItemOf(it, rest);
    GetVarint32Of(TagOf(it), BodyOf(it) + rest);
    assert ItemBytes(it) + rest == Varint(TagOf(it)) + (BodyOf(it) + rest);
  }

  /** Parsing the items of an edit applies them in order. */
  lemma {:induction false} ParseItems(items: seq<Item>, rest: Bytes, e: Edit)
    requires forall i :: 0 <= i < |items| ==> ItemOk(items[i])
    ensures Parse(ItemsBytes(items) + rest, e) == Parse(rest, ApplyAll(e, items))
    decreases |items|
  {
    hide Parse, ItemBytes, Apply, ItemOk;
    if |items| == 0 {
      assert ItemsBytes(items) + rest == rest;
    } else {
      var n := |items| - 1;
      assert ItemsBytes(items) + rest == ItemsBytes(items[..n]) + (ItemBytes(items[n]) + rest);
      ParseItems(items[..n], ItemBytes(items[n]) + rest, e);
      ParseOne(items[n], rest, ApplyAll(e, items[..n]));
    }
  }

  lemma {:induction false} ApplySplit(e: Edit, a: seq<Item>, b: seq<Item>)
    ensures ApplyAll(e, a + b) == ApplyAll(ApplyAll(e, a), b)
    decreases |b|
  {
    hide Apply;
    if |b| == 0 {
      assert a + b == a;
    } else {
      var n := |b| - 1;
      assert (a + b)[..|a + b| - 1] == a + b[..n] && (a + b)[|a + b| - 1] == b[n];
      ApplySplit(e, a, b[..n]);
    }
  }

  lemma {:induction false} ApplyPointers(e: Edit, ps: seq<(nat, Bytes)>)
    ensures ApplyAll(e, Pointers(ps)) == e.(compactPointers := e.compactPointers + ps)
    decreases |ps|
  {
    if |ps| == 0 {
      assert e.compactPointers + ps == e.compactPointers;
    } else {
      var n := |ps| - 1;
      ApplyPointers(e, ps[..n]);
      assert Pointers(ps)[..n] == Pointers(ps[..n]) && ps == ps[..n] + [ps[n]];
      assert e.compactPointers + ps == e.compactPointers + ps[..n] + [ps[n]];
    }
  }

  lemma {:induction false} ApplyDeletions(e: Edit, ds: seq<(nat, U64)>)
    requires e.deleted == [] && InOrder(ds)
    ensures ApplyAll(e, Deletions(ds)) == e.(deleted := ds)
    decreases |ds|
  {
    if |ds| > 0 {
      var n := |ds| - 1;
      assert n > 0 ==> PairBefore(ds[n - 1], ds[n]);
      ApplyDeletions(e, ds[..n]);
      InsertLast(ds[..n], ds[n]);
      hide Insert, PairBefore, InOrder;
      assert Deletions(ds)[..n] == Deletions(ds[..n]) && ds == ds[..n] + [ds[n]];
    }
  }

  lemma {:induction false} ApplyAdditions(e: Edit, fs: seq<(nat, FileMeta)>)
    ensures ApplyAll(e, Additions(fs)) == e.(newFiles := e.newFiles + fs)
    decreases |fs|
  {
    if |fs| == 0 {
      assert e.newFiles + fs == e.newFiles;
    } else {
      var n := |fs| - 1;
      ApplyAdditions(e, fs[..n]);
      assert Additions(fs)[..n] == Additions(fs[..n]) && fs == fs[..n] + [fs[n]];
      assert e.newFiles + fs == e.newFiles + fs[..n] + [fs[n]];
    }
  }

  lemma ApplyScalars(c: Edit, e: Edit)
    requires c.comparator.None? && c.logNumber.None? && c.prevLogNumber.None? && c.nextFileNumber.None?
    requires c.lastSequence.None?
    ensures ApplyAll(c, Scalars(e))
      == Edit(e.comparator, e.logNumber, e.prevLogNumber, e.nextFileNumber, e.lastSequence,
                                            c.compactPointers, c.deleted, c.newFiles)
  {
    hide ApplyAll;
    var s1 := if e.comparator.Some? then [Comparator(e.comparator.value)] else [];
    var s2 := if e.logNumber.Some? then [LogNumber(e.logNumber.value)] else [];
    var s3 := if e.prevLogNumber.Some? then [PrevLogNumber(e.prevLogNumber.value)] else [];
    var s4 := if e.nextFileNumber.Some? then [NextFileNumber(e.nextFileNumber.value)] else [];
    var s5 := if e.lastSequence.Some? then [LastSequence(e.lastSequence.value)] else [];
    ApplySplit(c, s1 + s2 + s3 + s4, s5);
    ApplySplit(c, s1 + s2 + s3, s4);
    ApplySplit(c, s1 + s2, s3);
    ApplySplit(c, s1, s2);
    var c1 := c.(comparator := e.comparator);
    AtMostOne(c, s1);
    var c2 := c1.(logNumber := e.logNumber);
    AtMostOne(c1, s2);
    var c3 := c2.(prevLogNumber := e.prevLogNumber);
    AtMostOne(c2, s3);
    var c4 := c3.(nextFileNumber := e.nextFileNumber);
    AtMostOne(c3, s4);
    AtMostOne(c4, s5);
  }

  lemma AtMostOne(e: Edit, items: seq<Item>)
    requires |items| <= 1
    ensures ApplyAll(e, items) == if |items| == 0 then e else Apply(e, items[0])
  {
    if |items| == 1 {
      assert items[..0] == [];
    }
  }

  /** Decoding an encoded edit gives the edit back, whatever the object held before, except that
      compaction pointers it held before stay in front: Clear leaves them. */
  lemma EditRoundTrip(e: Edit, before: Edit)
    requires Valid(e)
    ensures Parse(ItemsBytes(Items(e)), Cleared(before))
      == Some(e.(compactPointers := before.compactPointers + e.compactPointers))
  {
    hide *;
    var c := Cleared(before);
    ItemsOk(e);
    ParseItems(Items(e), [], c);
    assert ItemsBytes(Items(e)) + [] == ItemsBytes(Items(e));
    ClearedParts(before);
    ApplyItems(c, e);
    NothingLeft(ApplyAll(c, Items(e)));
  }

  // An edit that sets the log number to 7, decoded into an object that holds the compaction
  // pointer of level 1, comes back with that pointer.
  lemma HeldPointerStays()
    ensures var e := Edit(None, Some(7), None, None, None, [], [], []);
      var pointer := (1, [97, 1, 1, 0, 0, 0, 0, 0, 0]);
      var held := Edit(None, None, None, None, None, [pointer], [], []);
      && Valid(e) && Valid(held) && ItemsBytes(Items(e)) == [2, 7]
      && Parse([2, 7], Cleared(held)) == Some(e.(compactPointers := [pointer])) != Some(e)
  {
    var e := Edit(None, Some(7), None, None, None, [], [], []);
    var pointer := (1, [97, 1, 1, 0, 0, 0, 0, 0, 0]);
    var held := Edit(None, None, None, None, None, [pointer], [], []);
    OneScalar();
    hide Items, ItemsBytes, Parse, Cleared;
    EditRoundTrip(e, held);
    assert held.compactPointers + e.compactPointers == [pointer];
  }

  lemma OneScalar()
    ensures ItemsBytes(Items(Edit(None, Some(7), None, None, None, [], [], []))) == [2, 7]
  {
    var e := Edit(None, Some(7), None, None, None, [], [], []);
    assert Items(e) == [LogNumber(7)];
    assert [LogNumber(7)][..0] == [];
    assert ItemBytes(LogNumber(7)) == [2, 7];
  }

  lemma ItemsOk(e: Edit)
    requires Valid(e)
    ensures InOrder(e.deleted) && forall i :: 0 <= i < |Items(e)| ==> ItemOk(Items(e)[i])
  {
    hide KeyOk, FileOk;
    forall i | 0 <= i < |Scalars(e)| ensures ItemOk(Scalars(e)[i]) {
    }
    hide Scalars;
  }

  lemma ClearedParts(e: Edit)
    ensures Cleared(e) == Edit(None, None, None, None, None, e.compactPointers, [], [])
  {
  }

  lemma NothingLeft(e: Edit)
    ensures Parse([], e) == Some(e)
  {
  }

  lemma ItemsAre(e: Edit)
    ensures Items(e) == Scalars(e) + Pointers(e.compactPointers) + Deletions(e.deleted) + Additions(e.newFiles)
  {
  }

  lemma ApplyItems(c: Edit, e: Edit)
    requires InOrder(e.deleted) && c == Edit(None, None, None, None, None, c.compactPointers, [], [])
    ensures ApplyAll(c, Items(e)) == e.(compactPointers := c.compactPointers + e.compactPointers)
  {
    hide *;
    ApplyScalars(c, e);
    ItemsAre(e);
    ApplySplit(c, Scalars(e) + Pointers(e.compactPointers) + Deletions(e.deleted), Additions(e.newFiles));
    ApplySplit(c, Scalars(e) + Pointers(e.compactPointers), Deletions(e.deleted));
    ApplySplit(c, Scalars(e), Pointers(e.compactPointers));
    var e1 := ApplyAll(c, Scalars(e));
    ApplyPointers(e1, e.compactPointers);
    var e2 := e1.(compactPointers := c.compactPointers + e.compactPointers);
    ApplyDeletions(e2, e.deleted);
    ApplyAdditions(e2.(deleted := e.deleted), e.newFiles);
    assert e2.newFiles + e.newFiles == e.newFiles;
  }

  // ------------------------------------------------------------------ any bytes

  lemma KeyFits(s: Bytes)
    ensures GetSlice(s).Got? ==> |GetSlice(s).value| < 0x1_0000_0000
    ensures GetKey(s).Got? ==> KeyOk(GetKey(s).value)
  {
    Power32();
    hide GetVarint, Power;
  }

  lemma FileFits(s: Bytes)
    ensures GetFile(s).Got? ==> FileOk(GetFile(s).value)
  {
    hide GetNumber, GetKey, KeyOk;
    match GetNumber(s)
    case Failed =>
    case Got(number, s1) =>
      match GetNumber(s1)
      case Failed =>
      case Got(size, s2) =>
        KeyFits(s2);
        match GetKey(s2)
        case Failed =>
        case Got(smallest, s3) => KeyFits(s3);
  }

  // Whatever the bytes, an item that is read is one that can be written.
  lemma ItemFits(tag: nat, s: Bytes)
    ensures GetItem(tag, s).Got? ==> ItemOk(GetItem(tag, s).value)
  {
    hide GetNumber, GetSlice, GetKey, GetFile, GetLevel, FileOk, KeyOk;
    KeyFits(s);
    LevelFits(s);
    match GetLevel(s)
    case Failed =>
    case Got(level, s1) =>
      KeyFits(s1);
      FileFits(s1);
  }

  lemma LevelFits(s: Bytes)
    ensures GetLevel(s).Got? ==> GetLevel(s).value < Version.NUM_LEVELS
  {
    hide GetVarint;
  }

  lemma ApplyKeeps(e: Edit, it: Item)
    requires Valid(e) && ItemOk(it)
    ensures Valid(Apply(e, it))
  {
    hide KeyOk, FileOk, Insert;
    if it.DeletedFile? {
      InsertInOrder(e.deleted, (it.level, it.n));
      var next := Insert(e.deleted, (it.level, it.n));
      forall i | 0 <= i < |next| ensures next[i].0 < Version.NUM_LEVELS {
        assert next[i] in next;
      }
    }
  }

  /** Whatever the bytes, an edit that is decoded is one that can be encoded: levels exist, keys
      are not empty, and sizes fit. */
  lemma {:induction false} DecodedIsValid(s: Bytes, e: Edit)
    requires Valid(e)
    ensures Parse(s, e).Some? ==> Valid(Parse(s, e).value)
    decreases |s|
  {
    hide GetVarint, GetItem, Apply, Valid;
    match GetVarint(s, 32)
    case Failed =>
    case Got(tag, rest) =>
      ItemFits(tag, rest);
      match GetItem(tag, rest)
      case Failed =>
      case Got(it, after) =>
        ApplyKeeps(e, it);
        DecodedIsValid(after, Apply(e, it));
  }

  // A new object.
  const NOTHING := Edit(None, None, None, None, None, [], [], [])

  /** What was decoded from any bytes into a new object can be encoded, and decodes to the same
      edit again. */
  lemma DecodedComesBack(s: Bytes)
    ensures var r := Parse(s, NOTHING);
      r.Some? ==> Parse(ItemsBytes(Items(r.value)), NOTHING) == r
  {
    DecodedIsValid(s, NOTHING);
    var r := Parse(s, NOTHING);
    hide Parse, Items, ItemsBytes, Valid;
    if r.Some? {
      EditRoundTrip(r.value, NOTHING);
      assert NOTHING.compactPointers + r.value.compactPointers == r.value.compactPointers;
    }
  }

  // ------------------------------------------------------------------ the object

  lemma BytesSnoc(items: seq<Item>, it: Item)
    ensures ItemsBytes(items + [it]) == ItemsBytes(items) + ItemBytes(it)
  {
    assert (items + [it])[..|items|] == items;
  }

  class VersionEdit {
    var e: Edit

    constructor ()
      ensures e == Edit(None, None, None, None, None, [], [], [])
    {
      e := Edit(None, None, None, None, None, [], [], []);
    }

    // RemoveFile
    method RemoveFile(level: nat, file: U64)
      requires Valid(e) && level < Version.NUM_LEVELS
      modifies this
      ensures Valid(e) && e == old(e).(deleted := e.deleted)
      ensures forall d :: d in e.deleted <==> d in old(e.deleted) || d == (level, file)
    {
      var next := Insert(e.deleted, (level, file));
      InsertInOrder(e.deleted, (level, file));
      forall i | 0 <= i < |next| ensures next[i].0 < Version.NUM_LEVELS {
        assert next[i] in next;
      }
      e := e.(deleted := next);
    }

    // AddFile
    method AddFile(level: nat, f: FileMeta)
      requires Valid(e) && level < Version.NUM_LEVELS && FileOk(f)
      modifies this
      ensures Valid(e) && e == old(e).(newFiles := old(e.newFiles) + [(level, f)])
    {
      e := e.(newFiles := e.newFiles + [(level, f)]);
    }

    // The fields that are set, in front of the lists.
    method EncodeScalars(dst: Bytes) returns (out: Bytes)
      ensures out == dst + ItemsBytes(Scalars(e))
    {
      hide ItemBytes, ItemsBytes;
      ghost var s1 := if e.comparator.Some? then [Comparator(e.comparator.value)] else [];
      ghost var s2 := if e.logNumber.Some? then [LogNumber(e.logNumber.value)] else [];
      ghost var s3 := if e.prevLogNumber.Some? then [PrevLogNumber(e.prevLogNumber.value)] else [];
      ghost var s4 := if e.nextFileNumber.Some? then [NextFileNumber(e.nextFileNumber.value)] else [];
      ghost var s5 := if e.lastSequence.Some? then [LastSequence(e.lastSequence.value)] else [];
      assert Scalars(e) == s1 + s2 + s3 + s4 + s5;
      hide Scalars;
      NoItems();
      out := dst;
      if e.comparator.Some? {
        out := Put(out, dst, [], Comparator(e.comparator.value));
      }
      assert [] + s1 == s1 && out == dst + ItemsBytes(s1);
      if e.logNumber.Some? {
        out := Put(out, dst, s1, LogNumber(e.logNumber.value));
      }
      assert (s2 == [] ==> s1 + s2 == s1) && out == dst + ItemsBytes(s1 + s2);
      if e.prevLogNumber.Some? {
        out := Put(out, dst, s1 + s2, PrevLogNumber(e.prevLogNumber.value));
      }
      assert (s3 == [] ==> s1 + s2 + s3 == s1 + s2) && out == dst + ItemsBytes(s1 + s2 + s3);
      if e.nextFileNumber.Some? {
        out := Put(out, dst, s1 + s2 + s3, NextFileNumber(e.nextFileNumber.value));
      }
      assert (s4 == [] ==> s1 + s2 + s3 + s4 == s1 + s2 + s3) && out == dst + ItemsBytes(s1 + s2 + s3 + s4);
      if e.lastSequence.Some? {
        out := Put(out, dst, s1 + s2 + s3 + s4, LastSequence(e.lastSequence.value));
      }
      assert (s5 == [] ==> s1 + s2 + s3 + s4 + s5 == s1 + s2 + s3 + s4)
        && out == dst + ItemsBytes(s1 + s2 + s3 + s4 + s5);
    }

    static method Put(out: Bytes, ghost dst: Bytes, ghost items: seq<Item>, it: Item) returns (r: Bytes)
      requires out == dst + ItemsBytes(items)
      ensures r == dst + ItemsBytes(items + [it])
    {
      hide ItemBytes, ItemsBytes;
      BytesSnoc(items, it);
      r := out + ItemBytes(it);
    }

    /** EncodeTo */
    method EncodeTo(dst: Bytes) returns (out: Bytes)
      requires Valid(e)
      ensures out == dst + ItemsBytes(Items(e))
    {
      hide ItemBytes, ItemsBytes, Scalars;
      out := EncodeScalars(dst);
      ghost var items := Scalars(e);
      for i := 0 to |e.compactPointers|
        invariant items == Scalars(e) + Pointers(e.compactPointers)[..i] && out == dst + ItemsBytes(items)
      {
        var it := CompactPointer(e.compactPointers[i].0, e.compactPointers[i].1);
        out := Put(out, dst, items, it);
        items := items + [it];
      }
      ghost var front := items;
      for i := 0 to |e.deleted|
        invariant items == front + Deletions(e.deleted)[..i] && out == dst + ItemsBytes(items)
      {
        var it := DeletedFile(e.deleted[i].0, e.deleted[i].1);
        out := Put(out, dst, items, it);
        items := items + [it];
      }
      ghost var middle := items;
      for i := 0 to |e.newFiles|
        invariant items == middle + Additions(e.newFiles)[..i] && out == dst + ItemsBytes(items)
      {
        var it := NewFile(e.newFiles[i].0, e.newFiles[i].1);
        out := Put(out, dst, items, it);
        items := items + [it];
      }
      assert items == Items(e);
    }

    /** DecodeFrom */
    method DecodeFrom(src: Bytes) returns (ok: bool)
      modifies this
      ensures ok == Parse(src, Cleared(old(e))).Some?
      ensures ok ==> Parse(src, Cleared(old(e))) == Some(e)
    {
      hide GetVarint, GetItem, Apply;
      e := Cleared(e);
      var input, more := src, true;
      while more
        invariant Parse(src, Cleared(old(e))) == Parse(input, e)
        invariant !more ==> GetVarint(input, 32).Failed?
        decreases more, |input|
      {
        match GetVarint(input, 32)
        case Failed => more := false;
        case Got(tag, rest) =>
          var r := GetItem(tag, rest);
          if r.Failed? {
            return false;
          }
          e := Apply(e, r.value);
          input := r.rest;
      }
      ok := |input| == 0;
    }
  }

  lemma NoItems()
    ensures ItemsBytes([]) == []
  {
  }
}
