/** Write batches as bytes (db/write_batch.cc, util/coding.cc). */
module WriteBatches {
  import opened Keys
  import opened Coding

  // kTypeDeletion is 0 and kTypeValue is 1; a deletion carries no value.
  datatype Op = Put(key: Bytes, value: Bytes) | Delete(key: Bytes)

  datatype Status = Ok | Corruption(reason: string)

  const HEADER: nat := 12

  // Sizes are stored in 32 bits.
  predicate Fits(op: Op) {
    |op.key| < 0x1_0000_0000 && (op.Put? ==> |op.value| < 0x1_0000_0000)
  }

  // PutLengthPrefixedSlice
  function Prefixed(s: Bytes): Bytes {
    Varint(|s|) + s
  }

  function Record(op: Op): (r: Bytes)
    ensures |r| > 0
  {
    match op
    case Put(k, v) => [1] + Prefixed(k) + Prefixed(v)
    case Delete(k) => [0] + Prefixed(k)
  }

  function Records(ops: seq<Op>): Bytes {
    if |ops| == 0 then [] else Record(ops[0]) + Records(ops[1..])
  }

  lemma {:induction false} RecordsAppend(a: seq<Op>, b: seq<Op>)
    ensures Records(a + b) == Records(a) + Records(b)
  {
    if |a| == 0 {
      assert a + b == b;
    } else {
      assert (a + b)[1..] == a[1..] + b;
      RecordsAppend(a[1..], b);
    }
  }

  // GetLengthPrefixedSlice: the slice and the rest of the input.
  function GetPrefixed(input: Bytes): (r: Option<(Bytes, Bytes)>)
    ensures r.Some? ==> |r.value.1| < |input|
  {
    match ReadVarint(input, 32)
    case None => None
    case Some((n, used)) =>
      if |input| - used >= n then Some((input[used..used + n], input[used + n..])) else None
  }

  lemma PrefixedRoundTrip(s: Bytes, tail: Bytes)
    requires |s| < 0x1_0000_0000
    ensures GetPrefixed(Prefixed(s) + tail) == Some((s, tail))
  {
    var input := Prefixed(s) + tail;
    assert input == Varint(|s|) + (s + tail);
    Varint32RoundTrip(|s|, s + tail);
    var used := |Varint(|s|)|;
    hide Varint, ReadVarint;
    assert input[used..used + |s|] == s && input[used + |s|..] == tail;
  }

  // What Iterate makes of the bytes after the header.
  function Parse(input: Bytes): (r: (seq<Op>, Status))
    decreases |input|
  {
    if |input| == 0 then ([], Ok)
    else if input[0] == 1 then
      match GetPrefixed(input[1..])
      case None => ([], Corruption("bad WriteBatch Put"))
      case Some((k, rest)) =>
        (match GetPrefixed(rest)
         case None => ([], Corruption("bad WriteBatch Put"))
         case Some((v, after)) => var (ops, s) := Parse(after); ([Put(k, v)] + ops, s))
    else if input[0] == 0 then
      match GetPrefixed(input[1..])
      case None => ([], Corruption("bad WriteBatch Delete"))
      case Some((k, rest)) => var (ops, s) := Parse(rest); ([Delete(k)] + ops, s)
    else ([], Corruption("unknown WriteBatch tag"))
  }

  /** Parsing what was written gives the operations back, in order. */
  lemma {:induction false} ParseRecords(ops: seq<Op>)
    requires forall op :: op in ops ==> Fits(op)
    ensures Parse(Records(ops)) == (ops, Ok)
  {
    if |ops| > 0 {
      var op, tail := ops[0], Records(ops[1..]);
      ParseRecords(ops[1..]);
      ParseOne(op, tail);
      assert ops == [op] + ops[1..];
    }
  }

  lemma ParseOne(op: Op, tail: Bytes)
    requires Fits(op)
    ensures Parse(Record(op) + tail) == (var (ops, s) := Parse(tail); ([op] + ops, s))
  {
    var input := Record(op) + tail;
    hide Prefixed, GetPrefixed;
    match op {
      case Put(k, v) =>
        assert input[1..] == Prefixed(k) + (Prefixed(v) + tail);
        PrefixedRoundTrip(k, Prefixed(v) + tail);
        PrefixedRoundTrip(v, tail);
      case Delete(k) =>
        assert input[1..] == Prefixed(k) + tail;
        PrefixedRoundTrip(k, tail);
    }
  }

  /** The whole batch: the sequence number of its first operation, how many there are, and the operations. */
  function Encoded(sequence: U64, ops: seq<Op>): Bytes
    requires |ops| < 0x8000_0000
  {
    Fixed(sequence, 8) + Fixed(|ops|, 4) + Records(ops)
  }

  ghost predicate WellFormed(ops: seq<Op>) {
    |ops| < 0x8000_0000 && forall op :: op in ops ==> Fits(op)
  }

  class WriteBatch {
    var rep: Bytes
    ghost var first: U64
    ghost var ops: seq<Op>

    ghost predicate Valid()
      reads this
    {
      WellFormed(ops) && rep == Encoded(first, ops)
    }

    constructor ()
      ensures Valid() && ops == [] && first == 0
    {
      rep, first, ops := seq(HEADER, _ => 0), 0, [];
      new;
      assert rep == Encoded(0, []) by {
        ZeroFixed(8);
        ZeroFixed(4);
      }
    }

    method Clear()
      modifies this
      ensures Valid() && ops == [] && first == 0
    {
      rep, first, ops := seq(HEADER, _ => 0), 0, [];
      ZeroFixed(8);
      ZeroFixed(4);
    }

    // WriteBatchInternal::Count
    method Count() returns (n: nat)
      requires Valid()
      ensures n == |ops|
    {
      assert rep[8..12] == Fixed(|ops|, 4);
      Fixed32RoundTrip(|ops|);
      n := Decode32(rep[8..12]);
    }

    // WriteBatchInternal::SetCount
    method SetCount(n: U32)
      requires |rep| >= HEADER
      modifies this`rep
      ensures rep == old(rep)[..8] + Fixed(n, 4) + old(rep)[12..]
    {
      rep := rep[..8] + Fixed(n, 4) + rep[12..];
    }

    // WriteBatchInternal::SetSequence
    method SetSequence(sequence: U64)
      requires Valid()
      modifies this
      ensures Valid() && ops == old(ops) && first == sequence
    {
      rep := Fixed(sequence, 8) + rep[8..];
      first := sequence;
    }

    method Put(key: Bytes, value: Bytes)
      requires Valid() && WellFormed(ops + [Op.Put(key, value)])
      modifies this
      ensures Valid() && ops == old(ops) + [Op.Put(key, value)] && first == old(first)
    {
      hide Records, Prefixed, Fixed;
      var n := Count();
      SetCount(n + 1);
      ghost var start := rep;
      rep := rep + [1];
      rep := rep + Prefixed(key);
      rep := rep + Prefixed(value);
      ops := ops + [Op.Put(key, value)];
      assert rep == start + Record(Op.Put(key, value));
      OneRecord(Op.Put(key, value));
      Grown(old(rep), first, old(ops), [Op.Put(key, value)], rep);
    }

    method Delete(key: Bytes)
      requires Valid() && WellFormed(ops + [Op.Delete(key)])
      modifies this
      ensures Valid() && ops == old(ops) + [Op.Delete(key)] && first == old(first)
    {
      hide Records, Prefixed, Fixed;
      var n := Count();
      SetCount(n + 1);
      ghost var start := rep;
      rep := rep + [0];
      rep := rep + Prefixed(key);
      ops := ops + [Op.Delete(key)];
      assert rep == start + Record(Op.Delete(key));
      OneRecord(Op.Delete(key));
      Grown(old(rep), first, old(ops), [Op.Delete(key)], rep);
    }

    // WriteBatchInternal::Append: this batch and then the other one.
    method Append(source: WriteBatch)
      requires Valid() && source.Valid() && source != this && WellFormed(ops + source.ops)
      modifies this
      ensures Valid() && ops == old(ops) + source.ops && first == old(first)
    {
      hide Records, Fixed;
      var n := Count();
      var m := source.Count();
      SetCount(n + m);
      rep := rep + source.rep[HEADER..];
      ops := ops + source.ops;
      assert source.rep[HEADER..] == Records(source.ops);
      Grown(old(rep), first, old(ops), source.ops, rep);
    }

    /** Iterate: exactly the operations that were put in. */
    method Iterate() returns (found: seq<Op>, status: Status)
      requires Valid()
      ensures status == Ok && found == ops
    {
      found, status := IterateBytes(rep);
      assert rep[8..12] == Fixed(|ops|, 4) && rep[12..] == Records(ops);
      Fixed32RoundTrip(|ops|);
      ParseRecords(ops);
    }
  }

  lemma {:induction false} ZeroFixed(width: nat)
    ensures Fixed(0, width) == seq(width, _ => 0)
  {
    if width > 0 {
      ZeroFixed(width - 1);
    }
  }

  lemma OneRecord(op: Op)
    ensures Records([op]) == Record(op)
  {
    assert Records([op]) == Record(op) + [];
  }

  // A new count and more records at the end make the longer batch.
  lemma Grown(before: Bytes, first: U64, ops: seq<Op>, more: seq<Op>, rep: Bytes)
    requires WellFormed(ops) && WellFormed(ops + more) && before == Encoded(first, ops)
    requires rep == before[..8] + Fixed(|ops + more|, 4) + before[12..] + Records(more)
    ensures rep == Encoded(first, ops + more)
  {
    RecordsAppend(ops, more);
    hide Records, Fixed;
    Regroup(Fixed(first, 8), Fixed(|ops|, 4), Records(ops), Fixed(|ops + more|, 4), Records(more));
  }

  lemma Regroup(a: Bytes, b: Bytes, c: Bytes, d: Bytes, e: Bytes)
    requires |a| == 8 && |b| == 4
    ensures (a + b + c)[..8] == a && (a + b + c)[12..] == c && (a + d + c) + e == a + d + (c + e)
  {
  }

  // WriteBatch::Iterate on any bytes.
  method IterateBytes(rep: Bytes) returns (found: seq<Op>, status: Status)
    ensures |rep| < HEADER ==> found == [] && status == Corruption("malformed WriteBatch (too small)")
    ensures |rep| >= HEADER ==>
      var (ops, s) := Parse(rep[HEADER..]);
      && found == ops
      && status == if s != Ok then s
                   else if |ops| != Decode32(rep[8..12]) then Corruption("WriteBatch has wrong count") else Ok
  {
    found := [];
    if |rep| < HEADER {
      return [], Corruption("malformed WriteBatch (too small)");
    }
    var input := rep[HEADER..];
    ghost var all := Parse(input);
    hide GetPrefixed, Decode32;
    while |input| > 0
      invariant Continues(all, found, input)
      decreases |input|
    {
      var tag := input[0];
      ghost var before, start := found, input;
      if tag == 1 {
        var k := GetPrefixed(input[1..]);
        if k.None? {
          return found, Corruption("bad WriteBatch Put");
        }
        var v := GetPrefixed(k.value.1);
        if v.None? {
          return found, Corruption("bad WriteBatch Put");
        }
        found := found + [Put(k.value.0, v.value.0)];
        input := v.value.1;
        ContinuesOn(all, before, start, Put(k.value.0, v.value.0), input);
      } else if tag == 0 {
        var k := GetPrefixed(input[1..]);
        if k.None? {
          return found, Corruption("bad WriteBatch Delete");
        }
        found := found + [Delete(k.value.0)];
        input := k.value.1;
        ContinuesOn(all, before, start, Delete(k.value.0), input);
      } else {
        return found, Corruption("unknown WriteBatch tag");
      }
    }
    if |found| != Decode32(rep[8..12]) {
      status := Corruption("WriteBatch has wrong count");
    } else {
      status := Ok;
    }
  }

  // `found` has been parsed, and `input` is what is left.
  ghost predicate Continues(all: (seq<Op>, Status), found: seq<Op>, input: Bytes) {
    all.0 == found + Parse(input).0 && all.1 == Parse(input).1
  }

  lemma ContinuesOn(all: (seq<Op>, Status), found: seq<Op>, input: Bytes, op: Op, rest: Bytes)
    requires Continues(all, found, input) && Parse(input) == ([op] + Parse(rest).0, Parse(rest).1)
    ensures Continues(all, found + [op], rest)
  {
    hide Parse;
    assert found + ([op] + Parse(rest).0) == (found + [op]) + Parse(rest).0;
  }
}
