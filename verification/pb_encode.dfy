/** The encoder of nanopb (pb_encode.c): a two-pass printer of length-prefixed messages. */
module PbEncode {
  import opened Keys
  import opened Coding
  import opened PbCommon

  // ------------------------------------------------------------------ what is written

  const WT_VARINT: nat := 0
  const WT_64BIT: nat := 1
  const WT_STRING: nat := 2
  const WT_32BIT: nat := 5

  // (uint64_t)n
  function ToUnsigned(n: int): U64
    requires InSigned(n, 8)
  {
    if n < 0 then n + WORD64 else n
  }

  // pb_encode_svarint, on 64-bit words: shift left, and complement if negative.
  function ZigZag(n: int): U64
    requires InSigned(n, 8)
  {
    var shifted := ToUnsigned(n) * 2 % WORD64;
    if n < 0 then WORD64 - 1 - shifted else shifted
  }

  // pb_encode_tag_for_field
  function WireType(t: LType): nat {
    match t
    case Fixed32Type => WT_32BIT
    case Fixed64Type => WT_64BIT
    case BytesType(_) => WT_STRING
    case StringType(_) => WT_STRING
    case FixedBytesType(_) => WT_STRING
    case MessageType(_) => WT_STRING
    case _ => WT_VARINT
  }

  function Tag(wireType: nat, tag: nat): Bytes {
    Varint(tag * 8 + wireType)
  }

  function Prefixed(body: Bytes): (b: Bytes)
    ensures |b| > |body|
  {
    Varint(|body|) + body
  }

  // The bytes of one value, without its tag.
  ghost function ValueBytes(t: LType, v: Value): (b: Bytes)
    requires Typed(t, v)
    ensures |b| >= 1
    decreases t, 1
  {
    match t
    case BoolType => Varint(v.n)
    case VarintType(w) => Varint(ToUnsigned(v.n))
    case UVarintType(w) => Varint(v.n)
    case SVarintType(w) => Varint(ZigZag(v.n))
    case Fixed32Type => Fixed(v.n, 4)
    case Fixed64Type => Fixed(v.n, 8)
    case MessageType(fields) => Prefixed(FieldsBytes(t, v.slots, 0))
    case _ => Prefixed(v.bytes)
  }

  // Each value behind the same prefix: none in a packed array, the tag otherwise.
  ghost function ItemsBytes(t: LType, prefix: Bytes, items: seq<Value>): Bytes
    requires forall i :: 0 <= i < |items| ==> Typed(t, items[i])
    decreases t, 2, |items|
  {
    if |items| == 0 then [] else prefix + ValueBytes(t, items[0]) + ItemsBytes(t, prefix, items[1..])
  }

  // A field is written if it is present; a singular one, if it is not the default.
  ghost predicate Present(t: LType, slots: Message, i: nat)
    requires t.MessageType? && TypedSlots(t, slots) && i < |slots|
  {
    if t.fields[i].rule.Singular? then !IsDefault(t.fields[i].ltype, slots[i][0]) else |slots[i]| > 0
  }

  ghost function FieldBytes(t: LType, slots: Message, i: nat): Bytes
    requires t.MessageType? && TypedSlots(t, slots) && i < |slots|
    decreases t, 0, 0
  {
    var f := t.fields[i];
    if !Present(t, slots, i) then []
    else if f.rule.Repeated? then ArrayBytes(f, slots[i])
    else ItemsBytes(f.ltype, Tag(WireType(f.ltype), f.tag), slots[i])
  }

  // encode_array: numbers are packed behind one tag and a length, anything else has a tag each.
  ghost function ArrayBytes(f: Field, items: seq<Value>): Bytes
    requires forall i :: 0 <= i < |items| ==> Typed(f.ltype, items[i])
    decreases f.ltype, 3, 0
  {
    if |items| == 0 then []
    else if f.ltype.Packable() then Tag(WT_STRING, f.tag) + Prefixed(ItemsBytes(f.ltype, [], items))
    else ItemsBytes(f.ltype, Tag(WireType(f.ltype), f.tag), items)
  }

  // A message is its fields in order, from field i on.
  ghost function FieldsBytes(t: LType, slots: Message, i: nat): Bytes
    requires t.MessageType? && TypedSlots(t, slots) && i <= |slots|
    decreases t, 0, |slots| - i + 1
  {
    if i == |slots| then [] else FieldBytes(t, slots, i) + FieldsBytes(t, slots, i + 1)
  }

  // What the encoder accepts: arrays and byte strings within their declared size.
  ghost predicate Fits(t: LType, v: Value)
    requires Typed(t, v)
    decreases t, 2
  {
    match t
    case BytesType(capacity) => |v.bytes| <= capacity
    case MessageType(fields) => FitsFrom(t, v.slots, 0)
    case _ => true
  }

  // The fields from i on.
  ghost predicate FitsFrom(t: LType, slots: Message, i: nat)
    requires t.MessageType? && TypedSlots(t, slots) && i <= |slots|
    decreases t, 1
  {
    forall k: nat :: i <= k < |slots| ==> FieldFits(t, slots, k)
  }

  ghost predicate FieldFits(t: LType, slots: Message, i: nat)
    requires t.MessageType? && TypedSlots(t, slots) && i < |slots|
    decreases t, 0
  {
    Present(t, slots, i) ==>
      && (t.fields[i].rule.Repeated? ==> |slots[i]| <= t.fields[i].rule.max)
      && AllFit(t.fields[i].ltype, slots[i])
  }

  ghost predicate AllFit(t: LType, items: seq<Value>)
    requires forall i :: 0 <= i < |items| ==> Typed(t, items[i])
    decreases t, 3
  {
    forall j :: 0 <= j < |items| ==> Fits(t, items[j])
  }

  /** Zig-zag numbering: 0, -1, 1, -2, 2, ... */
  lemma ZigZagOrder(n: int)
    requires InSigned(n, 8)
    ensures ZigZag(n) == if n < 0 then -2 * n - 1 else 2 * n
  {
    if n < 0 {
      assert ToUnsigned(n) * 2 == (2 * n + WORD64) + WORD64;
    }
  }

  // Field numbers are 32-bit, here and in submessages.
  ghost predicate TagsFit(t: LType)
    decreases t
  {
    t.MessageType? ==> forall i :: 0 <= i < |t.fields| ==> t.fields[i].tag < WORD32 && TagsFit(t.fields[i].ltype)
  }

  // ------------------------------------------------------------------ output streams

  /** pb_ostream_t over memory.  A sizing stream has no callback: it counts and stores nothing. */
  class OStream {
    const sizing: bool
    const maxSize: nat
    var data: Bytes
    var bytesWritten: nat

    ghost predicate Valid()
      reads this
    {
      !sizing ==> bytesWritten <= maxSize
    }

    // n more bytes go through.
    predicate Room(before: nat, n: nat) {
      sizing || before + n <= maxSize
    }

    // The stream grew by exactly these bytes.
    ghost predicate Grew(before: Bytes, written: nat, b: Bytes)
      reads this
    {
      data == before + (if sizing then [] else b) && bytesWritten == written + |b|
    }

    constructor (sizing: bool, data: Bytes, maxSize: nat)
      ensures Valid() && this.sizing == sizing && this.data == data && this.maxSize == maxSize && bytesWritten == 0
    {
      this.sizing, this.data, this.maxSize, bytesWritten := sizing, data, maxSize, 0;
    }

    // pb_write
    method Write(b: Bytes) returns (ok: bool)
      requires Valid()
      modifies this
      ensures Valid() && ok == Room(old(bytesWritten), |b|)
      ensures ok ==> Grew(old(data), old(bytesWritten), b)
    {
      if |b| > 0 && !sizing {
        if bytesWritten + |b| > maxSize {
          return false;
        }
        data := data + b;
      }
      bytesWritten := bytesWritten + |b|;
      ok := true;
    }

    // pb_write of a count alone, on a sizing stream
    method Count(ghost b: Bytes, n: nat)
      requires Valid() && sizing && n == |b|
      modifies this
      ensures Valid() && Grew(old(data), old(bytesWritten), b)
    {
      bytesWritten := bytesWritten + n;
    }
  }

  // The bytes of a value above 127 with every continuation bit set, as the loop stores them.
  function Continued(v: nat): (b: Bytes) {
    if v == 0 then [] else [(v % 128 + 128) as Byte] + Continued(v / 128)
  }

  lemma {:induction false} LastBit(v: nat)
    requires v > 0
    ensures var c := Continued(v);
      |c| == |Varint(v)| && c[|c| - 1] >= 128 && Varint(v) == c[..|c| - 1] + [c[|c| - 1] - 128]
  {
    if v < 128 {
      assert Continued(v) == [(v + 128) as Byte] + Continued(0);
    } else {
      LastBit(v / 128);
      var c, d := Continued(v), Continued(v / 128);
      assert c == [c[0]] + d && c[|c| - 1] == d[|d| - 1] && c[..|c| - 1] == [c[0]] + d[..|d| - 1];
    }
  }

  /** The loop of pb_encode_varint: the buffer of ten bytes is enough for every 64-bit value. */
  method PackVarint(value: U64) returns (b: Bytes)
    requires value > 0x7F
    ensures b == Varint(value)
  {
    hide Varint, Power, Continued;
    TenBytes(value);
    LastBit(value);
    ghost var c := Continued(value);
    var buffer := new Byte[10];
    var i, v: U64 := 0, value;
    while v > 0
      invariant i <= |c| <= 10 && c[i..] == Continued(v)
      invariant forall k :: 0 <= k < i ==> buffer[k] == c[k]
    {
      ContinuedStep(v);
      TailStep(c, i);
      buffer[i] := (v % 128 + 128) as Byte;
      v := v / 128;
      i := i + 1;
    }
    ContinuedStep(0);
    buffer[i - 1] := buffer[i - 1] - 128;
    assert buffer[..i] == c[..i - 1] + [c[i - 1] - 128];
    b := buffer[..i];
  }

  // pb_encode_varint
  method EncodeVarint(stream: OStream, value: U64) returns (ok: bool)
    requires stream.Valid()
    modifies stream
    ensures stream.Valid() && ok == stream.Room(old(stream.bytesWritten), |Varint(value)|)
    ensures ok ==> stream.Grew(old(stream.data), old(stream.bytesWritten), Varint(value))
  {
    if value <= 0x7F {
      assert Varint(value) == [value as Byte];
      ok := stream.Write([value as Byte]);
    } else {
      var b := PackVarint(value);
      ok := stream.Write(b);
    }
  }

  lemma TailStep(c: Bytes, i: nat)
    requires i <= |c|
    ensures i < |c| ==> c[i..][0] == c[i] && c[i..][1..] == c[i + 1..]
    ensures i == |c| ==> c[i..] == []
  {
  }

  lemma ContinuedStep(v: nat)
    ensures Continued(v) == if v == 0 then [] else [(v % 128 + 128) as Byte] + Continued(v / 128)
  {
  }

  // pb_encode_tag and pb_encode_tag_for_field
  method EncodeTag(stream: OStream, wireType: nat, tag: nat) returns (ok: bool)
    requires stream.Valid() && wireType < 8 && tag < WORD32
    modifies stream
    ensures stream.Valid() && ok == stream.Room(old(stream.bytesWritten), |Tag(wireType, tag)|)
    ensures ok ==> stream.Grew(old(stream.data), old(stream.bytesWritten), Tag(wireType, tag))
  {
    ok := EncodeVarint(stream, tag * 8 + wireType);
  }

  // pb_encode_string
  method EncodeString(stream: OStream, body: Bytes) returns (ok: bool)
    requires stream.Valid() && |body| < WORD64
    modifies stream
    ensures stream.Valid() && ok == stream.Room(old(stream.bytesWritten), |Prefixed(body)|)
    ensures ok ==> stream.Grew(old(stream.data), old(stream.bytesWritten), Prefixed(body))
  {
    ok := EncodeVarint(stream, |body|);
    if ok {
      ok := stream.Write(body);
    }
  }

  // pb_check_proto3_default_value
  method CheckDefault(t: LType, v: Value) returns (isDefault: bool)
    requires Typed(t, v)
    ensures isDefault == IsDefault(t, v)
    decreases t, 1
  {
    match t
    case BytesType(c) => isDefault := |v.bytes| == 0;
    case StringType(n) => isDefault := |v.bytes| == 0;
    case FixedBytesType(n) => isDefault := n == 0;
    case MessageType(fields) =>
      var iter := new FieldIter(fields);
      var more := |fields| > 0;
      while more
        invariant iter.Valid() && iter.fields == fields && (more ==> |fields| > 0)
        invariant forall k: nat :: k < (if more then iter.pos else |fields|) ==> SlotIsDefault(t, v.slots, k)
        decreases more, |fields| - iter.pos
      {
        var same := CheckSlot(t, v.slots, iter.pos);
        if !same {
          return false;
        }
        more := iter.Next();
      }
      isDefault := true;
    case _ => isDefault := v.n == 0;
  }

  method CheckSlot(t: LType, slots: Message, i: nat) returns (isDefault: bool)
    requires t.MessageType? && TypedSlots(t, slots) && i < |slots|
    ensures isDefault == SlotIsDefault(t, slots, i)
    decreases t, 0
  {
    match t.fields[i].rule
    case Required => isDefault := false;
    case Singular => isDefault := CheckDefault(t.fields[i].ltype, slots[i][0]);
    case _ => isDefault := |slots[i]| == 0;
  }

  // ------------------------------------------------------------------ messages

  // Prefix and suffix of what a loop writes.
  lemma GrewBy(stream: OStream, before: Bytes, written: nat, a: Bytes, b: Bytes)
    requires stream.data == before + (if stream.sizing then [] else a) + (if stream.sizing then [] else b)
    requires stream.bytesWritten == written + |a| + |b|
    ensures stream.Grew(before, written, a + b)
  {
  }

  lemma {:induction false} FixedSize(t: LType, items: seq<Value>)
    requires (forall i :: 0 <= i < |items| ==> Typed(t, items[i])) && (t.Fixed32Type? || t.Fixed64Type?)
    ensures |ItemsBytes(t, [], items)| == (if t.Fixed32Type? then 4 else 8) * |items|
  {
    if |items| > 0 {
      FixedSize(t, items[1..]);
    }
  }

  /** pb_encode: accepted exactly if arrays and byte strings are within their declared sizes and
      the stream has room; then the stream has grown by the bytes of the message.  This is the
      same for a sizing stream and a writing one, so the two passes agree. */
  method Encode(stream: OStream, t: LType, slots: Message) returns (ok: bool)
    requires t.MessageType? && TypedSlots(t, slots) && TagsFit(t)
    requires stream.Valid() && |FieldsBytes(t, slots, 0)| < WORD64
    modifies stream
    ensures stream.Valid()
    ensures ok == (FitsFrom(t, slots, 0) && stream.Room(old(stream.bytesWritten), |FieldsBytes(t, slots, 0)|))
    ensures ok ==> stream.Grew(old(stream.data), old(stream.bytesWritten), FieldsBytes(t, slots, 0))
    decreases t, 1, 0
  {
    assert |slots| == |t.fields|;
    hide ItemsBytes, Typed, TypedSlots, ValueBytes, FieldBytes, FieldsBytes, FieldFits, FitsFrom, IsDefault, TagsFit,
      SoFar;
    var iter := new FieldIter(t.fields);
    ghost var done: Bytes := [];
    var more := |t.fields| > 0;
    SoFarStarts(t, slots);
    while more
      invariant iter.Valid() && iter.fields == t.fields && (more ==> |t.fields| > 0) && fresh(iter)
      invariant stream.Valid() && stream.Grew(old(stream.data), old(stream.bytesWritten), done)
      invariant stream.sizing || old(stream.bytesWritten) + |done| <= stream.maxSize
      invariant SoFar(t, slots, if more then iter.pos else |slots|, done)
      decreases more, |t.fields| - iter.pos
    {
      ghost var b := FieldBytes(t, slots, iter.pos);
      SoFarSteps(t, slots, iter.pos, done);
      ok := EncodeField(stream, t, slots, iter.pos);
      if !ok {
        return;
      }
      GrewBy(stream, old(stream.data), old(stream.bytesWritten), done, b);
      done := done + b;
      more := iter.Next();
    }
    SoFarEnds(t, slots, done);
    ok := true;
  }

  // The fields before k fit, and these are their bytes.
  ghost predicate SoFar(t: LType, slots: Message, k: nat, done: Bytes)
    requires t.MessageType? && TypedSlots(t, slots)
  {
    && k <= |slots| && done + FieldsBytes(t, slots, k) == FieldsBytes(t, slots, 0)
    && (FitsFrom(t, slots, 0) <==> FitsFrom(t, slots, k))
  }

  lemma SoFarStarts(t: LType, slots: Message)
    requires t.MessageType? && TypedSlots(t, slots)
    ensures SoFar(t, slots, 0, [])
  {
    hide FieldsBytes, FitsFrom, TypedSlots;
    assert [] + FieldsBytes(t, slots, 0) == FieldsBytes(t, slots, 0);
  }

  lemma SoFarSteps(t: LType, slots: Message, k: nat, done: Bytes)
    requires t.MessageType? && TypedSlots(t, slots) && k < |slots| && SoFar(t, slots, k, done)
    ensures |done| + |FieldBytes(t, slots, k)| <= |FieldsBytes(t, slots, 0)|
    ensures FitsFrom(t, slots, 0) ==> FieldFits(t, slots, k)
    ensures FieldFits(t, slots, k) ==> SoFar(t, slots, k + 1, done + FieldBytes(t, slots, k))
  {
    hide TypedSlots, FieldBytes, FieldFits;
    var b, later := FieldBytes(t, slots, k), FieldsBytes(t, slots, k + 1);
    assert FieldsBytes(t, slots, k) == b + later;
    hide FieldsBytes;
    assert done + (b + later) == done + b + later;
  }

  lemma SoFarEnds(t: LType, slots: Message, done: Bytes)
    requires t.MessageType? && TypedSlots(t, slots) && SoFar(t, slots, |slots|, done)
    ensures FitsFrom(t, slots, 0) && done == FieldsBytes(t, slots, 0)
  {
    hide TypedSlots, FieldFits;
    assert FieldsBytes(t, slots, |slots|) == [];
    hide FieldsBytes;
  }

  lemma OneItem(t: LType, prefix: Bytes, items: seq<Value>)
    requires |items| == 1 && Typed(t, items[0])
    ensures ItemsBytes(t, prefix, items) == prefix + ValueBytes(t, items[0]) && AllFit(t, items) == Fits(t, items[0])
  {
    assert ItemsBytes(t, prefix, items[1..]) == [];
  }

  // encode_field and encode_basic_field
  method EncodeField(stream: OStream, t: LType, slots: Message, i: nat) returns (ok: bool)
    requires t.MessageType? && TypedSlots(t, slots) && i < |slots| && TagsFit(t)
    requires stream.Valid() && |FieldBytes(t, slots, i)| < WORD64
    modifies stream
    ensures stream.Valid()
    ensures ok == (FieldFits(t, slots, i) && stream.Room(old(stream.bytesWritten), |FieldBytes(t, slots, i)|))
    ensures ok ==> stream.Grew(old(stream.data), old(stream.bytesWritten), FieldBytes(t, slots, i))
    decreases t, 0, 0
  {
    hide IsDefault, ValueBytes, Fits, ItemsBytes;
    var f := t.fields[i];
    assert TagsFit(f.ltype) && forall j :: 0 <= j < |slots[i]| ==> Typed(f.ltype, slots[i][j]);
    if f.rule.Repeated? {
      ok := EncodeArray(stream, f, slots[i]);
    } else {
      var present := |slots[i]| > 0;
      if f.rule.Singular? {
        var same := CheckDefault(f.ltype, slots[i][0]);
        present := !same;
      }
      if present {
        OneItem(f.ltype, Tag(WireType(f.ltype), f.tag), slots[i]);
        ok := EncodeItem(stream, f.ltype, Some(f.tag), slots[i][0]);
      } else {
        ok := true;
      }
    }
  }

  // encode_array
  method EncodeArray(stream: OStream, f: Field, items: seq<Value>) returns (ok: bool)
    requires f.rule.Repeated? && f.tag < WORD32 && TagsFit(f.ltype)
    requires forall i :: 0 <= i < |items| ==> Typed(f.ltype, items[i])
    requires stream.Valid() && |ArrayBytes(f, items)| < WORD64
    modifies stream
    ensures stream.Valid()
    ensures ok == (|items| <= f.rule.max && AllFit(f.ltype, items)
      && stream.Room(old(stream.bytesWritten), |ArrayBytes(f, items)|))
    ensures ok ==> stream.Grew(old(stream.data), old(stream.bytesWritten), ArrayBytes(f, items))
    decreases f.ltype, 4
  {
    hide Typed, ItemsBytes, Varint;
    if |items| == 0 {
      return true;
    }
    if |items| > f.rule.max {
      return false;
    }
    if f.ltype.Packable() {
      ok := EncodeTag(stream, WT_STRING, f.tag);
      if ok {
        ok := EncodePacked(stream, f.ltype, items);
      }
    } else {
      ok := EncodeItems(stream, f.ltype, Some(f.tag), items);
    }
  }

  // The packed branch: the size comes from a pass that writes nothing.
  method EncodePacked(stream: OStream, t: LType, items: seq<Value>) returns (ok: bool)
    requires t.Packable() && (forall i :: 0 <= i < |items| ==> Typed(t, items[i]))
    requires stream.Valid() && |Prefixed(ItemsBytes(t, [], items))| < WORD64
    modifies stream
    ensures stream.Valid() && ok == stream.Room(old(stream.bytesWritten), |Prefixed(ItemsBytes(t, [], items))|)
    ensures ok ==> stream.Grew(old(stream.data), old(stream.bytesWritten), Prefixed(ItemsBytes(t, [], items)))
    decreases t, 3, 1
  {
    hide Typed, ItemsBytes, Varint, Fixed;
    ghost var b := ItemsBytes(t, [], items);
    var size;
    if t.Fixed32Type? {
      FixedSize(t, items);
      size := 4 * |items|;
    } else if t.Fixed64Type? {
      FixedSize(t, items);
      size := 8 * |items|;
    } else {
      var sizestream := new OStream(true, [], 0);
      var counted := EncodeItems(sizestream, t, None, items);
      assert counted;
      size := sizestream.bytesWritten;
    }
    assert size == |b|;
    ok := EncodeVarint(stream, size);
    if ok {
      if stream.sizing {
        stream.Count(b, size);
      } else {
        ok := EncodeItems(stream, t, None, items);
      }
    }
  }

  ghost function Before(t: LType, tag: Option<nat>): Bytes {
    if tag.Some? then Tag(WireType(t), tag.value) else []
  }

  // The loops of encode_array: a packed array has no tags between its values.
  method EncodeItems(stream: OStream, t: LType, tag: Option<nat>, items: seq<Value>) returns (ok: bool)
    requires (forall i :: 0 <= i < |items| ==> Typed(t, items[i])) && (tag.Some? ==> tag.value < WORD32) && TagsFit(t)
    requires stream.Valid() && |ItemsBytes(t, Before(t, tag), items)| < WORD64
    modifies stream
    ensures stream.Valid()
    ensures ok == (AllFit(t, items) && stream.Room(old(stream.bytesWritten), |ItemsBytes(t, Before(t, tag), items)|))
    ensures ok ==> stream.Grew(old(stream.data), old(stream.bytesWritten), ItemsBytes(t, Before(t, tag), items))
    decreases t, 3, 0
  {
    hide Typed, ValueBytes, Tag, WireType, Fits, ItemsBytes, Before, TagsFit;
    ghost var prefix := Before(t, tag);
    ghost var done: Bytes := [];
    assert items[0..] == items;
    for i := 0 to |items|
      invariant stream.Valid() && stream.Grew(old(stream.data), old(stream.bytesWritten), done)
      invariant stream.sizing || old(stream.bytesWritten) + |done| <= stream.maxSize
      invariant done + ItemsBytes(t, prefix, items[i..]) == ItemsBytes(t, prefix, items)
      invariant forall j :: 0 <= j < i ==> Fits(t, items[j])
    {
      ItemsStep(t, prefix, items, i);
      ghost var b := ValueBytes(t, items[i]);
      assert done + (prefix + b) + ItemsBytes(t, prefix, items[i + 1..]) == ItemsBytes(t, prefix, items);
      ok := EncodeItem(stream, t, tag, items[i]);
      if !ok {
        return;
      }
      GrewBy(stream, old(stream.data), old(stream.bytesWritten), done, prefix + b);
      done := done + (prefix + b);
    }
    ItemsStep(t, prefix, items, |items|);
    ok := true;
  }

  lemma ItemsStep(t: LType, prefix: Bytes, items: seq<Value>, i: nat)
    requires (forall k :: 0 <= k < |items| ==> Typed(t, items[k])) && i <= |items|
    ensures ItemsBytes(t, prefix, items[i..]) ==
      if i == |items| then [] else prefix + ValueBytes(t, items[i]) + ItemsBytes(t, prefix, items[i + 1..])
  {
    if i < |items| {
      assert items[i..][0] == items[i] && items[i..][1..] == items[i + 1..];
    }
  }

  method EncodeItem(stream: OStream, t: LType, tag: Option<nat>, v: Value) returns (ok: bool)
    requires Typed(t, v) && (tag.Some? ==> tag.value < WORD32) && TagsFit(t)
    requires stream.Valid() && |Before(t, tag) + ValueBytes(t, v)| < WORD64
    modifies stream
    ensures stream.Valid()
    ensures ok == (Fits(t, v) && stream.Room(old(stream.bytesWritten), |Before(t, tag) + ValueBytes(t, v)|))
    ensures ok ==> stream.Grew(old(stream.data), old(stream.bytesWritten), Before(t, tag) + ValueBytes(t, v))
    decreases t, 2, 1
  {
    hide Typed, ValueBytes, Tag, Fits;
    ok := true;
    if tag.Some? {
      ok := EncodeTag(stream, WireType(t), tag.value);
    }
    if ok {
      ok := EncodeValue(stream, t, v);
    }
  }

  // The field encoders, PB_ENCODERS.
  method EncodeValue(stream: OStream, t: LType, v: Value) returns (ok: bool)
    requires Typed(t, v) && TagsFit(t)
    requires stream.Valid() && |ValueBytes(t, v)| < WORD64
    modifies stream
    ensures stream.Valid() && ok == (Fits(t, v) && stream.Room(old(stream.bytesWritten), |ValueBytes(t, v)|))
    ensures ok ==> stream.Grew(old(stream.data), old(stream.bytesWritten), ValueBytes(t, v))
    decreases t, 2, 0
  {
    hide Varint, Fixed, TypedSlots, TagsFit;
    match t
    case VarintType(w) => ok := EncodeVarint(stream, ToUnsigned(v.n));
    case SVarintType(w) => ok := EncodeVarint(stream, ZigZag(v.n));
    case Fixed32Type => ok := stream.Write(Fixed(v.n, 4));
    case Fixed64Type => ok := stream.Write(Fixed(v.n, 8));
    case BytesType(capacity) =>
      if |v.bytes| > capacity {
        return false;
      }
      ok := EncodeString(stream, v.bytes);
    case StringType(n) => ok := EncodeString(stream, v.bytes);
    case FixedBytesType(n) => ok := EncodeString(stream, v.bytes);
    case MessageType(fields) => ok := EncodeSubmessage(stream, t, v.slots);
    case _ => ok := EncodeVarint(stream, v.n);
  }

  /** pb_encode_submessage: the size found by the first pass is the size of the second, so the
      check that they agree never fails. */
  method EncodeSubmessage(stream: OStream, t: LType, slots: Message) returns (ok: bool)
    requires t.MessageType? && TypedSlots(t, slots) && TagsFit(t)
    requires stream.Valid() && |Prefixed(FieldsBytes(t, slots, 0))| < WORD64
    modifies stream
    ensures stream.Valid()
    ensures ok == (FitsFrom(t, slots, 0) && stream.Room(old(stream.bytesWritten), |Prefixed(FieldsBytes(t, slots, 0))|))
    ensures ok ==> stream.Grew(old(stream.data), old(stream.bytesWritten), Prefixed(FieldsBytes(t, slots, 0)))
    decreases t, 1, 1
  {
    hide Varint, TypedSlots, TagsFit, FieldsBytes, FitsFrom;
    var substream := new OStream(true, [], 0);
    ok := Encode(substream, t, slots);
    if !ok {
      return;
    }
    var size := substream.bytesWritten;
    ok := EncodeVarint(stream, size);
    if !ok {
      return;
    }
    if stream.sizing {
      stream.Count(FieldsBytes(t, slots, 0), size);
    } else if stream.bytesWritten + size > stream.maxSize {
      ok := false;
    } else {
      substream := new OStream(false, stream.data, size);
      var status := Encode(substream, t, slots);
      stream.bytesWritten := stream.bytesWritten + substream.bytesWritten;
      stream.data := substream.data;
      assert status && substream.bytesWritten == size;
      ok := status && substream.bytesWritten == size;
    }
  }
}
