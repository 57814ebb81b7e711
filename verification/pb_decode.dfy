/** The decoder of nanopb (pb_decode.c): what it makes of any bytes, and the streams and loops
    that do it. */
module PbDecode {
  import opened Keys
  import opened Coding
  import opened PbCommon
  import opened PbEncode

  // ------------------------------------------------------------------ integers

  // (uint32_t)(byte & 0x7F) << bitpos
  function Shifted(b: Byte, bitpos: nat): nat {
    (b as nat % 128) * Power(2, bitpos) % WORD32
  }

  lemma ShiftedFits(b: Byte, bitpos: nat)
    ensures Shifted(b, bitpos) < WORD32 == Power(2, 32)
  {
    Power32();
  }

  // A byte above bit 31 must say nothing, or extend the sign of a negative number.
  predicate Overflows(b: Byte, result: nat, bitpos: nat) {
    b % 128 != 0 && (result / 0x8000_0000 == 0 || b != if bitpos < 63 then 0xFF else 0x01)
  }

  // pb_decode_varint32: the value and how many bytes it took.
  function Read32(s: Bytes): (r: Option<(nat, nat)>)
    ensures r.Some? ==> r.value.0 < WORD32 && 1 <= r.value.1 <= |s|
  {
    if |s| == 0 then None
    else if s[0] < 128 then Some((s[0] as nat, 1))
    else More32(s, 1, s[0] as nat - 128, 7)
  }

  // Bits of the fifth byte that lie above bit 31.
  predicate Spills(b: Byte) {
    b / 16 % 8 != 0
  }

  // From the byte at k on; bitpos is a uint_fast8_t.
  function More32(s: Bytes, k: nat, result: nat, bitpos: nat): (r: Option<(nat, nat)>)
    requires result < WORD32 && k <= |s|
    ensures r.Some? ==> r.value.0 < WORD32 && k < r.value.1 <= |s|
    decreases |s| - k
  {
    if k >= |s| || (bitpos >= 32 && Overflows(s[k], result, bitpos)) then None
    else
      ShiftedFits(s[k], bitpos);
      OrBelow(result, Shifted(s[k], bitpos), 32);
      var next := if bitpos >= 32 then result else Or(result, Shifted(s[k], bitpos));
      var after := (bitpos + 7) % 256;
      if s[k] >= 128 then More32(s, k + 1, next, after)
      else if after == 35 && Spills(s[k]) then None
      else Some((next, k + 1))
  }

  // pb_decode_svarint, on 64-bit words
  function UnZigZag(v: U64): (n: int)
    ensures InSigned(n, 8)
  {
    if v % 2 == 1 then Signed64(WORD64 - 1 - v / 2) else Signed64(v / 2)
  }

  // (int64_t)v
  function Signed64(v: U64): (n: int)
    ensures InSigned(n, 8)
  {
    if v >= 0x8000_0000_0000_0000 then v - WORD64 else v
  }

  // (int32_t)v
  function Signed32(v: nat): (n: int)
    ensures InSigned(n, 4)
  {
    var low := v % WORD32;
    if low >= 0x8000_0000 then low - WORD32 else low
  }

  /** Zig-zag numbers come back. */
  lemma ZigZagRoundTrip(n: int)
    requires InSigned(n, 8)
    ensures UnZigZag(ZigZag(n)) == n
  {
    ZigZagOrder(n);
  }

  // pb_decode_varint: ten bytes at most, cut to 64 bits.
  function Read64(s: Bytes): (r: Option<(U64, nat)>)
    ensures r.Some? ==> 1 <= r.value.1 <= |s|
  {
    Power64();
    match ReadVarint(s, 64)
    case None => None
    case Some(r) => Some((r.0, r.1))
  }

  // pb_dec_varint: narrow fields are first cut to 32 bits, then to their width, with a check.
  function SignedField(v: U64, width: Width): Option<int> {
    var n := if width == 8 then Signed64(v) else Signed32(v);
    if InSigned(n, width) then Some(n) else None
  }

  // ------------------------------------------------------------------ tags and lengths

  datatype TagRead = TagFailed | End | Key(wireType: nat, tag: nat, rest: Bytes)

  // pb_decode_tag: a zero ends the message.
  function ReadTag(s: Bytes): (r: TagRead)
    ensures r.Key? ==> |r.rest| < |s| && r.wireType < 8
  {
    if |s| == 0 then End
    else
      match Read32(s)
      case None => TagFailed
      case Some(r) => if r.0 == 0 then End else Key(r.0 % 8, r.0 / 8, s[r.1..])
  }

  // pb_make_string_substream: the length-prefixed bytes and what follows them.
  function ReadPrefixed(s: Bytes): (r: Read<Bytes>)
    ensures r.Got? ==> |r.rest| < |s| && |r.value| < |s|
  {
    match Read32(s)
    case None => Failed
    case Some(r) => if |s| - r.1 < r.0 then Failed else Got(s[r.1..][..r.0], s[r.1..][r.0..])
  }

  function SkipVarint(s: Bytes): (r: Option<Bytes>)
    ensures r.Some? ==> |r.value| < |s|
  {
    if |s| == 0 then None else if s[0] < 128 then Some(s[1..]) else SkipVarint(s[1..])
  }

  // pb_skip_field
  function SkipField(wireType: nat, s: Bytes): (r: Option<Bytes>)
    ensures r.Some? ==> |r.value| <= |s|
  {
    if wireType == WT_VARINT then SkipVarint(s)
    else if wireType == WT_64BIT then (if |s| < 8 then None else Some(s[8..]))
    else if wireType == WT_STRING then
      match ReadPrefixed(s)
      case Failed => None
      case Got(b, rest) => Some(rest)
    else if wireType == WT_32BIT then (if |s| < 4 then None else Some(s[4..]))
    else None
  }

  // What a reader of a zero-terminated string sees.
  function CString(b: Bytes): (r: Bytes)
    ensures r <= b && 0 !in r && (|r| < |b| ==> b[|r|] == 0)
  {
    if |b| == 0 || b[0] == 0 then [] else [b[0]] + CString(b[1..])
  }

  // ------------------------------------------------------------------ values and fields

  // Put the items of a field; in a union the other fields go.
  function Place(t: LType, slots: Message, i: nat, items: seq<Value>): (r: Message)
    requires t.MessageType? && TypedSlots(t, slots) && i < |slots|
    requires Arity(t.fields[i].rule, |items|) && forall j :: 0 <= j < |items| ==> Typed(t.fields[i].ltype, items[j])
    ensures TypedSlots(t, r)
  {
    seq(|slots|, k requires 0 <= k < |slots| =>
      if k == i then items
      else if t.fields[i].rule.OneOf? && t.fields[k].rule == t.fields[i].rule then []
      else slots[k])
  }

  // pb_field_iter_find, from anywhere: the field with this tag.
  function FieldIndex(fields: seq<Field>, tag: nat): (r: Option<nat>)
    ensures r.Some? ==> r.value < |fields| && fields[r.value].tag == tag
    ensures r.None? ==> forall i :: 0 <= i < |fields| ==> fields[i].tag != tag
  {
    if |fields| == 0 then None
    else if fields[|fields| - 1].tag == tag then Some(|fields| - 1)
    else FieldIndex(fields[..|fields| - 1], tag)
  }

  // The field decoders, PB_DECODERS; a message is decoded into what is there already.
  ghost function ReadValue(t: LType, s: Bytes, current: Value): (r: Read<Value>)
    requires Typed(t, current)
    ensures r.Got? ==> Typed(t, r.value) && |r.rest| < |s|
    decreases t, |s|, 1
  {
    match t
    case BoolType =>
      (match Read32(s)
       case None => Failed
       case Some(r) => Got(Num(if r.0 != 0 then 1 else 0), s[r.1..]))
    case VarintType(w) =>
      (match Read64(s)
       case None => Failed
       case Some(r) => var n := SignedField(r.0, w);
                       if n.Some? then Got(Num(n.value), s[r.1..]) else Failed)
    case UVarintType(w) =>
      (match Read64(s)
       case None => Failed
       case Some(r) => if InUnsigned(r.0, w) then Got(Num(r.0), s[r.1..]) else Failed)
    case SVarintType(w) =>
      (match Read64(s)
       case None => Failed
       case Some(r) => if InSigned(UnZigZag(r.0), w) then Got(Num(UnZigZag(r.0)), s[r.1..]) else Failed)
    case Fixed32Type => if |s| < 4 then Failed else FromFixedFits(s[..4]); Got(Num(FromFixed(s[..4])), s[4..])
    case Fixed64Type => if |s| < 8 then Failed else FromFixedFits(s[..8]); Got(Num(FromFixed(s[..8])), s[8..])
    case BytesType(capacity) =>
      (match Read32(s)
       case None => Failed
       case Some(r) => if r.0 > capacity || |s| - r.1 < r.0 then Failed else Got(Raw(s[r.1..][..r.0]), s[r.1..][r.0..]))
    case StringType(size) =>
      (match Read32(s)
       case None => Failed
       case Some(r) => if r.0 + 1 > size || |s| - r.1 < r.0 then Failed
         else Got(Raw(CString(s[r.1..][..r.0])), s[r.1..][r.0..]))
    case FixedBytesType(size) =>
      (match Read32(s)
       case None => Failed
       case Some(r) =>
         if r.0 == 0 then Got(Default(t), s[r.1..])
         else if r.0 != size || |s| - r.1 < size then Failed
         else Got(Raw(s[r.1..][..size]), s[r.1..][size..]))
    case MessageType(fields) =>
      (match ReadPrefixed(s)
       case Failed => Failed
       case Got(body, rest) =>
         var m := ReadMessage(t, body, current.slots, NoneSeen());
         if m.Some? then Got(Sub(m.value), rest) else Failed)
  }

  // decode_static_field
  ghost function ReadField(f: Field, wireType: nat, s: Bytes, slot: seq<Value>): (r: Read<seq<Value>>)
    requires Arity(f.rule, |slot|) && forall j :: 0 <= j < |slot| ==> Typed(f.ltype, slot[j])
    ensures r.Got? ==>
      Arity(f.rule, |r.value|) && (forall j :: 0 <= j < |r.value| ==> Typed(f.ltype, r.value[j])) && |r.rest| < |s|
    decreases f.ltype, |s|, 3
  {
    DefaultTyped(f.ltype);
    if !f.rule.Repeated? then
      match ReadValue(f.ltype, s, if |slot| > 0 then slot[0] else Default(f.ltype))
      case Failed => Failed
      case Got(v, rest) => Got([v], rest)
    else if wireType == WT_STRING && f.ltype.Packable() then
      match ReadPrefixed(s)
      case Failed => Failed
      case Got(body, rest) =>
        var items := ReadPacked(f.ltype, body, slot, f.rule.max);
        if items.Some? then Got(items.value, rest) else Failed
    else if |slot| >= f.rule.max then Failed
    else
      match ReadValue(f.ltype, s, Default(f.ltype))
      case Failed => Failed
      case Got(v, rest) => Got(slot + [v], rest)
  }

  // The values of a packed array; it must not have more than there is room for.
  ghost function ReadPacked(t: LType, s: Bytes, items: seq<Value>, max: nat): (r: Option<seq<Value>>)
    requires forall j :: 0 <= j < |items| ==> Typed(t, items[j])
    ensures r.Some? ==> forall j :: 0 <= j < |r.value| ==> Typed(t, r.value[j])
    decreases t, |s|, 2
  {
    if |s| == 0 then Some(items)
    else if |items| >= max then None
    else
      DefaultTyped(t);
      match ReadValue(t, s, Default(t))
      case Failed => None
      case Got(v, rest) => ReadPacked(t, rest, items + [v], max)
  }

  function NoneSeen(): (seen: seq<bool>)
    ensures |seen| == MAX_REQUIRED && forall k :: 0 <= k < |seen| ==> !seen[k]
  {
    seq(MAX_REQUIRED, k => false)
  }

  // fields_seen after field i
  function Mark(fields: seq<Field>, i: nat, seen: seq<bool>): (r: seq<bool>)
    requires i < |fields| && |seen| == MAX_REQUIRED
    ensures |r| == MAX_REQUIRED
  {
    var k := RequiredBefore(fields, i);
    if fields[i].rule.Required? && k < MAX_REQUIRED then seen[k := true] else seen
  }

  // The check of required fields; only the first 64 are tracked.
  ghost predicate AllSeen(fields: seq<Field>, seen: seq<bool>)
    requires |seen| == MAX_REQUIRED
  {
    forall k :: 0 <= k < RequiredBefore(fields, |fields|) && k < MAX_REQUIRED ==> seen[k]
  }

  // pb_decode_noinit: fields in any order, unknown ones skipped.
  ghost function ReadMessage(t: LType, s: Bytes, slots: Message, seen: seq<bool>): (r: Option<Message>)
    requires t.MessageType? && TypedSlots(t, slots) && |seen| == MAX_REQUIRED
    ensures r.Some? ==> TypedSlots(t, r.value)
    decreases t, |s|, 0
  {
    match ReadTag(s)
    case TagFailed => None
    case End => if AllSeen(t.fields, seen) then Some(slots) else None
    case Key(wireType, tag, rest) =>
      var i := FieldIndex(t.fields, tag);
      if |t.fields| == 0 && tag == 0 then
        match Read32(rest)
        case None => None
        case Some(r) => ReadMessage(t, rest[r.1..], slots, seen)
      else if i.None? then
        match SkipField(wireType, rest)
        case None => None
        case Some(after) => ReadMessage(t, after, slots, seen)
      else
        match ReadField(t.fields[i.value], wireType, rest, slots[i.value])
        case Failed => None
        case Got(items, after) =>
          ReadMessage(t, after, Place(t, slots, i.value, items), Mark(t.fields, i.value, seen))
  }

  // pb_decode
  ghost function ReadNew(t: LType, s: Bytes): (r: Option<Message>)
    requires t.MessageType?
    ensures r.Some? ==> TypedSlots(t, r.value)
  {
    DefaultTyped(t);
    ReadMessage(t, s, Defaults(t), NoneSeen())
  }

  lemma {:induction false} FromFixedFits(b: Bytes)
    requires |b| == 4 || |b| == 8
    ensures |b| == 4 ==> FromFixed(b) < WORD32
    ensures |b| == 8 ==> FromFixed(b) < WORD64
  {
    FromFixedBelow(b);
    assert Power(256, 2) == 65536;
    assert Power(256, 4) == 0x1_0000_0000;
    assert Power(256, 6) == 0x1_0000_0000_0000;
    assert Power(256, 8) == 0x1_0000_0000_0000_0000;
  }

  lemma {:induction false} FromFixedBelow(b: Bytes)
    ensures FromFixed(b) < Power(256, |b|)
  {
    if |b| > 0 {
      FromFixedBelow(b[1..]);
    }
  }

  // ------------------------------------------------------------------ input streams

  /** pb_istream_t over memory: a position and how much may be read. */
  class IStream {
    const buffer: Bytes
    var pos: nat
    var left: nat

    ghost predicate Valid()
      reads this
    {
      pos + left <= |buffer|
    }

    ghost function Rest(): (r: Bytes)
      requires Valid()
      reads this
      ensures |r| == left
    {
      buffer[pos..pos + left]
    }

    ghost function End(): nat
      reads this
    {
      pos + left
    }

    // pb_istream_from_buffer, and the copy that a substream is
    constructor (buffer: Bytes, pos: nat, left: nat)
      requires pos + left <= |buffer|
      ensures Valid() && this.buffer == buffer && this.pos == pos && this.left == left
    {
      this.buffer, this.pos, this.left := buffer, pos, left;
    }

    // pb_readbyte
    method ReadByte() returns (ok: bool, b: Byte)
      requires Valid()
      modifies this
      ensures Valid() && End() == old(End()) && ok == (old(left) > 0)
      ensures ok ==> b == old(Rest()[0]) && Rest() == old(Rest()[1..])
    {
      b := 0;
      ok := left > 0;
      if ok {
        b := buffer[pos];
        pos, left := pos + 1, left - 1;
      }
    }

    // pb_read; skipping is reading and looking away.
    method Read(n: nat) returns (ok: bool, b: Bytes)
      requires Valid()
      modifies this
      ensures Valid() && End() == old(End()) && ok == (n <= old(left))
      ensures ok ==> b == old(Rest()[..n]) && Rest() == old(Rest()[n..])
    {
      b := [];
      ok := n <= left;
      if ok {
        b := buffer[pos..pos + n];
        pos, left := pos + n, left - n;
      }
    }
  }

  /** pb_decode_varint32_eof */
  method DecodeVarint32(stream: IStream) returns (ok: bool, dest: nat, eof: bool)
    requires stream.Valid()
    modifies stream
    ensures stream.Valid() && stream.End() == old(stream.End())
    ensures ok == Read32(old(stream.Rest())).Some? && eof == (old(stream.left) == 0)
    ensures ok ==> Read32(old(stream.Rest())) == Some((dest, old(stream.left) - stream.left))
    ensures ok ==> stream.Rest() == old(stream.Rest())[old(stream.left) - stream.left..]
  {
    hide Or, Power;
    ghost var s := stream.Rest();
    var byte;
    ok, byte := stream.ReadByte();
    eof := !ok;
    dest := 0;
    if !ok {
      return;
    }
    dest := byte as nat % 128;
    var bitpos: nat := 7;
    if byte < 128 {
      return;
    }
    var more := true;
    while more
      invariant stream.Valid() && stream.End() == old(stream.End())
      invariant stream.left < |s| && stream.Rest() == s[|s| - stream.left..] && dest < WORD32
      invariant more ==> Read32(s) == More32(s, |s| - stream.left, dest, bitpos)
      invariant !more ==> Read32(s) == if bitpos == 35 && Spills(byte) then None else Some((dest, |s| - stream.left))
      decreases more, stream.left
    {
      ghost var k := |s| - stream.left;
      ok, byte := stream.ReadByte();
      if !ok {
        return;
      }
      assert byte == s[k];
      if bitpos >= 32 {
        if Overflows(byte, dest, bitpos) {
          return false, dest, eof;
        }
      } else {
        ShiftedFits(byte, bitpos);
        OrBelow(dest, Shifted(byte, bitpos), 32);
        dest := Or(dest, Shifted(byte, bitpos));
      }
      bitpos := (bitpos + 7) % 256;
      more := byte >= 128;
    }
    ok := !(bitpos == 35 && Spills(byte));
  }

  // (uint64_t)(byte & 0x7F) << bitpos
  function Shifted64(b: Byte, bitpos: nat): U64 {
    (b as nat % 128) * Power(2, bitpos) % WORD64
  }

  lemma Power63()
    ensures Power(2, 63) == 0x8000_0000_0000_0000
  {
    Power64();
    assert Power(2, 64) == 2 * Power(2, 63);
  }

  // A shift by 56 bits or less keeps all seven, above the bits there are.
  lemma LowShift(b: Byte, bitpos: nat, result: nat)
    requires bitpos <= 56 && result < Power(2, bitpos)
    ensures Or(result, Shifted64(b, bitpos))
      == result + (b as nat % 128) * Power(2, bitpos) < Power(2, bitpos + 7) < WORD64
  {
    Power63();
    PowerMonotone(bitpos + 7, 63);
    PowerSeven(bitpos + 7);
    OrApart(result, b as nat % 128, bitpos);
    hide Power, Or;
    Below128(b as nat % 128, Power(2, bitpos));
  }

  lemma Below128(c: nat, p: nat)
    requires c < 128 && 128 * p <= 0x8000_0000_0000_0000
    ensures c * p + p <= 128 * p && c * p % WORD64 == c * p
  {
    var x := c * p;
    assert x + p <= 128 * p;
  }

  // A shift by 63 bits keeps one.
  lemma TopShift(b: Byte, result: nat)
    requires result < Power(2, 63)
    ensures Or(result, Shifted64(b, 63)) == result + (b as nat % 2) * Power(2, 63) < WORD64
  {
    hide Power, Or, Shifted64;
    OrApart(result, b as nat % 2, 63);
    Power63();
    ShiftTop(b);
  }

  lemma ShiftTop(b: Byte)
    ensures Shifted64(b, 63) == b as nat % 2 * 0x8000_0000_0000_0000
  {
    hide Power;
    Power63();
    TopBit(b as nat % 128);
  }

  lemma TopBit(c: nat)
    ensures c * 0x8000_0000_0000_0000 % WORD64 == c % 2 * 0x8000_0000_0000_0000
  {
    assert c * 0x8000_0000_0000_0000 == (c / 2) * WORD64 + (c % 2) * 0x8000_0000_0000_0000;
  }

  // The value read so far, and what the bytes to come add.
  ghost function Joined(result: nat, bitpos: nat, taken: nat, r: Option<(nat, nat)>): Option<(nat, nat)> {
    if r.None? then None else Some((result + r.value.0 * Power(2, bitpos), taken + r.value.1))
  }

  lemma LastByte(s: Bytes, result: nat, bitpos: nat, taken: nat)
    requires |s| > 0 && s[0] < 128 && bitpos % 7 == 0 && bitpos < 64 && result < Power(2, bitpos)
    ensures Or(result, Shifted64(s[0], bitpos)) < WORD64
    ensures Joined(result, bitpos, taken, ReadVarint(s, 64 - bitpos))
      == Some((Or(result, Shifted64(s[0], bitpos)), taken + 1))
  {
    hide Power, Or, Shifted64, ReadVarint, Joined;
    LastRead(s, 64 - bitpos);
    JoinedOne(result, bitpos, taken, s[0] as nat % Power(2, 64 - bitpos));
    if bitpos == 63 {
      TopShift(s[0], result);
      OneBit(s[0] as nat);
    } else {
      LowShift(s[0], bitpos, result);
      EightBits(s[0] as nat, 64 - bitpos);
    }
  }

  lemma JoinedOne(result: nat, bitpos: nat, taken: nat, c: nat)
    ensures Joined(result, bitpos, taken, Some((c, 1))) == Some((result + c * Power(2, bitpos), taken + 1))
  {
    hide Power;
  }

  lemma LastRead(s: Bytes, bits: nat)
    requires |s| > 0 && s[0] < 128 && bits > 0
    ensures Power(2, bits) > 0 && ReadVarint(s, bits) == Some((s[0] as nat % Power(2, bits), 1))
  {
    PowerPositive(bits);
    hide Power;
  }

  lemma OneBit(c: nat)
    ensures Power(2, 1) == 2 && c % Power(2, 1) == c % 2
  {
    assert Power(2, 1) == 2 * Power(2, 0);
  }

  lemma EightBits(c: nat, bits: nat)
    requires c < 128 && bits >= 8
    ensures Power(2, bits) > 0 && c % Power(2, bits) == c
  {
    PowerPositive(bits);
    PowerMonotone(8, bits);
    assert Power(2, 8) == 256 by { PowerSeven(8); }
    hide Power;
    SmallRemainder(c, Power(2, bits));
  }

  lemma MoreBytes(s: Bytes, result: nat, bitpos: nat, taken: nat)
    requires |s| > 0 && s[0] >= 128 && bitpos % 7 == 0 && bitpos < 64 && result < Power(2, bitpos)
    ensures var next := Or(result, Shifted64(s[0], bitpos));
      && next < WORD64 && (bitpos + 7 < 64 ==> next < Power(2, bitpos + 7))
      && Joined(result, bitpos, taken, ReadVarint(s, 64 - bitpos))
         == if bitpos + 7 >= 64 then None
           else Joined(next, bitpos + 7, taken + 1, ReadVarint(s[1..], 64 - (bitpos + 7)))
  {
    if bitpos == 63 {
      TopShift(s[0], result);
    } else {
      LowShift(s[0], bitpos, result);
      OneMore(s, bitpos);
      JoinMore(result, bitpos, taken, s[0] as nat % 128, ReadVarint(s[1..], 64 - (bitpos + 7)));
      hide *;
    }
  }

  // The next seven bits move from the bytes to come into the value read so far.
  lemma JoinMore(result: nat, bitpos: nat, taken: nat, c: nat, r: Option<(nat, nat)>)
    ensures Joined(result + c * Power(2, bitpos), bitpos + 7, taken + 1, r)
         == Joined(result, bitpos, taken, if r.None? then None else Some((c + 128 * r.value.0, r.value.1 + 1)))
  {
    PowerSeven(bitpos + 7);
    hide Power;
    if r.Some? {
      Regroup(c, r.value.0, Power(2, bitpos));
    }
  }

  lemma Regroup(c: nat, v: nat, p: nat)
    ensures (c + 128 * v) * p == c * p + v * (128 * p)
  {
  }

  // Nothing is cut off below the last of the ten bytes.
  lemma OneMore(s: Bytes, bitpos: nat)
    requires |s| > 0 && s[0] >= 128 && bitpos <= 56
    ensures ReadVarint(s, 64 - bitpos) == match ReadVarint(s[1..], 64 - (bitpos + 7))
                                           case None => None
                                           case Some(r) => Some((s[0] as nat % 128 + 128 * r.0, r.1 + 1))
  {
    var bits := 64 - bitpos;
    PowerSeven(bits);
    var r := ReadVarint(s[1..], bits - 7);
    if r.Some? {
      hide Power;
      SmallRemainder(s[0] as nat - 128 + 128 * r.value.0, Power(2, bits));
    }
  }

  /** pb_decode_varint */
  method DecodeVarint(stream: IStream) returns (ok: bool, dest: U64)
    requires stream.Valid()
    modifies stream
    ensures stream.Valid() && stream.End() == old(stream.End())
    ensures ok == Read64(old(stream.Rest())).Some?
    ensures ok ==> Read64(old(stream.Rest())) == Some((dest, old(stream.left) - stream.left))
    ensures ok ==> stream.Rest() == old(stream.Rest())[old(stream.left) - stream.left..]
  {
    hide Or, Power, ReadVarint, Reading, Shifted64, IStream.Rest;
    ghost var s := stream.Rest();
    ReadingStarts(s);
    var bitpos: nat, result: U64 := 0, 0;
    var more := true;
    dest := 0;
    while more
      invariant stream.Valid() && stream.End() == old(stream.End())
      invariant stream.left <= |s| && stream.Rest() == s[|s| - stream.left..]
      invariant Reading(s, result, bitpos, stream.left, more)
      decreases more, stream.left
    {
      ReadingEnds(s, result, bitpos, stream.left, more);
      if bitpos >= 64 {
        return false, dest;
      }
      ghost var left := stream.left;
      var byte;
      ok, byte := stream.ReadByte();
      if !ok {
        return;
      }
      ReadingStep(s, result, bitpos, left);
      result := Or(result, Shifted64(byte, bitpos));
      bitpos := bitpos + 7;
      more := byte >= 128;
    }
    ReadingEnds(s, result, bitpos, stream.left, more);
    dest := result;
    ok := true;
  }

  // Where the loop stands: what has been read, and what the bytes to come make of it.
  ghost predicate Reading(s: Bytes, result: nat, bitpos: nat, left: nat, more: bool) {
    && left <= |s| && bitpos % 7 == 0 && (more && bitpos < 64 ==> result < Power(2, bitpos))
    && ReadVarint(s, 64)
       == if !more then Some((result, |s| - left))
          else if bitpos >= 64 then None
          else Joined(result, bitpos, |s| - left, ReadVarint(s[|s| - left..], 64 - bitpos))
  }

  lemma ReadingStarts(s: Bytes)
    ensures Reading(s, 0, 0, |s|, true)
  {
    assert Power(2, 0) == 1 && s[0..] == s;
    hide Power, ReadVarint;
  }

  lemma ReadingStep(s: Bytes, result: nat, bitpos: nat, left: nat)
    requires Reading(s, result, bitpos, left, true) && bitpos < 64 && 0 < left <= |s|
    ensures var byte := s[|s| - left]; var next := Or(result, Shifted64(byte, bitpos));
      next < WORD64 && Reading(s, next, bitpos + 7, left - 1, byte >= 128)
  {
    hide Or, Power, ReadVarint, Shifted64, Joined;
    var rest := s[|s| - left..];
    assert rest[0] == s[|s| - left] && rest[1..] == s[|s| - (left - 1)..];
    if rest[0] < 128 {
      LastByte(rest, result, bitpos, |s| - left);
    } else {
      MoreBytes(rest, result, bitpos, |s| - left);
    }
  }

  lemma ReadingEnds(s: Bytes, result: nat, bitpos: nat, left: nat, more: bool)
    requires Reading(s, result, bitpos, left, more)
    ensures !more ==> ReadVarint(s, 64) == Some((result, |s| - left))
    ensures more && (bitpos >= 64 || left == 0) ==> ReadVarint(s, 64).None?
  {
    hide Power;
    if more && bitpos < 64 && left == 0 {
      NothingThere(s[|s|..], 64 - bitpos);
    }
    hide ReadVarint;
  }

  lemma NothingThere(s: Bytes, bits: int)
    requires |s| == 0
    ensures ReadVarint(s, bits).None?
  {
  }

  // ------------------------------------------------------------------ tags, lengths, unknown fields

  // pb_decode_tag
  method DecodeTag(stream: IStream) returns (ok: bool, wireType: nat, tag: nat, eof: bool)
    requires stream.Valid()
    modifies stream
    ensures stream.Valid() && stream.End() == old(stream.End()) && wireType < 8
    ensures ok == ReadTag(old(stream.Rest())).Key?
    ensures !ok ==> eof == (ReadTag(old(stream.Rest())) == End)
    ensures ok ==> ReadTag(old(stream.Rest())) == Key(wireType, tag, stream.Rest())
  {
    hide Read32;
    wireType, tag := 0, 0;
    var temp;
    ok, temp, eof := DecodeVarint32(stream);
    if ok {
      if temp == 0 {
        return false, 0, 0, true;
      }
      tag, wireType := temp / 8, temp % 8;
    }
  }

  // pb_skip_varint
  method SkipVarintBytes(stream: IStream) returns (ok: bool)
    requires stream.Valid()
    modifies stream
    ensures stream.Valid() && stream.End() == old(stream.End()) && ok == SkipVarint(old(stream.Rest())).Some?
    ensures ok ==> SkipVarint(old(stream.Rest())) == Some(stream.Rest())
  {
    ghost var s := stream.Rest();
    var more := true;
    while more
      invariant stream.Valid() && stream.End() == old(stream.End())
      invariant more ==> SkipVarint(s) == SkipVarint(stream.Rest())
      invariant !more ==> SkipVarint(s) == Some(stream.Rest())
      decreases more, stream.left
    {
      var b;
      ok, b := stream.ReadByte();
      if !ok {
        return;
      }
      more := b >= 128;
    }
    ok := true;
  }

  /** pb_make_string_substream: the parent stays where it is, with what follows the substream
      left to read. */
  method MakeSubstream(stream: IStream) returns (ok: bool, substream: IStream)
    requires stream.Valid()
    modifies stream
    ensures stream.Valid() && fresh(substream) && substream.Valid() && substream.buffer == stream.buffer
    ensures ok == ReadPrefixed(old(stream.Rest())).Got?
    ensures !ok ==> stream.End() == old(stream.End())
    ensures ok ==> var r := ReadPrefixed(old(stream.Rest()));
      && substream.Rest() == r.value && substream.End() + stream.left == old(stream.End())
      && stream.buffer[substream.End()..substream.End() + stream.left] == r.rest
  {
    hide Read32;
    var size, eof;
    ok, size, eof := DecodeVarint32(stream);
    substream := new IStream(stream.buffer, stream.pos, stream.left);
    if ok {
      if substream.left < size {
        return false, substream;
      }
      SplitRange(stream.buffer, stream.pos, stream.left, size);
      substream.left := size;
      stream.left := stream.left - size;
    }
  }

  lemma SplitRange(b: Bytes, p: nat, left: nat, n: nat)
    requires p + left <= |b| && n <= left
    ensures b[p..p + left][..n] == b[p..p + n] && b[p..p + left][n..] == b[p + n..p + left]
  {
  }

  // pb_close_string_substream
  method CloseSubstream(stream: IStream, substream: IStream)
    requires stream != substream && substream.Valid() && substream.buffer == stream.buffer
    requires substream.End() + stream.left <= |stream.buffer|
    modifies stream, substream
    ensures stream.Valid() && stream.left == old(stream.left) && stream.pos == old(substream.End())
  {
    if substream.left > 0 {
      var ok, b := substream.Read(substream.left);
      assert ok;
    }
    stream.pos := substream.pos;
  }

  // pb_skip_field, with pb_skip_string
  method SkipFieldBytes(stream: IStream, wireType: nat) returns (ok: bool)
    requires stream.Valid()
    modifies stream
    ensures stream.Valid() && stream.End() == old(stream.End()) && ok == SkipField(wireType, old(stream.Rest())).Some?
    ensures ok ==> SkipField(wireType, old(stream.Rest())) == Some(stream.Rest())
  {
    hide Read32, SkipVarint;
    var b;
    if wireType == WT_VARINT {
      ok := SkipVarintBytes(stream);
    } else if wireType == WT_64BIT {
      ok, b := stream.Read(8);
    } else if wireType == WT_STRING {
      var length, eof;
      ok, length, eof := DecodeVarint32(stream);
      if ok {
        ok, b := stream.Read(length);
      }
    } else if wireType == WT_32BIT {
      ok, b := stream.Read(4);
    } else {
      ok := false;
    }
  }

  // ------------------------------------------------------------------ the decoder

  // The field decoders of numbers, PB_DECODERS up to PB_LTYPE_LAST_PACKABLE.
  method DecodeNumber(stream: IStream, t: LType) returns (ok: bool, dest: Value)
    requires stream.Valid() && t.Packable()
    modifies stream
    ensures stream.Valid() && stream.End() == old(stream.End())
    ensures Typed(t, Default(t)) && ok == ReadValue(t, old(stream.Rest()), Default(t)).Got?
    ensures ok ==> ReadValue(t, old(stream.Rest()), Default(t)) == Got(dest, stream.Rest())
  {
    hide Read32, Read64;
    dest := Num(0);
    match t
    case BoolType =>
      var v, eof;
      ok, v, eof := DecodeVarint32(stream);
      dest := Num(if v != 0 then 1 else 0);
    case VarintType(w) =>
      var v;
      ok, v := DecodeVarint(stream);
      if ok {
        var n := if w == 8 then Signed64(v) else Signed32(v);
        dest, ok := Num(n), InSigned(n, w);
      }
    case UVarintType(w) =>
      var v;
      ok, v := DecodeVarint(stream);
      dest, ok := Num(v), ok && InUnsigned(v, w);
    case SVarintType(w) =>
      var v;
      ok, v := DecodeVarint(stream);
      dest, ok := Num(UnZigZag(v)), ok && InSigned(UnZigZag(v), w);
    case Fixed32Type =>
      var b;
      ok, b := stream.Read(4);
      dest := Num(FromFixed(b));
    case Fixed64Type =>
      var b;
      ok, b := stream.Read(8);
      dest := Num(FromFixed(b));
  }

  // pb_dec_bytes, pb_dec_string and pb_dec_fixed_length_bytes
  method DecodeBytes(stream: IStream, t: LType) returns (ok: bool, dest: Value)
    requires stream.Valid() && !t.Packable() && !t.MessageType?
    modifies stream
    ensures stream.Valid() && stream.End() == old(stream.End())
    ensures Typed(t, Default(t)) && ok == ReadValue(t, old(stream.Rest()), Default(t)).Got?
    ensures ok ==> ReadValue(t, old(stream.Rest()), Default(t)) == Got(dest, stream.Rest())
  {
    hide Read32;
    var size, eof, b;
    ok, size, eof := DecodeVarint32(stream);
    dest := Raw([]);
    if ok {
      match t
      case BytesType(capacity) =>
        if size > capacity {
          return false, dest;
        }
        ok, b := stream.Read(size);
        dest := Raw(b);
      case StringType(room) =>
        if size + 1 > room {
          return false, dest;
        }
        ok, b := stream.Read(size);
        dest := Raw(CString(b));
      case FixedBytesType(room) =>
        if size == 0 {
          return true, Default(t);
        }
        if size != room {
          return false, dest;
        }
        ok, b := stream.Read(room);
        dest := Raw(b);
    }
  }

  // The packed branch of decode_static_field, on its substream.
  method DecodePacked(substream: IStream, t: LType, slot: seq<Value>, max: nat) returns (ok: bool, items: seq<Value>)
    requires substream.Valid() && t.Packable() && forall j :: 0 <= j < |slot| ==> Typed(t, slot[j])
    modifies substream
    ensures substream.Valid() && substream.End() == old(substream.End())
    ensures ok == ReadPacked(t, old(substream.Rest()), slot, max).Some?
    ensures ok ==> ReadPacked(t, old(substream.Rest()), slot, max) == Some(items)
  {
    hide Typed, ReadValue;
    ghost var s := substream.Rest();
    items := slot;
    while substream.left > 0 && |items| < max
      invariant substream.Valid() && substream.End() == old(substream.End())
      invariant forall j :: 0 <= j < |items| ==> Typed(t, items[j])
      invariant ReadPacked(t, s, slot, max) == ReadPacked(t, substream.Rest(), items, max)
      decreases substream.left
    {
      var item;
      ok, item := DecodeNumber(substream, t);
      if !ok {
        return;
      }
      items := items + [item];
    }
    ok := substream.left == 0;
  }

  // Only a submessage depends on what is there.
  lemma CurrentMatters(t: LType, s: Bytes, a: Value, b: Value)
    requires Typed(t, a) && Typed(t, b) && !t.MessageType?
    ensures ReadValue(t, s, a) == ReadValue(t, s, b)
  {
  }

  method DecodeValue(stream: IStream, t: LType, current: Value) returns (ok: bool, dest: Value)
    requires stream.Valid() && Typed(t, current) && WellFormed(t)
    modifies stream
    ensures stream.Valid() && stream.End() == old(stream.End())
    ensures ok == ReadValue(t, old(stream.Rest()), current).Got?
    ensures ok ==> ReadValue(t, old(stream.Rest()), current) == Got(dest, stream.Rest())
    decreases t, 1
  {
    if t.Packable() {
      ok, dest := DecodeNumber(stream, t);
      CurrentMatters(t, old(stream.Rest()), current, Default(t));
    } else if t.MessageType? {
      ok, dest := DecodeSubmessage(stream, t, current);
    } else {
      ok, dest := DecodeBytes(stream, t);
      CurrentMatters(t, old(stream.Rest()), current, Default(t));
    }
  }

  // pb_dec_submessage: a new array entry comes with its defaults set.
  method DecodeSubmessage(stream: IStream, t: LType, current: Value) returns (ok: bool, dest: Value)
    requires stream.Valid() && t.MessageType? && Typed(t, current) && WellFormed(t)
    modifies stream
    ensures stream.Valid() && stream.End() == old(stream.End())
    ensures ok == ReadValue(t, old(stream.Rest()), current).Got?
    ensures ok ==> ReadValue(t, old(stream.Rest()), current) == Got(dest, stream.Rest())
    decreases t, 0, 2
  {
    hide ReadPrefixed, ReadMessage, TypedSlots, WellFormed;
    var substream;
    ok, substream := MakeSubstream(stream);
    dest := current;
    if ok {
      var m;
      ok, m := DecodeMessage(substream, t, current.slots);
      dest := Sub(m);
      CloseSubstream(stream, substream);
    }
  }

  // decode_static_field
  method DecodeField(stream: IStream, wireType: nat, f: Field, slot: seq<Value>) returns (ok: bool, items: seq<Value>)
    requires stream.Valid() && WellFormed(f.ltype)
    requires Arity(f.rule, |slot|) && forall j :: 0 <= j < |slot| ==> Typed(f.ltype, slot[j])
    modifies stream
    ensures stream.Valid() && stream.End() == old(stream.End())
    ensures ok == ReadField(f, wireType, old(stream.Rest()), slot).Got?
    ensures ok ==> ReadField(f, wireType, old(stream.Rest()), slot) == Got(items, stream.Rest())
    decreases f.ltype, 2
  {
    hide ReadPrefixed, ReadValue, ReadPacked, Typed, WellFormed;
    DefaultTyped(f.ltype);
    var v;
    items := slot;
    if !f.rule.Repeated? {
      ok, v := DecodeValue(stream, f.ltype, if |slot| > 0 then slot[0] else Default(f.ltype));
      items := [v];
    } else if wireType == WT_STRING && f.ltype.Packable() {
      var substream;
      ok, substream := MakeSubstream(stream);
      if ok {
        ok, items := DecodePacked(substream, f.ltype, slot, f.rule.max);
        CloseSubstream(stream, substream);
      }
    } else {
      if |slot| >= f.rule.max {
        return false, items;
      }
      ok, v := DecodeValue(stream, f.ltype, Default(f.ltype));
      items := slot + [v];
    }
  }

  // The walk to the last field at the end of pb_decode_noinit.
  method CountRequired(iter: FieldIter) returns (n: nat)
    requires iter.Valid()
    modifies iter
    ensures iter.Valid() && n == RequiredBefore(iter.fields, |iter.fields|)
  {
    n := 0;
    var last := false;
    var more := |iter.fields| > 0;
    while more
      invariant iter.Valid() && (more ==> |iter.fields| > 0)
      invariant !more ==> RequiredBefore(iter.fields, |iter.fields|) == n + if last then 1 else 0
      decreases more, |iter.fields| - iter.pos
    {
      n := iter.requiredIndex;
      last := iter.fields[iter.pos].rule.Required?;
      more := iter.Next();
    }
    if last {
      n := n + 1;
    }
  }

  // The check that all required fields were seen, of those that are tracked.
  method CheckRequired(fields: seq<Field>, n: nat, seen: seq<bool>) returns (ok: bool)
    requires |seen| == MAX_REQUIRED && n == RequiredBefore(fields, |fields|)
    ensures ok == AllSeen(fields, seen)
  {
    var count := if n > MAX_REQUIRED then MAX_REQUIRED else n;
    for i := 0 to count
      invariant forall k :: 0 <= k < i ==> seen[k]
    {
      if !seen[i] {
        return false;
      }
    }
    ok := true;
  }

  lemma SameField(t: LType, tag: nat, pos: nat)
    requires t.MessageType? && WellFormed(t) && pos < |t.fields| && t.fields[pos].tag == tag
    ensures FieldIndex(t.fields, tag) == Some(pos) && WellFormed(t.fields[pos].ltype)
  {
  }

  // What is left to do after the fields read so far.
  ghost function Remaining(t: LType, s: Bytes, slots: Message, seen: seq<bool>, ended: bool): Option<Message>
    requires t.MessageType? && TypedSlots(t, slots) && |seen| == MAX_REQUIRED
  {
    if ended then (if AllSeen(t.fields, seen) then Some(slots) else None) else ReadMessage(t, s, slots, seen)
  }

  /** pb_decode_noinit */
  method DecodeMessage(stream: IStream, t: LType, dest: Message) returns (ok: bool, r: Message)
    requires stream.Valid() && t.MessageType? && TypedSlots(t, dest) && WellFormed(t)
    modifies stream
    ensures stream.Valid() && stream.End() == old(stream.End())
    ensures ok == ReadMessage(t, old(stream.Rest()), dest, NoneSeen()).Some?
    ensures ok ==> ReadMessage(t, old(stream.Rest()), dest, NoneSeen()) == Some(r)
    decreases t, 0, 1
  {
    hide WellFormed, TypedSlots, ReadMessage, AllSeen;
    ghost var s := stream.Rest();
    var iter := new FieldIter(t.fields);
    var seen, ended := NoneSeen(), false;
    r := dest;
    while stream.left > 0 && !ended
      invariant stream.Valid() && stream.End() == old(stream.End()) && iter.Valid() && iter.fields == t.fields
      invariant fresh(iter)
      invariant TypedSlots(t, r) && |seen| == MAX_REQUIRED
      invariant ReadMessage(t, s, dest, NoneSeen()) == Remaining(t, stream.Rest(), r, seen, ended)
      decreases !ended, stream.left
    {
      ok, r, seen, ended := DecodeNext(stream, iter, t, r, seen);
      if !ok {
        return;
      }
    }
    if stream.left == 0 && !ended {
      EndOfBytes(t, stream.Rest(), r, seen);
    }
    var n := CountRequired(iter);
    ok := CheckRequired(t.fields, n, seen);
  }

  lemma EndOfBytes(t: LType, s: Bytes, slots: Message, seen: seq<bool>)
    requires t.MessageType? && TypedSlots(t, slots) && |seen| == MAX_REQUIRED && |s| == 0
    ensures ReadMessage(t, s, slots, seen) == Remaining(t, s, slots, seen, true)
  {
  }

  // One round of the loop of pb_decode_noinit: a tag and what it announces.
  method DecodeNext(stream: IStream, iter: FieldIter, t: LType, slots: Message, seen: seq<bool>)
    returns (ok: bool, slots': Message, seen': seq<bool>, ended: bool)
    requires stream.Valid() && stream.left > 0 && iter.Valid() && iter as object != stream as object
    requires t.MessageType? && TypedSlots(t, slots) && WellFormed(t) && |seen| == MAX_REQUIRED
    requires iter.fields == t.fields
    modifies stream, iter
    ensures stream.Valid() && stream.End() == old(stream.End()) && iter.Valid()
    ensures !ok ==> ReadMessage(t, old(stream.Rest()), slots, seen).None?
    ensures TypedSlots(t, slots') && |seen'| == MAX_REQUIRED
    ensures ok ==> ReadMessage(t, old(stream.Rest()), slots, seen) == Remaining(t, stream.Rest(), slots', seen', ended)
    ensures ok && !ended ==> stream.left < old(stream.left)
    decreases t, 0, 0
  {
    hide WellFormed, ReadTag, SkipField, ReadField, Typed;
    slots', seen', ended := slots, seen, false;
    var wireType, tag;
    ok, wireType, tag, ended := DecodeTag(stream);
    if !ok {
      ok := ended;
      return;
    }
    ended := false;
    ghost var rest := stream.Rest();
    var found := iter.Find(tag);
    if !found {
      ok := SkipFieldBytes(stream, wireType);
    } else if |t.fields| == 0 {
      var b, eof;
      ok, b, eof := DecodeVarint32(stream);
    } else {
      SameField(t, tag, iter.pos);
      var f := t.fields[iter.pos];
      if f.rule.Required? && iter.requiredIndex < MAX_REQUIRED {
        seen' := seen[iter.requiredIndex := true];
      }
      var items;
      ok, items := DecodeField(stream, wireType, f, slots[iter.pos]);
      if ok {
        slots' := Place(t, slots, iter.pos, items);
      }
    }
  }

  /** pb_decode: whatever the bytes, the result is what ReadNew says. */
  method Decode(stream: IStream, t: LType) returns (ok: bool, r: Message)
    requires stream.Valid() && t.MessageType? && WellFormed(t)
    modifies stream
    ensures stream.Valid() && ok == ReadNew(t, old(stream.Rest())).Some?
    ensures ok ==> ReadNew(t, old(stream.Rest())) == Some(r)
  {
    DefaultTyped(t);
    ok, r := DecodeMessage(stream, t, Defaults(t));
  }
}
