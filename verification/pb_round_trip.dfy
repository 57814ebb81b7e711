/** Decoding what was encoded. */
module PbRoundTrip {
  import opened Keys
  import opened Coding
  import opened PbCommon
  import opened PbEncode
  import opened PbDecode

  // ------------------------------------------------------------------ integers

  // w << bitpos, unbounded
  function Scaled(w: nat, bitpos: nat): nat {
    w * Power(2, bitpos)
  }

  // A byte below bit 32 adds its seven bits.
  lemma MoreStep(s: Bytes, k: nat, result: nat, bitpos: nat, low: nat)
    requires k < |s| && s[k] as nat % 128 == low && bitpos < 32 && (bitpos == 28 && s[k] < 128 ==> low < 16)
    requires result < Power(2, bitpos) && result + Scaled(low, bitpos) < WORD32
    ensures More32(s, k, result, bitpos) == if s[k] < 128 then Some((result + Scaled(low, bitpos), k + 1))
                                            else More32(s, k + 1, result + Scaled(low, bitpos), bitpos + 7)
  {
    hide Power, Or, Scaled, Shifted, Spills, More32;
    OrScaled(result, s[k], bitpos);
    BelowPower(result, bitpos);
    More32Once(s, k, result, bitpos);
    HighBits(s[k]);
  }

  lemma BelowPower(result: nat, bitpos: nat)
    requires result < Power(2, bitpos) && bitpos < 32
    ensures result < WORD32
  {
    PowerMonotone(bitpos, 32);
    hide Power;
    Power32();
  }

  lemma HighBits(b: Byte)
    ensures b as nat % 128 < 16 ==> !Spills(b)
  {
    if b < 128 {
      assert b as nat % 128 == b as nat;
    } else {
      assert b as nat % 128 == b as nat - 128;
    }
  }

  lemma More32Once(s: Bytes, k: nat, result: nat, bitpos: nat)
    requires k < |s| && result < WORD32 && bitpos < 32
    ensures Or(result, Shifted(s[k], bitpos)) < WORD32
    ensures More32(s, k, result, bitpos) ==
      if s[k] >= 128 then More32(s, k + 1, Or(result, Shifted(s[k], bitpos)), bitpos + 7)
      else if bitpos == 28 && Spills(s[k]) then None else Some((Or(result, Shifted(s[k], bitpos)), k + 1))
  {
    hide Power, Or, Shifted, Spills;
    ShiftedFits(s[k], bitpos);
    OrBelow(result, Shifted(s[k], bitpos), 32);
  }

  lemma OrScaled(result: nat, b: Byte, bitpos: nat)
    requires result < Power(2, bitpos) && result + Scaled(b as nat % 128, bitpos) < WORD32
    ensures Or(result, Shifted(b, bitpos)) == result + Scaled(b as nat % 128, bitpos)
  {
    OrApart(result, b as nat % 128, bitpos);
    hide Power, Or;
    SmallRemainder(Scaled(b as nat % 128, bitpos), WORD32);
  }

  lemma {:induction false} More32Of(s: Bytes, k: nat, result: nat, bitpos: nat, w: nat, rest: Bytes)
    requires k <= |s| && s[k..] == Varint(w) + rest && (bitpos == 7 || bitpos == 14 || bitpos == 21 || bitpos == 28)
    requires result < Power(2, bitpos) && result + Scaled(w, bitpos) < WORD32
    ensures More32(s, k, result, bitpos) == Some((result + Scaled(w, bitpos), k + |Varint(w)|))
    decreases w
  {
    hide Power, Varint, More32, Scaled;
    VarintStarts(w, rest);
    assert s[k] == s[k..][0] && s[k + 1..] == s[k..][1..];
    if w < 128 {
      LastFits(bitpos, w);
      MoreStep(s, k, result, bitpos, w);
    } else {
      NextBits(result, bitpos, w % 128, w / 128, w);
      MoreStep(s, k, result, bitpos, w % 128);
      More32Of(s, k + 1, result + Scaled(w % 128, bitpos), bitpos + 7, w / 128, rest);
    }
  }

  lemma LastFits(bitpos: nat, w: nat)
    requires Scaled(w, bitpos) < WORD32
    ensures bitpos == 28 ==> w < 16
  {
    SmallPowers(28);
  }

  lemma NextBits(result: nat, bitpos: nat, low: nat, high: nat, w: nat)
    requires bitpos == 7 || bitpos == 14 || bitpos == 21 || bitpos == 28
    requires result < Power(2, bitpos) && result + Scaled(w, bitpos) < WORD32
    requires low < 128 && high >= 1 && w == low + 128 * high
    ensures bitpos < 28 && result + Scaled(low, bitpos) < Power(2, bitpos + 7)
    ensures Scaled(low, bitpos) + Scaled(high, bitpos + 7) == Scaled(w, bitpos)
  {
    SmallPowers(bitpos);
    PowerSeven(bitpos + 7);
    hide Power;
    Digits(w, low, high, Power(2, bitpos));
  }

  lemma Digits(w: nat, low: nat, high: nat, p: nat)
    requires low < 128 && high >= 1 && w == low + 128 * high
    ensures w * p == low * p + high * (128 * p)
    ensures low * p <= 127 * p && high * (128 * p) >= 128 * p
  {
  }

  lemma VarintStarts(w: nat, rest: Bytes)
    ensures w < 128 ==> Varint(w) == [w as Byte]
    ensures w >= 128 ==>
      (Varint(w) + rest)[0] as nat == w % 128 + 128 && (Varint(w) + rest)[1..] == Varint(w / 128) + rest
                         && |Varint(w)| == 1 + |Varint(w / 128)|
  {
    if w >= 128 {
      var tail := Varint(w / 128);
      assert Varint(w) == [(w % 128 + 128) as Byte] + tail;
      hide Varint;
      assert ([(w % 128 + 128) as Byte] + tail) + rest == [(w % 128 + 128) as Byte] + (tail + rest);
    }
  }

  lemma SmallPowers(bitpos: nat)
    requires bitpos == 7 || bitpos == 14 || bitpos == 21 || bitpos == 28
    ensures Power(2, 7) == 0x80 && Power(2, 14) == 0x4000 && Power(2, 21) == 0x20_0000 && Power(2, 28) == 0x1000_0000
  {
    PowerSeven(7);
    PowerSeven(14);
    PowerSeven(21);
    PowerSeven(28);
  }

  /** pb_decode_varint32 reads back what pb_encode_varint wrote. */
  lemma Read32Of(v: nat, rest: Bytes)
    requires v < WORD32
    ensures Read32(Varint(v) + rest) == Some((v, |Varint(v)|))
  {
    var s := Varint(v) + rest;
    if v < 128 {
      assert Varint(v) == [v as Byte];
    } else {
      assert Varint(v) == [(v % 128 + 128) as Byte] + Varint(v / 128);
      assert s[1..] == Varint(v / 128) + rest;
      SmallPowers(7);
      assert v % 128 + Scaled(v / 128, 7) == v;
      More32Of(s, 1, v % 128, 7, v / 128, rest);
    }
  }

  /** pb_decode_varint reads back what pb_encode_varint wrote, for every 64-bit value. */
  lemma Read64Of(v: U64, rest: Bytes)
    ensures Read64(Varint(v) + rest) == Some((v, |Varint(v)|))
  {
    Power64();
    VarintRoundTrip(v, rest, 64);
  }

  // A negative number is sent as 64 bits, whatever its width.
  lemma SignedRoundTrip(n: int, width: Width)
    requires InSigned(n, width)
    ensures SignedField(ToUnsigned(n), width) == Some(n)
  {
    if n < 0 && width != 8 {
      LowWord(n);
    }
  }

  // The low 32 bits of a small negative number.
  lemma LowWord(n: int)
    requires -0x8000_0000 <= n < 0
    ensures (n + WORD64) % WORD32 == n + WORD32
  {
    var v := n + WORD64;
    assert v == 0xFFFF_FFFF * WORD32 + (n + WORD32);
  }

  lemma ReadTagOf(wireType: nat, tag: nat, rest: Bytes)
    requires wireType < 8 && 1 <= tag < 0x2000_0000
    ensures ReadTag(Tag(wireType, tag) + rest) == Key(wireType, tag, rest)
  {
    hide Varint, Read32;
    Read32Of(tag * 8 + wireType, rest);
    TagParts(wireType, tag);
  }

  lemma TagParts(wireType: nat, tag: nat)
    requires wireType < 8
    ensures (tag * 8 + wireType) % 8 == wireType && (tag * 8 + wireType) / 8 == tag
  {
  }

  lemma ReadPrefixedOf(body: Bytes, rest: Bytes)
    requires |body| < WORD32
    ensures Prefixed(body) + rest == Varint(|body|) + (body + rest)
    ensures ReadPrefixed(Prefixed(body) + rest) == Got(body, rest)
    ensures Read32(Prefixed(body) + rest) == Some((|body|, |Varint(|body|)|))
    ensures (Prefixed(body) + rest)[|Varint(|body|)|..] == body + rest
  {
    Read32Of(|body|, body + rest);
    hide Read32, Varint;
    assert Prefixed(body) + rest == Varint(|body|) + (body + rest);
  }

  // ------------------------------------------------------------------ what can come back

  // The strings that are written have their terminator.
  ghost predicate Terminated(t: LType, v: Value)
    requires Typed(t, v)
    decreases t, 2
  {
    match t
    case StringType(size) => |v.bytes| < size
    case MessageType(fields) => TerminatedFrom(t, v.slots, 0)
    case _ => true
  }

  ghost predicate TerminatedFrom(t: LType, slots: Message, i: nat)
    requires t.MessageType? && TypedSlots(t, slots) && i <= |slots|
    decreases t, 1
  {
    forall k: nat :: i <= k < |slots| ==> FieldTerminated(t, slots, k)
  }

  ghost predicate FieldTerminated(t: LType, slots: Message, i: nat)
    requires t.MessageType? && TypedSlots(t, slots) && i < |slots|
    decreases t, 0
  {
    Present(t, slots, i) ==> AllTerminated(t.fields[i].ltype, slots[i])
  }

  ghost predicate AllTerminated(t: LType, items: seq<Value>)
    requires forall i :: 0 <= i < |items| ==> Typed(t, items[i])
    decreases t, 3
  {
    forall j :: 0 <= j < |items| ==> Terminated(t, items[j])
  }

  // The message once the first n fields are read.
  ghost function Partial(t: LType, m: Message, n: nat): (r: Message)
    requires t.MessageType? && TypedSlots(t, m) && n <= |m|
    ensures TypedSlots(t, r) && |r| == |m| == |t.fields|
    ensures forall i :: 0 <= i < |m| ==> r[i] == if i < n then m[i] else Defaults(t)[i]
  {
    DefaultTyped(t);
    seq(|m|, i requires 0 <= i < |m| => if i < n then m[i] else Defaults(t)[i])
  }

  // The required fields seen by then.
  function Seen(fields: seq<Field>, n: nat): (seen: seq<bool>)
    requires n <= |fields|
    ensures |seen| == MAX_REQUIRED
  {
    if n == 0 then NoneSeen() else Mark(fields, n - 1, Seen(fields, n - 1))
  }

  lemma {:induction false} SeenAre(fields: seq<Field>, n: nat)
    requires n <= |fields|
    ensures forall k :: 0 <= k < MAX_REQUIRED ==> Seen(fields, n)[k] == (k < RequiredBefore(fields, n))
  {
    if n > 0 {
      SeenAre(fields, n - 1);
    }
  }

  // ------------------------------------------------------------------ values

  lemma NumberRoundTrip(t: LType, v: Value, rest: Bytes)
    requires t.Packable() && Typed(t, v)
    ensures Typed(t, Default(t)) && ReadValue(t, ValueBytes(t, v) + rest, Default(t)) == Got(v, rest)
  {
    var s := ValueBytes(t, v) + rest;
    assert s[|ValueBytes(t, v)|..] == rest && s[..|ValueBytes(t, v)|] == ValueBytes(t, v);
    hide Varint, Read32, Read64, Fixed, FromFixed, UnZigZag, ZigZag, SignedField, ToUnsigned;
    match t
    case BoolType => Read32Of(v.n, rest);
    case VarintType(w) =>
      Read64Of(ToUnsigned(v.n), rest);
      SignedRoundTrip(v.n, w);
    case UVarintType(w) => Read64Of(v.n, rest);
    case SVarintType(w) =>
      Read64Of(ZigZag(v.n), rest);
      ZigZagRoundTrip(v.n);
    case Fixed32Type => Fixed32Again(v.n);
    case Fixed64Type => Fixed64RoundTrip(v.n);
  }

  lemma Fixed32Again(n: U32)
    ensures FromFixed(Fixed(n, 4)) == n
  {
    Fixed32RoundTrip(n);
  }

  lemma BytesRoundTrip(t: LType, v: Value, rest: Bytes)
    requires !t.Packable() && !t.MessageType? && Typed(t, v) && Fits(t, v) && |ValueBytes(t, v)| < WORD32
    ensures Typed(t, Default(t))
    ensures ReadValue(t, ValueBytes(t, v) + rest, Default(t)) == if Terminated(t, v) then Got(v, rest) else Failed
  {
    ReadPrefixedOf(v.bytes, rest);
    hide Varint, Read32, Prefixed;
    var s := Prefixed(v.bytes) + rest;
    var after := v.bytes + rest;
    assert after[..|v.bytes|] == v.bytes && after[|v.bytes|..] == rest;
    match t
    case BytesType(capacity) =>
    case StringType(size) => NoTerminator(v.bytes);
    case FixedBytesType(size) =>
      if size == 0 {
        assert v.bytes == [] && Default(t).bytes == [] && after == rest;
      }
  }

  lemma {:induction false} NoTerminator(b: Bytes)
    requires 0 !in b
    ensures CString(b) == b
  {
    if |b| > 0 {
      NoTerminator(b[1..]);
    }
  }

  /** A value comes back, and what follows it is left; a string without terminator is refused. */
  lemma {:induction false} ValueRoundTrip(t: LType, v: Value, rest: Bytes)
    requires WellFormed(t) && Typed(t, v) && Fits(t, v) && |ValueBytes(t, v)| < WORD32
    ensures Typed(t, Default(t))
    ensures ReadValue(t, ValueBytes(t, v) + rest, Default(t)) == if Terminated(t, v) then Got(v, rest) else Failed
    decreases t, 2, 0
  {
    if t.Packable() {
      NumberRoundTrip(t, v, rest);
    } else if t.MessageType? {
      DefaultTyped(t);
      hide Read32, Varint, WellFormed, TypedSlots, ReadMessage, FieldsBytes, FitsFrom, TerminatedFrom;
      var body := FieldsBytes(t, v.slots, 0);
      ReadPrefixedOf(body, rest);
      FieldsRoundTrip(t, v.slots, 0);
      assert Partial(t, v.slots, 0) == Defaults(t);
    } else {
      BytesRoundTrip(t, v, rest);
    }
  }

  lemma PackedStep(t: LType, s: Bytes, items: seq<Value>, max: nat, v: Value, rest: Bytes)
    requires (forall j :: 0 <= j < |items| ==> Typed(t, items[j])) && |s| > 0 && |items| < max && Typed(t, Default(t))
    requires ReadValue(t, s, Default(t)) == Got(v, rest)
    ensures ReadPacked(t, s, items, max) == ReadPacked(t, rest, items + [v], max)
  {
    hide ReadValue, Typed;
  }

  lemma NoMoreItems(t: LType, items: seq<Value>, max: nat)
    requires forall j :: 0 <= j < |items| ==> Typed(t, items[j])
    ensures ReadPacked(t, [], items, max) == Some(items)
  {
  }

  lemma {:induction false} PackedRoundTrip(t: LType, items: seq<Value>, j: nat, max: nat)
    requires t.Packable() && j <= |items| <= max && forall i :: 0 <= i < |items| ==> Typed(t, items[i])
    ensures ReadPacked(t, ItemsBytes(t, [], items[j..]), items[..j], max) == Some(items)
    decreases |items| - j
  {
    hide *;
    ItemsStep(t, [], items, j);
    if j < |items| {
      var rest := ItemsBytes(t, [], items[j + 1..]);
      NumberRoundTrip(t, items[j], rest);
      assert [] + ValueBytes(t, items[j]) + rest == ValueBytes(t, items[j]) + rest;
      assert items[..j] + [items[j]] == items[..j + 1];
      PackedStep(t, ValueBytes(t, items[j]) + rest, items[..j], max, items[j], rest);
      PackedRoundTrip(t, items, j + 1, max);
    } else {
      assert items[..j] == items;
      NoMoreItems(t, items, max);
    }
  }

  // ------------------------------------------------------------------ fields

  // One round of ReadMessage over the tag of field n and what follows it.
  lemma OneField(t: LType, wireType: nat, n: nat, s: Bytes, slots: Message, seen: seq<bool>)
    requires t.MessageType? && WellFormed(t) && TypedSlots(t, slots) && n < |t.fields| && |seen| == MAX_REQUIRED
    requires wireType < 8
    ensures ReadMessage(t, Tag(wireType, t.fields[n].tag) + s, slots, seen)
         == match ReadField(t.fields[n], wireType, s, slots[n])
            case Failed => None
            case Got(items, after) => ReadMessage(t, after, Place(t, slots, n, items), Mark(t.fields, n, seen))
  {
    ReadTagOf(wireType, t.fields[n].tag, s);
    SameField(t, t.fields[n].tag, n);
    hide ReadTag, ReadField, Tag, FieldIndex, WellFormed, Place, Mark;
  }

  lemma PlaceNext(t: LType, m: Message, n: nat)
    requires t.MessageType? && TypedSlots(t, m) && n < |m| && |m[n]| > 0
    ensures Place(t, Partial(t, m, n), n, m[n]) == Partial(t, m, n + 1)
  {
    hide Typed;
    var r := Place(t, Partial(t, m, n), n, m[n]);
    forall k | 0 <= k < |m| ensures r[k] == Partial(t, m, n + 1)[k] {
      if k != n && t.fields[n].rule.OneOf? && t.fields[k].rule == t.fields[n].rule {
        assert |m[n]| == 0 || |m[k]| == 0;
        assert m[k] == [] && Defaults(t)[k] == [];
      }
    }
  }

  // A field that is not written keeps its default.
  lemma NothingToPlace(t: LType, m: Message, n: nat)
    requires t.MessageType? && TypedSlots(t, m) && n < |m| && !Present(t, m, n)
    ensures Partial(t, m, n) == Partial(t, m, n + 1) && !t.fields[n].rule.Required?
  {
    if t.fields[n].rule.Singular? {
      OnlyTheDefault(t.fields[n].ltype, m[n][0]);
    }
    assert m[n] == Defaults(t)[n];
  }

  // A field with one value starts from its default.
  lemma SingleRead(f: Field, wireType: nat, slot: seq<Value>, v: Value, rest: Bytes)
    requires WellFormed(f.ltype) && Typed(f.ltype, v) && Fits(f.ltype, v) && |ValueBytes(f.ltype, v)| < WORD32
    requires !f.rule.Repeated? && Arity(f.rule, |slot|) && (slot == [] || slot == [Default(f.ltype)])
    ensures Typed(f.ltype, Default(f.ltype))
    ensures ReadField(f, wireType, ValueBytes(f.ltype, v) + rest, slot) == if Terminated(f.ltype, v) then Got([v], rest)
      else Failed
    decreases f.ltype, 3, 0
  {
    DefaultTyped(f.ltype);
    ValueRoundTrip(f.ltype, v, rest);
    hide WellFormed, Typed, Fits, ReadValue, ValueBytes, Terminated;
  }

  lemma SingleRoundTrip(t: LType, m: Message, n: nat, rest: Bytes, seen: seq<bool>)
    requires |seen| == MAX_REQUIRED
    requires t.MessageType? && WellFormed(t) && TypedSlots(t, m) && n < |m| && FieldFits(t, m, n)
    requires |FieldBytes(t, m, n)| < WORD32 && Present(t, m, n) && !t.fields[n].rule.Repeated?
    ensures ReadMessage(t, FieldBytes(t, m, n) + rest, Partial(t, m, n), seen)
         == if FieldTerminated(t, m, n) then ReadMessage(t, rest, Partial(t, m, n + 1), Mark(t.fields, n, seen))
           else None
    decreases t, 0, 0
  {
    hide *;
    SingleParts(t, m, n);
    var f := t.fields[n];
    var v, tag, slot := m[n][0], Tag(WireType(f.ltype), f.tag), Partial(t, m, n)[n];
    SingleRead(f, WireType(f.ltype), slot, v, rest);
    PlaceNext(t, m, n);
    OneField(t, WireType(f.ltype), n, ValueBytes(f.ltype, v) + rest, Partial(t, m, n), seen);
    assert m[n] == [v];
    assert tag + ValueBytes(f.ltype, v) + rest == tag + (ValueBytes(f.ltype, v) + rest);
  }

  lemma SingleParts(t: LType, m: Message, n: nat)
    requires t.MessageType? && WellFormed(t) && TypedSlots(t, m) && n < |m| && FieldFits(t, m, n)
    requires |FieldBytes(t, m, n)| < WORD32 && Present(t, m, n) && !t.fields[n].rule.Repeated?
    ensures |m| == |t.fields| && |m[n]| == 1 && WireType(t.fields[n].ltype) < 8
    ensures Typed(t.fields[n].ltype, m[n][0]) && Fits(t.fields[n].ltype, m[n][0]) && WellFormed(t.fields[n].ltype)
    ensures FieldBytes(t, m, n)
      == Tag(WireType(t.fields[n].ltype), t.fields[n].tag) + ValueBytes(t.fields[n].ltype, m[n][0])
    ensures FieldTerminated(t, m, n) == Terminated(t.fields[n].ltype, m[n][0])
    ensures var slot := Partial(t, m, n)[n];
      Arity(t.fields[n].rule, |slot|) && (slot == [] || slot == [Default(t.fields[n].ltype)])
  {
    assert WireType(t.fields[n].ltype) < 8;
    hide ValueBytes, Tag, Terminated, Fits, IsDefault, ItemsBytes, WireType, Default;
    var f := t.fields[n];
    assert WellFormed(f.ltype) && Typed(f.ltype, m[n][0]) && |m[n]| == 1;
    hide WellFormed, Typed;
    OneItem(f.ltype, Tag(WireType(f.ltype), f.tag), m[n]);
    assert Partial(t, m, n)[n] == Defaults(t)[n];
    assert FieldTerminated(t, m, n) == AllTerminated(f.ltype, m[n]);
    assert AllTerminated(f.ltype, m[n]) == Terminated(f.ltype, m[n][0]);
  }

  // The message when j items of field n are read.
  ghost function PartialItems(t: LType, m: Message, n: nat, j: nat): (r: Message)
    requires t.MessageType? && TypedSlots(t, m) && n < |m| && j <= |m[n]| && t.fields[n].rule.Repeated?
    ensures TypedSlots(t, r) && |r| == |m| == |t.fields| && r[n] == m[n][..j]
    ensures forall i :: 0 <= i < |m| && i != n ==> r[i] == Partial(t, m, n)[i]
  {
    Partial(t, m, n)[n := m[n][..j]]
  }

  // Field n is an array of items with a tag each, within its size.
  ghost predicate Unpacked(t: LType, m: Message, n: nat) {
    && t.MessageType? && WellFormed(t) && TypedSlots(t, m) && n < |m|
    && t.fields[n].rule.Repeated? && !t.fields[n].ltype.Packable() && |m[n]| <= t.fields[n].rule.max
    && AllFit(t.fields[n].ltype, m[n])
  }

  lemma UnpackedParts(t: LType, m: Message, n: nat)
    requires Unpacked(t, m, n)
    ensures t.MessageType? && WellFormed(t) && TypedSlots(t, m) && n < |m| == |t.fields| && t.fields[n].rule.Repeated?
    ensures !t.fields[n].ltype.Packable() && |m[n]| <= t.fields[n].rule.max
    ensures forall k :: 0 <= k < |m[n]| ==> Typed(t.fields[n].ltype, m[n][k])
    ensures forall k :: 0 <= k < |m[n]| ==> Fits(t.fields[n].ltype, m[n][k])
  {
    hide WellFormed, Typed, Fits;
  }

  ghost predicate TerminatedItems(t: LType, items: seq<Value>, j: nat)
    requires forall i :: 0 <= i < |items| ==> Typed(t, items[i])
  {
    forall i :: j <= i < |items| ==> Terminated(t, items[i])
  }

  lemma TerminatedStep(t: LType, items: seq<Value>, j: nat)
    requires forall i :: 0 <= i < |items| ==> Typed(t, items[i])
    ensures TerminatedItems(t, items, j)
      == (j < |items| ==> Terminated(t, items[j]) && TerminatedItems(t, items, j + 1))
  {
    hide Terminated, Typed;
  }

  // The items of one field, each behind its tag.
  lemma {:induction false} ItemsRoundTrip(t: LType, m: Message, n: nat, j: nat, rest: Bytes, seen: seq<bool>)
    requires |seen| == MAX_REQUIRED
    requires Unpacked(t, m, n) && j <= |m[n]|
    requires |ItemsBytes(t.fields[n].ltype, Tag(WireType(t.fields[n].ltype), t.fields[n].tag), m[n][j..])| < WORD32
    ensures var f := t.fields[n];
      ReadMessage(t, ItemsBytes(f.ltype, Tag(WireType(f.ltype), f.tag), m[n][j..]) + rest, PartialItems(t, m, n, j),
                  seen)
      == if TerminatedItems(f.ltype, m[n], j)
         then ReadMessage(t, rest, PartialItems(t, m, n, |m[n]|), Mark(t.fields, n, seen)) else None
    decreases t, 0, |m[n]| - j
  {
    hide *;
    UnpackedParts(t, m, n);
    var f, items := t.fields[n], m[n];
    var tag := Tag(WireType(f.ltype), f.tag);
    ItemsStep(f.ltype, tag, items, j);
    TerminatedStep(f.ltype, items, j);
    if j == |items| {
      MarkSame(t.fields, n, seen);
      assert [] + rest == rest;
    } else {
      var after := ItemsBytes(f.ltype, tag, items[j + 1..]) + rest;
      ItemRead(t, m, n, j, after, seen);
      assert tag + ValueBytes(f.ltype, items[j]) + ItemsBytes(f.ltype, tag, items[j + 1..]) + rest
          == tag + (ValueBytes(f.ltype, items[j]) + after);
      if Terminated(f.ltype, items[j]) {
        ItemsRoundTrip(t, m, n, j + 1, rest, seen);
      }
    }
  }

  lemma MarkSame(fields: seq<Field>, n: nat, seen: seq<bool>)
    requires n < |fields| && !fields[n].rule.Required? && |seen| == MAX_REQUIRED
    ensures Mark(fields, n, seen) == seen
  {
  }

  lemma ItemRead(t: LType, m: Message, n: nat, j: nat, after: Bytes, seen: seq<bool>)
    requires |seen| == MAX_REQUIRED
    requires Unpacked(t, m, n) && j < |m[n]| && |ValueBytes(t.fields[n].ltype, m[n][j])| < WORD32
    ensures var f := t.fields[n];
      ReadMessage(t, Tag(WireType(f.ltype), f.tag) + (ValueBytes(f.ltype, m[n][j]) + after), PartialItems(t, m, n, j),
                  seen)
      == if Terminated(f.ltype, m[n][j]) then ReadMessage(t, after, PartialItems(t, m, n, j + 1), seen)
        else None
    decreases t, 0, 0
  {
    hide *;
    UnpackedParts(t, m, n);
    FieldWellFormed(t, n);
    var f, slots := t.fields[n], PartialItems(t, m, n, j);
    MarkSame(t.fields, n, seen);
    AppendRead(f, WireType(f.ltype), slots[n], m[n][j], after);
    OneField(t, WireType(f.ltype), n, ValueBytes(f.ltype, m[n][j]) + after, slots, seen);
    assert m[n][..j] + [m[n][j]] == m[n][..j + 1];
    PlaceItem(t, m, n, j);
  }

  lemma FieldWellFormed(t: LType, n: nat)
    requires t.MessageType? && WellFormed(t) && n < |t.fields|
    ensures WellFormed(t.fields[n].ltype) && WireType(t.fields[n].ltype) < 8
  {
  }

  lemma PlaceItem(t: LType, m: Message, n: nat, j: nat)
    requires Unpacked(t, m, n) && j < |m[n]|
    ensures Place(t, PartialItems(t, m, n, j), n, m[n][..j + 1]) == PartialItems(t, m, n, j + 1)
  {
    UnpackedParts(t, m, n);
    hide WellFormed, Typed, Fits, Partial, AllFit;
  }

  lemma AppendRead(f: Field, wireType: nat, slot: seq<Value>, v: Value, rest: Bytes)
    requires WellFormed(f.ltype) && Typed(f.ltype, v) && Fits(f.ltype, v) && |ValueBytes(f.ltype, v)| < WORD32
    requires f.rule.Repeated? && !f.ltype.Packable() && |slot| < f.rule.max && forall j :: 0 <= j < |slot| ==>
      Typed(f.ltype, slot[j])
    ensures ReadField(f, wireType, ValueBytes(f.ltype, v) + rest, slot)
      == if Terminated(f.ltype, v) then Got(slot + [v], rest) else Failed
    decreases f.ltype, 3, 0
  {
    DefaultTyped(f.ltype);
    ValueRoundTrip(f.ltype, v, rest);
    hide WellFormed, Typed, Fits, ReadValue, ValueBytes, Terminated;
  }

  // An array as a whole: packed, or one tag an item.
  lemma ArrayRoundTrip(t: LType, m: Message, n: nat, rest: Bytes, seen: seq<bool>)
    requires |seen| == MAX_REQUIRED
    requires t.MessageType? && WellFormed(t) && TypedSlots(t, m) && n < |m| && FieldFits(t, m, n)
    requires |FieldBytes(t, m, n)| < WORD32 && Present(t, m, n) && t.fields[n].rule.Repeated?
    ensures ReadMessage(t, FieldBytes(t, m, n) + rest, Partial(t, m, n), seen)
         == if FieldTerminated(t, m, n) then ReadMessage(t, rest, Partial(t, m, n + 1), Mark(t.fields, n, seen))
           else None
    decreases t, 0, |m[n]| + 1
  {
    ArrayParts(t, m, n);
    hide *;
    var f := t.fields[n];
    if f.ltype.Packable() {
      PackedField(t, m, n, rest, seen);
    } else {
      assert m[n][0..] == m[n];
      ItemsRoundTrip(t, m, n, 0, rest, seen);
    }
  }

  lemma ArrayParts(t: LType, m: Message, n: nat)
    requires t.MessageType? && WellFormed(t) && TypedSlots(t, m) && n < |m| && FieldFits(t, m, n)
    requires |FieldBytes(t, m, n)| < WORD32 && Present(t, m, n) && t.fields[n].rule.Repeated?
    ensures |m| == |t.fields| && 0 < |m[n]| <= t.fields[n].rule.max && AllFit(t.fields[n].ltype, m[n])
    ensures FieldBytes(t, m, n) == ArrayBytes(t.fields[n], m[n])
    ensures !t.fields[n].ltype.Packable() ==>
      FieldBytes(t, m, n) == ItemsBytes(t.fields[n].ltype, Tag(WireType(t.fields[n].ltype), t.fields[n].tag), m[n])
    ensures FieldTerminated(t, m, n) == TerminatedItems(t.fields[n].ltype, m[n], 0)
    ensures PartialItems(t, m, n, 0) == Partial(t, m, n) && PartialItems(t, m, n, |m[n]|) == Partial(t, m, n + 1)
  {
    hide WellFormed, Typed, ValueBytes, ItemsBytes, Terminated, Fits, Tag, WireType;
    assert m[n][..|m[n]|] == m[n];
    assert Partial(t, m, n)[n] == Defaults(t)[n] == [];
  }

  lemma PackedField(t: LType, m: Message, n: nat, rest: Bytes, seen: seq<bool>)
    requires |seen| == MAX_REQUIRED
    requires t.MessageType? && WellFormed(t) && TypedSlots(t, m) && n < |m| == |t.fields| && t.fields[n].rule.Repeated?
    requires t.fields[n].ltype.Packable() && 0 < |m[n]| <= t.fields[n].rule.max
    requires |ArrayBytes(t.fields[n], m[n])| < WORD32
    ensures ReadMessage(t, ArrayBytes(t.fields[n], m[n]) + rest, Partial(t, m, n), seen)
         == ReadMessage(t, rest, Partial(t, m, n + 1), Mark(t.fields, n, seen))
    ensures TerminatedItems(t.fields[n].ltype, m[n], 0)
  {
    var f := t.fields[n];
    assert forall k :: 0 <= k < |m[n]| ==> Typed(f.ltype, m[n][k]);
    assert Partial(t, m, n)[n] == Defaults(t)[n] == [];
    hide *;
    var items := ItemsBytes(f.ltype, [], m[n]);
    PackedBytes(f, m[n], rest);
    PackedRead(f, m[n], rest);
    OneField(t, WT_STRING, n, Prefixed(items) + rest, Partial(t, m, n), seen);
    PlaceNext(t, m, n);
  }

  lemma PackedBytes(f: Field, items: seq<Value>, rest: Bytes)
    requires f.ltype.Packable() && |items| > 0 && forall i :: 0 <= i < |items| ==> Typed(f.ltype, items[i])
    ensures ArrayBytes(f, items) + rest == Tag(WT_STRING, f.tag) + (Prefixed(ItemsBytes(f.ltype, [], items)) + rest)
    ensures |ItemsBytes(f.ltype, [], items)| <= |ArrayBytes(f, items)| && TerminatedItems(f.ltype, items, 0)
  {
    hide Typed, ItemsBytes, Tag, Prefixed;
  }

  lemma PackedRead(f: Field, items: seq<Value>, rest: Bytes)
    requires f.ltype.Packable() && f.rule.Repeated? && |items| <= f.rule.max && forall i :: 0 <= i < |items| ==>
      Typed(f.ltype, items[i])
    requires |ItemsBytes(f.ltype, [], items)| < WORD32
    ensures ReadField(f, WT_STRING, Prefixed(ItemsBytes(f.ltype, [], items)) + rest, []) == Got(items, rest)
  {
    assert items[0..] == items && items[..0] == [];
    PackedRoundTrip(f.ltype, items, 0, f.rule.max);
    ReadPrefixedOf(ItemsBytes(f.ltype, [], items), rest);
    hide Typed, ItemsBytes, Prefixed, ReadPrefixed, ReadPacked, ReadValue;
  }

  lemma FieldRoundTrip(t: LType, m: Message, n: nat, rest: Bytes, seen: seq<bool>)
    requires |seen| == MAX_REQUIRED
    requires t.MessageType? && WellFormed(t) && TypedSlots(t, m) && n < |m| && FieldFits(t, m, n)
    requires |FieldBytes(t, m, n)| < WORD32
    ensures ReadMessage(t, FieldBytes(t, m, n) + rest, Partial(t, m, n), seen)
         == if FieldTerminated(t, m, n) then ReadMessage(t, rest, Partial(t, m, n + 1), Mark(t.fields, n, seen))
           else None
    decreases t, 1, 0
  {
    assert |m| == |t.fields|;
    hide WellFormed, TypedSlots, ReadMessage, FieldFits, Partial, Seen, ArrayBytes, ItemsBytes, IsDefault,
      AllTerminated, Typed;
    if !Present(t, m, n) {
      NothingToPlace(t, m, n);
      MarkSame(t.fields, n, seen);
      assert FieldBytes(t, m, n) + rest == rest;
    } else if t.fields[n].rule.Repeated? {
      ArrayRoundTrip(t, m, n, rest, seen);
    } else {
      SingleRoundTrip(t, m, n, rest, seen);
    }
  }

  /** The fields of a message from n on, read into what the fields before them have left. */
  lemma {:induction false} FieldsRoundTrip(t: LType, m: Message, n: nat)
    requires t.MessageType? && WellFormed(t) && TypedSlots(t, m) && n <= |m| && FitsFrom(t, m, n)
    requires |FieldsBytes(t, m, n)| < WORD32
    ensures ReadMessage(t, FieldsBytes(t, m, n), Partial(t, m, n), Seen(t.fields, n))
      == if TerminatedFrom(t, m, n) then Some(m) else None
    decreases t, 1, |m| - n + 1
  {
    hide *;
    FieldsStep(t, m, n);
    if n == |m| {
      AllRead(t, m);
    } else {
      FieldRoundTrip(t, m, n, FieldsBytes(t, m, n + 1), Seen(t.fields, n));
      SeenNext(t.fields, n);
      if FieldTerminated(t, m, n) {
        FieldsRoundTrip(t, m, n + 1);
      }
    }
  }

  // The fields from n on are field n and those from n + 1 on.
  lemma FieldsStep(t: LType, m: Message, n: nat)
    requires t.MessageType? && TypedSlots(t, m) && n <= |m|
    ensures |m| == |t.fields|
    ensures n == |m| ==> FieldsBytes(t, m, n) == [] && TerminatedFrom(t, m, n)
    ensures n < |m| ==>
      && FieldsBytes(t, m, n) == FieldBytes(t, m, n) + FieldsBytes(t, m, n + 1)
      && (FitsFrom(t, m, n) <==> FieldFits(t, m, n) && FitsFrom(t, m, n + 1))
      && (TerminatedFrom(t, m, n) <==> FieldTerminated(t, m, n) && TerminatedFrom(t, m, n + 1))
  {
    hide FieldFits, FieldTerminated, FieldBytes, Typed, OneAtATime;
  }

  lemma SeenNext(fields: seq<Field>, n: nat)
    requires n < |fields|
    ensures Seen(fields, n + 1) == Mark(fields, n, Seen(fields, n))
  {
  }

  lemma AllRead(t: LType, m: Message)
    requires t.MessageType? && TypedSlots(t, m)
    ensures |m| == |t.fields| && ReadMessage(t, [], Partial(t, m, |m|), Seen(t.fields, |m|)) == Some(m)
  {
    SeenAre(t.fields, |t.fields|);
    assert Partial(t, m, |m|) == m;
  }

  /** Decoding what the encoder wrote gives the message back, at any depth, exactly if every
      string that was written has its terminator; otherwise the decoder refuses it. */
  lemma RoundTrip(t: LType, m: Message)
    requires t.MessageType? && WellFormed(t) && TypedSlots(t, m) && FitsFrom(t, m, 0)
    requires |FieldsBytes(t, m, 0)| < WORD32
    ensures ReadNew(t, FieldsBytes(t, m, 0)) == if TerminatedFrom(t, m, 0) then Some(m) else None
  {
    FieldsRoundTrip(t, m, 0);
    hide ReadMessage, FieldsBytes, TerminatedFrom, WellFormed;
    assert Partial(t, m, 0) == Defaults(t);
  }

  /** A string that fills its array to the last byte is written, and then refused. */
  lemma FullStringIsLost()
    ensures var t, m := MessageType([Field(1, Required, StringType(1))]), [[Raw([65])]];
      && WellFormed(t) && TypedSlots(t, m) && FitsFrom(t, m, 0)
      && ReadNew(t, FieldsBytes(t, m, 0)) == None
  {
    var t, m := MessageType([Field(1, Required, StringType(1))]), [[Raw([65])]];
    FullStringFits();
    assert !Terminated(StringType(1), m[0][0]);
    assert !FieldTerminated(t, m, 0);
    hide WellFormed, TypedSlots, FitsFrom, FieldsBytes, FieldTerminated, ReadNew;
    RoundTrip(t, m);
  }

  lemma FullStringFits()
    ensures var t, m := MessageType([Field(1, Required, StringType(1))]), [[Raw([65])]];
      WellFormed(t) && TypedSlots(t, m) && FitsFrom(t, m, 0) && FieldsBytes(t, m, 0) == [10, 1, 65]
  {
    FullStringBytes();
    hide FieldsBytes;
  }

  lemma FullStringBytes()
    ensures var t, m := MessageType([Field(1, Required, StringType(1))]), [[Raw([65])]];
      TypedSlots(t, m) && FieldsBytes(t, m, 0) == [10, 1, 65]
  {
    var t, m := MessageType([Field(1, Required, StringType(1))]), [[Raw([65])]];
    assert FieldsBytes(t, m, 1) == [];
    OneItem(StringType(1), Tag(2, 1), m[0]);
    assert Tag(2, 1) == [10] && Prefixed([65]) == [1, 65];
  }
}
