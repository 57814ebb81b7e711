/** What other programs rely on in the messages that nanopb writes and reads: unknown fields are
    skipped, missing required fields are noticed, defaults are left out, and every field begins
    with its key (pb_decode.c, pb_encode.c). */
module PbLaws {
  import opened Keys
  import opened Coding
  import opened PbCommon
  import opened PbEncode
  import opened PbDecode
  import opened PbRoundTrip

  // ------------------------------------------------------------------ unknown fields

  // What the protocol allows behind a key of this wire type.
  ghost predicate Payload(wireType: nat, p: Bytes) {
    || (wireType == 0 && exists v: U64 :: p == Varint(v))
    || (wireType == 1 && |p| == 8)
    || (wireType == 2 && exists b: Bytes :: |b| < WORD32 && p == Varint(|b|) + b)
    || (wireType == 5 && |p| == 4)
  }

  lemma {:induction false} SkipsVarint(v: nat, rest: Bytes)
    ensures SkipVarint(Varint(v) + rest) == Some(rest)
    decreases v
  {
    var s := Varint(v) + rest;
    if v < 128 {
      assert s[1..] == rest;
    } else {
      assert Varint(v) == [(v % 128 + 128) as Byte] + Varint(v / 128);
      assert s[1..] == Varint(v / 128) + rest;
      SkipsVarint(v / 128, rest);
    }
  }

  lemma SkipsPayload(wireType: nat, p: Bytes, rest: Bytes)
    requires Payload(wireType, p)
    ensures SkipField(wireType, p + rest) == Some(rest)
  {
    hide Varint, SkipVarint, ReadPrefixed;
    if wireType == 0 {
      var v: U64 :| p == Varint(v);
      SkipsVarint(v, rest);
    } else if wireType == 2 {
      var b: Bytes :| |b| < WORD32 && p == Varint(|b|) + b;
      assert p == Prefixed(b);
      ReadPrefixedOf(b, rest);
    } else {
      assert (p + rest)[|p|..] == rest;
    }
  }

  // One round of ReadMessage over the key of an unknown field.
  lemma UnknownKey(t: LType, wireType: nat, tag: nat, s: Bytes, slots: Message, seen: seq<bool>)
    requires t.MessageType? && TypedSlots(t, slots) && |seen| == MAX_REQUIRED && wireType < 8 && 1 <= tag < 0x2000_0000
    requires forall f :: f in t.fields ==> f.tag != tag
    ensures ReadMessage(t, Tag(wireType, tag) + s, slots, seen)
         == match SkipField(wireType, s)
            case None => None
            case Some(after) => ReadMessage(t, after, slots, seen)
  {
    ReadTagOf(wireType, tag, s);
    hide ReadTag, ReadField, Tag, SkipField, TypedSlots, Place, Mark;
    assert FieldIndex(t.fields, tag).None?;
  }

  /** A field that the reader does not know makes no difference, wherever it comes. */
  lemma UnknownFieldIsSkipped(t: LType, wireType: nat, tag: nat, p: Bytes, rest: Bytes, slots: Message, seen: seq<bool>)
    requires t.MessageType? && TypedSlots(t, slots) && |seen| == MAX_REQUIRED
    requires 1 <= tag < 0x2000_0000 && (forall f :: f in t.fields ==> f.tag != tag) && Payload(wireType, p)
    ensures ReadMessage(t, Varint(8 * tag + wireType) + p + rest, slots, seen) == ReadMessage(t, rest, slots, seen)
  {
    hide TypedSlots, ReadMessage, SkipField;
    SkipsPayload(wireType, p, rest);
    UnknownKey(t, wireType, tag, p + rest, slots, seen);
    assert Varint(8 * tag + wireType) + p + rest == Tag(wireType, tag) + (p + rest);
  }

  /** A wire type that the protocol no longer has, or never had, is refused. */
  lemma UnknownWireTypeIsRefused(t: LType, wireType: nat, tag: nat, rest: Bytes, slots: Message, seen: seq<bool>)
    requires t.MessageType? && TypedSlots(t, slots) && |seen| == MAX_REQUIRED
    requires 1 <= tag < 0x2000_0000 && (forall f :: f in t.fields ==> f.tag != tag)
    requires wireType == 3 || wireType == 4 || wireType == 6 || wireType == 7
    ensures ReadMessage(t, Varint(8 * tag + wireType) + rest, slots, seen) == None
  {
    hide *;
    NotSkipped(wireType, rest);
    UnknownKey(t, wireType, tag, rest, slots, seen);
    KeyIs(wireType, tag);
  }

  lemma NotSkipped(wireType: nat, rest: Bytes)
    requires wireType == 3 || wireType == 4 || wireType == 6 || wireType == 7
    ensures SkipField(wireType, rest) == None
  {
  }

  lemma KeyIs(wireType: nat, tag: nat)
    ensures Tag(wireType, tag) == Varint(8 * tag + wireType)
  {
    hide Varint;
  }

  // ------------------------------------------------------------------ part of a message

  // The bytes of the fields before field n.
  ghost function Front(t: LType, m: Message, n: nat): Bytes
    requires t.MessageType? && TypedSlots(t, m) && n <= |m|
  {
    if n == 0 then [] else Front(t, m, n - 1) + FieldBytes(t, m, n - 1)
  }

  lemma {:induction false} FrontJoins(t: LType, m: Message, n: nat)
    requires t.MessageType? && TypedSlots(t, m) && n <= |m|
    ensures FieldsBytes(t, m, 0) == Front(t, m, n) + FieldsBytes(t, m, n)
  {
    hide TypedSlots, FieldBytes, FieldsBytes;
    if n > 0 {
      FrontJoins(t, m, n - 1);
      FieldsStep(t, m, n - 1);
    }
  }

  ghost predicate FrontTerminated(t: LType, m: Message, n: nat)
    requires t.MessageType? && TypedSlots(t, m) && n <= |m|
  {
    forall k: nat :: k < n ==> FieldTerminated(t, m, k)
  }

  /** Reading the front of a message leaves the reader with its fields. */
  lemma {:induction false} FrontRead(t: LType, m: Message, n: nat, rest: Bytes)
    requires t.MessageType? && WellFormed(t) && TypedSlots(t, m) && n <= |m| == |t.fields| && FitsFrom(t, m, 0)
    requires |FieldsBytes(t, m, 0)| < WORD32
    ensures ReadNew(t, Front(t, m, n) + rest)
         == if FrontTerminated(t, m, n) then ReadMessage(t, rest, Partial(t, m, n), Seen(t.fields, n)) else None
    decreases n
  {
    hide WellFormed, TypedSlots, ReadMessage, FieldFits, FitsFrom, Partial, Seen, FieldTerminated, FieldBytes,
      FieldsBytes;
    if n == 0 {
      NothingRead(t, m, rest);
    } else {
      var b := FieldBytes(t, m, n - 1);
      FrontJoins(t, m, n - 1);
      FieldsStep(t, m, n - 1);
      FrontFits(t, m, n - 1);
      FrontRead(t, m, n - 1, b + rest);
      assert Front(t, m, n) + rest == Front(t, m, n - 1) + (b + rest);
      FieldRoundTrip(t, m, n - 1, rest, Seen(t.fields, n - 1));
      SeenNext(t.fields, n - 1);
    }
  }

  lemma NothingRead(t: LType, m: Message, rest: Bytes)
    requires t.MessageType? && TypedSlots(t, m)
    ensures ReadNew(t, [] + rest) == ReadMessage(t, rest, Partial(t, m, 0), Seen(t.fields, 0))
  {
    assert [] + rest == rest && Partial(t, m, 0) == Defaults(t);
    hide ReadMessage;
  }

  lemma FrontFits(t: LType, m: Message, n: nat)
    requires t.MessageType? && TypedSlots(t, m) && n < |m| && FitsFrom(t, m, 0)
    ensures FieldFits(t, m, n)
  {
    hide FieldFits, TypedSlots;
  }

  lemma AllTerminatedFields(t: LType, m: Message)
    requires t.MessageType? && TypedSlots(t, m)
    ensures forall n: nat :: n <= |m| ==>
      (TerminatedFrom(t, m, 0) <==> FrontTerminated(t, m, n) && TerminatedFrom(t, m, n))
  {
    hide FieldTerminated, TypedSlots;
  }

  /** An unknown field between two fields of an encoded message does not hinder the round trip. */
  lemma UnknownFieldRoundTrip(t: LType, m: Message, n: nat, wireType: nat, tag: nat, p: Bytes)
    requires t.MessageType? && WellFormed(t) && TypedSlots(t, m) && n <= |m| && FitsFrom(t, m, 0)
    requires |FieldsBytes(t, m, 0)| < WORD32
    requires 1 <= tag < 0x2000_0000 && (forall f :: f in t.fields ==> f.tag != tag) && Payload(wireType, p)
    ensures ReadNew(t, Front(t, m, n) + (Varint(8 * tag + wireType) + p + FieldsBytes(t, m, n)))
         == if TerminatedFrom(t, m, 0) then Some(m) else None
  {
    FieldsStep(t, m, 0);
    hide WellFormed, TypedSlots, ReadMessage, FieldsBytes, Payload, FitsFrom;
    var later := FieldsBytes(t, m, n);
    FrontRead(t, m, n, Varint(8 * tag + wireType) + p + later);
    FrontRead(t, m, n, later);
    UnknownFieldIsSkipped(t, wireType, tag, p, later, Partial(t, m, n), Seen(t.fields, n));
    FrontJoins(t, m, n);
    RoundTrip(t, m);
  }

  // ------------------------------------------------------------------ required fields

  /** The empty message is refused by a reader with a required field, and all defaults otherwise. */
  lemma EmptyMessage(t: LType)
    requires t.MessageType?
    ensures ReadNew(t, []) == if exists f :: f in t.fields && f.rule.Required? then None else Some(Defaults(t))
  {
    DefaultTyped(t);
    SomeRequired(t.fields, |t.fields|);
    assert t.fields[..|t.fields|] == t.fields;
    if f :| f in t.fields && f.rule.Required? {
      assert !NoneSeen()[0];
    }
  }

  lemma {:induction false} SomeRequired(fields: seq<Field>, n: nat)
    requires n <= |fields|
    ensures RequiredBefore(fields, n) > 0 <==> exists f :: f in fields[..n] && f.rule.Required?
  {
    if n > 0 {
      SomeRequired(fields, n - 1);
      assert fields[..n] == fields[..n - 1] + [fields[n - 1]];
    }
  }

  // fields_seen after the fields from n on.
  function MarkFrom(fields: seq<Field>, n: nat, seen: seq<bool>): (r: seq<bool>)
    requires n <= |fields| && |seen| == MAX_REQUIRED
    ensures |r| == MAX_REQUIRED
    decreases |fields| - n
  {
    if n == |fields| then seen else MarkFrom(fields, n + 1, Mark(fields, n, seen))
  }

  lemma {:induction false} MarkedFrom(fields: seq<Field>, n: nat, seen: seq<bool>)
    requires n <= |fields| && |seen| == MAX_REQUIRED
    ensures RequiredBefore(fields, n) <= RequiredBefore(fields, |fields|)
    ensures forall k :: 0 <= k < MAX_REQUIRED ==>
      MarkFrom(fields, n, seen)[k] == (seen[k] || RequiredBefore(fields, n) <= k < RequiredBefore(fields, |fields|))
    decreases |fields| - n
  {
    if n < |fields| {
      MarkedFrom(fields, n + 1, Mark(fields, n, seen));
    }
  }

  /** The fields of a message from n on, with any required fields seen before. */
  lemma {:induction false} FieldsRead(t: LType, m: Message, n: nat, seen: seq<bool>)
    requires t.MessageType? && WellFormed(t) && TypedSlots(t, m) && n <= |m| == |t.fields| && FitsFrom(t, m, n)
    requires |FieldsBytes(t, m, n)| < WORD32 && |seen| == MAX_REQUIRED
    ensures ReadMessage(t, FieldsBytes(t, m, n), Partial(t, m, n), seen)
         == if TerminatedFrom(t, m, n) && AllSeen(t.fields, MarkFrom(t.fields, n, seen)) then Some(m) else None
    decreases |m| - n
  {
    hide *;
    FieldsStep(t, m, n);
    MarkStep(t.fields, n, seen);
    if n == |m| {
      NothingMore(t, m, seen);
    } else {
      FieldRoundTrip(t, m, n, FieldsBytes(t, m, n + 1), seen);
      if FieldTerminated(t, m, n) {
        FieldsRead(t, m, n + 1, Mark(t.fields, n, seen));
      }
    }
  }

  lemma MarkStep(fields: seq<Field>, n: nat, seen: seq<bool>)
    requires n <= |fields| && |seen| == MAX_REQUIRED
    ensures MarkFrom(fields, n, seen) == if n == |fields| then seen else MarkFrom(fields, n + 1, Mark(fields, n, seen))
  {
  }

  lemma NothingMore(t: LType, m: Message, seen: seq<bool>)
    requires t.MessageType? && TypedSlots(t, m) && |m| == |t.fields| && |seen| == MAX_REQUIRED
    ensures ReadMessage(t, [], Partial(t, m, |m|), seen) == if AllSeen(t.fields, seen) then Some(m) else None
  {
    assert Partial(t, m, |m|) == m;
  }

  // The message with the default in place of a required field.
  lemma WithDefault(t: LType, m: Message, i: nat) returns (d: Message)
    requires t.MessageType? && TypedSlots(t, m) && i < |m| && t.fields[i].rule.Required?
    ensures d == m[i := [Default(t.fields[i].ltype)]] && TypedSlots(t, d)
    ensures Partial(t, d, i + 1) == Partial(t, m, i)
  {
    DefaultTyped(t.fields[i].ltype);
    d := m[i := [Default(t.fields[i].ltype)]];
  }

  // Fields after field i do not depend on it.
  lemma {:induction false} LaterFieldsSame(t: LType, m: Message, d: Message, i: nat, n: nat)
    requires t.MessageType? && TypedSlots(t, m) && TypedSlots(t, d) && i < n <= |m| == |d|
    requires forall k :: 0 <= k < |m| && k != i ==> d[k] == m[k]
    ensures FieldsBytes(t, d, n) == FieldsBytes(t, m, n) && (TerminatedFrom(t, d, n) <==> TerminatedFrom(t, m, n))
    ensures FitsFrom(t, d, n) <==> FitsFrom(t, m, n)
    decreases |m| - n
  {
    hide TypedSlots, FieldsBytes, FieldBytes, FieldFits, FieldTerminated, FitsFrom, TerminatedFrom;
    FieldsStep(t, m, n);
    FieldsStep(t, d, n);
    if n < |m| {
      FieldSame(t, m, d, n);
      LaterFieldsSame(t, m, d, i, n + 1);
    } else {
      NothingToFit(t, m);
      NothingToFit(t, d);
    }
  }

  lemma NothingToFit(t: LType, m: Message)
    requires t.MessageType? && TypedSlots(t, m)
    ensures FitsFrom(t, m, |m|)
  {
  }

  lemma FieldSame(t: LType, m: Message, d: Message, n: nat)
    requires t.MessageType? && TypedSlots(t, m) && TypedSlots(t, d) && n < |m| == |d| && d[n] == m[n]
    ensures FieldBytes(t, d, n) == FieldBytes(t, m, n) && (FieldFits(t, d, n) <==> FieldFits(t, m, n))
    ensures FieldTerminated(t, d, n) <==> FieldTerminated(t, m, n)
  {
    hide ItemsBytes, ArrayBytes, IsDefault, Fits, Terminated;
  }

  /** A message without one of its required fields is refused exactly if the field is one of the
      first 64 required ones; a later one is not missed, and has its default. */
  lemma RequiredFieldIsMissed(t: LType, m: Message, i: nat)
    requires t.MessageType? && WellFormed(t) && TypedSlots(t, m) && i < |m| && t.fields[i].rule.Required?
    requires FitsFrom(t, m, 0) && |FieldsBytes(t, m, 0)| < WORD32
    ensures ReadNew(t, Front(t, m, i) + FieldsBytes(t, m, i + 1))
         == if RequiredBefore(t.fields, i) < 64 || !FrontTerminated(t, m, i) || !TerminatedFrom(t, m, i + 1) then None
            else Some(m[i := [Default(t.fields[i].ltype)]])
  {
    hide *;
    var d := WithDefault(t, m, i);
    LaterFieldsSame(t, m, d, i, i + 1);
    ReadWithout(t, m, d, i);
    OneUnseen(t.fields, i);
  }

  lemma ReadWithout(t: LType, m: Message, d: Message, i: nat)
    requires t.MessageType? && WellFormed(t) && TypedSlots(t, m) && TypedSlots(t, d) && i < |m| == |d|
    requires Partial(t, d, i + 1) == Partial(t, m, i) && FieldsBytes(t, d, i + 1) == FieldsBytes(t, m, i + 1)
    requires FitsFrom(t, m, 0) && |FieldsBytes(t, m, 0)| < WORD32 && (FitsFrom(t, d, i + 1) <==> FitsFrom(t, m, i + 1))
    ensures i < |t.fields| && ReadNew(t, Front(t, m, i) + FieldsBytes(t, m, i + 1))
         == if FrontTerminated(t, m, i) && TerminatedFrom(t, d, i + 1)
               && AllSeen(t.fields, MarkFrom(t.fields, i + 1, Seen(t.fields, i))) then Some(d)
            else None
  {
    hide *;
    ShorterTail(t, m, i);
    FitsLater(t, m, i + 1);
    FrontRead(t, m, i, FieldsBytes(t, m, i + 1));
    FieldsRead(t, d, i + 1, Seen(t.fields, i));
  }

  lemma ShorterTail(t: LType, m: Message, i: nat)
    requires t.MessageType? && TypedSlots(t, m) && i < |m|
    ensures |m| == |t.fields| && |FieldsBytes(t, m, i + 1)| <= |FieldsBytes(t, m, 0)|
  {
    hide *;
    FrontJoins(t, m, i);
    FieldsStep(t, m, i);
  }

  lemma FitsLater(t: LType, m: Message, n: nat)
    requires t.MessageType? && TypedSlots(t, m) && n <= |m| && FitsFrom(t, m, 0)
    ensures FitsFrom(t, m, n)
  {
    hide FieldFits, TypedSlots;
  }

  lemma OneUnseen(fields: seq<Field>, i: nat)
    requires i < |fields| && fields[i].rule.Required?
    ensures AllSeen(fields, MarkFrom(fields, i + 1, Seen(fields, i))) <==> RequiredBefore(fields, i) >= 64
  {
    SeenAre(fields, i);
    MarkedFrom(fields, i + 1, Seen(fields, i));
    var k := RequiredBefore(fields, i);
    assert RequiredBefore(fields, i + 1) == k + 1;
    hide Seen, MarkFrom, RequiredBefore;
    if k < 64 {
      assert !MarkFrom(fields, i + 1, Seen(fields, i))[k];
    }
  }

  // Sixty-five required fields, all of them true.
  function ManyRequired(): (t: LType)
    ensures t.MessageType?
  {
    MessageType(seq(65, i requires 0 <= i < 65 => Field(i + 1, Required, BoolType)))
  }

  function AllTrue(): Message {
    seq(65, i requires 0 <= i < 65 => [Num(1)])
  }

  lemma {:induction false} AllCounted(fields: seq<Field>, n: nat)
    requires n <= |fields| && forall i :: 0 <= i < n ==> fields[i].rule.Required?
    ensures RequiredBefore(fields, n) == n
  {
    if n > 0 {
      AllCounted(fields, n - 1);
    }
  }

  lemma {:induction false} TrueFieldsFit(n: nat)
    requires n <= 65 && TypedSlots(ManyRequired(), AllTrue())
    ensures var t, m := ManyRequired(), AllTrue();
      |FieldsBytes(t, m, n)| <= 20 * (65 - n) < WORD32 && FitsFrom(t, m, n) && TerminatedFrom(t, m, n)
    decreases 65 - n
  {
    var t, m := ManyRequired(), AllTrue();
    hide TypedSlots, FieldBytes, FieldsBytes, FieldFits, FieldTerminated, FitsFrom, TerminatedFrom;
    FieldsStep(t, m, n);
    if n < 65 {
      TrueFieldFits(n);
      TrueFieldsFit(n + 1);
    } else {
      NothingToFit(t, m);
    }
  }

  lemma TrueFieldFits(n: nat)
    requires n < 65 && TypedSlots(ManyRequired(), AllTrue())
    ensures var t, m := ManyRequired(), AllTrue();
      |FieldBytes(t, m, n)| <= 20 && FieldFits(t, m, n) && FieldTerminated(t, m, n)
  {
    var t, m := ManyRequired(), AllTrue();
    assert Typed(BoolType, m[n][0]);
    OneItem(BoolType, Tag(WT_VARINT, n + 1), m[n]);
    TenBytes((n + 1) * 8);
    TenBytes(1);
    hide Varint, ItemsBytes;
    assert t.fields[n] == Field(n + 1, Required, BoolType);
  }

  /** The sixty-fifth required field is not missed. */
  lemma SixtyFifthIsNotMissed()
    ensures var t, m := ManyRequired(), AllTrue();
      && WellFormed(t) && TypedSlots(t, m) && t.fields[64].rule.Required?
      && ReadNew(t, Front(t, m, 64)) == Some(m[64 := [Num(0)]])
  {
    var t, m := ManyRequired(), AllTrue();
    TrueFieldsTyped();
    hide *;
    TrueFieldsFit(0);
    TrueFieldsEnd();
    AllCounted(t.fields, 64);
    RequiredFieldIsMissed(t, m, 64);
    NothingBehind(Front(t, m, 64));
  }

  lemma TrueFieldsTyped()
    ensures var t, m := ManyRequired(), AllTrue();
      && WellFormed(t) && TypedSlots(t, m) && |m| == 65 == |t.fields| && t.fields[64].ltype == BoolType
      && (forall i :: 0 <= i < 65 ==> t.fields[i].rule.Required?) && Default(BoolType) == Num(0)
  {
    var t, m := ManyRequired(), AllTrue();
    assert forall i :: 0 <= i < 65 ==> Typed(BoolType, m[i][0]);
  }

  lemma TrueFieldsEnd()
    requires TypedSlots(ManyRequired(), AllTrue()) && TerminatedFrom(ManyRequired(), AllTrue(), 0)
    ensures var t, m := ManyRequired(), AllTrue();
      |m| == 65 && FieldsBytes(t, m, 65) == [] && TerminatedFrom(t, m, 65) && FrontTerminated(t, m, 64)
  {
    var t, m := ManyRequired(), AllTrue();
    FieldsStep(t, m, 65);
    AllTerminatedFields(t, m);
    hide TypedSlots, FieldsBytes, FrontTerminated, TerminatedFrom;
  }

  lemma NothingBehind(b: Bytes)
    ensures b + [] == b
  {
  }

  // ------------------------------------------------------------------ what is left out

  // A singular field of this type is left out when it holds its default: byte arrays of a fixed
  // length never are, nor are messages with a required field in them.
  ghost predicate LeavesOut(t: LType)
    decreases t
  {
    match t
    case FixedBytesType(n) => n == 0
    case MessageType(fields) =>
      forall i :: 0 <= i < |fields| ==>
        !fields[i].rule.Required? && (fields[i].rule.Singular? ==> LeavesOut(fields[i].ltype))
    case _ => true
  }

  lemma {:induction false} DefaultIsDefault(t: LType)
    requires Typed(t, Default(t)) && LeavesOut(t)
    ensures IsDefault(t, Default(t))
    decreases t
  {
    if t.MessageType? {
      var slots := Defaults(t);
      forall i | 0 <= i < |slots| ensures SlotIsDefault(t, slots, i) {
        if t.fields[i].rule.Singular? {
          DefaultTyped(t.fields[i].ltype);
          DefaultIsDefault(t.fields[i].ltype);
        }
      }
    }
  }

  lemma {:induction false} OnlySuchTypes(t: LType, v: Value)
    requires Typed(t, v) && IsDefault(t, v)
    ensures LeavesOut(t)
    decreases t
  {
    if t.MessageType? {
      forall i | 0 <= i < |t.fields|
        ensures !t.fields[i].rule.Required? && (t.fields[i].rule.Singular? ==> LeavesOut(t.fields[i].ltype)) {
        assert SlotIsDefault(t, v.slots, i);
        if t.fields[i].rule.Singular? {
          OnlySuchTypes(t.fields[i].ltype, v.slots[i][0]);
        }
      }
    }
  }

  lemma WhenDefault(t: LType, v: Value)
    requires Typed(t, v)
    ensures IsDefault(t, v) <==> LeavesOut(t) && v == Default(t)
  {
    hide LeavesOut, IsDefault, Typed;
    DefaultTyped(t);
    if IsDefault(t, v) {
      OnlyTheDefault(t, v);
      OnlySuchTypes(t, v);
    }
    if LeavesOut(t) {
      DefaultIsDefault(t);
    }
  }

  // The key of a field with this type of value: three bits, and the field number above them.
  function KeyBits(t: LType): nat {
    match t
    case BoolType => 0
    case VarintType(_) => 0
    case UVarintType(_) => 0
    case SVarintType(_) => 0
    case Fixed64Type => 1
    case Fixed32Type => 5
    case BytesType(_) => 2
    case StringType(_) => 2
    case FixedBytesType(_) => 2
    case MessageType(_) => 2
  }

  /** A field with one value is its key and the value: a required field always, a singular one
      unless it holds its default, an optional one or one of a union if it is there. */
  lemma OneValueIsWritten(t: LType, m: Message, i: nat)
    requires t.MessageType? && TypedSlots(t, m) && i < |m| == |t.fields| && !t.fields[i].rule.Repeated?
    ensures var f := t.fields[i];
      FieldBytes(t, m, i)
      == if f.rule.Singular? && LeavesOut(f.ltype) && m[i] == [Default(f.ltype)] then []
         else if |m[i]| == 0 then []
         else Varint(8 * f.tag + KeyBits(f.ltype)) + ValueBytes(f.ltype, m[i][0])
    ensures t.fields[i].rule.Required? || t.fields[i].rule.Singular? ==> |m[i]| == 1
  {
    hide IsDefault, ItemsBytes, ValueBytes, Varint, LeavesOut, Default, TypedSlots, Typed, Tag, KeyBits, WireType;
    var f := t.fields[i];
    FieldParts(t, m, i);
    if |m[i]| > 0 {
      WhenDefault(f.ltype, m[i][0]);
      OneItem(f.ltype, Tag(WireType(f.ltype), f.tag), m[i]);
      KeyOf(f);
      assert m[i] == [m[i][0]];
    }
  }

  // Keys of an array: one for each item, or a single one in front of the packed values.
  ghost function KeyedItems(t: LType, key: Bytes, items: seq<Value>): Bytes
    requires forall i :: 0 <= i < |items| ==> Typed(t, items[i])
  {
    if |items| == 0 then [] else key + ValueBytes(t, items[0]) + KeyedItems(t, key, items[1..])
  }

  lemma {:induction false} ItemsAreKeyed(t: LType, key: Bytes, items: seq<Value>)
    requires forall i :: 0 <= i < |items| ==> Typed(t, items[i])
    ensures ItemsBytes(t, key, items) == KeyedItems(t, key, items)
    decreases |items|
  {
    hide Typed, ValueBytes;
    if |items| > 0 {
      ItemsAreKeyed(t, key, items[1..]);
    }
  }

  /** An array of numbers is a key, a length and the values; any other array is a key and a value
      for each item; an empty array is nothing. */
  lemma ArrayIsWritten(t: LType, m: Message, i: nat)
    requires t.MessageType? && TypedSlots(t, m) && i < |m| == |t.fields| && t.fields[i].rule.Repeated?
    ensures forall j :: 0 <= j < |m[i]| ==> Typed(t.fields[i].ltype, m[i][j])
    ensures var f, items := t.fields[i], m[i];
      FieldBytes(t, m, i)
      == if |items| == 0 then []
         else if f.ltype.Packable() then
           var values := KeyedItems(f.ltype, [], items); Varint(8 * f.tag + 2) + Varint(|values|) + values
         else KeyedItems(f.ltype, Varint(8 * f.tag + KeyBits(f.ltype)), items)
  {
    hide ItemsBytes, ValueBytes, Varint, Typed, IsDefault, TypedSlots, Tag, KeyBits, WireType, KeyedItems;
    var f := t.fields[i];
    FieldParts(t, m, i);
    KeyOf(f);
    KeyIs(WT_STRING, f.tag);
    ItemsAreKeyed(f.ltype, [], m[i]);
    ItemsAreKeyed(f.ltype, Varint(8 * f.tag + KeyBits(f.ltype)), m[i]);
    Associates(Varint(8 * f.tag + 2), Varint(|KeyedItems(f.ltype, [], m[i])|), KeyedItems(f.ltype, [], m[i]));
    NoItems(f.ltype, Varint(8 * f.tag + KeyBits(f.ltype)));
  }

  lemma NoItems(t: LType, key: Bytes)
    ensures KeyedItems(t, key, []) == []
  {
  }

  // The bytes of the fields other than field i.
  ghost function Without(t: LType, m: Message, i: nat): Bytes
    requires t.MessageType? && TypedSlots(t, m) && i < |m|
  {
    Front(t, m, i) + FieldsBytes(t, m, i + 1)
  }

  /** Left out or not: a singular field makes no difference to the message exactly if its type is
      one that is left out and it holds the default; otherwise it adds at least two bytes. */
  lemma DefaultIsLeftOut(t: LType, m: Message, i: nat)
    requires t.MessageType? && TypedSlots(t, m) && i < |m| == |t.fields| && t.fields[i].rule.Singular?
    ensures var f := t.fields[i];
      if LeavesOut(f.ltype) && m[i] == [Default(f.ltype)] then FieldsBytes(t, m, 0) == Without(t, m, i)
      else |FieldsBytes(t, m, 0)| >= |Without(t, m, i)| + 2
  {
    hide TypedSlots, FieldBytes, FieldsBytes, LeavesOut, Default, ValueBytes, Varint;
    FrontJoins(t, m, i);
    FieldsStep(t, m, i);
    OneValueIsWritten(t, m, i);
    assert [] + FieldsBytes(t, m, i + 1) == FieldsBytes(t, m, i + 1);
  }

  /** A message of singular fields that all hold such defaults is empty. */
  lemma {:induction false} AllLeftOut(t: LType, m: Message, n: nat)
    requires t.MessageType? && TypedSlots(t, m) && n <= |m| == |t.fields|
    requires forall i :: n <= i < |m| ==>
      t.fields[i].rule.Singular? && LeavesOut(t.fields[i].ltype) && m[i] == [Default(t.fields[i].ltype)]
    ensures FieldsBytes(t, m, n) == []
    decreases |m| - n
  {
    hide TypedSlots, FieldBytes, FieldsBytes, LeavesOut, Default, ValueBytes, Varint;
    FieldsStep(t, m, n);
    if n < |m| {
      OneValueIsWritten(t, m, n);
      AllLeftOut(t, m, n + 1);
    }
  }

  // google.type.LatLng, two singular doubles, at the equator and one degree east.
  function LatLng(): LType {
    MessageType([Field(1, Singular, Fixed64Type), Field(2, Singular, Fixed64Type)])
  }

  function OneDegreeEast(): Message {
    [[Num(0)], [Num(0x3FF0_0000_0000_0000)]]
  }

  /** The latitude is left out, and the longitude is a key and eight bytes, the lowest first. */
  lemma PositionIsWritten()
    ensures var t, m := LatLng(), OneDegreeEast();
      && t.MessageType? && TypedSlots(t, m)
      && FieldsBytes(t, m, 0) == [0x11, 0, 0, 0, 0, 0, 0, 0xF0, 0x3F]
  {
    var t, m := LatLng(), OneDegreeEast();
    TwoFields();
    hide *;
    FieldsStep(t, m, 0);
    FieldsStep(t, m, 1);
    FieldsStep(t, m, 2);
  }

  lemma TwoFields()
    ensures var t, m := LatLng(), OneDegreeEast();
      && t.MessageType? && TypedSlots(t, m) && |m| == 2 && FieldBytes(t, m, 0) == []
      && FieldBytes(t, m, 1) == [0x11, 0, 0, 0, 0, 0, 0, 0xF0, 0x3F]
  {
    var t, m := LatLng(), OneDegreeEast();
    PositionTyped();
    hide TypedSlots, FieldBytes, Varint, Fixed;
    OneValueIsWritten(t, m, 0);
    OneValueIsWritten(t, m, 1);
    OneDegree();
  }

  lemma PositionTyped()
    ensures TypedSlots(LatLng(), OneDegreeEast())
  {
    var m := OneDegreeEast();
    assert Typed(Fixed64Type, m[0][0]) && Typed(Fixed64Type, m[1][0]);
  }

  lemma OneDegree()
    ensures Fixed(0x3FF0_0000_0000_0000, 8) == [0, 0, 0, 0, 0, 0, 0xF0, 0x3F] && Varint(17) == [0x11]
  {
    hide Fixed;
    LowByte(0x3FF0_0000_0000_0000, 8);
    LowByte(0x3F_F000_0000_0000, 7);
    LowByte(0x3FF0_0000_0000, 6);
    LowByte(0x3F_F000_0000, 5);
    LowByte(0x3FF0_0000, 4);
    LowByte(0x3F_F000, 3);
    LowByte(0x3FF0, 2);
    LowByte(0x3F, 1);
    LowByte(0, 0);
  }

  lemma LowByte(n: nat, width: nat)
    ensures Fixed(n, width) == if width == 0 then [] else [(n % 256) as Byte] + Fixed(n / 256, width - 1)
  {
  }

  // ------------------------------------------------------------------ known fields

  // Field n gets these items; the other fields of its union lose theirs.
  ghost predicate Takes(t: LType, slots: Message, n: nat, items: seq<Value>, after: Message)
    requires t.MessageType? && n < |slots| == |t.fields|
  {
    && |after| == |slots| && after[n] == items
    && forall k :: 0 <= k < |slots| && k != n ==>
         after[k] == if t.fields[n].rule.OneOf? && t.fields[k].rule == t.fields[n].rule then [] else slots[k]
  }

  // A required field is noted, at its place among the required ones.
  ghost predicate Notes(fields: seq<Field>, n: nat, seen: seq<bool>, seen': seq<bool>)
    requires n < |fields| && |seen| == MAX_REQUIRED == |seen'|
  {
    forall k :: 0 <= k < MAX_REQUIRED ==>
      seen'[k] == (seen[k] || (fields[n].rule.Required? && k == RequiredBefore(fields, n)))
  }

  lemma Associates(a: Bytes, b: Bytes, c: Bytes)
    ensures a + b + c == a + (b + c)
  {
  }

  /** A field with one value takes the value that comes last, whatever it held; in a union the
      other fields go.  No other field changes. */
  lemma LastValueStays(t: LType, n: nat, v: Value, rest: Bytes, slots: Message, seen: seq<bool>)
    returns (after: Message, seen': seq<bool>)
    requires t.MessageType? && WellFormed(t) && TypedSlots(t, slots) && |seen| == MAX_REQUIRED
      && n < |slots| == |t.fields|
    requires !t.fields[n].rule.Repeated? && !t.fields[n].ltype.MessageType?
    requires var f := t.fields[n].ltype; Typed(f, v) && Fits(f, v) && Terminated(f, v) && |ValueBytes(f, v)| < WORD32
    ensures TypedSlots(t, after) && |seen'| == MAX_REQUIRED
    ensures var f := t.fields[n];
      ReadMessage(t, Varint(8 * f.tag + KeyBits(f.ltype)) + ValueBytes(f.ltype, v) + rest, slots, seen)
      == ReadMessage(t, rest, after, seen')
    ensures Takes(t, slots, n, [v], after) && Notes(t.fields, n, seen, seen')
  {
    var f := t.fields[n];
    after, seen' := PlaceOne(t, slots, n, [v], seen);
    hide *;
    KeyOf(f);
    FieldParts(t, slots, n);
    FieldWellFormed(t, n);
    OneValueRead(f, slots[n], v, rest);
    OneField(t, WireType(f.ltype), n, ValueBytes(f.ltype, v) + rest, slots, seen);
    Associates(Tag(WireType(f.ltype), f.tag), ValueBytes(f.ltype, v), rest);
  }

  lemma KeyOf(f: Field)
    ensures WireType(f.ltype) < 8 && Tag(WireType(f.ltype), f.tag) == Varint(8 * f.tag + KeyBits(f.ltype))
  {
    hide Varint;
  }

  lemma FieldParts(t: LType, slots: Message, n: nat)
    requires t.MessageType? && TypedSlots(t, slots) && n < |slots| == |t.fields|
    ensures Arity(t.fields[n].rule, |slots[n]|)
    ensures forall j :: 0 <= j < |slots[n]| ==> Typed(t.fields[n].ltype, slots[n][j])
  {
    hide Typed, OneAtATime;
  }

  lemma PlaceOne(t: LType, slots: Message, n: nat, items: seq<Value>, seen: seq<bool>)
    returns (after: Message, seen': seq<bool>)
    requires t.MessageType? && TypedSlots(t, slots) && n < |slots| == |t.fields| && |seen| == MAX_REQUIRED
    requires Arity(t.fields[n].rule, |items|) && forall j :: 0 <= j < |items| ==> Typed(t.fields[n].ltype, items[j])
    ensures TypedSlots(t, after) && after == Place(t, slots, n, items) && seen' == Mark(t.fields, n, seen)
    ensures |after| == |slots| && |seen'| == MAX_REQUIRED
    ensures Takes(t, slots, n, items, after) && Notes(t.fields, n, seen, seen')
  {
    hide TypedSlots, Typed;
    after, seen' := Place(t, slots, n, items), Mark(t.fields, n, seen);
  }

  lemma OneValueRead(f: Field, slot: seq<Value>, v: Value, rest: Bytes)
    requires !f.rule.Repeated? && !f.ltype.MessageType? && WellFormed(f.ltype)
    requires Arity(f.rule, |slot|) && forall j :: 0 <= j < |slot| ==> Typed(f.ltype, slot[j])
    requires Typed(f.ltype, v) && Fits(f.ltype, v) && Terminated(f.ltype, v) && |ValueBytes(f.ltype, v)| < WORD32
    ensures ReadField(f, WireType(f.ltype), ValueBytes(f.ltype, v) + rest, slot) == Got([v], rest)
  {
    DefaultTyped(f.ltype);
    ValueRoundTrip(f.ltype, v, rest);
    if |slot| > 0 {
      CurrentMatters(f.ltype, ValueBytes(f.ltype, v) + rest, slot[0], Default(f.ltype));
    }
    hide ReadValue, ValueBytes, Typed, WellFormed, Fits, Terminated;
  }

  /** An item with a key of its own is added to its array, packed or not, until the array is full;
      then the message is refused. */
  lemma ItemIsAdded(t: LType, n: nat, v: Value, rest: Bytes, slots: Message, seen: seq<bool>)
    requires t.MessageType? && WellFormed(t) && TypedSlots(t, slots) && |seen| == MAX_REQUIRED
      && n < |slots| == |t.fields|
    requires t.fields[n].rule.Repeated?
    requires var f := t.fields[n].ltype; Typed(f, v) && Fits(f, v) && Terminated(f, v) && |ValueBytes(f, v)| < WORD32
    ensures var f := t.fields[n];
      var s := Varint(8 * f.tag + KeyBits(f.ltype)) + ValueBytes(f.ltype, v) + rest;
      if |slots[n]| < f.rule.max then
        TypedSlots(t, slots[n := slots[n] + [v]])
        && ReadMessage(t, s, slots, seen) == ReadMessage(t, rest, slots[n := slots[n] + [v]], seen)
      else ReadMessage(t, s, slots, seen) == None
  {
    hide *;
    var f := t.fields[n];
    KeyOf(f);
    FieldParts(t, slots, n);
    FieldWellFormed(t, n);
    ItemReadOrNot(f, slots[n], v, rest);
    OneField(t, WireType(f.ltype), n, ValueBytes(f.ltype, v) + rest, slots, seen);
    Associates(Tag(WireType(f.ltype), f.tag), ValueBytes(f.ltype, v), rest);
    if |slots[n]| < f.rule.max {
      RepeatedArity(f.rule, |slots[n]| + 1);
      var after, seen' := PlaceOne(t, slots, n, slots[n] + [v], seen);
      MarkSame(t.fields, n, seen);
      OnlyThere(t, slots, n, slots[n] + [v], after);
    }
  }

  lemma OnlyThere(t: LType, slots: Message, n: nat, items: seq<Value>, after: Message)
    requires t.MessageType? && n < |slots| == |t.fields| && Takes(t, slots, n, items, after) && !t.fields[n].rule.OneOf?
    ensures after == slots[n := items]
  {
  }

  lemma RepeatedArity(rule: Rule, n: nat)
    requires rule.Repeated?
    ensures Arity(rule, n)
  {
  }

  lemma ItemReadOrNot(f: Field, slot: seq<Value>, v: Value, rest: Bytes)
    requires f.rule.Repeated? && WellFormed(f.ltype) && Arity(f.rule, |slot|)
    requires forall j :: 0 <= j < |slot| ==> Typed(f.ltype, slot[j])
    requires Typed(f.ltype, v) && Fits(f.ltype, v) && Terminated(f.ltype, v) && |ValueBytes(f.ltype, v)| < WORD32
    ensures ReadField(f, WireType(f.ltype), ValueBytes(f.ltype, v) + rest, slot)
         == if |slot| < f.rule.max then Got(slot + [v], rest) else Failed
  {
    DefaultTyped(f.ltype);
    ValueRoundTrip(f.ltype, v, rest);
    hide ReadValue, ValueBytes, Typed, WellFormed, Fits, Terminated;
  }

  /** A submessage that comes again is read into what is there. */
  lemma SubmessageIsMerged(t: LType, n: nat, body: Bytes, rest: Bytes, slots: Message, seen: seq<bool>)
    returns (after: Message, seen': seq<bool>)
    requires t.MessageType? && WellFormed(t) && TypedSlots(t, slots) && |seen| == MAX_REQUIRED
      && n < |slots| == |t.fields|
    requires !t.fields[n].rule.Repeated? && t.fields[n].ltype.MessageType? && |slots[n]| == 1 && |body| < WORD32
    ensures slots[n][0].Sub? && TypedSlots(t.fields[n].ltype, slots[n][0].slots)
    ensures TypedSlots(t, after) && |seen'| == MAX_REQUIRED
    ensures var f := t.fields[n];
      var s := Varint(8 * f.tag + 2) + (Varint(|body|) + body) + rest;
      match ReadMessage(f.ltype, body, slots[n][0].slots, NoneSeen())
      case None => ReadMessage(t, s, slots, seen) == None
      case Some(inner) =>
        && ReadMessage(t, s, slots, seen) == ReadMessage(t, rest, after, seen')
        && Takes(t, slots, n, [Sub(inner)], after) && Notes(t.fields, n, seen, seen')
  {
    hide *;
    var f := t.fields[n];
    IsSub(f.ltype, slots, t, n);
    var inner := ReadMessage(f.ltype, body, slots[n][0].slots, NoneSeen());
    FieldParts(t, slots, n);
    KeyOf(f);
    SubKey(f.ltype);
    SubRead(f, slots[n], body, rest);
    OneField(t, WireType(f.ltype), n, Prefixed(body) + rest, slots, seen);
    Regrouped(Tag(WireType(f.ltype), f.tag), body, rest);
    after, seen' := slots, seen;
    if inner.Some? {
      SubIsTyped(f.ltype, inner.value);
      OneArity(f.rule);
      after, seen' := PlaceOne(t, slots, n, [Sub(inner.value)], seen);
    }
  }

  lemma OneArity(rule: Rule)
    requires !rule.Repeated?
    ensures Arity(rule, 1)
  {
  }

  lemma IsSub(t: LType, slots: Message, outer: LType, n: nat)
    requires outer.MessageType? && TypedSlots(outer, slots) && n < |slots| == |outer.fields| && |slots[n]| == 1
    requires t == outer.fields[n].ltype && t.MessageType?
    ensures slots[n][0].Sub? && TypedSlots(t, slots[n][0].slots)
  {
    assert Typed(t, slots[n][0]);
  }

  lemma SubIsTyped(t: LType, m: Message)
    requires t.MessageType? && TypedSlots(t, m)
    ensures Typed(t, Sub(m))
  {
    hide TypedSlots;
  }

  lemma SubKey(t: LType)
    requires t.MessageType?
    ensures KeyBits(t) == 2
  {
  }

  lemma Regrouped(key: Bytes, body: Bytes, rest: Bytes)
    ensures key + (Varint(|body|) + body) + rest == key + (Prefixed(body) + rest)
  {
    hide Varint;
  }

  lemma SubRead(f: Field, slot: seq<Value>, body: Bytes, rest: Bytes)
    requires !f.rule.Repeated? && f.ltype.MessageType? && Arity(f.rule, |slot|) && |slot| == 1 && |body| < WORD32
    requires Typed(f.ltype, slot[0]) && slot[0].Sub? && TypedSlots(f.ltype, slot[0].slots)
    ensures ReadField(f, WireType(f.ltype), Prefixed(body) + rest, slot)
         == match ReadMessage(f.ltype, body, slot[0].slots, NoneSeen())
            case None => Failed
            case Some(inner) => Got([Sub(inner)], rest)
  {
    ReadPrefixedOf(body, rest);
    hide ReadPrefixed, Prefixed, ReadMessage, TypedSlots;
  }

  // ------------------------------------------------------------------ all that values can be

  // A 64-bit word as a signed number, and its low half as one.
  function AsSigned(v: U64): int {
    if v < 0x8000_0000_0000_0000 then v else v - 0x1_0000_0000_0000_0000
  }

  function LowAsSigned(v: U64): int {
    var low := v % 0x1_0000_0000;
    if low < 0x8000_0000 then low else low - 0x1_0000_0000
  }

  // What a field of numbers stores for this word, if it can.
  function Stored(t: LType, v: U64): Option<int> {
    match t
    case VarintType(w) =>
      var n := if w == 8 then AsSigned(v) else LowAsSigned(v);
      if InSigned(n, w) then Some(n) else None
    case UVarintType(w) => if InUnsigned(v, w) then Some(v) else None
    case SVarintType(w) =>
      var n := if v % 2 == 0 then v / 2 else -((v + 1) / 2);
      if InSigned(n, w) then Some(n) else None
    case _ => None
  }

  /** What any 64-bit varint is to a field of integers: the number it stands for if the field can
      hold it, and an error otherwise; 32 bits and less are taken from the low half. */
  lemma AnyVarint(t: LType, v: U64, rest: Bytes)
    requires t.VarintType? || t.UVarintType? || t.SVarintType?
    ensures Typed(t, Default(t))
    ensures ReadValue(t, Varint(v) + rest, Default(t))
         == if Stored(t, v).Some? then Got(Num(Stored(t, v).value), rest) else Failed
  {
    hide Varint, Read64, UnZigZag, SignedField, AsSigned, LowAsSigned;
    Read64Of(v, rest);
    assert (Varint(v) + rest)[|Varint(v)|..] == rest;
    SameNumbers(v);
    match t
    case VarintType(w) =>
    case UVarintType(w) =>
    case SVarintType(w) =>
  }

  lemma SameNumbers(v: U64)
    ensures UnZigZag(v) == if v % 2 == 0 then v / 2 else -((v + 1) / 2)
    ensures forall w: Width ::
      SignedField(v, w) ==
      var n := if w == 8 then AsSigned(v) else LowAsSigned(v);
      if InSigned(n, w) then Some(n) else None
  {
  }

  // Byte j of a 32-bit varint, from the sixth on: it says nothing, or goes on with the sign.
  predicate Extends(b: Byte, j: nat, v: nat) {
    b == 0 || b == 128 || (v >= 0x8000_0000 && b == if j < 9 then 0xFF else 1)
  }

  lemma {:induction false} LaterBytesExtend(s: Bytes, k: nat, v: nat)
    requires 5 <= k <= |s| && v < WORD32
    ensures var r := More32(s, k, v, 7 * k);
      r.Some? && r.value.1 <= 10 ==> r.value.0 == v && forall j :: k <= j < r.value.1 ==> Extends(s[j], j, v)
    decreases |s| - k
  {
    if k < |s| && k < 10 {
      LaterBytesExtend(s, k + 1, v);
      OneByteExtends(s, k, v);
    } else if 10 <= k < |s| {
      assert More32(s, k, v, 7 * k).Some? ==> More32(s, k, v, 7 * k).value.1 > 10;
    }
  }

  lemma OneByteExtends(s: Bytes, k: nat, v: nat)
    requires 5 <= k < |s| && k < 10 && v < WORD32
    ensures More32(s, k, v, 7 * k)
         == if !Extends(s[k], k, v) then None
            else if s[k] >= 128 then More32(s, k + 1, v, 7 * (k + 1)) else Some((v, k + 1))
  {
    ShiftedFits(s[k], 7 * k);
    OrBelow(v, Shifted(s[k], 7 * k), 32);
    hide Or, Shifted, Power;
    assert 7 * k + 7 == 7 * (k + 1) < 256;
  }

  /** A 32-bit varint that is read has nothing above bit 31 but the sign: five bytes end below
      bit 32, and from the sixth byte on, up to the tenth, every byte is void or all ones. */
  lemma NothingAbove(s: Bytes)
    ensures var r := Read32(s);
      r.Some? && r.value.1 <= 10 ==>
        && (r.value.1 == 5 ==> s[4] < 16)
        && forall j :: 5 <= j < r.value.1 ==> Extends(s[j], j, r.value.0)
  {
    if |s| > 0 && s[0] >= 128 {
      FirstBytes(s, 1, s[0] as nat - 128);
    }
  }

  lemma {:induction false} FirstBytes(s: Bytes, k: nat, v: nat)
    requires 1 <= k <= 5 && k <= |s| && v < WORD32
    ensures var r := More32(s, k, v, 7 * k);
      r.Some? && r.value.1 <= 10 ==>
        && (r.value.1 == 5 ==> k == 5 || s[4] < 16)
        && forall j :: 5 <= j < r.value.1 ==> Extends(s[j], j, r.value.0)
    decreases |s| - k
  {
    if k == 5 {
      LaterBytesExtend(s, k, v);
    } else if k < |s| {
      var next := OneOfFirst(s, k, v);
      if s[k] >= 128 {
        FirstBytes(s, k + 1, next);
      }
    }
  }

  lemma OneOfFirst(s: Bytes, k: nat, v: nat) returns (next: nat)
    requires 1 <= k < 5 && k < |s| && v < WORD32
    ensures next < WORD32
    ensures More32(s, k, v, 7 * k)
         == if s[k] >= 128 then More32(s, k + 1, next, 7 * (k + 1))
            else if k == 4 && s[k] >= 16 then None else Some((next, k + 1))
  {
    More32Once(s, k, v, 7 * k);
    next := Or(v, Shifted(s[k], 7 * k));
    hide Or, Shifted, More32;
    assert 7 * k == 28 <==> k == 4;
    if s[k] < 128 {
      HighBits(s[k]);
      assert s[k] >= 16 ==> s[k] / 16 >= 1;
    }
  }

  /** Any number but zero is true. */
  lemma AnyBool(v: nat, rest: Bytes)
    requires v < WORD32
    ensures ReadValue(BoolType, Varint(v) + rest, Num(0)) == Got(Num(if v == 0 then 0 else 1), rest)
  {
    Read32Of(v, rest);
    assert (Varint(v) + rest)[|Varint(v)|..] == rest;
    hide Varint, Read32;
  }

  // What comes before the first zero.
  ghost predicate BeforeZero(b: Bytes, c: Bytes) {
    c <= b && 0 !in c && (|c| < |b| ==> b[|c|] == 0)
  }

  /** What any length-prefixed bytes are to a field of bytes or characters: a string ends at its
      first zero and needs room for a terminator; bytes of a fixed length come whole or not at all,
      and if there are none they are zeros. */
  lemma AnyBytes(t: LType, b: Bytes, rest: Bytes)
    requires (t.BytesType? || t.StringType? || t.FixedBytesType?) && |b| < WORD32
    ensures Typed(t, Default(t))
    ensures var r := ReadValue(t, Varint(|b|) + b + rest, Default(t));
      match t
      case BytesType(capacity) => r == if |b| <= capacity then Got(Raw(b), rest) else Failed
      case StringType(size) =>
        if |b| < size then r.Got? && r.value.Raw? && BeforeZero(b, r.value.bytes) && r.rest == rest else r == Failed
      case FixedBytesType(size) =>
        r == if |b| == 0 then Got(Raw(seq(size, i => 0 as Byte)), rest) else if |b| == size then Got(Raw(b), rest)
          else Failed
  {
    ReadPrefixedOf(b, rest);
    assert Varint(|b|) + b + rest == Prefixed(b) + rest;
    assert (b + rest)[..|b|] == b && (b + rest)[|b|..] == rest;
    hide Varint, Read32, Prefixed;
  }

  /** A zero in place of a key ends the message. */
  lemma ZeroEndsMessage(t: LType, rest: Bytes, slots: Message, seen: seq<bool>)
    requires t.MessageType? && TypedSlots(t, slots) && |seen| == MAX_REQUIRED
    ensures ReadMessage(t, [0] + rest, slots, seen) == ReadMessage(t, [], slots, seen)
  {
    assert ReadTag([0] + rest) == End;
    hide ReadTag;
    assert ReadTag([]) == End by { NoTag(); }
  }

  lemma NoTag()
    ensures ReadTag([]) == End
  {
  }

  // ------------------------------------------------------------------ what can come out

  // Byte strings, strings with their terminators and arrays are within their declared sizes.
  ghost predicate Bounded(t: LType, v: Value)
    requires Typed(t, v)
    decreases t, 1
  {
    match t
    case BytesType(capacity) => |v.bytes| <= capacity
    case StringType(size) => |v.bytes| + 1 <= size
    case MessageType(fields) => SlotsBounded(t, v.slots)
    case _ => true
  }

  ghost predicate SlotsBounded(t: LType, slots: Message)
    requires t.MessageType? && TypedSlots(t, slots)
    decreases t, 0
  {
    forall i :: 0 <= i < |slots| ==> SlotBounded(t.fields[i], slots[i])
  }

  ghost predicate SlotBounded(f: Field, slot: seq<Value>)
    requires forall j :: 0 <= j < |slot| ==> Typed(f.ltype, slot[j])
    decreases f.ltype, 2
  {
    (f.rule.Repeated? ==> |slot| <= f.rule.max) && forall j :: 0 <= j < |slot| ==> Bounded(f.ltype, slot[j])
  }

  lemma {:induction false} DefaultBounded(t: LType)
    requires WellFormed(t)
    ensures Typed(t, Default(t)) && Bounded(t, Default(t))
    decreases t
  {
    DefaultTyped(t);
    if t.MessageType? {
      var slots := Defaults(t);
      forall i | 0 <= i < |slots| ensures SlotBounded(t.fields[i], slots[i]) {
        DefaultBounded(t.fields[i].ltype);
      }
    }
  }

  lemma {:induction false} ValueBounded(t: LType, s: Bytes, current: Value)
    requires WellFormed(t) && Typed(t, current) && Bounded(t, current)
    ensures ReadValue(t, s, current).Got? ==> Bounded(t, ReadValue(t, s, current).value)
    decreases t, |s|, 1
  {
    if t.MessageType? {
      if ReadPrefixed(s).Got? {
        var body := ReadPrefixed(s).value;
        SlotsStayBounded(t, body, current.slots, NoneSeen());
      }
      hide ReadMessage, WellFormed, TypedSlots;
    } else {
      PlainBounded(t, s, current);
    }
  }

  lemma PlainBounded(t: LType, s: Bytes, current: Value)
    requires !t.MessageType? && WellFormed(t) && Typed(t, current)
    ensures ReadValue(t, s, current).Got? ==> Bounded(t, ReadValue(t, s, current).value)
  {
    hide Read32, Read64, FromFixed, UnZigZag, SignedField;
  }

  lemma {:induction false} FieldBounded(f: Field, wireType: nat, s: Bytes, slot: seq<Value>)
    requires WellFormed(f.ltype) && Arity(f.rule, |slot|) && forall j :: 0 <= j < |slot| ==> Typed(f.ltype, slot[j])
    requires SlotBounded(f, slot)
    ensures ReadField(f, wireType, s, slot).Got? ==> SlotBounded(f, ReadField(f, wireType, s, slot).value)
    decreases f.ltype, |s|, 3
  {
    DefaultBounded(f.ltype);
    if f.rule.Repeated? && wireType == WT_STRING && f.ltype.Packable() {
      if ReadPrefixed(s).Got? {
        PackedBounded(f, ReadPrefixed(s).value, slot);
      }
    } else {
      var current := if !f.rule.Repeated? && |slot| > 0 then slot[0] else Default(f.ltype);
      ValueBounded(f.ltype, s, current);
    }
    hide WellFormed, Typed, ReadValue, ReadPacked, ReadPrefixed, Bounded;
  }

  lemma {:induction false} PackedBounded(f: Field, s: Bytes, items: seq<Value>)
    requires WellFormed(f.ltype) && f.rule.Repeated? && forall j :: 0 <= j < |items| ==> Typed(f.ltype, items[j])
    requires SlotBounded(f, items)
    ensures var r := ReadPacked(f.ltype, s, items, f.rule.max);
      r.Some? ==> SlotBounded(f, r.value)
    decreases f.ltype, |s|, 2
  {
    DefaultBounded(f.ltype);
    if |s| > 0 && |items| < f.rule.max {
      ValueBounded(f.ltype, s, Default(f.ltype));
      match ReadValue(f.ltype, s, Default(f.ltype))
      case Failed =>
      case Got(v, rest) => PackedBounded(f, rest, items + [v]);
    }
  }

  lemma {:induction false} SlotsStayBounded(t: LType, s: Bytes, slots: Message, seen: seq<bool>)
    requires t.MessageType? && WellFormed(t) && TypedSlots(t, slots) && |seen| == MAX_REQUIRED && SlotsBounded(t, slots)
    ensures var r := ReadMessage(t, s, slots, seen);
      r.Some? ==> SlotsBounded(t, r.value)
    decreases t, |s|, 0
  {
    match ReadTag(s)
    case TagFailed =>
    case End =>
    case Key(wireType, tag, rest) =>
      var i := FieldIndex(t.fields, tag);
      if |t.fields| == 0 && tag == 0 {
        if Read32(rest).Some? {
          SlotsStayBounded(t, rest[Read32(rest).value.1..], slots, seen);
        }
      } else if i.None? {
        if SkipField(wireType, rest).Some? {
          SlotsStayBounded(t, SkipField(wireType, rest).value, slots, seen);
        }
      } else {
        var f := t.fields[i.value];
        FieldParts(t, slots, i.value);
        FieldWellFormed(t, i.value);
        FieldBounded(f, wireType, rest, slots[i.value]);
        match ReadField(f, wireType, rest, slots[i.value])
        case Failed =>
        case Got(items, after) =>
          PlaceBounded(t, slots, i.value, items);
          SlotsStayBounded(t, after, Place(t, slots, i.value, items), Mark(t.fields, i.value, seen));
      }
  }

  lemma PlaceBounded(t: LType, slots: Message, n: nat, items: seq<Value>)
    requires t.MessageType? && TypedSlots(t, slots) && n < |slots| == |t.fields| && SlotsBounded(t, slots)
    requires Arity(t.fields[n].rule, |items|) && forall j :: 0 <= j < |items| ==> Typed(t.fields[n].ltype, items[j])
    requires SlotBounded(t.fields[n], items)
    ensures SlotsBounded(t, Place(t, slots, n, items))
  {
    hide Bounded, Typed, OneAtATime;
  }

  lemma {:induction false} BoundedFits(t: LType, v: Value)
    requires Typed(t, v) && Bounded(t, v)
    ensures Fits(t, v) && Terminated(t, v)
    decreases t, 1
  {
    if t.MessageType? {
      SlotsFit(t, v.slots);
    }
  }

  lemma {:induction false} SlotsFit(t: LType, slots: Message)
    requires t.MessageType? && TypedSlots(t, slots) && SlotsBounded(t, slots)
    ensures FitsFrom(t, slots, 0) && TerminatedFrom(t, slots, 0)
    decreases t, 0
  {
    forall k: nat | k < |slots| ensures FieldFits(t, slots, k) && FieldTerminated(t, slots, k) {
      var f := t.fields[k];
      assert SlotBounded(f, slots[k]);
      forall j | 0 <= j < |slots[k]| ensures Fits(f.ltype, slots[k][j]) && Terminated(f.ltype, slots[k][j]) {
        BoundedFits(f.ltype, slots[k][j]);
      }
    }
  }

  /** Whatever the bytes, what the decoder stores is within the declared sizes. */
  lemma DecodedIsBounded(t: LType, s: Bytes)
    requires t.MessageType? && WellFormed(t)
    ensures var r := ReadNew(t, s);
      r.Some? ==> SlotsBounded(t, r.value)
  {
    DefaultBounded(t);
    SlotsStayBounded(t, s, Defaults(t), NoneSeen());
  }

  /** What was decoded from any bytes can be encoded, and decodes to the same message again. */
  lemma DecodedComesBack(t: LType, s: Bytes)
    requires t.MessageType? && WellFormed(t)
    ensures var r := ReadNew(t, s);
      r.Some? && |FieldsBytes(t, r.value, 0)| < WORD32 ==>
        FitsFrom(t, r.value, 0) && ReadNew(t, FieldsBytes(t, r.value, 0)) == r
  {
    hide WellFormed, ReadNew, FieldsBytes, FitsFrom, TypedSlots, SlotsBounded;
    var r := ReadNew(t, s);
    if r.Some? {
      DecodedIsBounded(t, s);
      SlotsFit(t, r.value);
      if |FieldsBytes(t, r.value, 0)| < WORD32 {
        RoundTrip(t, r.value);
      }
    }
  }

  // A byte string over its capacity.
  ghost predicate TooLong(t: LType, v: Value) {
    t.BytesType? && v.Raw? && |v.bytes| > t.capacity
  }

  /** What does not fit is not written: a byte string over its capacity or an array over its
      size makes the encoder refuse the message. */
  lemma OversizedIsRefused(t: LType, m: Message, i: nat)
    requires t.MessageType? && TypedSlots(t, m) && i < |m| == |t.fields|
    requires var f := t.fields[i];
      (f.rule.Repeated? && |m[i]| > f.rule.max) || exists v :: v in m[i] && TooLong(f.ltype, v)
    ensures !FitsFrom(t, m, 0)
  {
    hide ItemsBytes;
    var f := t.fields[i];
    assert Arity(f.rule, |m[i]|);
    if v :| v in m[i] && TooLong(f.ltype, v) {
      var j :| 0 <= j < |m[i]| && m[i][j] == v;
      assert Typed(f.ltype, m[i][j]) && !Fits(f.ltype, m[i][j]);
      assert !AllFit(f.ltype, m[i]);
      assert f.rule.Singular? ==> j == 0;
    }
    assert !FieldFits(t, m, i);
  }
}
