/** nanopb's descriptors and messages (pb.h), and the field iterator (pb_common.c).

    A message struct is the list of its fields' slots.  A slot holds what is present: one value
    for a required or singular field, at most one for an optional field or a branch of a oneof,
    any number for a repeated one.
 */
module PbCommon {
  import opened Keys

  // data_size of an integer field
  type Width = n: nat | n == 1 || n == 2 || n == 4 || n == 8 witness 8

  // PB_LTYPE; a submessage carries its field array.
  datatype LType =
    | BoolType
    | VarintType(width: Width)
    | UVarintType(width: Width)
    | SVarintType(width: Width)
    | Fixed32Type
    | Fixed64Type
    | BytesType(capacity: nat)
    | StringType(size: nat)
    | FixedBytesType(size: nat)
    | MessageType(fields: seq<Field>)
  {
    // up to PB_LTYPE_LAST_PACKABLE
    predicate Packable() {
      !BytesType? && !StringType? && !FixedBytesType? && !MessageType?
    }
  }

  // PB_HTYPE; Singular is OPTIONAL without a has_ field, and the fields of one union share a group.
  datatype Rule = Required | Optional | Singular | Repeated(max: nat) | OneOf(group: nat)

  datatype Field = Field(tag: nat, rule: Rule, ltype: LType)

  datatype Value = Num(n: int) | Raw(bytes: Bytes) | Sub(slots: Message)
  type Message = seq<seq<Value>>

  const WORD64: nat := 0x1_0000_0000_0000_0000
  const WORD32: nat := 0x1_0000_0000
  const MAX_REQUIRED: nat := 64

  // Values of a signed integer of this width run from -Half to Half - 1.
  function Half(width: Width): int {
    if width == 1 then 0x80 else if width == 2 then 0x8000 else if width == 4 then 0x8000_0000
      else 0x8000_0000_0000_0000
  }

  predicate InSigned(n: int, width: Width) {
    -Half(width) <= n < Half(width)
  }

  predicate InUnsigned(n: int, width: Width) {
    0 <= n < 2 * Half(width)
  }

  // What the C types allow; a string is what comes before its terminator, if it has one.
  ghost predicate Typed(t: LType, v: Value)
    decreases t, 1
  {
    match t
    case BoolType => v.Num? && (v.n == 0 || v.n == 1)
    case VarintType(w) => v.Num? && InSigned(v.n, w)
    case UVarintType(w) => v.Num? && InUnsigned(v.n, w)
    case SVarintType(w) => v.Num? && InSigned(v.n, w)
    case Fixed32Type => v.Num? && InUnsigned(v.n, 4)
    case Fixed64Type => v.Num? && InUnsigned(v.n, 8)
    case BytesType(capacity) => v.Raw?
    case StringType(size) => v.Raw? && |v.bytes| <= size && 0 !in v.bytes
    case FixedBytesType(size) => v.Raw? && |v.bytes| == size
    case MessageType(fields) => v.Sub? && TypedSlots(t, v.slots)
  }

  ghost predicate TypedSlots(t: LType, slots: Message)
    requires t.MessageType?
    decreases t, 0
  {
    && |slots| == |t.fields|
    && (forall i :: 0 <= i < |slots| ==> Arity(t.fields[i].rule, |slots[i]|))
    && (forall i, j :: 0 <= i < |slots| && 0 <= j < |slots[i]| ==> Typed(t.fields[i].ltype, slots[i][j]))
    && OneAtATime(t.fields, slots)
  }

  predicate Arity(rule: Rule, n: nat) {
    match rule
    case Required => n == 1
    case Singular => n == 1
    case Optional => n <= 1
    case OneOf(g) => n <= 1
    case Repeated(max) => true
  }

  // A union holds one of its fields.
  ghost predicate OneAtATime(fields: seq<Field>, slots: Message)
    requires |slots| == |fields|
  {
    forall i, j ::
      0 <= i < |fields| && 0 <= j < |fields| && i != j && fields[i].rule.OneOf? && fields[i].rule == fields[j].rule ==>
        |slots[i]| == 0 || |slots[j]| == 0
  }

  // What the generator gives: field numbers of the protocol, each used once.
  ghost predicate WellFormed(t: LType)
    decreases t
  {
    match t
    case MessageType(fields) =>
      && (forall i :: 0 <= i < |fields| ==> 1 <= fields[i].tag < 0x2000_0000 && WellFormed(fields[i].ltype))
      && forall i, j :: 0 <= i < j < |fields| ==> fields[i].tag != fields[j].tag
    case StringType(size) => size >= 1
    case _ => true
  }

  // ------------------------------------------------------------------ defaults

  // pb_message_set_to_defaults and the zeroed memory of a new array entry
  function Default(t: LType): (v: Value)
    decreases t, 1
  {
    match t
    case BytesType(c) => Raw([])
    case StringType(n) => Raw([])
    case FixedBytesType(n) => Raw(seq(n, i => 0 as Byte))
    case MessageType(fields) => Sub(Defaults(t))
    case _ => Num(0)
  }

  function Defaults(t: LType): (slots: Message)
    requires t.MessageType?
    ensures |slots| == |t.fields|
    ensures forall i :: 0 <= i < |slots| ==>
      slots[i] == if t.fields[i].rule.Required? || t.fields[i].rule.Singular? then [Default(t.fields[i].ltype)] else []
    decreases t, 0
  {
    seq(|t.fields|, i requires 0 <= i < |t.fields| =>
      if t.fields[i].rule.Required? || t.fields[i].rule.Singular? then [Default(t.fields[i].ltype)] else [])
  }

  lemma {:induction false} DefaultTyped(t: LType)
    ensures Typed(t, Default(t))
    decreases t
  {
    if t.MessageType? {
      forall i | 0 <= i < |t.fields| ensures Typed(t.fields[i].ltype, Default(t.fields[i].ltype)) {
        DefaultTyped(t.fields[i].ltype);
      }
    }
  }

  // pb_check_proto3_default_value of a singular value; in a submessage every field counts.
  ghost predicate IsDefault(t: LType, v: Value)
    requires Typed(t, v)
    decreases t, 1
  {
    match t
    case BytesType(c) => |v.bytes| == 0
    case StringType(n) => |v.bytes| == 0
    case FixedBytesType(n) => n == 0
    case MessageType(fields) => forall i :: 0 <= i < |fields| ==> SlotIsDefault(t, v.slots, i)
    case _ => v.n == 0
  }

  ghost predicate SlotIsDefault(t: LType, slots: Message, i: nat)
    requires t.MessageType? && TypedSlots(t, slots) && i < |slots|
    decreases t, 0
  {
    match t.fields[i].rule
    case Required => false
    case Singular => IsDefault(t.fields[i].ltype, slots[i][0])
    case _ => slots[i] == []
  }

  /** A singular value that is left out of the encoding is the one the decoder starts from. */
  lemma {:induction false} OnlyTheDefault(t: LType, v: Value)
    requires Typed(t, v) && IsDefault(t, v)
    ensures v == Default(t)
    decreases t
  {
    if t.MessageType? {
      forall i | 0 <= i < |t.fields| ensures v.slots[i] == Defaults(t)[i] {
        assert SlotIsDefault(t, v.slots, i);
        if t.fields[i].rule.Singular? {
          OnlyTheDefault(t.fields[i].ltype, v.slots[i][0]);
        }
      }
      assert v.slots == Defaults(t);
    }
  }

  // ------------------------------------------------------------------ the field iterator

  // How many of the first n fields are required.
  function RequiredBefore(fields: seq<Field>, n: nat): (r: nat)
    requires n <= |fields|
    ensures r <= n
  {
    if n == 0 then 0 else RequiredBefore(fields, n - 1) + if fields[n - 1].rule.Required? then 1 else 0
  }

  class FieldIter {
    const fields: seq<Field>
    var pos: nat
    var requiredIndex: nat

    // Where an iterator over a message with fields can stand.
    ghost predicate Valid()
      reads this
    {
      (if |fields| == 0 then pos == 0 else pos < |fields|) && requiredIndex == RequiredBefore(fields, pos)
    }

    // pb_field_iter_begin; there is a first field if there is any.
    constructor (fields: seq<Field>)
      ensures Valid() && this.fields == fields && pos == 0
    {
      this.fields, pos, requiredIndex := fields, 0, 0;
    }

    // pb_field_iter_next; false when it wraps, or when there is nothing to go to.
    method Next() returns (ok: bool)
      requires Valid()
      modifies this
      ensures Valid() && ok == (old(pos) + 1 < |fields|) && pos == (if ok then old(pos) + 1 else 0)
    {
      if |fields| == 0 {
        return false;
      }
      var required := fields[pos].rule.Required?;
      pos := pos + 1;
      if pos == |fields| {
        pos, requiredIndex := 0, 0;
        return false;
      }
      if required {
        requiredIndex := requiredIndex + 1;
      }
      ok := true;
    }

    /** pb_field_iter_find: around the circle from wherever it stands.  In an empty message the
        terminator is the only entry, and its tag is 0. */
    method Find(tag: nat) returns (found: bool)
      requires Valid()
      modifies this
      ensures Valid()
      ensures |fields| > 0 ==> (found <==> exists i :: 0 <= i < |fields| && fields[i].tag == tag)
      ensures |fields| > 0 && found ==> fields[pos].tag == tag
      ensures |fields| == 0 ==> found == (tag == 0)
    {
      var start := pos;
      if (if |fields| == 0 then 0 else fields[pos].tag) == tag {
        return true;
      }
      var wrapped := Next();
      wrapped := !wrapped;
      while pos != start
        invariant Valid() && start <= |fields| && (|fields| > 0 ==> start < |fields|)
        invariant |fields| == 0 ==> pos == start
        invariant !wrapped ==> pos > start && forall i :: start <= i < pos ==> fields[i].tag != tag
        invariant |fields| > 0 && wrapped ==> pos <= start && forall i :: (0 <= i < pos || start <= i < |fields|) ==>
          fields[i].tag != tag
        decreases !wrapped, |fields| - pos
      {
        if fields[pos].tag == tag {
          return true;
        }
        var more := Next();
        wrapped := wrapped || !more;
      }
      found := false;
    }
  }
}
