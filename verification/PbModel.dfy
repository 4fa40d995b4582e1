/** Field descriptors (pb_field_t) and the message structs they describe. */
module PbModel {
  import opened Wrappers
  import opened Bits
  import opened PbVarint

  /** pb_size_t is 32 bits wide (PB_FIELD_32BIT). */
  const PB_SIZE_MAX: int := 0xFFFF_FFFF
  const PB_MAX_REQUIRED_FIELDS: nat := 64

  /** offsetof(pb_bytes_array_t, bytes). */
  const BYTES_HEADER: nat := 4

  // ---------------------------------------------------------------------
  // Descriptors
  // ---------------------------------------------------------------------

  datatype LType =
    | LBool
    | LVarint
    | LUVarint
    | LSVarint
    | LFixed32
    | LFixed64
    | LBytes
    | LString
    | LSubMessage(desc: Desc)
    | LFixedBytes

  datatype HType = Required | Optional | Repeated | OneOf

  /** pb_field_t with static allocation. `ptr` is split in two: the submessage
      descriptor is part of `ltype`, an explicit default value is `initial`. */
  datatype Field = Field(
    tag: nat,
    ltype: LType,
    htype: HType,
    dataOffset: nat,
    sizeOffset: int,
    dataSize: nat,
    arraySize: nat,
    initial: Option<Value>)
  {
    /** PB_LTYPE(type) <= PB_LTYPE_LAST_PACKABLE. */
    predicate Packable() {
      !ltype.LBytes? && !ltype.LString? && !ltype.LSubMessage? && !ltype.LFixedBytes?
    }

    /** A repeated field without a count in the struct. */
    predicate FixedCount() {
      htype.Repeated? && sizeOffset == 0
    }
  }

  datatype Desc = Desc(fields: seq<Field>)

  /** A later member of a union shares the location of the earlier ones. */
  predicate SameUnion(prev: Field, next: Field) {
    prev.htype.OneOf? && next.htype.OneOf? && next.dataOffset == PB_SIZE_MAX
  }

  /** What a generated descriptor guarantees. */
  ghost predicate WellFormed(d: Desc)
    decreases d
  {
    && (forall i {:trigger WellFormedField(d.fields[i])} | 0 <= i < |d.fields| :: WellFormedField(d.fields[i]))
    && DistinctTags(d.fields)
  }

  lemma TagsPositive(d: Desc)
    requires WellFormed(d)
    ensures forall i | 0 <= i < |d.fields| :: d.fields[i].tag > 0
  {
    forall i | 0 <= i < |d.fields| ensures d.fields[i].tag > 0 { assert WellFormedField(d.fields[i]); }
  }

  ghost predicate DistinctTags(fs: seq<Field>) {
    forall i, j | 0 <= i < j < |fs| :: TagAt(fs, i) != TagAt(fs, j)
  }

  ghost function TagAt(fs: seq<Field>, i: nat): nat
    requires i < |fs|
  {
    fs[i].tag
  }

  ghost predicate WellFormedField(f: Field)
    decreases f
  {
    && 0 < f.tag < 0x2000_0000
    && (f.htype.OneOf? ==> f.sizeOffset != 0)
    && (f.initial.Some? ==> !f.ltype.LSubMessage? && ValueOk(f, f.initial.value, true))
    && f.dataSize <= PB_SIZE_MAX && f.arraySize <= PB_SIZE_MAX
    && (f.ltype.LSubMessage? ==> WellFormed(f.ltype.desc))
  }

  // ---------------------------------------------------------------------
  // Structs
  // ---------------------------------------------------------------------

  /** The contents of one item. `Undefined` is memory that neither the caller
      nor the library has given a meaning. */
  datatype Value =
    | VBool(b: bool)
    | VInt(n: int)
    | VBytes(bytes: Bytes)
    | VMessage(slots: Message)
    | Undefined

  /** One member of the struct with its has_, _count or which_ companion. */
  datatype Slot =
    | One(v: Value)
    | Maybe(has: bool, v: Value)
    | Many(items: seq<Value>)
    | FixedMany(items: seq<Value>)
    | Union(which: nat, v: Value)

  type Message = seq<Slot>

  /** The number of the slot of field `i`: one per field, but one for all the
      members of a union. */
  function SlotIndex(fs: seq<Field>, i: nat): (s: nat)
    requires i < |fs|
    ensures s <= i
  {
    if i == 0 then 0
    else SlotIndex(fs, i - 1) + (if SameUnion(fs[i - 1], fs[i]) then 0 else 1)
  }

  function SlotCount(d: Desc): nat {
    if d.fields == [] then 0 else SlotIndex(d.fields, |d.fields| - 1) + 1
  }

  lemma {:induction false} SlotIndexMonotone(fs: seq<Field>, i: nat, j: nat)
    requires i <= j < |fs|
    ensures SlotIndex(fs, i) <= SlotIndex(fs, j)
    ensures i < j && SlotIndex(fs, i) == SlotIndex(fs, j) ==> fs[i].htype.OneOf? && fs[j].htype.OneOf?
    decreases j
  {
    if i < j { SlotIndexMonotone(fs, i, j - 1); }
  }

  /** Field `i` has a slot in every message. */
  lemma SlotInBounds(d: Desc, i: nat)
    requires i < |d.fields|
    ensures SlotIndex(d.fields, i) < SlotCount(d)
  {
    SlotIndexMonotone(d.fields, i, |d.fields| - 1);
  }

  predicate ValidIntSize(size: nat) {
    size == 1 || size == 2 || size == 4 || size == 8
  }

  function SignedLimit(size: nat): int {
    if size == 1 then 0x80 else if size == 2 then 0x8000 else if size == 4 then TWO_31 else TWO_63
  }

  /** `v` is a value of the C type of field `f`. With `strict`, no part of it
      is undefined. */
  ghost predicate ValueOk(f: Field, v: Value, strict: bool)
    decreases f, 0
  {
    match f.ltype
    case LBool => v.VBool?
    case LVarint => v.VInt? && -SignedLimit(f.dataSize) <= v.n < SignedLimit(f.dataSize)
    case LSVarint => v.VInt? && -SignedLimit(f.dataSize) <= v.n < SignedLimit(f.dataSize)
    case LUVarint => v.VInt? && 0 <= v.n < 2 * SignedLimit(f.dataSize)
    case LFixed32 => v.VInt? && 0 <= v.n < TWO_32
    case LFixed64 => v.VInt? && 0 <= v.n < TWO_64
    case LBytes => v.VBytes? && |v.bytes| <= PB_SIZE_MAX
    case LString => v.VBytes? && |v.bytes| <= f.dataSize
    case LFixedBytes => v.VBytes? && |v.bytes| == f.dataSize
    case LSubMessage(d) => v.VMessage? && Shaped(d, v.slots, strict)
  }

  ghost predicate SlotOk(f: Field, s: Slot, strict: bool)
    decreases f, 1
  {
    match f.htype
    case Required => s.One? && ValueOk(f, s.v, strict)
    case Optional =>
      if f.sizeOffset == 0 then s.One? && ValueOk(f, s.v, strict) else s.Maybe? && ValueOk(f, s.v, strict)
    case Repeated =>
      if f.sizeOffset == 0
      then s.FixedMany? && |s.items| == f.arraySize
           && forall k | 0 <= k < |s.items| :: ValueOk(f, s.items[k], strict) || (!strict && s.items[k].Undefined?)
      else s.Many? && |s.items| <= PB_SIZE_MAX && forall k | 0 <= k < |s.items| :: ValueOk(f, s.items[k], strict)
    case OneOf => s.Union? && (s.which == f.tag ==> ValueOk(f, s.v, strict))
  }

  /** The struct `m` has the layout that `d` describes. */
  ghost predicate Shaped(d: Desc, m: Message, strict: bool)
    decreases d, 2
  {
    && |m| == SlotCount(d)
    && forall i {:trigger FieldShaped(d, m, i, strict)} | 0 <= i < |d.fields| :: FieldShaped(d, m, i, strict)
  }

  ghost predicate FieldShaped(d: Desc, m: Message, i: nat, strict: bool)
    requires i < |d.fields|
    decreases d, 1
  {
    SlotIndex(d.fields, i) < |m| && SlotOk(d.fields[i], m[SlotIndex(d.fields, i)], strict)
  }

  /** The slot of field `i`. */
  function SlotOf(d: Desc, m: Message, i: nat, ghost strict: bool): (s: Slot)
    requires i < |d.fields| && Shaped(d, m, strict)
    ensures SlotOk(d.fields[i], s, strict)
  {
    assert FieldShaped(d, m, i, strict);
    m[SlotIndex(d.fields, i)]
  }

  /** The struct with another value in the slot of field `i`. A union then
      holds this field, so the other members do not mind. */
  function Put(d: Desc, m: Message, i: nat, slot: Slot): (r: Message)
    requires i < |d.fields| && Shaped(d, m, false) && DistinctTags(d.fields)
    requires SlotOk(d.fields[i], slot, false) && (slot.Union? ==> slot.which == d.fields[i].tag)
    ensures Shaped(d, r, false) && SlotOf(d, r, i, false) == slot
    ensures forall j: nat {:trigger SlotOf(d, r, j, false)} |
              j < |d.fields| && SlotIndex(d.fields, j) != SlotIndex(d.fields, i) ::
              SlotOf(d, r, j, false) == SlotOf(d, m, j, false)
  {
    SlotInBounds(d, i);
    PutShaped(d, m, i, slot);
    var r := m[SlotIndex(d.fields, i) := slot];
    assert forall j: nat | j < |d.fields| && SlotIndex(d.fields, j) != SlotIndex(d.fields, i) ::
        SlotOf(d, r, j, false) == SlotOf(d, m, j, false) by {
      forall j: nat | j < |d.fields| && SlotIndex(d.fields, j) != SlotIndex(d.fields, i)
        ensures SlotOf(d, r, j, false) == SlotOf(d, m, j, false)
      {
        SlotInBounds(d, j);
      }
    }
    r
  }

  lemma PutShaped(d: Desc, m: Message, i: nat, slot: Slot)
    requires i < |d.fields| && Shaped(d, m, false) && SlotIndex(d.fields, i) < |m|
    requires SlotOk(d.fields[i], slot, false) && (slot.Union? ==> slot.which == d.fields[i].tag)
    requires DistinctTags(d.fields)
    ensures Shaped(d, m[SlotIndex(d.fields, i) := slot], false)
  {
    var r := m[SlotIndex(d.fields, i) := slot];
    forall j: nat | j < |d.fields| ensures FieldShaped(d, r, j, false) {
      assert FieldShaped(d, m, j, false);
      if SlotIndex(d.fields, j) == SlotIndex(d.fields, i) && j != i {
        SharedSlotIsUnion(d.fields, i, j);
        TagsDiffer(d.fields, i, j);
      }
    }
    assert Shaped(d, r, false);
  }

  lemma TagsDiffer(fs: seq<Field>, i: nat, j: nat)
    requires i < |fs| && j < |fs| && i != j && DistinctTags(fs)
    ensures fs[i].tag != fs[j].tag
  {
    assert TagAt(fs, i) != TagAt(fs, j);
  }

  lemma SharedSlotIsUnion(fs: seq<Field>, i: nat, j: nat)
    requires i < |fs| && j < |fs| && i != j && SlotIndex(fs, i) == SlotIndex(fs, j)
    ensures fs[i].htype.OneOf? && fs[j].htype.OneOf?
  {
    if i < j { SlotIndexMonotone(fs, i, j); } else { SlotIndexMonotone(fs, j, i); }
  }

  // ---------------------------------------------------------------------
  // Default values: pb_message_set_to_defaults
  // ---------------------------------------------------------------------

  function Zeros(n: nat): (z: Bytes)
    ensures |z| == n
  {
    seq(n, _ => 0)
  }

  function DefaultValue(f: Field): Value
    decreases f, 0
  {
    match f.ltype
    case LSubMessage(d) => VMessage(Defaults(d))
    case LBool => if f.initial.Some? then f.initial.value else VBool(false)
    case LBytes => if f.initial.Some? then f.initial.value else VBytes([])
    case LString => if f.initial.Some? then f.initial.value else VBytes([])
    case LFixedBytes => if f.initial.Some? then f.initial.value else VBytes(Zeros(f.dataSize))
    case _ => if f.initial.Some? then f.initial.value else VInt(0)
  }

  /** pb_field_set_to_default. */
  function DefaultSlot(f: Field): Slot
    decreases f, 1
  {
    match f.htype
    case Required => One(DefaultValue(f))
    case Optional => if f.sizeOffset == 0 then One(DefaultValue(f)) else Maybe(false, DefaultValue(f))
    case Repeated => if f.sizeOffset == 0 then FixedMany(seq(f.arraySize, _ => Undefined)) else Many([])
    case OneOf => Union(0, Undefined)
  }

  function Defaults(d: Desc): (m: Message)
    ensures |m| == SlotCount(d)
    decreases d, 1
  {
    DefaultsUpTo(d, |d.fields|)
  }

  /** The slots of the first `n` fields. */
  function DefaultsUpTo(d: Desc, n: nat): (m: Message)
    requires n <= |d.fields|
    ensures |m| == if n == 0 then 0 else SlotIndex(d.fields, n - 1) + 1
    decreases d, 0, n
  {
    if n == 0 then []
    else if n > 1 && SameUnion(d.fields[n - 2], d.fields[n - 1]) then DefaultsUpTo(d, n - 1)
    else DefaultsUpTo(d, n - 1) + [DefaultSlot(d.fields[n - 1])]
  }

  lemma {:induction false} DefaultsAt(d: Desc, n: nat, i: nat)
    requires i < n <= |d.fields|
    ensures SlotIndex(d.fields, i) < |DefaultsUpTo(d, n)|
    ensures DefaultsUpTo(d, n)[SlotIndex(d.fields, i)] == DefaultSlot(d.fields[i])
    decreases n
  {
    SlotIndexMonotone(d.fields, i, n - 1);
    if i < n - 1 {
      DefaultsAt(d, n - 1, i);
    } else if n > 1 && SameUnion(d.fields[n - 2], d.fields[n - 1]) {
      DefaultsAt(d, n - 1, i - 1);
    }
  }

  /** The defaults have the layout of the struct. */
  lemma {:induction false} DefaultsShaped(d: Desc)
    requires WellFormed(d)
    ensures Shaped(d, Defaults(d), false)
    decreases d, 1
  {
    hide SlotOk, DefaultSlot, WellFormedField;
    forall i: nat | i < |d.fields|
      ensures FieldShaped(d, Defaults(d), i, false)
    {
      DefaultsAt(d, |d.fields|, i);
      assert WellFormedField(d.fields[i]);
      DefaultSlotOk(d.fields[i]);
    }
  }

  lemma {:induction false} DefaultSlotOk(f: Field)
    requires WellFormedField(f)
    ensures SlotOk(f, DefaultSlot(f), false)
    decreases f, 0
  {
    if f.ltype.LSubMessage? { DefaultsShaped(f.ltype.desc); }
  }
}
