/** The field iterator of pb_common.c. */
module PbCommon {
  import opened Wrappers
  import opened PbModel
  import opened PbDecoding

  /** PB_LAST_FIELD. */
  const LAST_FIELD: Field := Field(0, LBool, Required, 0, 0, 0, 0, None)

  /** What iter->pos points at. */
  function FieldAt(fs: seq<Field>, i: nat): Field {
    if i < |fs| then fs[i] else LAST_FIELD
  }

  /** The bytes a field takes in the struct. */
  function SizeInStruct(f: Field): nat {
    if f.htype.Repeated? then f.dataSize * f.arraySize else f.dataSize
  }

  /** Where the data of field `i` is: offsets are relative to the end of the
      previous field, and the members of a union share one place. */
  function DataOffset(fs: seq<Field>, i: nat): nat
    requires i <= |fs|
  {
    if i == 0 then FieldAt(fs, 0).dataOffset
    else if SameUnion(fs[i - 1], FieldAt(fs, i)) then DataOffset(fs, i - 1)
    else DataOffset(fs, i - 1) + SizeInStruct(fs[i - 1]) + FieldAt(fs, i).dataOffset
  }

  /** Where its has_, _count or which_ companion is, relative to the data. */
  function CompanionOffset(fs: seq<Field>, i: nat): int
    requires i <= |fs|
  {
    if i > 0 && SameUnion(fs[i - 1], FieldAt(fs, i)) then CompanionOffset(fs, i - 1) else FieldAt(fs, i).sizeOffset
  }

  /** Fields that share a slot share their place in the struct, ... */
  lemma {:induction false} SameSlotSamePlace(fs: seq<Field>, i: nat, j: nat)
    requires i <= j < |fs| && SlotIndex(fs, i) == SlotIndex(fs, j)
    ensures DataOffset(fs, i) == DataOffset(fs, j) && CompanionOffset(fs, i) == CompanionOffset(fs, j)
    decreases j
  {
    if i < j {
      SlotIndexMonotone(fs, i, j - 1);
      SameSlotSamePlace(fs, i, j - 1);
    }
  }

  /** ... and a field with a slot of its own ends before any later one starts. */
  lemma {:induction false} SlotsDoNotOverlap(fs: seq<Field>, i: nat, j: nat)
    requires i < j < |fs| && SlotIndex(fs, i) < SlotIndex(fs, j)
    requires !fs[i].htype.OneOf?
    ensures DataOffset(fs, i) + SizeInStruct(fs[i]) <= DataOffset(fs, j)
    decreases j
  {
    if i < j - 1 {
      SlotIndexMonotone(fs, i, j - 1);
      SlotsDoNotOverlap(fs, i, j - 1);
    }
  }

  /** Where the local counter of pb_decode_noinit is: not in any struct. */
  const COUNTER: int := -1

  /** pb_field_iter_t over the struct at address `dest`. */
  class FieldIter {
    const fields: seq<Field>
    const dest: nat
    var pos: nat
    var pData: int
    var pSize: int
    var requiredFieldIndex: nat

    /** The iterator stands on a field, or on the terminator of an empty
        descriptor, and everything else follows from where it stands. */
    ghost predicate Valid()
      reads this
    {
      Placed() && pSize == pData + CompanionOffset(fields, pos)
    }

    /** The same, but the size pointer may have been led to the counter of
        a fixed-count array. */
    ghost predicate Placed()
      reads this
    {
      && (pos < |fields| || (fields == [] && pos == 0))
      && pData == dest + DataOffset(fields, pos)
      && requiredFieldIndex == RequiredBefore(fields, pos)
      && (pSize == pData + CompanionOffset(fields, pos) || (pSize == COUNTER && FieldAt(fields, pos).htype.Repeated?))
    }

    /** pb_field_iter_begin on a new iterator. */
    constructor (fields: seq<Field>, dest: nat)
      ensures Valid() && this.fields == fields && this.dest == dest && pos == 0
    {
      this.fields, this.dest := fields, dest;
      pos := 0;
      requiredFieldIndex := 0;
      pData := dest + FieldAt(fields, 0).dataOffset;
      pSize := dest + FieldAt(fields, 0).dataOffset + FieldAt(fields, 0).sizeOffset;
    }

    /** pb_field_iter_begin. */
    method Begin() returns (nonEmpty: bool)
      modifies this
      ensures Valid() && pos == 0 && nonEmpty == (FieldAt(fields, 0).tag != 0)
    {
      pos := 0;
      requiredFieldIndex := 0;
      pData := dest + FieldAt(fields, pos).dataOffset;
      pSize := pData + FieldAt(fields, pos).sizeOffset;
      return FieldAt(fields, pos).tag != 0;
    }

    /** pb_field_iter_next: the next field, or back to the first with `false`. */
    method Next() returns (more: bool)
      requires Placed() && forall i | 0 <= i < |fields| :: fields[i].tag > 0
      modifies this
      ensures Valid()
      ensures fields == [] ==> !more && pos == 0
      ensures fields != [] ==> more == (old(pos) + 1 < |fields|) && pos == if more then old(pos) + 1 else 0
    {
      var prev := FieldAt(fields, pos);
      if prev.tag == 0 { return false; }
      pos := pos + 1;
      if FieldAt(fields, pos).tag == 0 {
        var _ := Begin();
        return false;
      }
      var here := FieldAt(fields, pos);
      if prev.htype.OneOf? && here.htype.OneOf? && here.dataOffset == PB_SIZE_MAX {
        return true;
      }
      var prevSize := prev.dataSize;
      if prev.htype.Repeated? { prevSize := prevSize * prev.arraySize; }
      if prev.htype.Required? { requiredFieldIndex := requiredFieldIndex + 1; }
      pData := pData + prevSize + here.dataOffset;
      pSize := pData + here.sizeOffset;
      return true;
    }

    /** pb_field_iter_find: stops at the field with the tag if there is one,
        within one lap; otherwise the iterator is as it was. `steps` counts the
        calls of next, of which an empty descriptor takes one too. */
    method Find(tag: nat) returns (found: bool, ghost steps: nat)
      requires Placed() && forall i | 0 <= i < |fields| :: fields[i].tag > 0
      modifies this
      ensures Placed() && steps <= if fields == [] then 1 else |fields|
      ensures found && fields != [] ==> steps < |fields|
      ensures found <==> FieldAt(fields, pos).tag == tag
      ensures found <==> (exists i | 0 <= i < |fields| :: fields[i].tag == tag) || (fields == [] && tag == 0)
      ensures !found ==> Valid() && pos == old(pos)
      ensures steps > 0 ==> Valid()
      ensures steps == 0 ==> found && unchanged(this)
    {
      var start := pos;
      steps := 0;
      // passed: the fields between start and pos, cyclically
      while true
        invariant Placed() && steps <= |fields|
        invariant if steps == 0 then unchanged(this) else Valid()
        invariant fields != [] ==> steps < |fields|
        invariant fields != [] ==> pos == if start + steps < |fields| then start + steps else start + steps - |fields|
        invariant fields == [] ==> steps == 0
        invariant forall k | start <= k < start + steps && k < |fields| :: fields[k].tag != tag
        invariant forall k | 0 <= k < start + steps - |fields| :: fields[k].tag != tag
        decreases |fields| - steps
      {
        if FieldAt(fields, pos).tag == tag { return true, steps; }
        var _ := Next();
        steps := steps + 1;
        if pos == start { break; }
      }
      return false, steps;
    }
  }
}
