/** What the result of pb_decode says about the records in its input: required
    fields came, arrays are full, and what did not come is at its default. */
module PbFields {
  import opened Wrappers
  import opened Bits
  import opened PbVarint
  import opened PbModel
  import opened PbEncoding
  import opened PbDecoding
  import opened PbMerge

  /** The tags of the records that the main loop reads. */
  function TagsRead(d: Desc, bs: Bytes, st: DecodeState): set<nat>
    requires WellFormed(d) && StateOk(d, st)
    decreases |bs|
  {
    Varint32Below(bs);
    if bs == [] then {}
    else match Varint32(bs)
      case None => {}
      case Some((key, rest)) =>
        if key == 0 then {}
        else match DecodeRecord(d, key / 8, key % 8, rest, st)
          case None => {}
          case Some((st2, rest2)) => {key / 8} + TagsRead(d, rest2, st2)
  }

  /** The loop ends at a zero key, wherever it stands between records, and leaves
      what follows unread. */
  lemma ZeroKeyEnds(d: Desc, a: Bytes, b: Bytes, st: DecodeState)
    requires WellFormed(d) && StateOk(d, st)
    requires DecodeLoop(d, a, st).Some? && !DecodeLoop(d, a, st).value.atZero
    ensures DecodeLoop(d, a + ([0] + b), st) == Some(LoopEnd(DecodeLoop(d, a, st).value.st, b, true))
  {
    hide DecodeLoop;
    LoopConcat(d, a, [0] + b, st);
    LoopIs(d, [0] + b, DecodeLoop(d, a, st).value.st);
    assert ([0] + b)[1..] == b;
  }

  // ---------------------------------------------------------------------
  // Required fields
  // ---------------------------------------------------------------------

  /** One of the required fields that have a bit. */
  predicate Tracked(d: Desc, i: nat) {
    i < |d.fields| && d.fields[i].htype.Required? && RequiredBefore(d.fields, i) < PB_MAX_REQUIRED_FIELDS
  }

  lemma {:induction false} RequiredGrows(fs: seq<Field>, i: nat, j: nat)
    requires i < j <= |fs|
    ensures RequiredBefore(fs, i) + (if fs[i].htype.Required? then 1 else 0) <= RequiredBefore(fs, j)
    decreases j
  {
    if i + 1 < j { RequiredGrows(fs, i, j - 1); }
  }

  /** No two required fields share a bit, ... */
  lemma RequiredDiffer(d: Desc, i: nat, j: nat)
    requires Tracked(d, i) && Tracked(d, j) && i != j
    ensures RequiredBefore(d.fields, i) != RequiredBefore(d.fields, j)
  {
    if i < j { RequiredGrows(d.fields, i, j); } else { RequiredGrows(d.fields, j, i); }
  }

  /** ... and every bit is one of a required field. */
  lemma {:induction false} RequiredHas(fs: seq<Field>, n: nat, r: nat) returns (i: nat)
    requires n <= |fs| && r < RequiredBefore(fs, n)
    ensures i < n && fs[i].htype.Required? && RequiredBefore(fs, i) == r
  {
    if r < RequiredBefore(fs, n - 1) { i := RequiredHas(fs, n - 1, r); } else { i := n - 1; }
  }

  /** What a record does to the bits. */
  lemma RecordMarks(d: Desc, tag: nat, wireType: nat, bs: Bytes, st: DecodeState, i: nat)
    requires WellFormed(d) && StateOk(d, st) && Tracked(d, i)
    requires DecodeRecord(d, tag, wireType, bs, st).Some?
    ensures var r := RequiredBefore(d.fields, i);
            r in DecodeRecord(d, tag, wireType, bs, st).value.0.seen <==> r in st.seen || tag == d.fields[i].tag
  {
    var j := FieldWithTag(d.fields, tag);
    if j.Some? {
      if j.value != i { TagsDiffer(d.fields, i, j.value); }
      KnownMarks(d, j.value, wireType, bs, st);
      if Tracked(d, j.value) && j.value != i { RequiredDiffer(d, i, j.value); }
    }
  }

  lemma KnownMarks(d: Desc, i: nat, wireType: nat, bs: Bytes, st: DecodeState)
    requires WellFormed(d) && StateOk(d, st) && i < |d.fields|
    requires DecodeKnown(d, i, wireType, bs, st).Some?
    ensures DecodeKnown(d, i, wireType, bs, st).value.0.seen ==
            if Tracked(d, i) then st.seen + {RequiredBefore(d.fields, i)} else st.seen
  {
  }

  /** The bit of a required field is set exactly when a record of it came. */
  lemma {:induction false} LoopMarks(d: Desc, bs: Bytes, st: DecodeState, i: nat)
    requires WellFormed(d) && StateOk(d, st) && Tracked(d, i) && DecodeLoop(d, bs, st).Some?
    ensures var r := RequiredBefore(d.fields, i);
            r in DecodeLoop(d, bs, st).value.st.seen <==> r in st.seen || d.fields[i].tag in TagsRead(d, bs, st)
    decreases |bs|
  {
    hide DecodeRecord, DecodeLoop;
    LoopIs(d, bs, st);
    if bs != [] && Varint32(bs).value.0 != 0 {
      var (key, rest) := Varint32(bs).value;
      var (st2, rest2) := DecodeRecord(d, key / 8, key % 8, rest, st).value;
      RecordMarks(d, key / 8, key % 8, rest, st, i);
      LoopMarks(d, rest2, st2, i);
    }
  }

  /** The final check, field by field. */
  lemma SeenByField(d: Desc, seen: set<nat>)
    ensures RequiredSeen(d, seen) <==>
            forall i | 0 <= i < |d.fields| && Tracked(d, i) :: RequiredBefore(d.fields, i) in seen
  {
    var fs, n := d.fields, RequiredBefore(d.fields, |d.fields|);
    forall i | 0 <= i < |fs| && Tracked(d, i) ensures RequiredSeen(d, seen) ==> RequiredBefore(fs, i) in seen {
      RequiredGrows(fs, i, |fs|);
    }
    if forall i | 0 <= i < |fs| && Tracked(d, i) :: RequiredBefore(fs, i) in seen {
      forall r: nat | r < n && r < PB_MAX_REQUIRED_FIELDS ensures r in seen {
        var i := RequiredHas(fs, |fs|, r);
        assert Tracked(d, i);
      }
    }
  }

  /** pb_decode accepts a message just when all of its records can be decoded, its
      last fixed-count array is full, and a record of every required field that
      has a bit is among them. */
  lemma RequiredEnforced(d: Desc, bs: Bytes, m: Message)
    requires WellFormed(d) && Shaped(d, m, false)
    ensures DecodeMessage(d, bs, m).Some? <==>
              && DecodeLoop(d, bs, Start(m)).Some? && FixedComplete(d, DecodeLoop(d, bs, Start(m)).value.st)
              && forall i | 0 <= i < |d.fields| && Tracked(d, i) :: d.fields[i].tag in TagsRead(d, bs, Start(m))
  {
    hide DecodeLoop, TagsRead, FixedComplete, RequiredSeen;
    if DecodeLoop(d, bs, Start(m)).Some? {
      var seen := DecodeLoop(d, bs, Start(m)).value.st.seen;
      SeenByField(d, seen);
      forall i | 0 <= i < |d.fields| && Tracked(d, i)
        ensures RequiredBefore(d.fields, i) in seen <==> d.fields[i].tag in TagsRead(d, bs, Start(m))
      {
        LoopMarks(d, bs, Start(m), i);
      }
    }
  }

  // ---------------------------------------------------------------------
  // Fields that did not come
  // ---------------------------------------------------------------------

  /** No record of a field in the slot of field `i`. */
  ghost predicate SlotUntouched(d: Desc, i: nat, tags: set<nat>)
    requires i < |d.fields|
  {
    forall j | 0 <= j < |d.fields| && SlotIndex(d.fields, j) == SlotIndex(d.fields, i) :: d.fields[j].tag !in tags
  }

  lemma RecordKeeps(d: Desc, tag: nat, wireType: nat, bs: Bytes, st: DecodeState, i: nat)
    requires WellFormed(d) && StateOk(d, st) && i < |d.fields| && DecodeRecord(d, tag, wireType, bs, st).Some?
    requires SlotUntouched(d, i, {tag})
    ensures SlotOf(d, DecodeRecord(d, tag, wireType, bs, st).value.0.msg, i, false) == SlotOf(d, st.msg, i, false)
  {
    var j := FieldWithTag(d.fields, tag);
    if j.Some? {
      assert SlotIndex(d.fields, j.value) != SlotIndex(d.fields, i);
      KnownKeeps(d, j.value, wireType, bs, st, i);
    }
  }

  lemma KnownKeeps(d: Desc, j: nat, wireType: nat, bs: Bytes, st: DecodeState, i: nat)
    requires WellFormed(d) && StateOk(d, st) && i < |d.fields| && j < |d.fields|
    requires SlotIndex(d.fields, j) != SlotIndex(d.fields, i) && DecodeKnown(d, j, wireType, bs, st).Some?
    ensures SlotOf(d, DecodeKnown(d, j, wireType, bs, st).value.0.msg, i, false) == SlotOf(d, st.msg, i, false)
  {
    hide DecodeArray, DecodeSlot;
    SlotInBounds(d, i);
  }

  /** What no record is about stays as it was. */
  lemma {:induction false} LoopKeeps(d: Desc, bs: Bytes, st: DecodeState, i: nat)
    requires WellFormed(d) && StateOk(d, st) && i < |d.fields| && DecodeLoop(d, bs, st).Some?
    requires SlotUntouched(d, i, TagsRead(d, bs, st))
    ensures SlotOf(d, DecodeLoop(d, bs, st).value.st.msg, i, false) == SlotOf(d, st.msg, i, false)
    decreases |bs|
  {
    hide DecodeRecord, DecodeLoop, StateOk, WellFormed, Shaped;
    LoopIs(d, bs, st);
    if bs != [] && Varint32(bs).value.0 != 0 {
      var (key, rest) := Varint32(bs).value;
      var (st2, rest2) := DecodeRecord(d, key / 8, key % 8, rest, st).value;
      assert TagsRead(d, bs, st) == {key / 8} + TagsRead(d, rest2, st2);
      RecordKeeps(d, key / 8, key % 8, rest, st, i);
      LoopKeeps(d, rest2, st2, i);
    }
  }

  /** A default value is the one that the descriptor gives, or else nothing:
      false, zero, no bytes, or a submessage with all of its fields like that. */
  ghost predicate InitialValue(f: Field, v: Value)
    decreases f, 0
  {
    if f.initial.Some? && !f.ltype.LSubMessage? then v == f.initial.value
    else match v
      case VBool(b) => f.ltype.LBool? && !b
      case VInt(n) => !f.ltype.LBool? && f.ltype !in {LBytes, LString, LFixedBytes} && n == 0
      case VBytes(bytes) =>
        if f.ltype.LFixedBytes? then |bytes| == f.dataSize && forall k | 0 <= k < |bytes| :: bytes[k] == 0
        else (f.ltype.LBytes? || f.ltype.LString?) && bytes == []
      case VMessage(slots) =>
        && f.ltype.LSubMessage?
        && forall i | 0 <= i < |f.ltype.desc.fields| :: InitialField(f.ltype.desc, slots, i)
      case Undefined => false
  }

  ghost predicate InitialField(d: Desc, m: Message, i: nat)
    requires i < |d.fields|
    decreases d, 0
  {
    SlotIndex(d.fields, i) < |m| && InitialSlot(d.fields[i], m[SlotIndex(d.fields, i)])
  }

  /** No presence flag is set, no entry is counted, and no member of a union is
      chosen. */
  ghost predicate InitialSlot(f: Field, s: Slot)
    decreases f, 1
  {
    match s
    case One(v) => InitialValue(f, v)
    case Maybe(has, v) => !has && InitialValue(f, v)
    case Many(items) => items == []
    case FixedMany(items) => |items| == f.arraySize
    case Union(which, _) => which == 0
  }

  lemma {:induction false} DefaultsInitial(d: Desc, i: nat)
    requires WellFormed(d) && i < |d.fields|
    ensures InitialField(d, Defaults(d), i)
    decreases d, 0
  {
    DefaultsAt(d, |d.fields|, i);
    assert WellFormedField(d.fields[i]);
    DefaultSlotInitial(d.fields[i]);
  }

  lemma DefaultSlotInitial(f: Field)
    requires WellFormedField(f)
    ensures InitialSlot(f, DefaultSlot(f))
    decreases f, 1
  {
    DefaultValueInitial(f);
  }

  lemma {:induction false} DefaultValueInitial(f: Field)
    requires WellFormedField(f)
    ensures InitialValue(f, DefaultValue(f))
    decreases f, 0
  {
    if f.ltype.LSubMessage? {
      var d := f.ltype.desc;
      forall i | 0 <= i < |d.fields| ensures InitialField(d, Defaults(d), i) { DefaultsInitial(d, i); }
      assert DefaultValue(f) == VMessage(Defaults(d));
    }
  }

  /** The struct that pb_decode starts from. */
  function Fresh(d: Desc): (m: Message)
    requires WellFormed(d)
    ensures Shaped(d, m, false) && m == Defaults(d)
  {
    DefaultsShaped(d);
    Defaults(d)
  }

  /** A field of which no record came is at its default after pb_decode. */
  lemma AbsentIsInitial(d: Desc, bs: Bytes, i: nat)
    requires WellFormed(d) && i < |d.fields| && DecodeMessage(d, bs, Fresh(d)).Some?
    requires SlotUntouched(d, i, TagsRead(d, bs, Start(Fresh(d))))
    ensures InitialSlot(d.fields[i], SlotOf(d, DecodeMessage(d, bs, Fresh(d)).value.0, i, false))
  {
    hide DecodeLoop, TagsRead, InitialSlot;
    LoopKeeps(d, bs, Start(Fresh(d)), i);
    DefaultsInitial(d, i);
    InitialAt(d, Fresh(d), i);
  }

  lemma InitialAt(d: Desc, m: Message, i: nat)
    requires i < |d.fields| && Shaped(d, m, false) && InitialField(d, m, i)
    ensures InitialSlot(d.fields[i], SlotOf(d, m, i, false))
  {
  }

  // ---------------------------------------------------------------------
  // Fixed-count arrays
  // ---------------------------------------------------------------------

  /** Every entry has a value. */
  ghost predicate ArrayFull(f: Field, s: Slot) {
    s.FixedMany? && |s.items| == f.arraySize && forall k | 0 <= k < |s.items| :: ValueOk(f, s.items[k], false)
  }

  /** Array `j` is full, or being received. */
  ghost predicate FullOrEntered(d: Desc, j: nat, st: DecodeState)
    requires j < |d.fields| && StateOk(d, st)
  {
    st.fixedField == Some(j) || ArrayFull(d.fields[j], SlotOf(d, st.msg, j, false))
  }

  lemma CompleteIsFull(d: Desc, j: nat, st: DecodeState)
    requires j < |d.fields| && StateOk(d, st) && FixedComplete(d, st) && d.fields[j].FixedCount() && FullOrEntered(d, j, st)
    ensures ArrayFull(d.fields[j], SlotOf(d, st.msg, j, false))
  {
  }

  lemma OwnSlot(d: Desc, i: nat, j: nat)
    requires i < |d.fields| && j < |d.fields| && i != j && d.fields[j].FixedCount()
    ensures SlotIndex(d.fields, i) != SlotIndex(d.fields, j)
  {
    if SlotIndex(d.fields, i) == SlotIndex(d.fields, j) { SharedSlotIsUnion(d.fields, i, j); }
  }

  lemma KnownFills(d: Desc, i: nat, wireType: nat, bs: Bytes, st: DecodeState, j: nat)
    requires WellFormed(d) && StateOk(d, st) && i < |d.fields| && j < |d.fields| && d.fields[j].FixedCount()
    requires DecodeKnown(d, i, wireType, bs, st).Some? && (i == j || FullOrEntered(d, j, st))
    ensures FullOrEntered(d, j, DecodeKnown(d, i, wireType, bs, st).value.0)
  {
    hide DecodeArray, DecodeSlot, StateOk, Shaped, FixedComplete, ArrayFull;
    if i != j {
      OwnSlot(d, i, j);
      KnownKeeps(d, i, wireType, bs, st, j);
      if st.fixedField == Some(j) && FixedComplete(d, st) { CompleteIsFull(d, j, st); }
    }
  }

  lemma RecordFills(d: Desc, tag: nat, wireType: nat, bs: Bytes, st: DecodeState, j: nat)
    requires WellFormed(d) && StateOk(d, st) && j < |d.fields| && d.fields[j].FixedCount()
    requires DecodeRecord(d, tag, wireType, bs, st).Some? && (tag == d.fields[j].tag || FullOrEntered(d, j, st))
    ensures FullOrEntered(d, j, DecodeRecord(d, tag, wireType, bs, st).value.0)
  {
    hide DecodeKnown, FullOrEntered;
    var i := FieldWithTag(d.fields, tag);
    if i.Some? {
      if i.value != j { TagsDiffer(d.fields, i.value, j); }
      KnownFills(d, i.value, wireType, bs, st, j);
    } else {
      SameFull(d, j, st, DecodeRecord(d, tag, wireType, bs, st).value.0);
    }
  }

  lemma SameFull(d: Desc, j: nat, st: DecodeState, st2: DecodeState)
    requires j < |d.fields| && StateOk(d, st) && FullOrEntered(d, j, st) && StateOk(d, st2)
    requires st2.msg == st.msg && st2.fixedField == st.fixedField
    ensures FullOrEntered(d, j, st2)
  {
  }

  lemma {:induction false} LoopFills(d: Desc, bs: Bytes, st: DecodeState, j: nat)
    requires WellFormed(d) && StateOk(d, st) && j < |d.fields| && d.fields[j].FixedCount() && DecodeLoop(d, bs, st).Some?
    requires d.fields[j].tag in TagsRead(d, bs, st) || FullOrEntered(d, j, st)
    ensures FullOrEntered(d, j, DecodeLoop(d, bs, st).value.st)
    decreases |bs|
  {
    hide DecodeRecord, DecodeLoop, StateOk, WellFormed, FullOrEntered;
    LoopIs(d, bs, st);
    if bs != [] && Varint32(bs).value.0 != 0 {
      var (key, rest) := Varint32(bs).value;
      var (st2, rest2) := DecodeRecord(d, key / 8, key % 8, rest, st).value;
      assert TagsRead(d, bs, st) == {key / 8} + TagsRead(d, rest2, st2);
      if key / 8 == d.fields[j].tag || FullOrEntered(d, j, st) { RecordFills(d, key / 8, key % 8, rest, st, j); }
      LoopFills(d, rest2, st2, j);
    }
  }

  /** pb_decode accepts no partial fixed-count array: where one came, each of its
      entries has a value in the end. */
  lemma ArraysFilled(d: Desc, bs: Bytes, m: Message, j: nat)
    requires WellFormed(d) && Shaped(d, m, false) && j < |d.fields| && d.fields[j].FixedCount()
    requires DecodeMessage(d, bs, m).Some? && d.fields[j].tag in TagsRead(d, bs, Start(m))
    ensures ArrayFull(d.fields[j], SlotOf(d, DecodeMessage(d, bs, m).value.0, j, false))
  {
    hide DecodeLoop, TagsRead, FixedComplete, FullOrEntered, ArrayFull;
    LoopFills(d, bs, Start(m), j);
    CompleteIsFull(d, j, DecodeLoop(d, bs, Start(m)).value.st);
  }
}
