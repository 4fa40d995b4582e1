/** Which messages come back from encoding and decoding exactly as they were. */
module PbNormal {
  import opened Wrappers
  import opened Bits
  import opened PbModel
  import opened PbEncoding
  import opened PbDecoding
  import opened PbRoundTrip

  /** A string has nothing behind its NUL, here and in submessages. */
  ghost predicate NormalValue(f: Field, v: Value)
    requires ValueOk(f, v, true)
    decreases f, 0
  {
    match f.ltype
    case LString => forall k | 0 <= k < |v.bytes| :: v.bytes[k] != 0
    case LSubMessage(d) => Normal(d, v.slots)
    case _ => true
  }

  ghost predicate NormalItems(f: Field, items: seq<Value>)
    requires forall k | 0 <= k < |items| :: ValueOk(f, items[k], true)
    decreases f, 1
  {
    forall k | 0 <= k < |items| :: NormalValue(f, items[k])
  }

  /** No junk in the slot of field `i`: the value of an optional field that is not
      there is its default, a field with an explicit default and no presence flag
      is not zero unless that is the default, and a union holds one of its members
      or nothing. */
  ghost predicate NormalField(d: Desc, m: Message, i: nat)
    requires Shaped(d, m, true) && i < |d.fields|
    decreases d, 0
  {
    var f, s := d.fields[i], SlotOf(d, m, i, true);
    match s
    case One(v) => NormalValue(f, v) && (f.initial.Some? && IsProto3Default(f, s) ==> v == f.initial.value)
    case Maybe(has, v) => if has then NormalValue(f, v) else v == DefaultValue(f)
    case Many(items) => NormalItems(f, items)
    case FixedMany(items) => NormalItems(f, items)
    case Union(which, v) =>
      if which == 0 then v == Undefined
      else exists j {:trigger d.fields[j]} :: 0 <= j < |d.fields| && SlotIndex(d.fields, j) == SlotIndex(d.fields, i)
                                           && d.fields[j].tag == which && NormalMember(d, m, j)
  }

  ghost predicate NormalMember(d: Desc, m: Message, j: nat)
    requires Shaped(d, m, true) && j < |d.fields|
    decreases d, 0, 0
  {
    var s := SlotOf(d, m, j, true);
    s.Union? && s.which == d.fields[j].tag && NormalValue(d.fields[j], s.v)
  }

  ghost predicate Normal(d: Desc, m: Message)
    requires Shaped(d, m, true)
    decreases d, 1
  {
    forall i {:trigger NormalField(d, m, i)} | 0 <= i < |d.fields| :: NormalField(d, m, i)
  }

  // ---------------------------------------------------------------------
  // Values
  // ---------------------------------------------------------------------

  lemma {:induction false} NormalValueKept(f: Field, v: Value)
    requires WellFormedField(f) && ValueOk(f, v, true) && NormalValue(f, v)
    ensures CanonValue(f, v) == v
    decreases f, 0
  {
    if f.ltype.LSubMessage? {
      NormalIsKept(f.ltype.desc, v.slots);
    } else if f.ltype.LString? {
      assert CString(v.bytes) == v.bytes;
    }
  }

  lemma {:induction false} NormalItemsKept(f: Field, items: seq<Value>)
    requires WellFormedField(f) && (forall k | 0 <= k < |items| :: ValueOk(f, items[k], true)) && NormalItems(f, items)
    ensures CanonItems(f, items) == items
    decreases f, 1
  {
    forall k | 0 <= k < |items| ensures CanonValue(f, items[k]) == items[k] { NormalValueKept(f, items[k]); }
  }

  // ---------------------------------------------------------------------
  // Slots
  // ---------------------------------------------------------------------

  /** Every slot is one of a field. */
  lemma {:induction false} SlotHasField(fs: seq<Field>, n: nat, s: nat) returns (i: nat)
    requires 0 < n <= |fs| && s <= SlotIndex(fs, n - 1)
    ensures i < n && SlotIndex(fs, i) == s
  {
    if SlotIndex(fs, n - 1) == s { i := n - 1; } else { i := SlotHasField(fs, n - 1, s); }
  }

  /** Nothing of a slot is on the wire. */
  ghost predicate NonePresent(d: Desc, m: Message, i: nat)
    requires Shaped(d, m, true) && i < |d.fields|
  {
    forall j: nat {:trigger SlotOf(d, m, j, true)} |
      j < |d.fields| && SlotIndex(d.fields, j) == SlotIndex(d.fields, i) :: !Present(d.fields[j], SlotOf(d, m, j, true))
  }

  lemma AloneInSlot(d: Desc, m: Message, i: nat)
    requires Shaped(d, m, true) && i < |d.fields| && !d.fields[i].htype.OneOf?
    requires !Present(d.fields[i], SlotOf(d, m, i, true))
    ensures NonePresent(d, m, i)
  {
    forall j: nat | j < |d.fields| && SlotIndex(d.fields, j) == SlotIndex(d.fields, i)
      ensures !Present(d.fields[j], SlotOf(d, m, j, true))
    {
      if j != i { SharedSlotIsUnion(d.fields, i, j); }
    }
  }

  ghost predicate SlotKept(d: Desc, m: Message, i: nat)
    requires Shaped(d, m, true) && i < |d.fields|
  {
    SlotIndex(d.fields, i) < |Canon(d, m)| && Canon(d, m)[SlotIndex(d.fields, i)] == SlotOf(d, m, i, true)
  }

  lemma PresentKept(d: Desc, m: Message, i: nat)
    requires WellFormed(d) && Shaped(d, m, true) && i < |d.fields| && Present(d.fields[i], SlotOf(d, m, i, true))
    requires CanonSlot(d.fields[i], SlotOf(d, m, i, true)) == SlotOf(d, m, i, true)
    ensures SlotKept(d, m, i)
  {
    CanonPresent(d, m, i);
  }

  lemma AbsentKept(d: Desc, m: Message, i: nat)
    requires WellFormed(d) && Shaped(d, m, true) && i < |d.fields| && NonePresent(d, m, i)
    requires DefaultSlot(d.fields[i]) == SlotOf(d, m, i, true)
    ensures SlotKept(d, m, i)
  {
    CanonAbsent(d, m, i);
  }

  lemma SingularKept(d: Desc, m: Message, i: nat)
    requires WellFormed(d) && Shaped(d, m, true) && i < |d.fields| && NormalField(d, m, i)
    requires d.fields[i].htype.Optional? && d.fields[i].sizeOffset == 0
    requires ValueOk(d.fields[i], SlotOf(d, m, i, true).v, true)
    requires CanonValue(d.fields[i], SlotOf(d, m, i, true).v) == SlotOf(d, m, i, true).v
    ensures SlotKept(d, m, i)
  {
    hide Canon, Shaped, ValueOk, CanonValue, NormalValue;
    assert WellFormedField(d.fields[i]);
    SingularSurvives(d, m, i);
  }

  lemma NoItemsKept(d: Desc, m: Message, i: nat)
    requires WellFormed(d) && Shaped(d, m, true) && i < |d.fields| && NonePresent(d, m, i)
    requires d.fields[i].htype.Repeated? && SlotOf(d, m, i, true).items == []
    ensures SlotKept(d, m, i)
  {
    AbsentKept(d, m, i);
  }

  /** Tags are positive, so none of the members is the one that is chosen. */
  lemma NothingChosen(d: Desc, m: Message, i: nat)
    requires WellFormed(d) && Shaped(d, m, true) && i < |d.fields|
    requires d.fields[i].htype.OneOf? && SlotOf(d, m, i, true).which == 0
    ensures NonePresent(d, m, i)
  {
    hide Shaped;
    forall j: nat | j < |d.fields| && SlotIndex(d.fields, j) == SlotIndex(d.fields, i)
      ensures !Present(d.fields[j], SlotOf(d, m, j, true))
    {
      assert WellFormedField(d.fields[j]);
      SameSlot(d, m, i, j);
      if j != i { SharedSlotIsUnion(d.fields, i, j); }
    }
  }

  lemma SameSlot(d: Desc, m: Message, i: nat, j: nat)
    requires Shaped(d, m, true) && i < |d.fields| && j < |d.fields| && SlotIndex(d.fields, i) == SlotIndex(d.fields, j)
    ensures SlotOf(d, m, i, true) == SlotOf(d, m, j, true)
  {
  }

  lemma {:induction false} MemberKept(d: Desc, m: Message, j: nat)
    requires WellFormed(d) && Shaped(d, m, true) && j < |d.fields| && d.fields[j].htype.OneOf? && NormalMember(d, m, j)
    ensures SlotKept(d, m, j)
    decreases d, 0, 0
  {
    hide Canon, Shaped, SlotKept, ValueOk;
    assert WellFormedField(d.fields[j]);
    NormalValueKept(d.fields[j], SlotOf(d, m, j, true).v);
    PresentKept(d, m, j);
  }

  lemma SameSlotKept(d: Desc, m: Message, i: nat, j: nat)
    requires Shaped(d, m, true) && i < |d.fields| && j < |d.fields| && SlotIndex(d.fields, i) == SlotIndex(d.fields, j)
    requires SlotKept(d, m, j)
    ensures SlotKept(d, m, i)
  {
    SameSlot(d, m, i, j);
  }

  lemma {:induction false} NormalSlotKept(d: Desc, m: Message, i: nat)
    requires WellFormed(d) && Shaped(d, m, true) && i < |d.fields| && NormalField(d, m, i)
    ensures SlotKept(d, m, i)
    decreases d, 0, 1
  {
    hide Canon, Shaped, SlotKept, NonePresent, ValueOk;
    var f, s := d.fields[i], SlotOf(d, m, i, true);
    assert WellFormedField(f);
    match f.htype
    case Required =>
      NormalValueKept(f, s.v);
      PresentKept(d, m, i);
    case Optional =>
      if f.sizeOffset == 0 {
        NormalValueKept(f, s.v);
        SingularKept(d, m, i);
      } else if s.has {
        NormalValueKept(f, s.v);
        PresentKept(d, m, i);
      } else {
        AloneInSlot(d, m, i);
        AbsentKept(d, m, i);
      }
    case Repeated =>
      if s.items == [] {
        AloneInSlot(d, m, i);
        NoItemsKept(d, m, i);
      } else {
        NormalItemsKept(f, s.items);
        PresentKept(d, m, i);
      }
    case OneOf =>
      if s.which == 0 {
        NothingChosen(d, m, i);
        AbsentKept(d, m, i);
      } else {
        var j :| 0 <= j < |d.fields| && SlotIndex(d.fields, j) == SlotIndex(d.fields, i)
                 && d.fields[j].tag == s.which && NormalMember(d, m, j);
        if j != i { SharedSlotIsUnion(d.fields, i, j); }
        MemberKept(d, m, j);
        SameSlotKept(d, m, i, j);
      }
  }

  lemma {:induction false} NormalIsKept(d: Desc, m: Message)
    requires WellFormed(d) && Shaped(d, m, true) && Normal(d, m)
    ensures Canon(d, m) == m
    decreases d, 1
  {
    hide Canon, Shaped, NormalField;
    var c := Canon(d, m);
    CanonLength(d, m);
    forall s | 0 <= s < |m| ensures c[s] == m[s] {
      var i := SlotHasField(d.fields, |d.fields|, s);
      NormalSlotKept(d, m, i);
      SlotIs(d, m, i);
    }
  }

  lemma CanonLength(d: Desc, m: Message)
    requires Shaped(d, m, true)
    ensures |Canon(d, m)| == |m| == SlotCount(d)
  {
  }

  lemma SlotIs(d: Desc, m: Message, i: nat)
    requires Shaped(d, m, true) && i < |d.fields| && SlotKept(d, m, i)
    ensures SlotIndex(d.fields, i) < |m| && SlotIndex(d.fields, i) < |Canon(d, m)|
    ensures Canon(d, m)[SlotIndex(d.fields, i)] == m[SlotIndex(d.fields, i)]
  {
  }

  /** What is normal and can be encoded comes back exactly as it was, presence
      flags, counts and members of unions included, if its strings leave room for
      their NUL. */
  lemma ExactRoundTrip(d: Desc, m: Message)
    requires WellFormed(d) && Shaped(d, m, true) && Normal(d, m) && Fits(d, m)
    requires EncodeMessage(d, m).Some? && |EncodeMessage(d, m).value| < TWO_32
    ensures Shaped(d, Defaults(d), false)
    ensures DecodeMessage(d, EncodeMessage(d, m).value, Defaults(d)) == Some((m, []))
  {
    MessageRoundTrip(d, m);
    NormalIsKept(d, m);
  }
}
