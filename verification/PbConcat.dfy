/** Concatenation is merge: when decoding two messages in one input is the same
    as decoding the second into what the first left. Only a fixed-count array
    that both bring can be in the way. */
module PbConcat {
  import opened Wrappers
  import opened Bits
  import opened PbVarint
  import opened PbModel
  import opened PbEncoding
  import opened PbDecoding
  import opened PbMerge
  import opened PbPacked

  /** The fixed-count array with a tag. */
  function FixedWithTag(d: Desc, tag: nat): (r: Option<nat>)
    ensures r.Some? ==> r.value < |d.fields| && d.fields[r.value].FixedCount()
  {
    var i := FieldWithTag(d.fields, tag);
    if i.Some? && d.fields[i.value].FixedCount() then i else None
  }

  /** The first fixed-count array that a message enters. */
  function FirstFixed(d: Desc, bs: Bytes, st: DecodeState): (r: Option<nat>)
    requires WellFormed(d) && StateOk(d, st)
    ensures r.Some? ==> r.value < |d.fields| && d.fields[r.value].FixedCount()
    decreases |bs|
  {
    Varint32Below(bs);
    if bs == [] then None
    else match Varint32(bs)
      case None => None
      case Some((key, rest)) =>
        if key == 0 then None
        else if FixedWithTag(d, key / 8).Some? then FixedWithTag(d, key / 8)
        else match DecodeRecord(d, key / 8, key % 8, rest, st)
          case None => None
          case Some((st2, rest2)) => FirstFixed(d, rest2, st2)
  }

  /** The last fixed-count array that `a` entered has entries and is the first
      that `b` enters. */
  predicate Collides(d: Desc, a: Bytes, b: Bytes, m: Message)
    requires WellFormed(d) && Shaped(d, m, false) && DecodeLoop(d, a, Start(m)).Some?
  {
    var st := DecodeLoop(d, a, Start(m)).value.st;
    st.fixedField.Some? && FirstFixed(d, b, Start(st.msg)) == st.fixedField && d.fields[st.fixedField.value].arraySize > 0
  }

  /** The state with another record of fixed-count arrays. */
  function Refixed(st: DecodeState, fixedField: Option<nat>, fixedCount: nat): DecodeState {
    st.(fixedField := fixedField, fixedCount := fixedCount)
  }

  // ---------------------------------------------------------------------
  // Records that do not belong to a fixed-count array
  // ---------------------------------------------------------------------

  lemma RecordIgnoresFixed(d: Desc, tag: nat, wireType: nat, bs: Bytes, st: DecodeState, f: Option<nat>, c: nat)
    requires WellFormed(d) && StateOk(d, st) && StateOk(d, Refixed(st, f, c)) && FixedWithTag(d, tag).None?
    ensures match DecodeRecord(d, tag, wireType, bs, st)
            case None => DecodeRecord(d, tag, wireType, bs, Refixed(st, f, c)).None?
            case Some((st2, rest)) =>
              && st2.fixedField == st.fixedField && st2.fixedCount == st.fixedCount
              && DecodeRecord(d, tag, wireType, bs, Refixed(st, f, c)) == Some((Refixed(st2, f, c), rest))
  {
    hide DecodeKnown;
    if !(d.fields == [] && tag == 0) && FieldWithTag(d.fields, tag).Some? {
      KnownIgnoresFixed(d, FieldWithTag(d.fields, tag).value, wireType, bs, st, f, c);
    }
  }

  lemma KnownIgnoresFixed(d: Desc, i: nat, wireType: nat, bs: Bytes, st: DecodeState, f: Option<nat>, c: nat)
    requires WellFormed(d) && StateOk(d, st) && StateOk(d, Refixed(st, f, c)) && i < |d.fields| && !d.fields[i].FixedCount()
    ensures match DecodeKnown(d, i, wireType, bs, st)
            case None => DecodeKnown(d, i, wireType, bs, Refixed(st, f, c)).None?
            case Some((st2, rest)) =>
              && st2.fixedField == st.fixedField && st2.fixedCount == st.fixedCount
              && DecodeKnown(d, i, wireType, bs, Refixed(st, f, c)) == Some((Refixed(st2, f, c), rest))
  {
    if d.fields[i].htype.Repeated? {
      EntriesIgnoreFixed(d, i, wireType, bs, st, f, c);
    } else {
      SingleIgnoresFixed(d, i, bs, st, f, c);
    }
  }

  lemma EntriesIgnoreFixed(d: Desc, i: nat, wireType: nat, bs: Bytes, st: DecodeState, f: Option<nat>, c: nat)
    requires WellFormed(d) && Entered(d, i, st) && Entered(d, i, Refixed(st, f, c))
    requires d.fields[i].htype.Repeated? && !d.fields[i].FixedCount()
    ensures match DecodeEntries(d, i, wireType, bs, st)
            case None => DecodeEntries(d, i, wireType, bs, Refixed(st, f, c)).None?
            case Some((st2, rest)) =>
              && st2.fixedField == st.fixedField && st2.fixedCount == st.fixedCount
              && DecodeEntries(d, i, wireType, bs, Refixed(st, f, c)) == Some((Refixed(st2, f, c), rest))
  {
    assert Items(d, i, st) == Items(d, i, Refixed(st, f, c));
  }

  lemma SingleIgnoresFixed(d: Desc, i: nat, bs: Bytes, st: DecodeState, f: Option<nat>, c: nat)
    requires WellFormed(d) && StateOk(d, st) && StateOk(d, Refixed(st, f, c))
    requires i < |d.fields| && !d.fields[i].htype.Repeated?
    ensures match DecodeSingle(d, i, bs, st)
            case None => DecodeSingle(d, i, bs, Refixed(st, f, c)).None?
            case Some((st2, rest)) =>
              && st2.fixedField == st.fixedField && st2.fixedCount == st.fixedCount
              && DecodeSingle(d, i, bs, Refixed(st, f, c)) == Some((Refixed(st2, f, c), rest))
  {
  }

  // ---------------------------------------------------------------------
  // Records of fixed-count arrays
  // ---------------------------------------------------------------------

  /** Entering a different array after a complete one, or an array without
      entries again, is the same as entering it afresh. */
  lemma EntersAfresh(d: Desc, i: nat, wireType: nat, bs: Bytes, st: DecodeState)
    requires WellFormed(d) && StateOk(d, st) && FixedComplete(d, st) && StateOk(d, Refixed(st, None, 0))
    requires i < |d.fields| && d.fields[i].FixedCount()
    requires st.fixedField != Some(i) || d.fields[i].arraySize == 0
    ensures DecodeKnown(d, i, wireType, bs, st) == DecodeKnown(d, i, wireType, bs, Refixed(st, None, 0))
  {
    assert EnterArray(d, i, st) == EnterArray(d, i, Refixed(st, None, 0));
  }

  lemma RecordOfFixed(d: Desc, tag: nat, wireType: nat, bs: Bytes, st: DecodeState)
    requires WellFormed(d) && StateOk(d, st) && FixedWithTag(d, tag).Some?
    ensures DecodeRecord(d, tag, wireType, bs, st) == DecodeKnown(d, FixedWithTag(d, tag).value, wireType, bs, st)
  {
  }

  ghost predicate AtArray(d: Desc, i: nat, st: DecodeState) {
    && i < |d.fields| && d.fields[i].FixedCount() && d.fields[i].arraySize > 0 && StateOk(d, st)
    && st.fixedField == Some(i) && StateOk(d, Refixed(st, Some(i), d.fields[i].arraySize))
  }

  /** A record of an array of which nothing has been received, and the same record
      when the array is full already: entries overflow, and an empty packed
      record changes nothing. */
  lemma FullArrayRecord(d: Desc, i: nat, wireType: nat, bs: Bytes, st: DecodeState)
    requires WellFormed(d) && AtArray(d, i, st) && st.fixedCount == 0
    ensures var full := Refixed(st, Some(i), d.fields[i].arraySize);
            var r := DecodeKnown(d, i, wireType, bs, st);
            if r.Some? && r.value.0 == st then DecodeKnown(d, i, wireType, bs, full) == Some((full, r.value.1))
            else DecodeKnown(d, i, wireType, bs, full).None?
  {
    var f, full := d.fields[i], Refixed(st, Some(i), d.fields[i].arraySize);
    assert WellFormedField(f);
    assert Items(d, i, st) == [] && |Items(d, i, full)| == f.arraySize;
    SameItems(d, i, st);
    SameItems(d, i, full);
    FullArray(f, wireType, bs, Items(d, i, full));
  }

  lemma FullArray(f: Field, wireType: nat, bs: Bytes, got: seq<Value>)
    requires WellFormedField(f) && f.htype.Repeated? && 0 < f.arraySize == |got|
    requires forall k | 0 <= k < |got| :: ValueOk(f, got[k], false)
    ensures var r := DecodeArray(f, wireType, bs, []);
            if r.Some? && r.value.0 == [] then DecodeArray(f, wireType, bs, got) == Some((got, r.value.1))
            else DecodeArray(f, wireType, bs, got).None?
  {
  }

  // ---------------------------------------------------------------------
  // The main loop
  // ---------------------------------------------------------------------

  lemma UnfixedOk(d: Desc, st: DecodeState)
    requires StateOk(d, st)
    ensures StateOk(d, Refixed(st, None, 0))
  {
  }

  /** One step of FirstFixed. */
  lemma FirstFixedStep(d: Desc, bs: Bytes, st: DecodeState)
    requires WellFormed(d) && StateOk(d, st) && bs != [] && Varint32(bs).Some? && Varint32(bs).value.0 != 0
    ensures var (key, rest) := Varint32(bs).value;
            var r := DecodeRecord(d, key / 8, key % 8, rest, st);
            FirstFixed(d, bs, st) ==
            if FixedWithTag(d, key / 8).Some? then FixedWithTag(d, key / 8)
            else if r.None? then None else FirstFixed(d, r.value.1, r.value.0)
  {
  }

  /** Unless it comes back to the array that `st` has just completed, a message is
      read from `st` as if no array had been entered before. */
  lemma {:induction false} LoopForgetsFixed(d: Desc, bs: Bytes, st: DecodeState)
    requires WellFormed(d) && StateOk(d, st) && FixedComplete(d, st) && StateOk(d, Refixed(st, None, 0))
    requires var first := FirstFixed(d, bs, Refixed(st, None, 0));
             first.Some? ==> first != st.fixedField || d.fields[first.value].arraySize == 0
    ensures var afresh := Refixed(st, None, 0);
            var r := DecodeLoop(d, bs, afresh);
            if r.None? then DecodeLoop(d, bs, st) == None
            else if FirstFixed(d, bs, afresh).Some? then DecodeLoop(d, bs, st) == r
            else r.value.st.fixedField == None
                 && DecodeLoop(d, bs, st) == Some(r.value.(st := Refixed(r.value.st, st.fixedField, st.fixedCount)))
    decreases |bs|
  {
    hide DecodeLoop, DecodeRecord, StateOk, FixedComplete;
    var afresh := Refixed(st, None, 0);
    LoopIs(d, bs, afresh);
    LoopIs(d, bs, st);
    assert Refixed(afresh, st.fixedField, st.fixedCount) == st;
    if bs != [] && Varint32(bs).Some? && Varint32(bs).value.0 != 0 {
      var (key, rest) := Varint32(bs).value;
      FirstFixedStep(d, bs, afresh);
      if FixedWithTag(d, key / 8).Some? {
        RecordOfFixed(d, key / 8, key % 8, rest, st);
        RecordOfFixed(d, key / 8, key % 8, rest, afresh);
        EntersAfresh(d, FixedWithTag(d, key / 8).value, key % 8, rest, st);
      } else {
        RecordIgnoresFixed(d, key / 8, key % 8, rest, afresh, st.fixedField, st.fixedCount);
        var r := DecodeRecord(d, key / 8, key % 8, rest, afresh);
        if r.Some? {
          StillComplete(d, st, Refixed(r.value.0, st.fixedField, st.fixedCount));
          UnfixedOk(d, Refixed(r.value.0, st.fixedField, st.fixedCount));
          assert Refixed(Refixed(r.value.0, st.fixedField, st.fixedCount), None, 0) == r.value.0;
          LoopForgetsFixed(d, r.value.1, Refixed(r.value.0, st.fixedField, st.fixedCount));
        }
      }
    }
  }

  lemma StillComplete(d: Desc, st: DecodeState, st2: DecodeState)
    requires FixedComplete(d, st) && st2.fixedField == st.fixedField && st2.fixedCount == st.fixedCount
    ensures FixedComplete(d, st2)
  {
  }

  /** A message that completes an array from nothing overflows it when it is full
      already. */
  lemma {:induction false} FullArrayOverflows(d: Desc, bs: Bytes, i: nat, st: DecodeState)
    requires WellFormed(d) && AtArray(d, i, st) && st.fixedCount == 0
    requires DecodeLoop(d, bs, st).Some? && FixedComplete(d, DecodeLoop(d, bs, st).value.st)
    ensures DecodeLoop(d, bs, Refixed(st, Some(i), d.fields[i].arraySize)).None?
    decreases |bs|
  {
    hide DecodeLoop, DecodeRecord, StateOk, DecodeKnown;
    var full := Refixed(st, Some(i), d.fields[i].arraySize);
    LoopIs(d, bs, st);
    LoopIs(d, bs, full);
    assert bs != [] && Varint32(bs).value.0 != 0;
    var (key, rest) := Varint32(bs).value;
    var j := FixedWithTag(d, key / 8);
    if j.None? {
      RecordIgnoresFixed(d, key / 8, key % 8, rest, st, Some(i), d.fields[i].arraySize);
      FullArrayOverflows(d, DecodeRecord(d, key / 8, key % 8, rest, st).value.1, i,
                         DecodeRecord(d, key / 8, key % 8, rest, st).value.0);
    } else {
      RecordOfFixed(d, key / 8, key % 8, rest, st);
      RecordOfFixed(d, key / 8, key % 8, rest, full);
      if j.value == i {
        FullArrayRecord(d, i, key % 8, rest, st);
        if DecodeKnown(d, i, key % 8, rest, st).value.0 == st {
          FullArrayOverflows(d, DecodeKnown(d, i, key % 8, rest, st).value.1, i, st);
        }
      } else {
        OtherArrayRefused(d, i, j.value, key % 8, rest, st);
      }
    }
  }

  lemma OtherArrayRefused(d: Desc, i: nat, j: nat, wireType: nat, bs: Bytes, st: DecodeState)
    requires WellFormed(d) && AtArray(d, i, st) && st.fixedCount == 0
    requires j < |d.fields| && d.fields[j].FixedCount() && i != j
    ensures DecodeKnown(d, j, wireType, bs, st) == None
  {
  }

  /** Coming back to an array that is full makes the message fail that would
      complete it afresh. */
  lemma {:induction false} LoopCollides(d: Desc, bs: Bytes, i: nat, st: DecodeState)
    requires WellFormed(d) && AtArray(d, i, st) && FixedComplete(d, st) && StateOk(d, Refixed(st, None, 0))
    requires FirstFixed(d, bs, Refixed(st, None, 0)) == Some(i)
    requires var r := DecodeLoop(d, bs, Refixed(st, None, 0)); r.Some? && FixedComplete(d, r.value.st)
    ensures DecodeLoop(d, bs, st).None?
    decreases |bs|
  {
    hide DecodeLoop, DecodeRecord, StateOk, DecodeKnown;
    var afresh := Refixed(st, None, 0);
    LoopIs(d, bs, afresh);
    LoopIs(d, bs, st);
    var (key, rest) := Varint32(bs).value;
    FirstFixedStep(d, bs, afresh);
    assert Refixed(afresh, st.fixedField, st.fixedCount) == st;
    if FixedWithTag(d, key / 8).None? {
      RecordIgnoresFixed(d, key / 8, key % 8, rest, afresh, st.fixedField, st.fixedCount);
      var (st2, rest2) := DecodeRecord(d, key / 8, key % 8, rest, afresh).value;
      var full := Refixed(st2, st.fixedField, st.fixedCount);
      StillComplete(d, st, full);
      assert Refixed(full, None, 0) == st2 && Refixed(full, Some(i), d.fields[i].arraySize) == full;
      LoopCollides(d, rest2, i, full);
    } else {
      var entered := Refixed(st, Some(i), 0);
      EntersEmpty(d, i, st);
      LoopIs(d, bs, entered);
      RecordOfFixed(d, key / 8, key % 8, rest, afresh);
      RecordOfFixed(d, key / 8, key % 8, rest, entered);
      SameRecord(d, i, key % 8, rest, st);
      assert Refixed(entered, Some(i), d.fields[i].arraySize) == st;
      FullArrayOverflows(d, bs, i, entered);
    }
  }

  lemma EntersEmpty(d: Desc, i: nat, st: DecodeState)
    requires AtArray(d, i, st) && FixedComplete(d, st)
    ensures st.fixedCount == d.fields[i].arraySize && AtArray(d, i, Refixed(st, Some(i), 0))
  {
    assert Refixed(Refixed(st, Some(i), 0), Some(i), d.fields[i].arraySize) == st;
  }

  lemma SameRecord(d: Desc, i: nat, wireType: nat, bs: Bytes, st: DecodeState)
    requires WellFormed(d) && AtArray(d, i, st) && StateOk(d, Refixed(st, None, 0)) && StateOk(d, Refixed(st, Some(i), 0))
    ensures DecodeKnown(d, i, wireType, bs, Refixed(st, None, 0)) == DecodeKnown(d, i, wireType, bs, Refixed(st, Some(i), 0))
  {
    assert EnterArray(d, i, Refixed(st, None, 0)) == EnterArray(d, i, Refixed(st, Some(i), 0));
  }

  // ---------------------------------------------------------------------
  // Whole messages
  // ---------------------------------------------------------------------

  /** What the second part of an input amounts to: the required fields have been
      seen in the first part. */
  function Continued(d: Desc, b: Bytes, m: Message): (r: Option<(Message, Bytes)>)
    requires WellFormed(d) && Shaped(d, m, false)
  {
    match DecodeLoop(d, b, Start(m))
    case None => None
    case Some(end) => if FixedComplete(d, end.st) then Some((end.st.msg, end.rest)) else None
  }

  /** Concatenation is merge: let `a` decode into `m` without meeting a zero key.
      Unless the last fixed-count array of `a` is the first one of `b`, decoding
      `a + b` is the same, success or failure, as decoding `b` into what `a`
      left, but that required fields need not be repeated. And whenever `b`
      decodes into what `a` left, that is also the result for `a + b`, except
      in that one case, in which `a + b` is refused. */
  lemma ConcatIsMerge(d: Desc, a: Bytes, b: Bytes, m: Message)
    requires WellFormed(d) && Shaped(d, m, false)
    requires DecodeMessage(d, a, m).Some? && !DecodeLoop(d, a, Start(m)).value.atZero
    ensures !Collides(d, a, b, m) ==> DecodeMessage(d, a + b, m) == Continued(d, b, DecodeMessage(d, a, m).value.0)
    ensures DecodeMessage(d, b, DecodeMessage(d, a, m).value.0).Some? ==>
              DecodeMessage(d, a + b, m)
              == if Collides(d, a, b, m) then None else DecodeMessage(d, b, DecodeMessage(d, a, m).value.0)
  {
    hide DecodeLoop, FirstFixed;
    var sta := DecodeLoop(d, a, Start(m)).value.st;
    var unseen, anew := sta.(seen := {}), Start(sta.msg);
    LoopConcat(d, a, b, Start(m));
    assert unseen.(seen := unseen.seen + sta.seen) == sta by { assert {} + sta.seen == sta.seen; }
    UnseenOk(d, sta);
    LoopAddsSeen(d, b, unseen, sta.seen);
    assert Refixed(unseen, None, 0) == anew;
    if Collides(d, a, b, m) {
      if DecodeMessage(d, b, sta.msg).Some? {
        var i := sta.fixedField.value;
        assert Refixed(unseen, Some(i), d.fields[i].arraySize) == unseen;
        LoopCollides(d, b, i, unseen);
      }
    } else {
      LoopForgetsFixed(d, b, unseen);
    }
  }

  lemma UnseenOk(d: Desc, st: DecodeState)
    requires StateOk(d, st)
    ensures StateOk(d, st.(seen := {})) && StateOk(d, Start(st.msg))
  {
  }

  ghost predicate NoFixedCount(d: Desc) {
    forall i | 0 <= i < |d.fields| :: !d.fields[i].FixedCount()
  }

  /** Descriptors without fixed-count arrays always merge. */
  lemma NoFixedNoCollision(d: Desc, a: Bytes, b: Bytes, m: Message)
    requires WellFormed(d) && Shaped(d, m, false) && NoFixedCount(d) && DecodeLoop(d, a, Start(m)).Some?
    ensures !Collides(d, a, b, m)
  {
  }

  /** The one case does happen: a message that brings all entries of an array
      decodes, again and again, but two of them in one input are too many. */
  lemma FixedCountDoesNotMerge() returns (d: Desc, a: Bytes, m: Message)
    ensures WellFormed(d) && Shaped(d, m, false)
    ensures DecodeMessage(d, a, m).Some? && !DecodeLoop(d, a, Start(m)).value.atZero
    ensures DecodeMessage(d, a, DecodeMessage(d, a, m).value.0).Some?
    ensures Collides(d, a, a, m) && DecodeMessage(d, a + a, m).None?
  {
    var f := Field(1, LFixed32, Repeated, 0, 0, 4, 1, None);
    d, a, m := Desc([f]), Key(WT_32BIT, 1) + [0, 0, 0, 0], [FixedMany([Undefined])];
    assert WellFormedField(d.fields[0]) && d.fields[0].FixedCount();
    assert FieldShaped(d, m, 0, false);
    var st := OneWord(d, a, Start(m));
    var again := OneWord(d, a, Start(st.msg));
    assert DecodeMessage(d, a, m) == Some((st.msg, []));
    ConcatIsMerge(d, a, a, m);
  }

  /** The entry of the array in that message. */
  lemma OneWord(d: Desc, a: Bytes, st: DecodeState) returns (st2: DecodeState)
    requires d == Desc([Field(1, LFixed32, Repeated, 0, 0, 4, 1, None)]) && a == Key(WT_32BIT, 1) + [0, 0, 0, 0]
    requires WellFormed(d) && StateOk(d, st) && st == Start(st.msg)
    ensures StateOk(d, st2) && st2.fixedField == Some(0) && st2.fixedCount == 1 && Shaped(d, st2.msg, false)
    ensures DecodeLoop(d, a, st) == Some(LoopEnd(st2, [], false)) && FirstFixed(d, a, st) == Some(0)
  {
    var f := d.fields[0];
    assert WellFormedField(f);
    LoopStep(d, 0, a, st, WT_32BIT, [0, 0, 0, 0]);
    var st1 := EnterArray(d, 0, st).value;
    assert Items(d, 0, st1) == [];
    var v := DecodeScalar(f, [0, 0, 0, 0]).value.0;
    assert DecodeArray(f, WT_32BIT, [0, 0, 0, 0], []) == Some(([] + [v], []));
    st2 := WithItems(d, 0, st1, [] + [v]);
    ReadKey(WT_32BIT, 1, [0, 0, 0, 0]);
    assert FieldWithTag(d.fields, 1) == Some(0) by { TagFindsField(d.fields, 0); }
  }
}
