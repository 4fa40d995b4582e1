/** What several records of one field come to, and what a decoded message says
    about the records that it was read from. */
module PbRecords {
  import opened Wrappers
  import opened Bits
  import opened PbVarint
  import opened PbModel
  import opened PbEncoding
  import opened PbDecoding
  import opened PbMerge
  import opened PbConcat
  import opened PbPacked

  // ---------------------------------------------------------------------
  // A second record of the same field
  // ---------------------------------------------------------------------

  /** A record of a field that is not repeated, and what follows it. */
  lemma SingleRecord(d: Desc, i: nat, wireType: nat, bs: Bytes, st: DecodeState)
    requires WellFormed(d) && StateOk(d, st) && i < |d.fields| && !d.fields[i].htype.Repeated? && wireType < 8
    ensures DecodeLoop(d, Key(wireType, d.fields[i].tag) + bs, st) ==
            match DecodeSingle(d, i, bs, st)
            case None => None
            case Some((st2, rest)) => DecodeLoop(d, rest, st2)
  {
    hide DecodeLoop, DecodeSingle;
    LoopStep(d, i, Key(wireType, d.fields[i].tag) + bs, st, wireType, bs);
  }

  /** After a record of field `i`, a record of field `j` in the same slot is
      decoded as if that had not been there. */
  ghost predicate Overwritten(d: Desc, i: nat, p: Bytes, j: nat, q: Bytes, st: DecodeState)
    requires WellFormed(d) && StateOk(d, st) && i < |d.fields| && j < |d.fields|
    requires !d.fields[i].htype.Repeated? && !d.fields[j].htype.Repeated?
  {
    var r := DecodeSingle(d, i, p, st);
    r.Some? && DecodeSingle(d, j, q, r.value.0) == DecodeSingle(d, j, q, st)
  }

  lemma RecordOverwritten(d: Desc, i: nat, w: nat, p: Bytes, j: nat, w': nat, q: Bytes, st: DecodeState)
    requires WellFormed(d) && StateOk(d, st) && i < |d.fields| && j < |d.fields| && w < 8 && w' < 8
    requires !d.fields[i].htype.Repeated? && !d.fields[j].htype.Repeated?
    requires Overwritten(d, i, p, j, q, st) && DecodeSingle(d, i, p, st).value.1 == []
    ensures var second := Key(w', d.fields[j].tag) + q;
            DecodeLoop(d, Key(w, d.fields[i].tag) + p + second, st) == DecodeLoop(d, second, st)
  {
    hide DecodeLoop, DecodeSingle, Key;
    var second := Key(w', d.fields[j].tag) + q;
    SingleLocal(d, i, p, st, second);
    assert Key(w, d.fields[i].tag) + p + second == Key(w, d.fields[i].tag) + (p + second) && [] + second == second;
    SingleRecord(d, i, w, p + second, st);
    SingleRecord(d, j, w', q, DecodeSingle(d, i, p, st).value.0);
    SingleRecord(d, j, w', q, st);
  }

  /** The second value does not depend on the first one. */
  lemma SlotsOverwritten(d: Desc, i: nat, p: Bytes, j: nat, q: Bytes, st: DecodeState)
    requires WellFormed(d) && StateOk(d, st) && i < |d.fields| && j < |d.fields|
    requires !d.fields[i].htype.Repeated? && !d.fields[j].htype.Repeated?
    requires SlotIndex(d.fields, i) == SlotIndex(d.fields, j) && (i == j || d.fields[i].htype.OneOf?)
    requires DecodeSingle(d, i, p, st).Some?
    requires WellFormedField(d.fields[j])
    requires forall s, s' | SlotOk(d.fields[j], s, false) && SlotOk(d.fields[j], s', false) ::
               DecodeSlot(d.fields[j], q, s) == DecodeSlot(d.fields[j], q, s')
    ensures Overwritten(d, i, p, j, q, st)
  {
    hide DecodeSlot, SlotOk, Shaped, WellFormed, StateOk;
    SingleIs(d, i, p, st);
    var st1 := DecodeSingle(d, i, p, st).value.0;
    SingleIs(d, j, q, st);
    SingleIs(d, j, q, st1);
    var f, n := d.fields[j], SlotIndex(d.fields, j);
    var s, s1 := SlotOf(d, st.msg, j, false), SlotOf(d, st1.msg, j, false);
    assert DecodeSlot(f, q, s1) == DecodeSlot(f, q, s);
    if DecodeSlot(f, q, s).Some? {
      var slot, x := DecodeSlot(f, q, s).value.0, DecodeSlot(d.fields[i], p, SlotOf(d, st.msg, i, false)).value.0;
      assert st.msg[n := x][n := slot] == st.msg[n := slot];
    }
    assert MarkSeen(d, j, st1.seen) == MarkSeen(d, j, st.seen);
  }

  lemma SingleIs(d: Desc, i: nat, bs: Bytes, st: DecodeState)
    requires WellFormed(d) && StateOk(d, st) && i < |d.fields| && !d.fields[i].htype.Repeated?
    ensures WellFormedField(d.fields[i]) && SlotIndex(d.fields, i) < |st.msg| && Shaped(d, st.msg, false)
    ensures DecodeSingle(d, i, bs, st) ==
            match DecodeSlot(d.fields[i], bs, SlotOf(d, st.msg, i, false))
            case None => None
            case Some((slot, rest)) =>
              Some((st.(msg := st.msg[SlotIndex(d.fields, i) := slot], seen := MarkSeen(d, i, st.seen)), rest))
  {
    hide DecodeSlot;
    assert WellFormedField(d.fields[i]);
    SlotInBounds(d, i);
  }

  /** The second record of a field that is no submessage wins, whatever the wire
      types in the keys and whether it can be decoded or not. */
  lemma LastScalarWins(d: Desc, i: nat, w: nat, p: Bytes, w': nat, q: Bytes, st: DecodeState)
    requires WellFormed(d) && StateOk(d, st) && i < |d.fields| && w < 8 && w' < 8
    requires !d.fields[i].htype.Repeated? && !d.fields[i].ltype.LSubMessage?
    requires DecodeScalar(d.fields[i], p).Some? && DecodeScalar(d.fields[i], p).value.1 == []
    ensures var t := d.fields[i].tag;
            DecodeLoop(d, Key(w, t) + p + (Key(w', t) + q), st) == DecodeLoop(d, Key(w', t) + q, st)
  {
    hide DecodeLoop, DecodeSingle, DecodeScalar, SlotOk, StateOk;
    var f := d.fields[i];
    SingleIs(d, i, p, st);
    ScalarSlot(f, p, SlotOf(d, st.msg, i, false));
    forall s, s' | SlotOk(f, s, false) && SlotOk(f, s', false) ensures DecodeSlot(f, q, s) == DecodeSlot(f, q, s') {
      ScalarSlot(f, q, s);
      ScalarSlot(f, q, s');
    }
    SlotsOverwritten(d, i, p, i, q, st);
    RecordOverwritten(d, i, w, p, i, w', q, st);
  }

  /** The slot that a value makes. */
  function SlotWith(f: Field, v: Value): Slot
    requires !f.htype.Repeated?
  {
    match f.htype
    case Required => One(v)
    case Optional => if f.sizeOffset == 0 then One(v) else Maybe(true, v)
    case OneOf => Union(f.tag, v)
  }

  lemma ScalarSlot(f: Field, bs: Bytes, s: Slot)
    requires WellFormedField(f) && SlotOk(f, s, false) && !f.htype.Repeated? && !f.ltype.LSubMessage?
    ensures DecodeSlot(f, bs, s) ==
            match DecodeScalar(f, bs) case None => None case Some((v, rest)) => Some((SlotWith(f, v), rest))
  {
    hide DecodeScalar;
  }

  /** A record of a member of a union leaves nothing of an earlier record of the
      same union, of that member or another: a submessage starts from its default
      values. */
  lemma UnionForgets(d: Desc, i: nat, w: nat, p: Bytes, j: nat, w': nat, q: Bytes, st: DecodeState)
    requires WellFormed(d) && StateOk(d, st) && i < |d.fields| && j < |d.fields| && w < 8 && w' < 8
    requires d.fields[i].htype.OneOf? && d.fields[j].htype.OneOf? && SlotIndex(d.fields, i) == SlotIndex(d.fields, j)
    requires DecodeSingle(d, i, p, st).Some? && DecodeSingle(d, i, p, st).value.1 == []
    ensures var second := Key(w', d.fields[j].tag) + q;
            DecodeLoop(d, Key(w, d.fields[i].tag) + p + second, st) == DecodeLoop(d, second, st)
  {
    hide DecodeLoop, DecodeSingle, DecodeValue, SlotOk, StateOk;
    var f := d.fields[j];
    SingleIs(d, j, q, st);
    forall s, s' | SlotOk(f, s, false) && SlotOk(f, s', false) ensures DecodeSlot(f, q, s) == DecodeSlot(f, q, s') {}
    SlotsOverwritten(d, i, p, j, q, st);
    RecordOverwritten(d, i, w, p, j, w', q, st);
  }

  predicate IsSubmessage(f: Field) {
    f.ltype.LSubMessage? && (f.htype.Required? || f.htype.Optional?)
  }

  /** The struct of a required or optional submessage. */
  function Inner(f: Field, s: Slot): (m: Message)
    requires SlotOk(f, s, false) && IsSubmessage(f)
    ensures Shaped(f.ltype.desc, m, false)
  {
    assert ValueOk(f, s.v, false);
    s.v.slots
  }

  /** It is decoded into what is there. */
  lemma SubmessageSlot(f: Field, a: Bytes, rest: Bytes, s: Slot)
    requires WellFormedField(f) && SlotOk(f, s, false) && IsSubmessage(f) && |a| < TWO_32
    ensures DecodeSlot(f, Framed(a) + rest, s) ==
            var r := DecodeMessage(f.ltype.desc, a, Inner(f, s));
            if r.None? then None else Some((SlotWith(f, VMessage(r.value.0)), rest))
  {
    hide DecodeMessage, Framed, Substream;
    ReadFrame(a, rest);
  }

  /** The same in a message, ... */
  lemma SubmessageRecord(d: Desc, i: nat, w: nat, a: Bytes, rest: Bytes, st: DecodeState)
    requires WellFormed(d) && StateOk(d, st) && i < |d.fields| && w < 8 && |a| < TWO_32 && IsSubmessage(d.fields[i])
    ensures WellFormedField(d.fields[i]) && SlotIndex(d.fields, i) < |st.msg|
    ensures var f := d.fields[i];
            var r := DecodeMessage(f.ltype.desc, a, Inner(f, SlotOf(d, st.msg, i, false)));
            DecodeLoop(d, Key(w, f.tag) + Framed(a) + rest, st) ==
            if r.None? then None else DecodeLoop(d, rest, Replaced(d, i, r.value.0, st))
  {
    hide DecodeLoop, DecodeSingle, DecodeSlot, DecodeMessage, Framed, Key;
    var f := d.fields[i];
    assert Key(w, f.tag) + Framed(a) + rest == Key(w, f.tag) + (Framed(a) + rest);
    SingleRecord(d, i, w, Framed(a) + rest, st);
    SingleIs(d, i, Framed(a) + rest, st);
    SubmessageSlot(f, a, rest, SlotOf(d, st.msg, i, false));
  }

  /** ... which then has another submessage. */
  function Replaced(d: Desc, i: nat, m: Message, st: DecodeState): (st2: DecodeState)
    requires WellFormed(d) && StateOk(d, st) && i < |d.fields| && IsSubmessage(d.fields[i])
    requires Shaped(d.fields[i].ltype.desc, m, false)
    ensures StateOk(d, st2) && SlotIndex(d.fields, i) < |st.msg|
    ensures Inner(d.fields[i], SlotOf(d, st2.msg, i, false)) == m
    ensures st2 == st.(msg := st.msg[SlotIndex(d.fields, i) := SlotWith(d.fields[i], VMessage(m))], seen := MarkSeen(d, i, st.seen))
  {
    SlotInBounds(d, i);
    var slot := SlotWith(d.fields[i], VMessage(m));
    assert SlotOk(d.fields[i], slot, false);
    PutKeepsState(d, i, st, slot);
    st.(msg := Put(d, st.msg, i, slot), seen := MarkSeen(d, i, st.seen))
  }

  lemma ReplacedTwice(d: Desc, i: nat, m: Message, m': Message, st: DecodeState)
    requires WellFormed(d) && StateOk(d, st) && i < |d.fields| && IsSubmessage(d.fields[i])
    requires Shaped(d.fields[i].ltype.desc, m, false) && Shaped(d.fields[i].ltype.desc, m', false)
    ensures Replaced(d, i, m', Replaced(d, i, m, st)) == Replaced(d, i, m', st)
  {
    hide Shaped, WellFormed, StateOk, SlotWith, SlotOk;
    var n, x, y := SlotIndex(d.fields, i), SlotWith(d.fields[i], VMessage(m)), SlotWith(d.fields[i], VMessage(m'));
    var st1 := Replaced(d, i, m, st);
    assert st.msg[n := x][n := y] == st.msg[n := y];
    assert MarkSeen(d, i, st1.seen) == MarkSeen(d, i, st.seen);
  }

  /** The bodies `a` and `b` decode one after the other into a submessage, and do
      not bring the same fixed-count array. */
  ghost predicate DecodeInTurn(d: Desc, a: Bytes, b: Bytes, m: Message)
    requires WellFormed(d) && Shaped(d, m, false)
  {
    && DecodeMessage(d, a, m).Some? && !DecodeLoop(d, a, Start(m)).value.atZero
    && DecodeMessage(d, b, DecodeMessage(d, a, m).value.0).Some? && !Collides(d, a, b, m)
  }

  /** Two records of a required or optional submessage merge: they are decoded as
      one record with both bodies. */
  lemma SubmessagesMerge(d: Desc, i: nat, w: nat, a: Bytes, b: Bytes, tail: Bytes, st: DecodeState)
    requires WellFormed(d) && StateOk(d, st) && i < |d.fields| && w < 8 && |a + b| < TWO_32 && IsSubmessage(d.fields[i])
    requires WellFormed(d.fields[i].ltype.desc)
    requires DecodeInTurn(d.fields[i].ltype.desc, a, b, Inner(d.fields[i], SlotOf(d, st.msg, i, false)))
    ensures var k := Key(w, d.fields[i].tag);
            DecodeLoop(d, k + Framed(a) + (k + Framed(b) + tail), st) == DecodeLoop(d, k + Framed(a + b) + tail, st)
  {
    hide DecodeLoop, DecodeMessage, Framed, Key, SlotOk, Shaped, WellFormed, Collides, Replaced;
    var f, k := d.fields[i], Key(w, d.fields[i].tag);
    var m := Inner(f, SlotOf(d, st.msg, i, false));
    SubmessageRecord(d, i, w, a, k + Framed(b) + tail, st);
    var m1 := DecodeMessage(f.ltype.desc, a, m).value.0;
    var st1 := Replaced(d, i, m1, st);
    SubmessageRecord(d, i, w, b, tail, st1);
    SubmessageRecord(d, i, w, a + b, tail, st);
    ConcatIsMerge(f.ltype.desc, a, b, m);
    ReplacedTwice(d, i, m1, DecodeMessage(f.ltype.desc, b, m1).value.0, st);
  }
}
