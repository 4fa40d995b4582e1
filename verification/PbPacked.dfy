/** Packed and unpacked arrays: the two wire forms of a repeated scalar are
    received alike. */
module PbPacked {
  import opened Wrappers
  import opened Bits
  import opened PbVarint
  import opened PbModel
  import opened PbEncoding
  import opened PbDecoding
  import opened PbMerge

  /** The bytes of one entry and what they decode to. */
  datatype Entry = Entry(raw: Bytes, v: Value)

  ghost predicate AreEntries(f: Field, es: seq<Entry>)
    requires f.Packable()
  {
    forall k | 0 <= k < |es| :: DecodeScalar(f, es[k].raw) == Some((es[k].v, []))
  }

  function Concat(es: seq<Entry>): Bytes {
    if es == [] then [] else es[0].raw + Concat(es[1..])
  }

  function Values(es: seq<Entry>): (vs: seq<Value>)
    ensures |vs| == |es| && forall k | 0 <= k < |es| :: vs[k] == es[k].v
  {
    seq(|es|, k requires 0 <= k < |es| => es[k].v)
  }

  /** The entries as one packed record. */
  function PackedRecord(f: Field, es: seq<Entry>): Bytes {
    Key(WT_STRING, f.tag) + Framed(Concat(es))
  }

  /** The entries as a record each, with any other wire type in the key. */
  function UnpackedRecords(f: Field, wireType: nat, es: seq<Entry>): Bytes {
    if es == [] then [] else Key(wireType, f.tag) + es[0].raw + UnpackedRecords(f, wireType, es[1..])
  }

  predicate Room(f: Field, got: nat, es: seq<Entry>) {
    es == [] || got + |es| <= f.arraySize
  }

  lemma EntriesOk(f: Field, es: seq<Entry>)
    requires f.Packable() && AreEntries(f, es)
    ensures forall k | 0 <= k < |es| :: ValueOk(f, es[k].v, false)
  {
    forall k | 0 <= k < |es| ensures ValueOk(f, es[k].v, false) {
      assert ValueOk(f, DecodeScalar(f, es[k].raw).value.0, true);
    }
  }

  lemma EntryRead(f: Field, e: Entry, rest: Bytes)
    requires f.Packable() && DecodeScalar(f, e.raw) == Some((e.v, []))
    ensures DecodeScalar(f, e.raw + rest) == Some((e.v, rest)) && e.raw != []
  {
    ScalarLocal(f, e.raw, rest);
    assert [] + rest == rest;
  }

  /** The packed loop stores all entries when there is room, else fails. */
  lemma {:induction false} PackedRun(f: Field, es: seq<Entry>, got: seq<Value>)
    requires WellFormedField(f) && f.Packable() && AreEntries(f, es)
    requires |got| <= PB_SIZE_MAX && forall k | 0 <= k < |got| :: ValueOk(f, got[k], false)
    ensures DecodePacked(f, Concat(es), got) == if Room(f, |got|, es) then Some(got + Values(es)) else None
    decreases |es|
  {
    hide DecodeScalar, ValueOk;
    if es == [] {
      assert got + Values(es) == got;
    } else {
      EntriesOk(f, es);
      EntryRead(f, es[0], Concat(es[1..]));
      if |got| < f.arraySize {
        var got1 := got + [es[0].v];
        PackedRun(f, es[1..], got1);
        assert got1 + Values(es[1..]) == got + Values(es);
        assert DecodePacked(f, Concat(es), got) == DecodePacked(f, Concat(es[1..]), got1);
      }
    }
  }

  lemma SameItems(d: Desc, i: nat, st: DecodeState)
    requires WellFormed(d) && Entered(d, i, st) && d.fields[i].htype.Repeated?
    ensures WithItems(d, i, st, Items(d, i, st)) == st
  {
    var slot := SlotOf(d, st.msg, i, false);
    if d.fields[i].FixedCount() {
      assert slot.items[..st.fixedCount] + slot.items[st.fixedCount..] == slot.items;
    }
    PutSame(d, st.msg, i);
  }

  lemma PutSame(d: Desc, m: Message, i: nat)
    requires i < |d.fields| && Shaped(d, m, false) && DistinctTags(d.fields)
    requires !d.fields[i].htype.OneOf?
    ensures Put(d, m, i, SlotOf(d, m, i, false)) == m
  {
  }

  lemma ItemsTwice(d: Desc, i: nat, st: DecodeState, a: seq<Value>, b: seq<Value>)
    requires WellFormed(d) && Entered(d, i, st) && d.fields[i].htype.Repeated?
    requires |a| <= |b| <= PB_SIZE_MAX && (d.fields[i].FixedCount() ==> |b| <= d.fields[i].arraySize)
    requires forall k | 0 <= k < |a| :: ValueOk(d.fields[i], a[k], false)
    requires forall k | 0 <= k < |b| :: ValueOk(d.fields[i], b[k], false)
    ensures WithItems(d, i, WithItems(d, i, st, a), b) == WithItems(d, i, st, b)
  {
    if d.fields[i].FixedCount() {
      var items := SlotOf(d, st.msg, i, false).items;
      assert (a + items[|a|..])[|b|..] == items[|b|..];
    }
  }

  /** The state after array `i` has received `vs`, one by one. */
  function Receive(d: Desc, i: nat, st: DecodeState, vs: seq<Value>): (st2: DecodeState)
    requires WellFormed(d) && Entered(d, i, st) && d.fields[i].htype.Repeated?
    requires vs == [] || |Items(d, i, st)| + |vs| <= d.fields[i].arraySize <= PB_SIZE_MAX
    requires forall k | 0 <= k < |vs| :: ValueOk(d.fields[i], vs[k], false)
    ensures Entered(d, i, st2)
    decreases |vs|
  {
    if vs == [] then st else Receive(d, i, WithItems(d, i, st, Items(d, i, st) + [vs[0]]), vs[1..])
  }

  lemma {:induction false} ReceiveAll(d: Desc, i: nat, st: DecodeState, vs: seq<Value>)
    requires WellFormed(d) && Entered(d, i, st) && d.fields[i].htype.Repeated?
    requires vs == [] || |Items(d, i, st)| + |vs| <= d.fields[i].arraySize <= PB_SIZE_MAX
    requires forall k | 0 <= k < |vs| :: ValueOk(d.fields[i], vs[k], false)
    ensures Receive(d, i, st, vs) == WithItems(d, i, st, Items(d, i, st) + vs)
    decreases |vs|
  {
    if vs == [] {
      SameItems(d, i, st);
      assert Items(d, i, st) + vs == Items(d, i, st);
    } else {
      ReceiveStep(d, i, st, vs);
      ReceiveAll(d, i, WithItems(d, i, st, Items(d, i, st) + [vs[0]]), vs[1..]);
    }
  }

  lemma ReceiveStep(d: Desc, i: nat, st: DecodeState, vs: seq<Value>)
    requires WellFormed(d) && Entered(d, i, st) && d.fields[i].htype.Repeated? && vs != []
    requires |Items(d, i, st)| + |vs| <= d.fields[i].arraySize <= PB_SIZE_MAX
    requires forall k | 0 <= k < |vs| :: ValueOk(d.fields[i], vs[k], false)
    ensures var st1 := WithItems(d, i, st, Items(d, i, st) + [vs[0]]);
            WithItems(d, i, st1, Items(d, i, st1) + vs[1..]) == WithItems(d, i, st, Items(d, i, st) + vs)
  {
    assert vs == [vs[0]] + vs[1..];
    GrowItems(d, i, st, vs[0], vs[1..]);
  }

  lemma GrowItems(d: Desc, i: nat, st: DecodeState, v: Value, vs: seq<Value>)
    requires WellFormed(d) && Entered(d, i, st) && d.fields[i].htype.Repeated?
    requires |Items(d, i, st)| + 1 + |vs| <= d.fields[i].arraySize <= PB_SIZE_MAX
    requires ValueOk(d.fields[i], v, false) && forall k | 0 <= k < |vs| :: ValueOk(d.fields[i], vs[k], false)
    ensures var got := Items(d, i, st);
            WithItems(d, i, WithItems(d, i, st, got + [v]), got + [v] + vs) == WithItems(d, i, st, got + ([v] + vs))
  {
    var got := Items(d, i, st);
    assert got + [v] + vs == got + ([v] + vs);
    ItemsTwice(d, i, st, got + [v], got + [v] + vs);
  }

  /** The main loop receives unpacked entries one record at a time. */
  lemma {:induction false} UnpackedRun(d: Desc, i: nat, wireType: nat, es: seq<Entry>, tail: Bytes, st: DecodeState)
    requires WellFormed(d) && Entered(d, i, st) && d.fields[i].htype.Repeated? && d.fields[i].Packable()
    requires AreEntries(d.fields[i], es) && wireType < 8 && wireType != WT_STRING
    ensures WellFormedField(d.fields[i]) && forall k | 0 <= k < |es| :: ValueOk(d.fields[i], es[k].v, false)
    ensures DecodeLoop(d, UnpackedRecords(d.fields[i], wireType, es) + tail, st) ==
            if Room(d.fields[i], |Items(d, i, st)|, es)
            then DecodeLoop(d, tail, Receive(d, i, st, Values(es))) else None
    decreases |es|
  {
    var f, got := d.fields[i], Items(d, i, st);
    EntriesOk(f, es);
    assert WellFormedField(f);
    if es == [] {
      assert UnpackedRecords(f, wireType, es) + tail == tail;
    } else {
      UnpackedStep(d, i, wireType, es[0], UnpackedRecords(f, wireType, es[1..]) + tail, st);
      FirstOfRecords(f, wireType, es, tail);
      if |got| < f.arraySize {
        UnpackedRun(d, i, wireType, es[1..], tail, WithItems(d, i, st, got + [es[0].v]));
        assert Values(es)[1..] == Values(es[1..]);
      }
    }
  }

  lemma FirstOfRecords(f: Field, wireType: nat, es: seq<Entry>, tail: Bytes)
    requires es != []
    ensures UnpackedRecords(f, wireType, es) + tail
            == Key(wireType, f.tag) + es[0].raw + (UnpackedRecords(f, wireType, es[1..]) + tail)
  {
  }

  lemma UnpackedStep(d: Desc, i: nat, wireType: nat, e: Entry, rest: Bytes, st: DecodeState)
    requires WellFormed(d) && Entered(d, i, st) && d.fields[i].htype.Repeated? && d.fields[i].Packable()
    requires DecodeScalar(d.fields[i], e.raw) == Some((e.v, [])) && wireType < 8 && wireType != WT_STRING
    requires ValueOk(d.fields[i], e.v, false)
    ensures WellFormedField(d.fields[i])
    ensures var f, got := d.fields[i], Items(d, i, st);
            DecodeLoop(d, Key(wireType, f.tag) + e.raw + rest, st) ==
            if |got| < f.arraySize then DecodeLoop(d, rest, WithItems(d, i, st, got + [e.v])) else None
  {
    var f := d.fields[i];
    assert Key(wireType, f.tag) + e.raw + rest == Key(wireType, f.tag) + (e.raw + rest);
    LoopStep(d, i, Key(wireType, f.tag) + e.raw + rest, st, wireType, e.raw + rest);
    KnownUnpacked(d, i, wireType, e, rest, st);
  }

  lemma KnownUnpacked(d: Desc, i: nat, wireType: nat, e: Entry, rest: Bytes, st: DecodeState)
    requires WellFormed(d) && Entered(d, i, st) && d.fields[i].htype.Repeated? && d.fields[i].Packable()
    requires DecodeScalar(d.fields[i], e.raw) == Some((e.v, [])) && wireType != WT_STRING
    requires ValueOk(d.fields[i], e.v, false)
    ensures WellFormedField(d.fields[i])
    ensures var got := Items(d, i, st);
            DecodeKnown(d, i, wireType, e.raw + rest, st) ==
            if |got| < d.fields[i].arraySize then Some((WithItems(d, i, st, got + [e.v]), rest)) else None
  {
    assert WellFormedField(d.fields[i]);
    EntryRead(d.fields[i], e, rest);
    var got := Items(d, i, st);
    assert DecodeArray(d.fields[i], wireType, e.raw + rest, got)
           == if |got| < d.fields[i].arraySize then Some((got + [e.v], rest)) else None;
    assert EnterArray(d, i, st) == Some(st);
  }

  /** Packed and unpacked agree: at any point of any message, one packed record
      of scalar entries has the same effect as a record per entry, including
      the failure when the array is too small. */
  lemma PackedEqualsUnpacked(d: Desc, i: nat, wireType: nat, es: seq<Entry>, tail: Bytes, st: DecodeState)
    requires WellFormed(d) && StateOk(d, st) && i < |d.fields|
    requires d.fields[i].htype.Repeated? && d.fields[i].Packable()
    requires AreEntries(d.fields[i], es) && es != [] && |Concat(es)| < TWO_32
    requires wireType < 8 && wireType != WT_STRING
    ensures DecodeLoop(d, PackedRecord(d.fields[i], es) + tail, st)
            == DecodeLoop(d, UnpackedRecords(d.fields[i], wireType, es) + tail, st)
  {
    match EnterArray(d, i, st)
    case None =>
      EnterFails(d, i, wireType, es, tail, st);
      PackedStep(d, i, es, tail, st);
    case Some(st1) =>
      var body := es[0].raw + UnpackedRecords(d.fields[i], wireType, es[1..]) + tail;
      assert UnpackedRecords(d.fields[i], wireType, es) + tail == Key(wireType, d.fields[i].tag) + body;
      EnterSame(d, i, wireType, body, st);
      UnpackedRun(d, i, wireType, es, tail, st1);
      if Room(d.fields[i], |Items(d, i, st1)|, es) { ReceiveAll(d, i, st1, Values(es)); }
      PackedStep(d, i, es, tail, st);
  }

  lemma PackedStep(d: Desc, i: nat, es: seq<Entry>, tail: Bytes, st: DecodeState)
    requires WellFormed(d) && StateOk(d, st) && i < |d.fields|
    requires d.fields[i].htype.Repeated? && d.fields[i].Packable()
    requires AreEntries(d.fields[i], es) && |Concat(es)| < TWO_32
    ensures WellFormedField(d.fields[i])
    ensures forall k | 0 <= k < |es| :: ValueOk(d.fields[i], es[k].v, false)
    ensures DecodeLoop(d, PackedRecord(d.fields[i], es) + tail, st) ==
            match EnterArray(d, i, st)
            case None => None
            case Some(st1) =>
              var got := Items(d, i, st1);
              if Room(d.fields[i], |got|, es) then DecodeLoop(d, tail, WithItems(d, i, st1, got + Values(es))) else None
  {
    var f := d.fields[i];
    assert WellFormedField(f);
    EntriesOk(f, es);
    var body := Framed(Concat(es)) + tail;
    assert PackedRecord(f, es) + tail == Key(WT_STRING, f.tag) + body;
    LoopStep(d, i, Key(WT_STRING, f.tag) + body, st, WT_STRING, body);
    if EnterArray(d, i, st).Some? { KnownPacked(d, i, es, tail, st); }
  }

  lemma KnownPacked(d: Desc, i: nat, es: seq<Entry>, tail: Bytes, st: DecodeState)
    requires WellFormed(d) && StateOk(d, st) && i < |d.fields| && EnterArray(d, i, st).Some?
    requires d.fields[i].htype.Repeated? && d.fields[i].Packable() && WellFormedField(d.fields[i])
    requires AreEntries(d.fields[i], es) && |Concat(es)| < TWO_32
    requires forall k | 0 <= k < |es| :: ValueOk(d.fields[i], es[k].v, false)
    ensures var st1 := EnterArray(d, i, st).value;
            var got := Items(d, i, st1);
            DecodeKnown(d, i, WT_STRING, Framed(Concat(es)) + tail, st) ==
            if Room(d.fields[i], |got|, es) then Some((WithItems(d, i, st1, got + Values(es)), tail)) else None
  {
    var f, st1 := d.fields[i], EnterArray(d, i, st).value;
    var got, body := Items(d, i, st1), Framed(Concat(es)) + tail;
    ReadFrame(Concat(es), tail);
    PackedRun(f, es, got);
    assert DecodeArray(f, WT_STRING, body, got) == if Room(f, |got|, es) then Some((got + Values(es), tail)) else None;
  }

  /** A written length-delimited payload is read back. */
  lemma ReadFrame(bs: Bytes, rest: Bytes)
    requires |bs| < TWO_32
    ensures Substream(Framed(bs) + rest) == Some((bs, rest))
  {
    assert Framed(bs) + rest == EncodeVarint(|bs|) + (bs + rest);
    Varint32RoundTrip(|bs|, bs + rest);
    assert (bs + rest)[..|bs|] == bs && (bs + rest)[|bs|..] == rest;
  }

  lemma EnterFails(d: Desc, i: nat, wireType: nat, es: seq<Entry>, tail: Bytes, st: DecodeState)
    requires WellFormed(d) && StateOk(d, st) && i < |d.fields| && d.fields[i].htype.Repeated?
    requires EnterArray(d, i, st).None? && es != [] && wireType < 8
    ensures DecodeLoop(d, UnpackedRecords(d.fields[i], wireType, es) + tail, st).None?
  {
    var f := d.fields[i];
    var body := es[0].raw + UnpackedRecords(f, wireType, es[1..]) + tail;
    assert UnpackedRecords(f, wireType, es) + tail == Key(wireType, f.tag) + body;
    LoopStep(d, i, Key(wireType, f.tag) + body, st, wireType, body);
  }

  /** Entering the array early makes no difference to its first record. */
  lemma EnterSame(d: Desc, i: nat, wireType: nat, body: Bytes, st: DecodeState)
    requires WellFormed(d) && StateOk(d, st) && i < |d.fields| && d.fields[i].htype.Repeated?
    requires EnterArray(d, i, st).Some? && wireType < 8
    ensures var bs := Key(wireType, d.fields[i].tag) + body;
            DecodeLoop(d, bs, st) == DecodeLoop(d, bs, EnterArray(d, i, st).value)
  {
    var bs, st1 := Key(wireType, d.fields[i].tag) + body, EnterArray(d, i, st).value;
    LoopStep(d, i, bs, st, wireType, body);
    LoopStep(d, i, bs, st1, wireType, body);
    assert EnterArray(d, i, st1) == Some(st1);
  }
}
