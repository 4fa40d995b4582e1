/** Decoding reads records one after the other: bytes behind a record do not
    change how it is read, concatenated messages merge, and unknown records
    leave no trace. */
module PbMerge {
  import opened Wrappers
  import opened Bits
  import opened PbVarint
  import opened PbModel
  import opened PbEncoding
  import opened PbDecoding

  // ---------------------------------------------------------------------
  // What follows is not looked at
  // ---------------------------------------------------------------------

  lemma {:induction false} Varint64LoopLocal(bs: Bytes, bitpos: nat, result: nat, tail: Bytes)
    requires Varint64Loop(bs, bitpos, result).Some?
    ensures var (n, rest) := Varint64Loop(bs, bitpos, result).value;
            Varint64Loop(bs + tail, bitpos, result) == Some((n, rest + tail))
    decreases |bs|
  {
    assert (bs + tail)[1..] == bs[1..] + tail;
    if bs[0] >= 128 {
      Varint64LoopLocal(bs[1..], bitpos + 7, Or(result, Shl64(bs[0] % 128, bitpos)), tail);
    }
  }

  lemma {:induction false} Varint32LoopLocal(bs: Bytes, bitpos: nat, result: nat, tail: Bytes)
    requires Varint32Loop(bs, bitpos, result).Some?
    ensures var (n, rest) := Varint32Loop(bs, bitpos, result).value;
            Varint32Loop(bs + tail, bitpos, result) == Some((n, rest + tail))
    decreases |bs|
  {
    assert (bs + tail)[1..] == bs[1..] + tail;
    if bs[0] >= 128 {
      var next := if bitpos >= 32 then result else Or(result, Shl32(bs[0] % 128, bitpos));
      Varint32LoopLocal(bs[1..], (bitpos + 7) % 256, next, tail);
    }
  }

  lemma Varint32Local(bs: Bytes, tail: Bytes)
    requires Varint32(bs).Some?
    ensures var (n, rest) := Varint32(bs).value; Varint32(bs + tail) == Some((n, rest + tail))
  {
    assert (bs + tail)[1..] == bs[1..] + tail;
    if bs[0] >= 128 { Varint32LoopLocal(bs[1..], 7, bs[0] % 128, tail); }
  }

  lemma {:induction false} SplitLocal(bs: Bytes, tail: Bytes)
    requires Split(bs).Some?
    ensures var (run, rest) := Split(bs).value; Split(bs + tail) == Some((run, rest + tail))
  {
    assert (bs + tail)[1..] == bs[1..] + tail;
    if bs[0] >= 128 { SplitLocal(bs[1..], tail); }
  }

  lemma TakeLocal(bs: Bytes, n: nat, tail: Bytes)
    requires Take(bs, n).Some?
    ensures var (x, rest) := Take(bs, n).value; Take(bs + tail, n) == Some((x, rest + tail))
  {
    assert (bs + tail)[..n] == bs[..n] && (bs + tail)[n..] == bs[n..] + tail;
  }

  lemma SubstreamLocal(bs: Bytes, tail: Bytes)
    requires Substream(bs).Some?
    ensures var (sub, rest) := Substream(bs).value; Substream(bs + tail) == Some((sub, rest + tail))
  {
    Varint32Local(bs, tail);
    var (size, rest) := Varint32(bs).value;
    TakeLocal(rest, size, tail);
  }

  lemma SkipLocal(wireType: nat, bs: Bytes, tail: Bytes)
    requires SkipField(wireType, bs).Some?
    ensures SkipField(wireType, bs + tail) == Some(SkipField(wireType, bs).value + tail)
  {
    if wireType == WT_VARINT { SplitLocal(bs, tail); }
    else if wireType == WT_64BIT { TakeLocal(bs, 8, tail); }
    else if wireType == WT_STRING { SubstreamLocal(bs, tail); }
    else { TakeLocal(bs, 4, tail); }
  }

  lemma ScalarLocal(f: Field, bs: Bytes, tail: Bytes)
    requires !f.ltype.LSubMessage? && DecodeScalar(f, bs).Some?
    ensures var (v, rest) := DecodeScalar(f, bs).value; DecodeScalar(f, bs + tail) == Some((v, rest + tail))
  {
    if f.ltype.LFixed32? {
      TakeLocal(bs, 4, tail);
    } else if f.ltype.LFixed64? {
      TakeLocal(bs, 8, tail);
    } else if f.ltype.LVarint? || f.ltype.LUVarint? || f.ltype.LSVarint? {
      Varint64LoopLocal(bs, 0, 0, tail);
    } else {
      Varint32Local(bs, tail);
      var (size, rest) := Varint32(bs).value;
      if !f.ltype.LBool? && Take(rest, size).Some? { TakeLocal(rest, size, tail); }
    }
  }

  lemma ValueLocal(f: Field, bs: Bytes, prior: Value, tail: Bytes)
    requires WellFormedField(f) && (f.ltype.LSubMessage? && !f.htype.Repeated? ==> ValueOk(f, prior, false))
    requires DecodeValue(f, bs, prior).Some?
    ensures var (v, rest) := DecodeValue(f, bs, prior).value; DecodeValue(f, bs + tail, prior) == Some((v, rest + tail))
  {
    if f.ltype.LSubMessage? { SubstreamLocal(bs, tail); } else { ScalarLocal(f, bs, tail); }
  }

  lemma ArrayLocal(f: Field, wireType: nat, bs: Bytes, got: seq<Value>, tail: Bytes)
    requires WellFormedField(f) && f.htype.Repeated?
    requires |got| <= PB_SIZE_MAX && forall k | 0 <= k < |got| :: ValueOk(f, got[k], false)
    requires DecodeArray(f, wireType, bs, got).Some?
    ensures var (items, rest) := DecodeArray(f, wireType, bs, got).value;
            DecodeArray(f, wireType, bs + tail, got) == Some((items, rest + tail))
  {
    if wireType == WT_STRING && f.Packable() { SubstreamLocal(bs, tail); } else { ValueLocal(f, bs, Undefined, tail); }
  }

  lemma EntriesLocal(d: Desc, i: nat, wireType: nat, bs: Bytes, st: DecodeState, tail: Bytes)
    requires WellFormed(d) && Entered(d, i, st) && d.fields[i].htype.Repeated?
    requires DecodeEntries(d, i, wireType, bs, st).Some?
    ensures var (st2, rest) := DecodeEntries(d, i, wireType, bs, st).value;
            DecodeEntries(d, i, wireType, bs + tail, st) == Some((st2, rest + tail))
  {
    assert WellFormedField(d.fields[i]);
    ArrayLocal(d.fields[i], wireType, bs, Items(d, i, st), tail);
  }

  lemma SingleLocal(d: Desc, i: nat, bs: Bytes, st: DecodeState, tail: Bytes)
    requires WellFormed(d) && StateOk(d, st) && i < |d.fields| && !d.fields[i].htype.Repeated?
    requires DecodeSingle(d, i, bs, st).Some?
    ensures var (st2, rest) := DecodeSingle(d, i, bs, st).value;
            DecodeSingle(d, i, bs + tail, st) == Some((st2, rest + tail))
  {
    var f := d.fields[i];
    assert WellFormedField(f);
    DefaultValueOk(f);
    ValueLocal(f, bs, if f.htype.OneOf? then DefaultValue(f) else SlotOf(d, st.msg, i, false).v, tail);
  }

  lemma KnownLocal(d: Desc, i: nat, wireType: nat, bs: Bytes, st: DecodeState, tail: Bytes)
    requires WellFormed(d) && StateOk(d, st) && i < |d.fields|
    requires DecodeKnown(d, i, wireType, bs, st).Some?
    ensures var (st2, rest) := DecodeKnown(d, i, wireType, bs, st).value;
            DecodeKnown(d, i, wireType, bs + tail, st) == Some((st2, rest + tail))
  {
    if d.fields[i].htype.Repeated? {
      EntriesLocal(d, i, wireType, bs, EnterArray(d, i, st).value, tail);
    } else {
      SingleLocal(d, i, bs, st, tail);
    }
  }

  lemma RecordLocal(d: Desc, tag: nat, wireType: nat, bs: Bytes, st: DecodeState, tail: Bytes)
    requires WellFormed(d) && StateOk(d, st)
    requires DecodeRecord(d, tag, wireType, bs, st).Some?
    ensures var (st2, rest) := DecodeRecord(d, tag, wireType, bs, st).value;
            DecodeRecord(d, tag, wireType, bs + tail, st) == Some((st2, rest + tail))
  {
    if d.fields == [] && tag == 0 {
      Varint32Local(bs, tail);
    } else {
      match FieldWithTag(d.fields, tag)
      case None => SkipLocal(wireType, bs, tail);
      case Some(i) => KnownLocal(d, i, wireType, bs, st, tail);
    }
  }

  // ---------------------------------------------------------------------
  // Concatenation is merge
  // ---------------------------------------------------------------------

  /** When `a` runs out without a zero key, the loop goes on with `b` from the
      state that `a` left, for every descriptor and every `b`, good or bad. */
  lemma {:induction false} LoopConcat(d: Desc, a: Bytes, b: Bytes, st: DecodeState)
    requires WellFormed(d) && StateOk(d, st)
    requires DecodeLoop(d, a, st).Some? && !DecodeLoop(d, a, st).value.atZero
    ensures DecodeLoop(d, a + b, st) == DecodeLoop(d, b, DecodeLoop(d, a, st).value.st)
    decreases |a|
  {
    if a == [] {
      assert a + b == b;
    } else {
      Varint32Below(a);
      Varint32Local(a, b);
      var (key, rest) := Varint32(a).value;
      RecordLocal(d, key / 8, key % 8, rest, st, b);
      var (st2, rest2) := DecodeRecord(d, key / 8, key % 8, rest, st).value;
      LoopConcat(d, rest2, b, st2);
    }
  }

  /** A zero key ends the message: whatever follows is left unread. */
  lemma {:induction false} ZeroKeyStops(d: Desc, a: Bytes, b: Bytes, st: DecodeState)
    requires WellFormed(d) && StateOk(d, st)
    requires DecodeLoop(d, a, st).Some? && DecodeLoop(d, a, st).value.atZero
    ensures var end := DecodeLoop(d, a, st).value;
            DecodeLoop(d, a + b, st) == Some(end.(rest := end.rest + b))
    decreases |a|
  {
    Varint32Below(a);
    Varint32Local(a, b);
    var (key, rest) := Varint32(a).value;
    if key != 0 {
      RecordLocal(d, key / 8, key % 8, rest, st, b);
      var (st2, rest2) := DecodeRecord(d, key / 8, key % 8, rest, st).value;
      ZeroKeyStops(d, rest2, b, st2);
    }
  }

  /** Which required fields were seen before does not matter for what is
      decoded; those seen are added to it. */
  lemma {:induction false} LoopAddsSeen(d: Desc, bs: Bytes, st: DecodeState, more: set<nat>)
    requires WellFormed(d) && StateOk(d, st)
    ensures var with := DecodeLoop(d, bs, st.(seen := st.seen + more));
            match DecodeLoop(d, bs, st)
            case None => with.None?
            case Some(end) => with == Some(end.(st := end.st.(seen := end.st.seen + more)))
    decreases |bs|
  {
    if bs != [] && Varint32(bs).Some? {
      Varint32Below(bs);
      var (key, rest) := Varint32(bs).value;
      if key != 0 {
        var st' := st.(seen := st.seen + more);
        RecordAddsSeen(d, key / 8, key % 8, rest, st, more);
        match DecodeRecord(d, key / 8, key % 8, rest, st)
        case None =>
        case Some((st2, rest2)) =>
          LoopAddsSeen(d, rest2, st2, more);
      }
    }
  }

  lemma RecordAddsSeen(d: Desc, tag: nat, wireType: nat, bs: Bytes, st: DecodeState, more: set<nat>)
    requires WellFormed(d) && StateOk(d, st)
    ensures var with := DecodeRecord(d, tag, wireType, bs, st.(seen := st.seen + more));
            match DecodeRecord(d, tag, wireType, bs, st)
            case None => with.None?
            case Some((st2, rest)) => with == Some((st2.(seen := st2.seen + more), rest))
  {
    if d.fields == [] && tag == 0 {
      assert st.seen + more + {0} == st.seen + {0} + more;
    } else if FieldWithTag(d.fields, tag).Some? {
      KnownAddsSeen(d, FieldWithTag(d.fields, tag).value, wireType, bs, st, more);
    }
  }

  lemma KnownAddsSeen(d: Desc, i: nat, wireType: nat, bs: Bytes, st: DecodeState, more: set<nat>)
    requires WellFormed(d) && StateOk(d, st) && i < |d.fields|
    ensures var with := DecodeKnown(d, i, wireType, bs, st.(seen := st.seen + more));
            match DecodeKnown(d, i, wireType, bs, st)
            case None => with.None?
            case Some((st2, rest)) => with == Some((st2.(seen := st2.seen + more), rest))
  {
    var st' := st.(seen := st.seen + more);
    if d.fields[i].htype.Repeated? {
      var e := EnterArray(d, i, st);
      if e.None? {
        assert EnterArray(d, i, st').None?;
      } else {
        assert EnterArray(d, i, st') == Some(e.value.(seen := e.value.seen + more));
        EntriesAddSeen(d, i, wireType, bs, e.value, more);
      }
    } else {
      SingleAddsSeen(d, i, bs, st, more);
    }
  }

  lemma EntriesAddSeen(d: Desc, i: nat, wireType: nat, bs: Bytes, st: DecodeState, more: set<nat>)
    requires WellFormed(d) && Entered(d, i, st) && d.fields[i].htype.Repeated?
    ensures var with := DecodeEntries(d, i, wireType, bs, st.(seen := st.seen + more));
            match DecodeEntries(d, i, wireType, bs, st)
            case None => with.None?
            case Some((st2, rest)) => with == Some((st2.(seen := st2.seen + more), rest))
  {
    assert Items(d, i, st) == Items(d, i, st.(seen := st.seen + more));
  }

  lemma SingleAddsSeen(d: Desc, i: nat, bs: Bytes, st: DecodeState, more: set<nat>)
    requires WellFormed(d) && StateOk(d, st) && i < |d.fields| && !d.fields[i].htype.Repeated?
    ensures var with := DecodeSingle(d, i, bs, st.(seen := st.seen + more));
            match DecodeSingle(d, i, bs, st)
            case None => with.None?
            case Some((st2, rest)) => with == Some((st2.(seen := st2.seen + more), rest))
  {
    var r := RequiredBefore(d.fields, i);
    assert MarkSeen(d, i, st.seen + more) == MarkSeen(d, i, st.seen) + more by {
      assert st.seen + more + {r} == st.seen + {r} + more;
    }
  }

  // ---------------------------------------------------------------------
  // Forward compatibility
  // ---------------------------------------------------------------------

  /** The payload of a record of each wire type a writer may use. */
  datatype Payload =
    | VarintPayload(n: nat)
    | Fixed64Payload(raw: Bytes)
    | StringPayload(raw: Bytes)
    | Fixed32Payload(raw: Bytes)
  {
    predicate Valid() {
      match this
      case VarintPayload(_) => true
      case Fixed64Payload(raw) => |raw| == 8
      case StringPayload(raw) => |raw| < TWO_32
      case Fixed32Payload(raw) => |raw| == 4
    }

    function WireType(): nat {
      match this
      case VarintPayload(_) => WT_VARINT
      case Fixed64Payload(_) => WT_64BIT
      case StringPayload(_) => WT_STRING
      case Fixed32Payload(_) => WT_32BIT
    }

    function Render(): Bytes {
      match this
      case VarintPayload(n) => EncodeVarint(n)
      case Fixed64Payload(raw) => raw
      case StringPayload(raw) => Framed(raw)
      case Fixed32Payload(raw) => raw
    }
  }

  /** A payload of a wire type, whoever wrote it: a run of varint bytes, a word,
      or as many bytes as the length in front of them says. */
  ghost predicate IsPayload(wireType: nat, p: Bytes) {
    if wireType == 0 then p != [] && forall k | 0 <= k < |p| :: p[k] >= 128 <==> k < |p| - 1
    else if wireType == 1 then |p| == 8
    else if wireType == 5 then |p| == 4
    else wireType == 2 && Varint32(p).Some? && Varint32(p).value.0 == |Varint32(p).value.1|
  }

  /** A varint ends where its own bytes say so, whatever follows. */
  lemma {:induction false} Varint32LoopCut(bs: Bytes, bitpos: nat, result: nat, tail: Bytes)
    requires Varint32Loop(bs + tail, bitpos, result).Some?
    requires |Varint32Loop(bs + tail, bitpos, result).value.1| >= |tail|
    ensures Varint32Loop(bs, bitpos, result).Some?
    decreases |bs|
  {
    if bs == [] {
      assert bs + tail == tail;
      LoopShrinks(tail, bitpos, result);
    } else {
      assert (bs + tail)[1..] == bs[1..] + tail;
      if bs[0] >= 128 {
        var next := if bitpos >= 32 then result else Or(result, Shl32(bs[0] % 128, bitpos));
        Varint32LoopCut(bs[1..], (bitpos + 7) % 256, next, tail);
      }
    }
  }

  lemma {:induction false} LoopShrinks(bs: Bytes, bitpos: nat, result: nat)
    ensures Varint32Loop(bs, bitpos, result).Some? ==> |Varint32Loop(bs, bitpos, result).value.1| < |bs|
    decreases |bs|
  {
    if bs != [] && bs[0] >= 128 {
      var next := if bitpos >= 32 then result else Or(result, Shl32(bs[0] % 128, bitpos));
      LoopShrinks(bs[1..], (bitpos + 7) % 256, next);
    }
  }

  lemma Varint32Cut(bs: Bytes, tail: Bytes)
    requires Varint32(bs + tail).Some? && |Varint32(bs + tail).value.1| >= |tail|
    ensures Varint32(bs).Some?
  {
    if bs == [] {
      assert bs + tail == tail;
      if tail[0] >= 128 { LoopShrinks(tail[1..], 7, tail[0] % 128); }
    } else {
      assert (bs + tail)[1..] == bs[1..] + tail;
      if bs[0] >= 128 { Varint32LoopCut(bs[1..], 7, bs[0] % 128, tail); }
    }
  }

  lemma PayloadSkipped(wireType: nat, p: Bytes)
    requires IsPayload(wireType, p)
    ensures SkipField(wireType, p) == Some([])
  {
    if wireType == WT_VARINT {
      assert p[|p| - 1] < 128;
      var (run, rest) := Split(p).value;
      assert p[|run| - 1] == (run + rest)[|run| - 1] == run[|run| - 1];
    } else if wireType == WT_STRING {
      var (size, rest) := Varint32(p).value;
      assert rest[|rest|..] == [];
    }
  }

  lemma SkippedIsPayload(wireType: nat, p: Bytes, rest: Bytes)
    requires SkipField(wireType, p + rest) == Some(rest)
    ensures IsPayload(wireType, p)
  {
    if wireType == WT_VARINT {
      var run := Split(p + rest).value.0;
      assert |run| == |p|;
      assert run == (run + rest)[..|run|] == (p + rest)[..|p|] == p;
    } else if wireType == WT_STRING {
      Varint32Cut(p, rest);
      Varint32Local(p, rest);
    }
  }

  /** pb_skip_field consumes exactly one payload of the wire type. */
  lemma SkipConsumesPayload(wireType: nat, p: Bytes, rest: Bytes)
    ensures SkipField(wireType, p + rest) == Some(rest) <==> IsPayload(wireType, p)
  {
    hide SkipField, IsPayload;
    if IsPayload(wireType, p) {
      PayloadSkipped(wireType, p);
      SkipLocal(wireType, p, rest);
      assert [] + rest == rest;
    }
    if SkipField(wireType, p + rest) == Some(rest) { SkippedIsPayload(wireType, p, rest); }
  }

  /** What a writer puts on the wire is such a payload. */
  lemma WrittenPayload(p: Payload)
    requires p.Valid()
    ensures IsPayload(p.WireType(), p.Render())
  {
    match p
    case VarintPayload(n) =>
      EncodeVarintIsLeb(n, []);
      assert EncodeVarint(n) + [] == EncodeVarint(n);
    case Fixed64Payload(raw) =>
    case StringPayload(raw) => Varint32RoundTrip(|raw|, raw);
    case Fixed32Payload(raw) =>
  }

  /** The bytes `k` and `p` are a record of an unknown field: a key that the
      decoder can read, however it is padded, and a payload of its wire type. */
  ghost predicate IsUnknownRecord(d: Desc, k: Bytes, p: Bytes) {
    && Varint32(k).Some? && Varint32(k).value.1 == []
    && Varint32(k).value.0 >= 8 && FieldWithTag(d.fields, Varint32(k).value.0 / 8).None?
    && IsPayload(Varint32(k).value.0 % 8, p)
  }

  /** An unknown record between any two records of a message changes neither
      the outcome nor the decoded data, whatever comes after it. */
  lemma ForwardCompatible(d: Desc, a: Bytes, k: Bytes, p: Bytes, b: Bytes, st: DecodeState)
    requires WellFormed(d) && StateOk(d, st)
    requires DecodeLoop(d, a, st).Some? && !DecodeLoop(d, a, st).value.atZero
    requires IsUnknownRecord(d, k, p)
    ensures DecodeLoop(d, a + (k + p) + b, st) == DecodeLoop(d, a + b, st)
  {
    LoopConcat(d, a, b, st);
    LoopConcat(d, a, k + p + b, st);
    assert a + (k + p) + b == a + (k + p + b);
    RecordSkipped(d, k, p, b, DecodeLoop(d, a, st).value.st);
  }

  lemma RecordSkipped(d: Desc, k: Bytes, p: Bytes, b: Bytes, st: DecodeState)
    requires WellFormed(d) && StateOk(d, st) && IsUnknownRecord(d, k, p)
    ensures DecodeLoop(d, k + p + b, st) == DecodeLoop(d, b, st)
  {
    hide DecodeLoop, Varint32, SkipField, IsPayload;
    var key := Varint32(k).value.0;
    Varint32Local(k, p + b);
    assert k + (p + b) == k + p + b && [] + (p + b) == p + b;
    SkipConsumesPayload(key % 8, p, b);
    RecordStep(d, k + p + b, st, key / 8, key % 8, p + b);
  }

  /** The same for whole messages. */
  lemma UnknownRecordIgnored(d: Desc, a: Bytes, k: Bytes, p: Bytes, b: Bytes, m: Message)
    requires WellFormed(d) && Shaped(d, m, false)
    requires DecodeLoop(d, a, Start(m)).Some? && !DecodeLoop(d, a, Start(m)).value.atZero
    requires IsUnknownRecord(d, k, p)
    ensures DecodeMessage(d, a + (k + p) + b, m) == DecodeMessage(d, a + b, m)
  {
    ForwardCompatible(d, a, k, p, b, Start(m));
  }

  /** What a writer of a newer version puts on the wire is such a record. */
  lemma WrittenRecordIsUnknown(d: Desc, tag: nat, p: Payload)
    requires p.Valid() && 0 < tag < 0x2000_0000 && FieldWithTag(d.fields, tag).None?
    ensures IsUnknownRecord(d, Key(p.WireType(), tag), p.Render())
  {
    hide IsPayload, Varint32;
    ReadKey(p.WireType(), tag, []);
    KeyParts(tag, p.WireType());
    assert Key(p.WireType(), tag) + [] == Key(p.WireType(), tag);
    WrittenPayload(p);
  }
}
