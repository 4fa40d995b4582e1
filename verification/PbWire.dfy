/** The records that pb_encode writes: their keys fit their payloads, so that any
    reader can tell them apart, and skip those it does not know. */
module PbWire {
  import opened Wrappers
  import opened Bits
  import opened PbVarint
  import opened PbModel
  import opened PbEncoding
  import opened PbDecoding
  import opened PbMerge
  import opened PbPacked

  // ---------------------------------------------------------------------
  // One record
  // ---------------------------------------------------------------------

  /** The bytes `k` are a key with this tag, and `p` is a payload of the wire type
      in it. */
  ghost predicate IsRecord(tag: nat, k: Bytes, p: Bytes) {
    && Varint32(k).Some? && Varint32(k).value.1 == []
    && Varint32(k).value.0 / 8 == tag && IsPayload(Varint32(k).value.0 % 8, p)
  }

  lemma KeyRead(wireType: nat, tag: nat)
    requires wireType < 8 && tag < 0x2000_0000
    ensures Varint32(Key(wireType, tag)) == Some((tag * 8 + wireType, []))
    ensures (tag * 8 + wireType) / 8 == tag && (tag * 8 + wireType) % 8 == wireType
  {
    ReadKey(wireType, tag, []);
    assert Key(wireType, tag) + [] == Key(wireType, tag);
    KeyParts(tag, wireType);
  }

  lemma VarintIsPayload(n: nat)
    ensures IsPayload(WT_VARINT, EncodeVarint(n))
  {
    WrittenPayload(VarintPayload(n));
    assert VarintPayload(n).WireType() == WT_VARINT && VarintPayload(n).Render() == EncodeVarint(n);
  }

  lemma FrameIsPayload(bs: Bytes)
    requires |bs| < TWO_32
    ensures IsPayload(WT_STRING, Framed(bs))
  {
    WrittenPayload(StringPayload(bs));
    assert StringPayload(bs).WireType() == WT_STRING && StringPayload(bs).Render() == Framed(bs);
  }

  /** The value of a field is a payload of its wire type. */
  lemma ValueIsPayload(f: Field, v: Value)
    requires ValueOk(f, v, true) && EncodeValue(f, v).Some? && |EncodeValue(f, v).value| < TWO_32
    ensures IsPayload(WireType(f.ltype), EncodeValue(f, v).value)
  {
    hide Framed, EncodeVarint, IsPayload;
    var p := EncodeValue(f, v).value;
    match f.ltype
    case LBool => VarintIsPayload(if v.b then 1 else 0);
    case LVarint => VarintIsPayload(Pattern64(v.n));
    case LUVarint => VarintIsPayload(v.n);
    case LSVarint => VarintIsPayload(ZigZag(v.n));
    case LFixed32 => WordIsPayload(p);
    case LFixed64 => WordIsPayload(p);
    case LBytes => FrameShort(v.bytes); FrameIsPayload(v.bytes);
    case LString => FrameShort(CString(v.bytes)); FrameIsPayload(CString(v.bytes));
    case LFixedBytes => FrameShort(v.bytes); FrameIsPayload(v.bytes);
    case LSubMessage(d) =>
      var bs := EncodeMessage(d, v.slots).value;
      FrameShort(bs);
      FrameIsPayload(bs);
  }

  lemma WordIsPayload(p: Bytes)
    ensures |p| == 4 ==> IsPayload(WT_32BIT, p)
    ensures |p| == 8 ==> IsPayload(WT_64BIT, p)
  {
  }

  lemma FrameShort(bs: Bytes)
    ensures |bs| <= |Framed(bs)|
  {
  }

  /** A record is a key and a payload that fit together. */
  lemma RecordOnWire(f: Field, v: Value) returns (k: Bytes, p: Bytes)
    requires WellFormedField(f) && ValueOk(f, v, true) && EncodeRecord(f, v).Some? && |EncodeRecord(f, v).value| < TWO_32
    ensures EncodeRecord(f, v).value == k + p && EncodeValue(f, v) == Some(p)
    ensures IsRecord(f.tag, k, p)
  {
    hide EncodeValue, Key, IsPayload;
    k, p := Key(WireType(f.ltype), f.tag), EncodeValue(f, v).value;
    ValueIsPayload(f, v);
    KeyRead(WireType(f.ltype), f.tag);
  }

  /** So is the record of a packed array, with its values back to back. */
  lemma PackedOnWire(f: Field, items: seq<Value>) returns (k: Bytes, p: Bytes)
    requires WellFormedField(f) && (forall i | 0 <= i < |items| :: ValueOk(f, items[i], true)) && items != [] && f.Packable()
    requires EncodeArray(f, items).Some? && |EncodeArray(f, items).value| < TWO_32
    ensures EncodeArray(f, items).value == k + p && EncodeValues(f, items).Some?
    ensures IsRecord(f.tag, k, p) && Substream(p) == Some((EncodeValues(f, items).value, []))
  {
    hide EncodeValues, Key, IsPayload, Framed, Substream;
    var bs := EncodeValues(f, items).value;
    k, p := Key(WT_STRING, f.tag), Framed(bs);
    FrameShort(bs);
    FrameIsPayload(bs);
    KeyRead(WT_STRING, f.tag);
    ReadFrame(bs, []);
    assert Framed(bs) + [] == Framed(bs);
  }

  /** What a payload says, by the type of the field. */
  ghost predicate Says(t: LType, p: Bytes, v: Value) {
    match t
    case LBool => v.VBool? && Leb128(p) == if v.b then 1 else 0
    case LVarint => v.VInt? && Leb128(p) == if v.n < 0 then v.n + TWO_64 else v.n
    case LUVarint => v.VInt? && Leb128(p) == v.n
    case LSVarint => v.VInt? && Leb128(p) == if v.n < 0 then -2 * v.n - 1 else 2 * v.n
    case LFixed32 => v.VInt? && v.n >= 0 && |p| == 4 && LowBytesFirst(p, v.n)
    case LFixed64 => v.VInt? && v.n >= 0 && |p| == 8 && LowBytesFirst(p, v.n)
    case LBytes => v.VBytes? && Substream(p) == Some((v.bytes, []))
    case LString => v.VBytes? && Substream(p) == Some((CString(v.bytes), []))
    case LFixedBytes => v.VBytes? && Substream(p) == Some((v.bytes, []))
    case LSubMessage(d) => v.VMessage? && Substream(p).Some? && Substream(p).value.1 == []
  }

  ghost predicate LowBytesFirst(p: Bytes, n: nat) {
    forall k | 0 <= k < |p| :: p[k] == n / Pow2(8 * k) % 256
  }

  lemma {:induction false} LittleEndianBytes(n: nat, width: nat)
    ensures LowBytesFirst(LittleEndian(n, width), n)
  {
    if width > 0 {
      LittleEndianBytes(n / 256, width - 1);
      var bs := LittleEndian(n, width);
      forall k | 0 <= k < |bs| ensures bs[k] == n / Pow2(8 * k) % 256 {
        if k > 0 {
          assert bs[k] == LittleEndian(n / 256, width - 1)[k - 1];
          NextByte(n, k);
        }
      }
    }
  }

  lemma NextByte(n: nat, k: nat)
    requires k > 0
    ensures n / 256 / Pow2(8 * (k - 1)) == n / Pow2(8 * k)
  {
    var p := Pow2(8 * (k - 1));
    Pow2OfByte();
    Pow2Add(8, 8 * (k - 1));
    DivDiv(n, 256, p);
  }

  lemma Distribute(a: nat, b: nat, q: nat, s: nat)
    ensures a * (b * q + s) == a * b * q + a * s
  {
    assert a * (b * q) == a * b * q;
  }

  lemma DigitBelow(a: nat, b: nat, s: nat, r: nat)
    requires s < b && r < a
    ensures a * s + r < a * b
  {
    MulMono(s + 1, b, a);
  }

  lemma DivDiv(n: nat, a: nat, b: nat)
    requires a > 0 && b > 0
    ensures n / a / b == n / (a * b)
  {
    var x, r := n / a, n % a;
    var q, s := x / b, x % b;
    DivParts(n, a);
    DivParts(x, b);
    Distribute(a, b, q, s);
    DigitBelow(a, b, s, r);
    ModUnique(n, a * b, q, a * s + r);
  }

  lemma DivParts(n: nat, a: nat)
    requires a > 0
    ensures n == a * (n / a) + n % a && n % a < a
  {
  }

  /** The encoders write just what the value is. */
  lemma ValueOnWire(f: Field, v: Value)
    requires ValueOk(f, v, true) && EncodeValue(f, v).Some? && |EncodeValue(f, v).value| < TWO_32
    ensures Says(f.ltype, EncodeValue(f, v).value, v)
    ensures f.ltype.LSubMessage? ==>
              EncodeMessage(f.ltype.desc, v.slots) == Some(Substream(EncodeValue(f, v).value).value.0)
  {
    hide Framed, EncodeVarint, LittleEndian, LowBytesFirst, Substream;
    match f.ltype
    case LBool => VarintSays(if v.b then 1 else 0);
    case LVarint => VarintSays(Pattern64(v.n));
    case LUVarint => VarintSays(v.n);
    case LSVarint => VarintSays(ZigZag(v.n)); ZigZagNumbers(v.n);
    case LFixed32 => LittleEndianBytes(v.n, 4);
    case LFixed64 => LittleEndianBytes(v.n, 8);
    case LBytes => FrameSays(v.bytes);
    case LString => FrameSays(CString(v.bytes));
    case LFixedBytes => FrameSays(v.bytes);
    case LSubMessage(d) => FrameSays(EncodeMessage(d, v.slots).value);
  }

  lemma VarintSays(n: nat)
    ensures Leb128(EncodeVarint(n)) == n
  {
    EncodeVarintIsLeb(n, []);
  }

  lemma FrameSays(bs: Bytes)
    requires |Framed(bs)| < TWO_32
    ensures Substream(Framed(bs)) == Some((bs, []))
  {
    FrameShort(bs);
    ReadFrame(bs, []);
    assert Framed(bs) + [] == Framed(bs);
  }

  // ---------------------------------------------------------------------
  // What is left out
  // ---------------------------------------------------------------------

  ghost predicate AllZero(p: Bytes) {
    forall k | 0 <= k < |p| :: p[k] == 0
  }

  lemma {:induction false} ZeroLeb(p: Bytes)
    requires AllZero(p)
    ensures Leb128(p) == 0
  {
    if p != [] { ZeroLeb(p[1..]); }
  }

  lemma ZeroVarint(n: nat)
    ensures AllZero(EncodeVarint(n)) <==> n == 0
  {
    EncodeVarintIsLeb(n, []);
    if AllZero(EncodeVarint(n)) { ZeroLeb(EncodeVarint(n)); }
  }

  lemma ZeroFrame(bs: Bytes)
    ensures AllZero(Framed(bs)) <==> bs == []
  {
    ZeroVarint(|bs|);
    assert AllZero(Framed(bs)) ==> AllZero(EncodeVarint(|bs|)) by {
      forall k | 0 <= k < |EncodeVarint(|bs|)| ensures EncodeVarint(|bs|)[k] == Framed(bs)[k] {}
    }
  }

  lemma {:induction false} ZeroWord(n: nat, width: nat)
    requires n < Pow2(8 * width)
    ensures AllZero(LittleEndian(n, width)) <==> n == 0
  {
    if width > 0 {
      Pow2OfByte();
      Pow2Add(8, 8 * (width - 1));
      ZeroWord(n / 256, width - 1);
      assert LittleEndian(n, width)[1..] == LittleEndian(n / 256, width - 1);
      assert LittleEndian(n, width)[0] == n % 256;
    }
  }

  /** A field without a presence flag is left out just when its payload would be
      nothing but zero bytes. */
  lemma ZeroIsLeftOut(f: Field, v: Value)
    requires ValueOk(f, v, true) && EncodeValue(f, v).Some? && !f.ltype.LSubMessage?
    ensures IsProto3Zero(f, v) <==> AllZero(EncodeValue(f, v).value)
  {
    hide EncodeVarint, Framed, LittleEndian, AllZero;
    Pow2Constants();
    match f.ltype
    case LBool => ZeroVarint(if v.b then 1 else 0);
    case LVarint => ZeroVarint(Pattern64(v.n));
    case LUVarint => ZeroVarint(v.n);
    case LSVarint => ZeroVarint(ZigZag(v.n)); ZigZagNumbers(v.n);
    case LFixed32 => ZeroWord(v.n, 4);
    case LFixed64 => ZeroWord(v.n, 8);
    case LBytes => ZeroFrame(v.bytes);
    case LString => ZeroFrame(CString(v.bytes));
    case LFixedBytes => ZeroFrame(v.bytes);
  }

  /** And a submessage only when nothing would be written in it. */
  lemma EmptyIsLeftOut(f: Field, v: Value)
    requires WellFormedField(f) && ValueOk(f, v, true) && f.ltype.LSubMessage? && IsProto3Zero(f, v)
    ensures EncodeMessage(f.ltype.desc, v.slots) == Some([])
  {
    assert Shaped(f.ltype.desc, v.slots, true);
    NothingWritten(f.ltype.desc, v.slots, 0);
  }

  lemma {:induction false} NothingWritten(d: Desc, m: Message, i: nat)
    requires WellFormed(d) && Shaped(d, m, true) && i <= |d.fields|
    requires forall j: nat {:trigger SlotOf(d, m, j, true)} | j < |d.fields| :: IsProto3Default(d.fields[j], SlotOf(d, m, j, true))
    ensures EncodeFrom(d, m, i) == Some([])
    decreases |d.fields| - i
  {
    if i < |d.fields| {
      assert WellFormedField(d.fields[i]);
      assert IsProto3Default(d.fields[i], SlotOf(d, m, i, true));
      DefaultNotWritten(d.fields[i], SlotOf(d, m, i, true));
      NothingWritten(d, m, i + 1);
      var nothing: Bytes := [];
      assert nothing + nothing == nothing;
    }
  }

  lemma DefaultNotWritten(f: Field, s: Slot)
    requires WellFormedField(f) && SlotOk(f, s, true) && IsProto3Default(f, s)
    ensures EncodeField(f, s) == Some([])
  {
    hide IsProto3Zero, EncodeRecord;
  }

  // ---------------------------------------------------------------------
  // Records that the reader does not know
  // ---------------------------------------------------------------------

  /** The reader has no field with this tag. */
  predicate Unknown(reader: Desc, tag: nat) {
    forall i | 0 <= i < |reader.fields| :: reader.fields[i].tag != tag
  }

  lemma RecordIgnored(reader: Desc, tag: nat, k: Bytes, p: Bytes, b: Bytes, st: DecodeState)
    requires WellFormed(reader) && StateOk(reader, st) && tag > 0 && Unknown(reader, tag) && IsRecord(tag, k, p)
    ensures DecodeLoop(reader, k + p + b, st) == DecodeLoop(reader, b, st)
  {
    hide DecodeLoop, Varint32, IsPayload;
    RecordSkipped(reader, k, p, b, st);
  }

  lemma {:induction false} RecordsIgnored(reader: Desc, f: Field, items: seq<Value>, b: Bytes, st: DecodeState)
    requires WellFormed(reader) && StateOk(reader, st) && WellFormedField(f) && Unknown(reader, f.tag)
    requires forall i | 0 <= i < |items| :: ValueOk(f, items[i], true)
    requires EncodeRecords(f, items).Some? && |EncodeRecords(f, items).value| < TWO_32
    ensures DecodeLoop(reader, EncodeRecords(f, items).value + b, st) == DecodeLoop(reader, b, st)
  {
    hide DecodeLoop, EncodeRecord, IsRecord, ValueOk;
    if items == [] {
      assert [] + b == b;
    } else {
      var x, rest := EncodeRecord(f, items[0]).value, EncodeRecords(f, items[1..]).value;
      var k, p := RecordOnWire(f, items[0]);
      RecordIgnored(reader, f.tag, k, p, rest + b, st);
      assert x + rest + b == k + p + (rest + b);
      RecordsIgnored(reader, f, items[1..], b, st);
    }
  }

  /** Whatever pb_encode writes for a field is nothing to a reader that does not
      know it. */
  lemma FieldIgnored(reader: Desc, f: Field, s: Slot, b: Bytes, st: DecodeState)
    requires WellFormed(reader) && StateOk(reader, st) && WellFormedField(f) && Unknown(reader, f.tag)
    requires SlotOk(f, s, true) && EncodeField(f, s).Some? && |EncodeField(f, s).value| < TWO_32
    ensures DecodeLoop(reader, EncodeField(f, s).value + b, st) == DecodeLoop(reader, b, st)
  {
    hide DecodeLoop, EncodeRecord, EncodeRecords, EncodeValues, IsRecord, StateOk, WellFormed;
    var x := EncodeField(f, s).value;
    if x == [] {
      assert x + b == b;
    } else if f.htype.Repeated? {
      if f.Packable() {
        var k, p := PackedOnWire(f, s.items);
        RecordIgnored(reader, f.tag, k, p, b, st);
      } else {
        RecordsIgnored(reader, f, s.items, b, st);
      }
    } else {
      var k, p := RecordOnWire(f, s.v);
      RecordIgnored(reader, f.tag, k, p, b, st);
    }
  }

  /** The part of a message that the reader knows, from field `i` on. */
  function KnownFrom(reader: Desc, d: Desc, m: Message, i: nat): Bytes
    requires Shaped(d, m, true) && i <= |d.fields| && EncodeFrom(d, m, i).Some?
    decreases |d.fields| - i
  {
    if i == |d.fields| then []
    else if Unknown(reader, d.fields[i].tag) then KnownFrom(reader, d, m, i + 1)
    else EncodeField(d.fields[i], SlotOf(d, m, i, true)).value + KnownFrom(reader, d, m, i + 1)
  }

  /** The reader can read each of the fields that it knows. */
  ghost predicate ReadsKnown(reader: Desc, d: Desc, m: Message, i: nat, st: DecodeState)
    requires WellFormed(reader) && StateOk(reader, st)
    requires Shaped(d, m, true) && i <= |d.fields| && EncodeFrom(d, m, i).Some?
    decreases |d.fields| - i
  {
    if i == |d.fields| then true
    else if Unknown(reader, d.fields[i].tag) then ReadsKnown(reader, d, m, i + 1, st)
    else
      var end := DecodeLoop(reader, EncodeField(d.fields[i], SlotOf(d, m, i, true)).value, st);
      end.Some? && !end.value.atZero && ReadsKnown(reader, d, m, i + 1, end.value.st)
  }

  lemma {:induction false} KnownOnly(reader: Desc, d: Desc, m: Message, i: nat, st: DecodeState)
    requires WellFormed(reader) && StateOk(reader, st) && WellFormed(d)
    requires Shaped(d, m, true) && i <= |d.fields| && EncodeFrom(d, m, i).Some? && |EncodeFrom(d, m, i).value| < TWO_32
    requires ReadsKnown(reader, d, m, i, st)
    ensures DecodeLoop(reader, EncodeFrom(d, m, i).value, st) == DecodeLoop(reader, KnownFrom(reader, d, m, i), st)
    decreases |d.fields| - i
  {
    hide DecodeLoop, EncodeField, StateOk, Shaped, SlotOk;
    if i < |d.fields| {
      var f := d.fields[i];
      assert WellFormedField(f);
      var x, rest := EncodeField(f, SlotOf(d, m, i, true)).value, EncodeFrom(d, m, i + 1).value;
      assert EncodeFrom(d, m, i).value == x + rest;
      if Unknown(reader, f.tag) {
        FieldIgnored(reader, f, SlotOf(d, m, i, true), rest, st);
        KnownOnly(reader, d, m, i + 1, st);
      } else {
        LoopConcat(reader, x, rest, st);
        LoopConcat(reader, x, KnownFrom(reader, d, m, i + 1), st);
        KnownOnly(reader, d, m, i + 1, DecodeLoop(reader, x, st).value.st);
      }
    }
  }

  /** An older reader makes of a whole message just what it would make of the
      fields that it knows. */
  lemma OlderReader(reader: Desc, d: Desc, m: Message, base: Message)
    requires WellFormed(reader) && Shaped(reader, base, false) && WellFormed(d) && Shaped(d, m, true)
    requires EncodeMessage(d, m).Some? && |EncodeMessage(d, m).value| < TWO_32
    requires ReadsKnown(reader, d, m, 0, Start(base))
    ensures DecodeMessage(reader, EncodeMessage(d, m).value, base) == DecodeMessage(reader, KnownFrom(reader, d, m, 0), base)
  {
    hide DecodeLoop;
    KnownOnly(reader, d, m, 0, Start(base));
  }

  // ---------------------------------------------------------------------
  // When encoding succeeds
  // ---------------------------------------------------------------------

  /** The limits of a field are kept: integers of a valid size, bytes that fit
      their buffer, and submessages that do so and are not too long. */
  ghost predicate WithinValue(f: Field, v: Value)
    requires ValueOk(f, v, true)
    decreases f, 0
  {
    match f.ltype
    case LVarint => f.dataSize in {1, 2, 4, 8}
    case LUVarint => f.dataSize in {1, 2, 4, 8}
    case LSVarint => f.dataSize in {1, 2, 4, 8}
    case LBytes => |v.bytes| + BYTES_HEADER <= f.dataSize
    case LSubMessage(d) =>
      Within(d, v.slots) && (EncodeMessage(d, v.slots).Some? ==> |EncodeMessage(d, v.slots).value| < TWO_64)
    case _ => true
  }

  /** No more entries than the array holds, each within its limits, and a packed
      array that is not too long. */
  ghost predicate WithinArray(f: Field, items: seq<Value>)
    requires forall k | 0 <= k < |items| :: ValueOk(f, items[k], true)
    decreases f, 1
  {
    && |items| <= f.arraySize && (forall k | 0 <= k < |items| :: WithinValue(f, items[k]))
    && (f.Packable() && EncodeValues(f, items).Some? ==> |EncodeValues(f, items).value| < TWO_64)
  }

  ghost predicate WithinField(d: Desc, m: Message, i: nat)
    requires Shaped(d, m, true) && i < |d.fields|
    decreases d, 0
  {
    var f, s := d.fields[i], SlotOf(d, m, i, true);
    Present(f, s) ==> if f.htype.Repeated? then WithinArray(f, s.items) else WithinValue(f, s.v)
  }

  /** What the message puts on the wire keeps all limits of its descriptor. */
  ghost predicate Within(d: Desc, m: Message)
    requires Shaped(d, m, true)
    decreases d, 2
  {
    WithinFrom(d, m, 0)
  }

  ghost predicate WithinFrom(d: Desc, m: Message, i: nat)
    requires Shaped(d, m, true) && i <= |d.fields|
    decreases d, 1
  {
    forall j {:trigger WithinField(d, m, j)} | i <= j < |d.fields| :: WithinField(d, m, j)
  }

  lemma {:induction false} ValuesSucceed(f: Field, items: seq<Value>)
    requires forall k | 0 <= k < |items| :: ValueOk(f, items[k], true)
    requires forall k | 0 <= k < |items| :: EncodeValue(f, items[k]).Some? <==> WithinValue(f, items[k])
    ensures EncodeValues(f, items).Some? <==> forall k | 0 <= k < |items| :: WithinValue(f, items[k])
    ensures EncodeRecords(f, items).Some? <==> forall k | 0 <= k < |items| :: WithinValue(f, items[k])
  {
    hide EncodeValue, WithinValue, ValueOk;
    if items != [] {
      ValuesSucceed(f, items[1..]);
      assert forall k | 0 < k < |items| :: items[k] == items[1..][k - 1];
      assert forall k | 0 <= k < |items[1..]| :: items[1..][k] == items[k + 1];
    }
  }

  lemma {:induction false} ValueSucceeds(f: Field, v: Value)
    requires ValueOk(f, v, true)
    ensures EncodeValue(f, v).Some? <==> WithinValue(f, v)
    decreases f, 0
  {
    if f.ltype.LSubMessage? { EncodeSucceeds(f.ltype.desc, v.slots); }
  }

  lemma {:induction false} ArraySucceeds(f: Field, items: seq<Value>)
    requires items != [] && forall k | 0 <= k < |items| :: ValueOk(f, items[k], true)
    ensures EncodeArray(f, items).Some? <==> WithinArray(f, items)
    decreases f, 1
  {
    hide EncodeValue, EncodeValues, EncodeRecords, ValueOk, WithinValue;
    forall k | 0 <= k < |items| ensures EncodeValue(f, items[k]).Some? <==> WithinValue(f, items[k]) {
      ValueSucceeds(f, items[k]);
    }
    ValuesSucceed(f, items);
  }

  lemma {:induction false} FieldSucceeds(d: Desc, m: Message, i: nat)
    requires Shaped(d, m, true) && i < |d.fields|
    ensures EncodeField(d.fields[i], SlotOf(d, m, i, true)).Some? <==> WithinField(d, m, i)
    decreases d, 0
  {
    hide EncodeArray, EncodeValue, WithinValue, WithinArray, ValueOk;
    var f, s := d.fields[i], SlotOf(d, m, i, true);
    if f.htype.Repeated? {
      if s.items != [] { ArraySucceeds(f, s.items); } else { NoArray(f); }
    } else if Present(f, s) {
      ValueSucceeds(f, s.v);
    }
  }

  lemma NoArray(f: Field)
    ensures EncodeArray(f, []) == Some([])
  {
  }

  lemma {:induction false} FieldsSucceed(d: Desc, m: Message, i: nat)
    requires Shaped(d, m, true) && i <= |d.fields|
    ensures EncodeFrom(d, m, i).Some? <==> WithinFrom(d, m, i)
    decreases d, 1, |d.fields| - i
  {
    hide EncodeField, WithinField;
    if i < |d.fields| {
      FieldSucceeds(d, m, i);
      FieldsSucceed(d, m, i + 1);
    }
  }

  /** pb_encode succeeds exactly when what it writes keeps the limits. */
  lemma {:induction false} EncodeSucceeds(d: Desc, m: Message)
    requires Shaped(d, m, true)
    ensures EncodeMessage(d, m).Some? <==> Within(d, m)
    decreases d, 2
  {
    FieldsSucceed(d, m, 0);
  }
}
