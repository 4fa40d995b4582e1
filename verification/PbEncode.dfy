/** pb_encode.c as it works on a stream. Every method is tied to the bytes that
    PbEncoding says it has to write. */
module PbEncode {
  import opened Wrappers
  import opened Bits
  import opened PbVarint
  import opened PbModel
  import opened PbEncoding
  import opened PbCommon
  import opened PbStream

  // ---------------------------------------------------------------------
  // Raw values
  // ---------------------------------------------------------------------

  /** pb_encode_varint. */
  method WriteVarint(stream: OStream, value: nat) returns (ok: bool)
    requires stream.State().Valid() && value < TWO_64
    modifies stream, stream.buf
    ensures Emits(old(stream.State()), ok, Some(EncodeVarint(value)), stream.State())
  {
    if value <= 0x7F {
      ok := stream.Write([value]);
      return;
    }
    var buffer := new Byte[10];
    EncodeVarint64Length(value);
    var n := FillGroups(buffer, value);
    ok := stream.Write(buffer[..n]);
  }

  /** The loop of pb_encode_varint: every group gets a continuation bit, and the
      last one loses it again. */
  method FillGroups(buffer: array<Byte>, value: nat) returns (i: nat)
    requires value > 0 && |EncodeVarint(value)| <= buffer.Length
    modifies buffer
    ensures i <= buffer.Length && buffer[..i] == EncodeVarint(value)
  {
    i := 0;
    var v := value;
    while v > 0
      invariant v >= 0 && i <= buffer.Length
      invariant v > 0 ==> EncodeVarint(value) == buffer[..i] + EncodeVarint(v)
      invariant v == 0 ==> i > 0 && buffer[i - 1] >= 128 && EncodeVarint(value) == buffer[..i - 1] + [buffer[i - 1] - 128]
      decreases v
    {
      assert |EncodeVarint(v)| >= 1;
      ghost var done := buffer[..i];
      buffer[i] := v % 128 + 128;
      assert buffer[..i] == done;
      i := i + 1;
      assert buffer[..i] == done + [v % 128 + 128];
      v := v / 128;
    }
    buffer[i - 1] := buffer[i - 1] - 128;
  }

  /** pb_encode_svarint. */
  method WriteSVarint(stream: OStream, value: int) returns (ok: bool)
    requires stream.State().Valid() && -TWO_63 <= value < TWO_63
    modifies stream, stream.buf
    ensures Emits(old(stream.State()), ok, Some(EncodeVarint(ZigZag(value))), stream.State())
  {
    ZigZagNumbers(value);
    var zigzagged := if value < 0 then TWO_64 - 1 - (value + TWO_64) * 2 % TWO_64 else value * 2 % TWO_64;
    ok := WriteVarint(stream, zigzagged);
  }

  /** pb_encode_fixed32. */
  method WriteFixed32(stream: OStream, val: nat) returns (ok: bool)
    requires stream.State().Valid() && val < TWO_32
    modifies stream, stream.buf
    ensures Emits(old(stream.State()), ok, Some(LittleEndian(val, 4)), stream.State())
  {
    var bytes := [val % 256, val / 0x100 % 256, val / 0x1_0000 % 256, val / 0x100_0000 % 256];
    FourBytes(val);
    ok := stream.Write(bytes);
  }

  /** pb_encode_fixed64. */
  method WriteFixed64(stream: OStream, val: nat) returns (ok: bool)
    requires stream.State().Valid() && val < TWO_64
    modifies stream, stream.buf
    ensures Emits(old(stream.State()), ok, Some(LittleEndian(val, 8)), stream.State())
  {
    var hi := val / TWO_32;
    var bytes := [val % 256, val / 0x100 % 256, val / 0x1_0000 % 256, val / 0x100_0000 % 256]
                 + [hi % 256, hi / 0x100 % 256, hi / 0x1_0000 % 256, hi / 0x100_0000 % 256];
    assert bytes == LittleEndian(val, 8) by { FourBytes(val); FourBytes(hi); HighHalf(val); }
    ok := stream.Write(bytes);
  }

  lemma FourBytes(n: nat)
    ensures LittleEndian(n, 4) == [n % 256, n / 0x100 % 256, n / 0x1_0000 % 256, n / 0x100_0000 % 256]
  {
    var a := LittleEndian(n / 0x100_0000, 1);
    var b := LittleEndian(n / 0x1_0000, 2);
    var c := LittleEndian(n / 0x100, 3);
    assert n / 0x100 / 256 == n / 0x1_0000 && n / 0x1_0000 / 256 == n / 0x100_0000;
    assert a == [n / 0x100_0000 % 256];
    assert b == [n / 0x1_0000 % 256] + a;
    assert c == [n / 0x100 % 256] + b;
  }

  lemma HighHalf(n: nat)
    ensures LittleEndian(n, 8) == LittleEndian(n, 4) + LittleEndian(n / TWO_32, 4)
  {
    var hi := LittleEndian(n / 0x1_0000_0000, 4);
    assert n / 0x100 / 256 == n / 0x1_0000 && n / 0x1_0000 / 256 == n / 0x100_0000;
    assert n / 0x100_0000 / 256 == n / 0x1_0000_0000;
    assert LittleEndian(n / 0x100_0000, 5) == [n / 0x100_0000 % 256] + hi;
    assert LittleEndian(n / 0x1_0000, 6) == [n / 0x1_0000 % 256] + LittleEndian(n / 0x100_0000, 5);
    assert LittleEndian(n / 0x100, 7) == [n / 0x100 % 256] + LittleEndian(n / 0x1_0000, 6);
    FourBytes(n);
  }

  /** pb_encode_tag. */
  method WriteTag(stream: OStream, wireType: nat, fieldNumber: nat) returns (ok: bool)
    requires stream.State().Valid() && wireType < 8 && fieldNumber < 0x2000_0000
    modifies stream, stream.buf
    ensures Emits(old(stream.State()), ok, Some(Key(wireType, fieldNumber)), stream.State())
  {
    ok := WriteVarint(stream, fieldNumber * 8 + wireType);
  }

  /** pb_encode_string. */
  method WriteString(stream: OStream, bytes: Bytes) returns (ok: bool)
    requires stream.State().Valid() && |bytes| < TWO_64
    modifies stream, stream.buf
    ensures Emits(old(stream.State()), ok, Some(Framed(bytes)), stream.State())
  {
    ghost var s0 := stream.State();
    ok := WriteVarint(stream, |bytes|);
    ghost var s1 := stream.State();
    if !ok {
      EmitsFail(s0, Some(EncodeVarint(|bytes|)), s1, Some(Framed(bytes)));
      return;
    }
    ok := stream.Write(bytes);
    EmitsBoth(s0, EncodeVarint(|bytes|), s1, ok, Some(bytes), stream.State());
  }

  // ---------------------------------------------------------------------
  // Proto3 default check
  // ---------------------------------------------------------------------

  /** pb_check_proto3_default_value. */
  method CheckProto3Default(f: Field, s: Slot) returns (isDefault: bool)
    requires WellFormedField(f) && SlotOk(f, s, true)
    ensures isDefault == IsProto3Default(f, s)
    decreases f, 1
  {
    if f.htype.Required? { return false; }
    if f.htype.Repeated? {
      if f.sizeOffset != 0 { return |s.items| == 0; }
      return false;
    }
    if f.htype.OneOf? { return s.which == 0; }
    if f.sizeOffset != 0 { return !s.has; }
    isDefault := CheckProto3Zero(f, s.v);
  }

  method CheckProto3Zero(f: Field, v: Value) returns (isZero: bool)
    requires WellFormedField(f) && ValueOk(f, v, true)
    ensures isZero == IsProto3Zero(f, v)
    decreases f, 0
  {
    if f.ltype.LBytes? { return |v.bytes| == 0; }
    if f.ltype.LString? { return |v.bytes| == 0 || v.bytes[0] == 0; }
    if f.ltype.LFixedBytes? { return f.dataSize == 0; }
    if f.ltype.LSubMessage? {
      assert Shaped(f.ltype.desc, v.slots, true);
      isZero := AllDefault(f.ltype.desc, v.slots);
      return;
    }
    return if f.ltype.LBool? then !v.b else v.n == 0;
  }

  /** Its loop over the fields of a submessage. */
  method AllDefault(d: Desc, m: Message) returns (all: bool)
    requires WellFormed(d) && Shaped(d, m, true)
    ensures all <==> DefaultUpTo(d, m, |d.fields|)
    decreases d, 2
  {
    TagsPositive(d);
    var iter := new FieldIter(d.fields, 0);
    var more := FieldAt(d.fields, iter.pos).tag != 0;
    ghost var i := 0;
    while more
      invariant iter.Valid() && iter.fields == d.fields && fresh(iter)
      invariant 0 <= i <= |d.fields| && (more ==> i == iter.pos < |d.fields|) && (!more ==> i == |d.fields|)
      invariant DefaultUpTo(d, m, i)
      decreases |d.fields| - i
    {
      ItemOk(d, m, i);
      var isDefault := CheckProto3Default(d.fields[iter.pos], SlotOf(d, m, iter.pos, true));
      DefaultNext(d, m, i);
      if !isDefault { return false; }
      more := iter.Next();
      i := i + 1;
    }
    return true;
  }

  ghost predicate DefaultUpTo(d: Desc, m: Message, n: nat)
    requires Shaped(d, m, true) && n <= |d.fields|
  {
    forall j | 0 <= j < n :: IsProto3Default(d.fields[j], SlotOf(d, m, j, true))
  }

  lemma DefaultNext(d: Desc, m: Message, i: nat)
    requires Shaped(d, m, true) && i < |d.fields|
    ensures var here := IsProto3Default(d.fields[i], SlotOf(d, m, i, true));
            && DefaultUpTo(d, m, i + 1) == (DefaultUpTo(d, m, i) && here)
            && (!here ==> !DefaultUpTo(d, m, |d.fields|))
  {
  }

  lemma ItemOk(d: Desc, m: Message, i: nat)
    requires WellFormed(d) && Shaped(d, m, true) && i < |d.fields|
    ensures WellFormedField(d.fields[i]) && SlotOk(d.fields[i], SlotOf(d, m, i, true), true)
  {
  }

  // ---------------------------------------------------------------------
  // Fields and messages
  // ---------------------------------------------------------------------

  /** The pb_enc_* functions. */
  method WriteValue(stream: OStream, f: Field, v: Value) returns (ok: bool)
    requires stream.State().Valid() && WellFormedField(f) && ValueOk(f, v, true)
    modifies stream, stream.buf
    ensures Emits(old(stream.State()), ok, EncodeValue(f, v), stream.State())
    decreases f, 0
  {
    hide Emits;
    ghost var s0 := stream.State();
    match f.ltype
    case LBool => ok := WriteVarint(stream, if v.b then 1 else 0);
    case LVarint =>
      if !ValidIntSize(f.dataSize) { NothingEmitted(s0); return false; }
      ok := WriteVarint(stream, Pattern64(v.n));
    case LUVarint =>
      if !ValidIntSize(f.dataSize) { NothingEmitted(s0); return false; }
      ok := WriteVarint(stream, v.n);
    case LSVarint =>
      if !ValidIntSize(f.dataSize) { NothingEmitted(s0); return false; }
      ok := WriteSVarint(stream, v.n);
    case LFixed32 => ok := WriteFixed32(stream, v.n);
    case LFixed64 => ok := WriteFixed64(stream, v.n);
    case LBytes =>
      if |v.bytes| + BYTES_HEADER > f.dataSize { NothingEmitted(s0); return false; }
      ok := WriteString(stream, v.bytes);
    case LString =>
      var size := StringLength(v.bytes, f.dataSize);
      ok := WriteString(stream, v.bytes[..size]);
    case LFixedBytes => ok := WriteString(stream, v.bytes);
    case LSubMessage(d) => ok := WriteSubmessage(stream, d, v.slots);
  }

  lemma NothingEmitted(s: OState)
    requires s.Valid()
    ensures Emits(s, false, None, s)
  {
  }

  /** The bounded search for the NUL in pb_enc_string. */
  method StringLength(raw: Bytes, maxSize: nat) returns (size: nat)
    requires |raw| <= maxSize
    ensures size <= |raw| && raw[..size] == CString(raw)
  {
    size := 0;
    while size < |raw| && raw[size] != 0
      invariant size <= |raw| && CString(raw) == raw[..size] + CString(raw[size..])
    {
      assert raw[size..][1..] == raw[size + 1..];
      size := size + 1;
    }
  }

  function FramedMessage(d: Desc, m: Message): Option<Bytes>
    requires Shaped(d, m, true)
  {
    match EncodeMessage(d, m)
    case None => None
    case Some(bs) => if |bs| < TWO_64 then Some(Framed(bs)) else None
  }

  /** pb_encode_submessage: a sizing pass, the length, and a writing pass into
      a substream of just that size. The error that the two passes disagree is
      never raised: `Emits` keeps `sizeChanged`. */
  method WriteSubmessage(stream: OStream, d: Desc, m: Message) returns (ok: bool)
    requires stream.State().Valid() && WellFormed(d) && Shaped(d, m, true)
    modifies stream, stream.buf
    ensures Emits(old(stream.State()), ok, FramedMessage(d, m), stream.State())
    decreases d, 8
  {
    ghost var s0 := stream.State();
    var sizer := new OStream.Sizing();
    var sized := WriteMessage(sizer, d, m);
    if !sized { NothingEmitted(s0); return false; }
    var size := sizer.bytesWritten;
    ghost var bs := EncodeMessage(d, m).value;
    ok := WriteVarint(stream, size);
    ghost var s1 := stream.State();
    if !ok {
      EmitsFail(s0, Some(EncodeVarint(size)), s1, Some(Framed(bs)));
      return;
    }
    ok := WriteBody(stream, d, m, size);
    EmitsBoth(s0, EncodeVarint(size), s1, ok, Some(bs), stream.State());
  }

  /** The second half of pb_encode_submessage. */
  method WriteBody(stream: OStream, d: Desc, m: Message, size: nat) returns (ok: bool)
    requires stream.State().Valid() && WellFormed(d) && Shaped(d, m, true)
    requires EncodeMessage(d, m).Some? && |EncodeMessage(d, m).value| == size < TWO_64
    modifies stream, stream.buf
    ensures Emits(old(stream.State()), ok, EncodeMessage(d, m), stream.State())
    decreases d, 7
  {
    if stream.sizing {
      ok := stream.Count(size);
      return;
    }
    if stream.bytesWritten + size > stream.maxSize { return false; }
    var substream := new OStream(stream.buf, stream.pos, size);
    var status := WriteMessage(substream, d, m);
    stream.bytesWritten := stream.bytesWritten + substream.bytesWritten;
    stream.pos := substream.pos;
    var changed := substream.bytesWritten != size;
    stream.sizeChanged := stream.sizeChanged || changed;
    return status && !changed;
  }

  /** encode_array. */
  method WriteArray(stream: OStream, f: Field, items: seq<Value>) returns (ok: bool)
    requires stream.State().Valid() && WellFormedField(f)
    requires forall k | 0 <= k < |items| :: ValueOk(f, items[k], true)
    modifies stream, stream.buf
    ensures Emits(old(stream.State()), ok, EncodeArray(f, items), stream.State())
    decreases f, 4
  {
    ghost var s0 := stream.State();
    if |items| == 0 {
      ok := stream.Write([]);
    } else if |items| > f.arraySize {
      NothingEmitted(s0);
      return false;
    } else if f.Packable() {
      ok := WritePacked(stream, f, items);
    } else {
      ok := WriteRecords(stream, f, items);
    }
  }

  /** The size of the packed values: known for words, else found by a sizing
      pass over the items. */
  method PackedSize(f: Field, items: seq<Value>) returns (ok: bool, size: nat)
    requires WellFormedField(f) && f.Packable() && |items| <= f.arraySize
    requires forall k | 0 <= k < |items| :: ValueOk(f, items[k], true)
    ensures ok <==> EncodeValues(f, items).Some? && |EncodeValues(f, items).value| < TWO_64
    ensures ok ==> size == |EncodeValues(f, items).value|
    decreases f, 2
  {
    if f.ltype.LFixed32? {
      WordsLength(f, items, 4);
      return true, 4 * |items|;
    }
    if f.ltype.LFixed64? {
      WordsLength(f, items, 8);
      return true, 8 * |items|;
    }
    var sizer := new OStream.Sizing();
    ok := WriteValues(sizer, f, items);
    size := sizer.bytesWritten;
  }

  lemma {:induction false} WordsLength(f: Field, items: seq<Value>, width: nat)
    requires (f.ltype.LFixed32? && width == 4) || (f.ltype.LFixed64? && width == 8)
    requires forall k | 0 <= k < |items| :: ValueOk(f, items[k], true)
    ensures EncodeValues(f, items).Some? && |EncodeValues(f, items).value| == width * |items|
  {
    if items != [] { WordsLength(f, items[1..], width); }
  }

  method WritePacked(stream: OStream, f: Field, items: seq<Value>) returns (ok: bool)
    requires stream.State().Valid() && WellFormedField(f) && f.Packable() && 0 < |items| <= f.arraySize
    requires forall k | 0 <= k < |items| :: ValueOk(f, items[k], true)
    modifies stream, stream.buf
    ensures Emits(old(stream.State()), ok, EncodeArray(f, items), stream.State())
    decreases f, 3
  {
    ghost var s0, all := stream.State(), EncodeArray(f, items);
    var key := Key(WT_STRING, f.tag);
    ok := WriteTag(stream, WT_STRING, f.tag);
    ghost var s1 := stream.State();
    if !ok { EmitsFail(s0, Some(key), s1, all); return; }
    var sized, size := PackedSize(f, items);
    if !sized {
      NothingEmitted(s1);
      EmitsBoth(s0, key, s1, false, None, s1);
      return false;
    }
    ghost var bs := EncodeValues(f, items).value;
    assert all == Some(key + Framed(bs)) && key + Framed(bs) == (key + EncodeVarint(size)) + bs;
    ok := WriteVarint(stream, size);
    ghost var s2 := stream.State();
    EmitsBoth(s0, key, s1, ok, Some(EncodeVarint(size)), s2);
    if !ok { EmitsFail(s0, Some(key + EncodeVarint(size)), s2, all); return; }
    if stream.sizing {
      ok := stream.Count(size);
    } else {
      ok := WriteValues(stream, f, items);
    }
    EmitsBoth(s0, key + EncodeVarint(size), s2, ok, Some(bs), stream.State());
  }

  lemma Unwritten(e: Option<Bytes>)
    ensures Append(Some([]), e) == e
  {
    assert e.Some? ==> [] + e.value == e.value;
  }

  lemma Finished(done: Bytes)
    ensures Append(Some(done), Some([])) == Some(done)
  {
    assert done + [] == done;
  }

  lemma EmitsNothing(s: OState)
    requires s.Valid()
    ensures Emits(s, true, Some([]), s)
  {
  }

  /** One iteration of a loop that has written `done`, writes `e` and then has
      `rest` to write. */
  lemma EmitsNext(s0: OState, done: Bytes, s1: OState, ok: bool, e: Option<Bytes>, s2: OState, rest: Option<Bytes>)
    requires s0.Valid() && Emits(s0, true, Some(done), s1) && Emits(s1, ok, e, s2)
    ensures s2.Valid()
    ensures var all := Append(Some(done), Append(e, rest));
            if ok then e.Some? && Emits(s0, true, Some(done + e.value), s2) && all == Append(Some(done + e.value), rest)
            else Emits(s0, false, all, s2)
  {
    EmitsBoth(s0, done, s1, ok, e, s2);
    if ok {
      assert rest.Some? ==> done + (e.value + rest.value) == done + e.value + rest.value;
    } else {
      EmitsFail(s0, if e.Some? then Some(done + e.value) else None, s2, Append(Some(done), Append(e, rest)));
    }
  }

  /** The loop over the items of a packed array. */
  method WriteValues(stream: OStream, f: Field, items: seq<Value>) returns (ok: bool)
    requires stream.State().Valid() && WellFormedField(f)
    requires forall k | 0 <= k < |items| :: ValueOk(f, items[k], true)
    modifies stream, stream.buf
    ensures Emits(old(stream.State()), ok, EncodeValues(f, items), stream.State())
    decreases f, 1
  {
    ghost var s0, done := stream.State(), [];
    var i := 0;
    Unwritten(EncodeValues(f, items));
    assert items[0..] == items;
    while i < |items|
      invariant 0 <= i <= |items|
      invariant Emits(s0, true, Some(done), stream.State())
      invariant EncodeValues(f, items) == Append(Some(done), EncodeValues(f, items[i..]))
    {
      ghost var s1 := stream.State();
      assert items[i..][0] == items[i] && items[i..][1..] == items[i + 1..];
      ok := WriteValue(stream, f, items[i]);
      EmitsNext(s0, done, s1, ok, EncodeValue(f, items[i]), stream.State(), EncodeValues(f, items[i + 1..]));
      if !ok { return; }
      done := done + EncodeValue(f, items[i]).value;
      i := i + 1;
    }
    Finished(done);
    return true;
  }

  /** The loop over the items of an unpacked array. */
  method WriteRecords(stream: OStream, f: Field, items: seq<Value>) returns (ok: bool)
    requires stream.State().Valid() && WellFormedField(f)
    requires forall k | 0 <= k < |items| :: ValueOk(f, items[k], true)
    modifies stream, stream.buf
    ensures Emits(old(stream.State()), ok, EncodeRecords(f, items), stream.State())
    decreases f, 2
  {
    ghost var s0, done := stream.State(), [];
    var i := 0;
    Unwritten(EncodeRecords(f, items));
    assert items[0..] == items;
    while i < |items|
      invariant 0 <= i <= |items|
      invariant Emits(s0, true, Some(done), stream.State())
      invariant EncodeRecords(f, items) == Append(Some(done), EncodeRecords(f, items[i..]))
    {
      ghost var s1 := stream.State();
      assert items[i..][0] == items[i] && items[i..][1..] == items[i + 1..];
      ok := WriteRecord(stream, f, items[i]);
      EmitsNext(s0, done, s1, ok, EncodeRecord(f, items[i]), stream.State(), EncodeRecords(f, items[i + 1..]));
      if !ok { return; }
      done := done + EncodeRecord(f, items[i]).value;
      i := i + 1;
    }
    Finished(done);
    return true;
  }

  /** pb_encode_tag_for_field and the value. */
  method WriteRecord(stream: OStream, f: Field, v: Value) returns (ok: bool)
    requires stream.State().Valid() && WellFormedField(f) && ValueOk(f, v, true)
    modifies stream, stream.buf
    ensures Emits(old(stream.State()), ok, EncodeRecord(f, v), stream.State())
    decreases f, 1
  {
    ghost var s0, key := stream.State(), Key(WireType(f.ltype), f.tag);
    ok := WriteTag(stream, WireType(f.ltype), f.tag);
    ghost var s1 := stream.State();
    if !ok { EmitsFail(s0, Some(key), s1, EncodeRecord(f, v)); return; }
    ok := WriteValue(stream, f, v);
    EmitsBoth(s0, key, s1, ok, EncodeValue(f, v), stream.State());
  }

  /** encode_basic_field. */
  method WriteField(stream: OStream, f: Field, s: Slot) returns (ok: bool)
    requires stream.State().Valid() && WellFormedField(f) && SlotOk(f, s, true)
    modifies stream, stream.buf
    ensures Emits(old(stream.State()), ok, EncodeField(f, s), stream.State())
    decreases f, 5
  {
    if f.htype.Repeated? {
      ok := WriteArray(stream, f, s.items);
      return;
    }
    var has := true;
    if f.htype.OneOf? {
      has := s.which == f.tag;
    } else if f.htype.Optional? {
      if f.sizeOffset != 0 {
        has := s.has;
      } else {
        var isZero := CheckProto3Zero(f, s.v);
        has := !isZero;
      }
    }
    if has {
      ok := WriteRecord(stream, f, s.v);
    } else {
      ok := stream.Write([]);
    }
  }

  /** What is left to write when the fields before `i` are done. */
  ghost function Remaining(parts: seq<Option<Bytes>>, i: nat): Option<Bytes>
    requires i <= |parts|
    decreases |parts| - i
  {
    if i == |parts| then Some([]) else Append(parts[i], Remaining(parts, i + 1))
  }

  ghost function Parts(d: Desc, m: Message): (parts: seq<Option<Bytes>>)
    requires Shaped(d, m, true)
    ensures |parts| == |d.fields|
    ensures forall i | 0 <= i < |parts| :: parts[i] == EncodeField(d.fields[i], SlotOf(d, m, i, true))
  {
    seq(|d.fields|, i requires 0 <= i < |d.fields| => EncodeField(d.fields[i], SlotOf(d, m, i, true)))
  }

  lemma {:induction false} PartsAreMessage(d: Desc, m: Message, i: nat)
    requires Shaped(d, m, true) && i <= |d.fields|
    ensures Remaining(Parts(d, m), i) == EncodeFrom(d, m, i)
    decreases |d.fields| - i
  {
    hide Shaped, SlotOk;
    if i < |d.fields| {
      PartsAreMessage(d, m, i + 1);
      assert Parts(d, m)[i] == EncodeField(d.fields[i], SlotOf(d, m, i, true));
    }
  }

  lemma MessageParts(d: Desc, m: Message) returns (parts: seq<Option<Bytes>>, all: Option<Bytes>)
    requires WellFormed(d) && Shaped(d, m, true)
    ensures parts == Parts(d, m) && all == EncodeMessage(d, m)
    ensures all == Append(Some([]), Remaining(parts, 0))
    ensures forall i | 0 <= i < |d.fields| :: d.fields[i].tag > 0
  {
    parts, all := Parts(d, m), EncodeMessage(d, m);
    PartsAreMessage(d, m, 0);
    Unwritten(all);
    TagsPositive(d);
  }

  /** pb_encode. */
  method WriteMessage(stream: OStream, d: Desc, m: Message) returns (ok: bool)
    requires stream.State().Valid() && WellFormed(d) && Shaped(d, m, true)
    modifies stream, stream.buf
    ensures Emits(old(stream.State()), ok, EncodeMessage(d, m), stream.State())
    decreases d, 6
  {
    hide Emits, Shaped;
    ghost var parts, all := MessageParts(d, m);
    ok := WriteFields(stream, d, m, parts, all);
  }

  /** Its loop over the fields. */
  method WriteFields(stream: OStream, d: Desc, m: Message, ghost parts: seq<Option<Bytes>>, ghost all: Option<Bytes>)
    returns (ok: bool)
    requires stream.State().Valid() && WellFormed(d) && Shaped(d, m, true)
    requires parts == Parts(d, m) && all == Append(Some([]), Remaining(parts, 0))
    requires forall i | 0 <= i < |d.fields| :: d.fields[i].tag > 0
    modifies stream, stream.buf
    ensures Emits(old(stream.State()), ok, all, stream.State())
    decreases d, 5
  {
    hide SlotIndex, Append;
    hide Shaped, WellFormed, Emits;
    ghost var s0, done := stream.State(), [];
    EmitsNothing(s0);
    var iter := new FieldIter(d.fields, 0);
    var more := FieldAt(d.fields, iter.pos).tag != 0;
    ghost var i := 0;
    while more
      invariant iter.Valid() && iter.fields == d.fields && fresh(iter)
      invariant 0 <= i <= |parts| && (more ==> i == iter.pos < |parts|) && (!more ==> i == |parts|)
      invariant stream.State().Valid() && Emits(s0, true, Some(done), stream.State())
      invariant all == Append(Some(done), Remaining(parts, i))
      decreases |parts| - i
    {
      ghost var s1 := stream.State();
      ok := WriteFieldAt(stream, d, m, iter.pos);
      EmitsNext(s0, done, s1, ok, parts[i], stream.State(), Remaining(parts, i + 1));
      if !ok { return; }
      done := done + parts[i].value;
      more := iter.Next();
      i := i + 1;
    }
    Finished(done);
    return true;
  }

  method WriteFieldAt(stream: OStream, d: Desc, m: Message, i: nat) returns (ok: bool)
    requires stream.State().Valid() && WellFormed(d) && Shaped(d, m, true) && i < |d.fields|
    modifies stream, stream.buf
    ensures Emits(old(stream.State()), ok, Parts(d, m)[i], stream.State())
    decreases d, 4
  {
    ItemOk(d, m, i);
    ok := WriteField(stream, d.fields[i], SlotOf(d, m, i, true));
  }

  /** pb_get_encoded_size. */
  method GetEncodedSize(d: Desc, m: Message) returns (ok: bool, size: nat)
    requires WellFormed(d) && Shaped(d, m, true)
    ensures ok <==> EncodeMessage(d, m).Some? && |EncodeMessage(d, m).value| < TWO_64
    ensures ok ==> size == |EncodeMessage(d, m).value|
  {
    var stream := new OStream.Sizing();
    ok := WriteMessage(stream, d, m);
    size := stream.bytesWritten;
  }

  /** pb_encode into a buffer of `n` bytes, after pb_get_encoded_size: it
      succeeds exactly when the message can be sized and the size is at most
      `n`, then writes exactly that many bytes, and in any case leaves the
      memory behind the first `n` bytes alone. */
  method EncodeToBuffer(d: Desc, m: Message, buffer: array<Byte>, n: nat)
    returns (sized: bool, size: nat, ok: bool, written: nat)
    requires WellFormed(d) && Shaped(d, m, true) && n <= buffer.Length && n < TWO_64
    modifies buffer
    ensures sized <==> EncodeMessage(d, m).Some? && |EncodeMessage(d, m).value| < TWO_64
    ensures sized ==> size == |EncodeMessage(d, m).value|
    ensures ok <==> sized && size <= n
    ensures ok ==> written == size && Some(buffer[..written]) == EncodeMessage(d, m)
    ensures buffer[n..] == old(buffer[n..])
    ensures ok ==> buffer[written..] == old(buffer[written..])
  {
    sized, size := GetEncodedSize(d, m);
    var stream := new OStream(buffer, 0, n);
    ghost var s0 := stream.State();
    ok := WriteMessage(stream, d, m);
    written := stream.bytesWritten;
    assert stream.State().mem == buffer[..] && s0.mem == old(buffer[..]);
    if ok {
      ghost var e := EncodeMessage(d, m).value;
      assert Patch(s0.mem, 0, e)[..|e|] == e;
    }
  }
}
