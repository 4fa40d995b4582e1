/** The bytes that pb_encode.c writes for a message, as a function of the
    descriptor and the struct. */
module PbEncoding {
  import opened Wrappers
  import opened Bits
  import opened PbVarint
  import opened PbModel

  const WT_VARINT: nat := 0
  const WT_64BIT: nat := 1
  const WT_STRING: nat := 2
  const WT_32BIT: nat := 5

  function WireType(t: LType): nat {
    match t
    case LFixed32 => WT_32BIT
    case LFixed64 => WT_64BIT
    case LBytes => WT_STRING
    case LString => WT_STRING
    case LSubMessage(_) => WT_STRING
    case LFixedBytes => WT_STRING
    case _ => WT_VARINT
  }

  /** pb_encode_tag. */
  function Key(wireType: nat, tag: nat): Bytes {
    EncodeVarint(tag * 8 + wireType)
  }

  function LittleEndian(n: nat, width: nat): (bs: Bytes)
    ensures |bs| == width
  {
    if width == 0 then [] else [n % 256] + LittleEndian(n / 256, width - 1)
  }

  /** pb_encode_string. */
  function Framed(bs: Bytes): Bytes {
    EncodeVarint(|bs|) + bs
  }

  /** The characters of a buffer up to its first NUL. */
  function CString(raw: Bytes): (s: Bytes)
    ensures |s| <= |raw| && s == raw[..|s|]
    ensures forall k | 0 <= k < |s| :: s[k] != 0
    ensures |s| < |raw| ==> raw[|s|] == 0
  {
    if raw == [] || raw[0] == 0 then [] else [raw[0]] + CString(raw[1..])
  }

  /** The 64-bit pattern of a signed value. */
  function Pattern64(n: int): nat
    requires -TWO_63 <= n < TWO_64
  {
    if n < 0 then n + TWO_64 else n
  }

  function Append(a: Option<Bytes>, b: Option<Bytes>): Option<Bytes> {
    if a.None? || b.None? then None else Some(a.value + b.value)
  }

  /** The pb_enc_* functions. */
  function EncodeValue(f: Field, v: Value): Option<Bytes>
    requires ValueOk(f, v, true)
    decreases f, 0
  {
    match f.ltype
    case LBool => Some(EncodeVarint(if v.b then 1 else 0))
    case LVarint => if ValidIntSize(f.dataSize) then Some(EncodeVarint(Pattern64(v.n))) else None
    case LUVarint => if ValidIntSize(f.dataSize) then Some(EncodeVarint(v.n)) else None
    case LSVarint => if ValidIntSize(f.dataSize) then Some(EncodeVarint(ZigZag(v.n))) else None
    case LFixed32 => Some(LittleEndian(v.n, 4))
    case LFixed64 => Some(LittleEndian(v.n, 8))
    case LBytes => if |v.bytes| + BYTES_HEADER > f.dataSize then None else Some(Framed(v.bytes))
    case LString => Some(Framed(CString(v.bytes)))
    case LFixedBytes => Some(Framed(v.bytes))
    case LSubMessage(d) =>
      match EncodeMessage(d, v.slots)
      case None => None
      case Some(bs) => if |bs| < TWO_64 then Some(Framed(bs)) else None
  }

  /** A key and a value. */
  function EncodeRecord(f: Field, v: Value): Option<Bytes>
    requires ValueOk(f, v, true)
    decreases f, 1
  {
    Append(Some(Key(WireType(f.ltype), f.tag)), EncodeValue(f, v))
  }

  /** The values of a packed array, back to back. */
  function EncodeValues(f: Field, items: seq<Value>): Option<Bytes>
    requires forall k | 0 <= k < |items| :: ValueOk(f, items[k], true)
    decreases f, 2, items
  {
    if items == [] then Some([]) else Append(EncodeValue(f, items[0]), EncodeValues(f, items[1..]))
  }

  /** The records of an unpacked array. */
  function EncodeRecords(f: Field, items: seq<Value>): Option<Bytes>
    requires forall k | 0 <= k < |items| :: ValueOk(f, items[k], true)
    decreases f, 2, items
  {
    if items == [] then Some([]) else Append(EncodeRecord(f, items[0]), EncodeRecords(f, items[1..]))
  }

  /** encode_array. */
  function EncodeArray(f: Field, items: seq<Value>): Option<Bytes>
    requires forall k | 0 <= k < |items| :: ValueOk(f, items[k], true)
    decreases f, 3
  {
    if items == [] then Some([])
    else if |items| > f.arraySize then None
    else if f.Packable() then
      match EncodeValues(f, items)
      case None => None
      case Some(bs) => if |bs| < TWO_64 then Some(Key(WT_STRING, f.tag) + Framed(bs)) else None
    else EncodeRecords(f, items)
  }

  /** pb_check_proto3_default_value. */
  predicate IsProto3Default(f: Field, s: Slot)
    requires SlotOk(f, s, true)
    decreases f, 1
  {
    match f.htype
    case Required => false
    case Repeated => f.sizeOffset != 0 && s.items == []
    case OneOf => s.which == 0
    case Optional => if f.sizeOffset != 0 then !s.has else IsProto3Zero(f, s.v)
  }

  /** Its last part, for a field without a presence flag. */
  predicate IsProto3Zero(f: Field, v: Value)
    requires ValueOk(f, v, true)
    decreases f, 0
  {
    match f.ltype
    case LBool => !v.b
    case LBytes => v.bytes == []
    case LString => CString(v.bytes) == []
    case LFixedBytes => f.dataSize == 0
    case LSubMessage(d) =>
      assert Shaped(d, v.slots, true);
      forall i: nat | i < |d.fields| :: IsProto3Default(d.fields[i], SlotOf(d, v.slots, i, true))
    case _ => v.n == 0
  }

  /** Does encode_basic_field write anything for this field? */
  predicate Present(f: Field, s: Slot)
    requires SlotOk(f, s, true)
  {
    match f.htype
    case Required => true
    case Optional => if f.sizeOffset == 0 then !IsProto3Zero(f, s.v) else s.has
    case Repeated => s.items != []
    case OneOf => s.which == f.tag
  }

  /** encode_basic_field. */
  function EncodeField(f: Field, s: Slot): Option<Bytes>
    requires SlotOk(f, s, true)
    decreases f, 4
  {
    if f.htype.Repeated? then EncodeArray(f, s.items)
    else if Present(f, s) then EncodeRecord(f, s.v)
    else Some([])
  }

  /** pb_encode. */
  function EncodeMessage(d: Desc, m: Message): Option<Bytes>
    requires Shaped(d, m, true)
    decreases d, 6, 0
  {
    EncodeFrom(d, m, 0)
  }

  /** The fields from `i` on. */
  function EncodeFrom(d: Desc, m: Message, i: nat): Option<Bytes>
    requires Shaped(d, m, true) && i <= |d.fields|
    decreases d, 5, |d.fields| - i
  {
    if i == |d.fields| then Some([])
    else Append(EncodeField(d.fields[i], SlotOf(d, m, i, true)), EncodeFrom(d, m, i + 1))
  }
}
