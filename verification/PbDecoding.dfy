/** What pb_decode.c reads from the bytes left in a stream, as functions that
    return the decoded data and the bytes after it, or None on any error. */
module PbDecoding {
  import opened Wrappers
  import opened Bits
  import opened PbVarint
  import opened PbModel
  import opened PbEncoding

  // ---------------------------------------------------------------------
  // Raw data
  // ---------------------------------------------------------------------

  /** pb_read of `n` bytes. */
  function Take(bs: Bytes, n: nat): (r: Option<(Bytes, Bytes)>)
    ensures r.Some? ==> r.value.0 + r.value.1 == bs && |r.value.0| == n
  {
    if |bs| < n then None else Some((bs[..n], bs[n..]))
  }

  /** A length and that many bytes: pb_make_string_substream. */
  function Substream(bs: Bytes): Option<(Bytes, Bytes)> {
    match Varint32(bs)
    case None => None
    case Some((size, rest)) => Take(rest, size)
  }

  function FromLittleEndian(bs: Bytes): nat {
    if bs == [] then 0 else bs[0] + 256 * FromLittleEndian(bs[1..])
  }

  /** pb_skip_field. */
  function SkipField(wireType: nat, bs: Bytes): Option<Bytes> {
    if wireType == WT_VARINT then (match Split(bs) case None => None case Some((_, rest)) => Some(rest))
    else if wireType == WT_64BIT then (match Take(bs, 8) case None => None case Some((_, rest)) => Some(rest))
    else if wireType == WT_STRING then (match Substream(bs) case None => None case Some((_, rest)) => Some(rest))
    else if wireType == WT_32BIT then (match Take(bs, 4) case None => None case Some((_, rest)) => Some(rest))
    else None
  }

  // ---------------------------------------------------------------------
  // Scalars and strings: the pb_dec_* functions
  // ---------------------------------------------------------------------

  /** Cast to a signed type of `size` bytes. */
  function CastSigned(n: int, size: nat): int {
    var limit := SignedLimit(size);
    var low := n % (2 * limit);
    if low < limit then low else low - 2 * limit
  }

  /** The value pb_dec_varint stores: values of at most 32 bits are first cast
      to int32_t; None when the cast to the field's size loses information. */
  function FitVarint(size: nat, n: nat): Option<Value> {
    if !ValidIntSize(size) then None
    else
      var svalue := if size == 8 then ToInt64(n) else ToInt32(n);
      if CastSigned(svalue, size) == svalue then Some(VInt(svalue)) else None
  }

  function FitUVarint(size: nat, n: nat): Option<Value> {
    if !ValidIntSize(size) then None
    else if n % (2 * SignedLimit(size)) == n then Some(VInt(n)) else None
  }

  function FitSVarint(size: nat, n: nat): Option<Value>
    requires n < TWO_64
  {
    if !ValidIntSize(size) then None
    else if CastSigned(UnZigZag(n), size) == UnZigZag(n) then Some(VInt(UnZigZag(n))) else None
  }

  /** Every value a 64-bit varint can have. */
  lemma Varint64Below(bs: Bytes)
    ensures Varint64(bs).Some? ==> Varint64(bs).value.0 < TWO_64 && |Varint64(bs).value.1| < |bs|
  {
    Varint64IsLeb(bs);
  }

  lemma {:induction false} Varint32LoopBelow(bs: Bytes, bitpos: nat, result: nat)
    requires result < TWO_32 && bitpos < 256
    ensures var r := Varint32Loop(bs, bitpos, result);
            r.Some? ==> r.value.0 < TWO_32 && |r.value.1| < |bs|
    decreases |bs|
  {
    if bs != [] && !Overflows32(bs[0], bitpos, result) && bs[0] >= 128 {
      var next := if bitpos >= 32 then result else Or(result, Shl32(bs[0] % 128, bitpos));
      assert next < TWO_32 by { Pow2Constants(); OrBound(result, Shl32(bs[0] % 128, bitpos), 32); }
      Varint32LoopBelow(bs[1..], (bitpos + 7) % 256, next);
    } else if bs != [] {
      Pow2Constants();
      OrBound(result, Shl32(bs[0] % 128, bitpos), 32);
    }
  }

  /** The 32-bit reader fits its result in 32 bits and always makes progress. */
  lemma Varint32Below(bs: Bytes)
    ensures Varint32(bs).Some? ==> Varint32(bs).value.0 < TWO_32 && |Varint32(bs).value.1| < |bs|
  {
    if bs != [] { Varint32LoopBelow(bs[1..], 7, bs[0] % 128); }
  }

  /** pb_dec_bool, pb_dec_varint, pb_dec_uvarint and pb_dec_svarint. */
  function DecodeVarint(f: Field, bs: Bytes): (r: Option<(Value, Bytes)>)
    requires f.ltype.LBool? || f.ltype.LVarint? || f.ltype.LUVarint? || f.ltype.LSVarint?
    ensures r.Some? ==> |r.value.1| < |bs| && ValueOk(f, r.value.0, true)
  {
    if f.ltype.LBool? then
      Varint32Below(bs);
      match Varint32(bs)
      case None => None
      case Some((n, rest)) => Some((VBool(n != 0), rest))
    else
      Varint64Below(bs);
      match Varint64(bs)
      case None => None
      case Some((n, rest)) =>
        var v := if f.ltype.LVarint? then FitVarint(f.dataSize, n)
                 else if f.ltype.LUVarint? then FitUVarint(f.dataSize, n)
                 else FitSVarint(f.dataSize, n);
        if v.None? then None else Some((v.value, rest))
  }

  /** pb_dec_fixed32 and pb_dec_fixed64. */
  function DecodeWord(width: nat, bs: Bytes): (r: Option<(Value, Bytes)>)
    requires width == 4 || width == 8
    ensures r.Some? ==> |r.value.1| < |bs| && r.value.0.VInt?
    ensures r.Some? ==> 0 <= r.value.0.n < if width == 4 then TWO_32 else TWO_64
  {
    match Take(bs, width)
    case None => None
    case Some((raw, rest)) =>
      FromLittleEndianBelow(raw);
      Some((VInt(FromLittleEndian(raw)), rest))
  }

  /** pb_dec_bytes, pb_dec_string and pb_dec_fixed_length_bytes. The string's
      size + 1 is computed in 32 bits. */
  function DecodeBytes(f: Field, bs: Bytes): (r: Option<(Value, Bytes)>)
    requires f.ltype.LBytes? || f.ltype.LString? || f.ltype.LFixedBytes?
    ensures r.Some? ==> |r.value.1| < |bs| && ValueOk(f, r.value.0, true)
  {
    Varint32Below(bs);
    match Varint32(bs)
    case None => None
    case Some((size, rest)) =>
      if f.ltype.LFixedBytes? && size == 0 then Some((VBytes(Zeros(f.dataSize)), rest))
      else if f.ltype.LFixedBytes? && size != f.dataSize then None
      else if f.ltype.LBytes? && size + BYTES_HEADER > f.dataSize then None
      else if f.ltype.LString? && (size + 1 == TWO_32 || size + 1 > f.dataSize) then None
      else match Take(rest, size)
        case None => None
        case Some((raw, rest2)) => Some((VBytes(raw), rest2))
  }

  /** A value that is not a submessage. */
  function DecodeScalar(f: Field, bs: Bytes): (r: Option<(Value, Bytes)>)
    requires !f.ltype.LSubMessage?
    ensures r.Some? ==> |r.value.1| < |bs| && ValueOk(f, r.value.0, true)
  {
    if f.ltype.LFixed32? then DecodeWord(4, bs)
    else if f.ltype.LFixed64? then DecodeWord(8, bs)
    else if f.ltype.LBytes? || f.ltype.LString? || f.ltype.LFixedBytes? then DecodeBytes(f, bs)
    else DecodeVarint(f, bs)
  }

  lemma {:induction false} FromLittleEndianBelow(bs: Bytes)
    ensures FromLittleEndian(bs) < Pow2(8 * |bs|)
    ensures |bs| == 4 ==> FromLittleEndian(bs) < TWO_32
    ensures |bs| == 8 ==> FromLittleEndian(bs) < TWO_64
  {
    Pow2Constants();
    if bs != [] {
      FromLittleEndianBelow(bs[1..]);
      Pow2Add(8, 8 * (|bs| - 1));
      assert Pow2(8) == 256;
    }
  }

  // ---------------------------------------------------------------------
  // Fields and messages
  // ---------------------------------------------------------------------

  /** The number of required fields among the first `n`: the iterator's
      required_field_index when it stands on field `n`. */
  function RequiredBefore(fs: seq<Field>, n: nat): (c: nat)
    requires n <= |fs|
    ensures c <= n
  {
    if n == 0 then 0 else RequiredBefore(fs, n - 1) + (if fs[n - 1].htype.Required? then 1 else 0)
  }

  /** The field that pb_field_iter_find stops at. */
  function FieldWithTag(fs: seq<Field>, tag: nat): (r: Option<nat>)
    ensures r.Some? ==> r.value < |fs| && fs[r.value].tag == tag
    ensures r.None? ==> forall i | 0 <= i < |fs| :: fs[i].tag != tag
  {
    if fs == [] then None
    else if fs[0].tag == tag then Some(0)
    else match FieldWithTag(fs[1..], tag)
      case None => None
      case Some(i) => Some(i + 1)
  }

  /** The variables of pb_decode_noinit. `seen` holds the indices whose bit is
      set in fields_seen. */
  datatype DecodeState = DecodeState(msg: Message, seen: set<nat>, fixedField: Option<nat>, fixedCount: nat)

  /** How the main loop ends: with `atZero` when it met a zero key. */
  datatype LoopEnd = LoopEnd(st: DecodeState, rest: Bytes, atZero: bool)

  function Start(m: Message): DecodeState {
    DecodeState(m, {}, None, 0)
  }

  /** func(stream, field, pData): `prior` is what pData points at. */
  function DecodeValue(f: Field, bs: Bytes, prior: Value): (r: Option<(Value, Bytes)>)
    requires WellFormedField(f)
    requires f.ltype.LSubMessage? && !f.htype.Repeated? ==> ValueOk(f, prior, false)
    ensures r.Some? ==> |r.value.1| < |bs| && ValueOk(f, r.value.0, false)
    decreases f, 0
  {
    match f.ltype
    case LSubMessage(d) =>
      Varint32Below(bs);
      DefaultsShaped(d);
      (match Substream(bs)
       case None => None
       case Some((sub, rest)) =>
         match DecodeMessage(d, sub, if f.htype.Repeated? then Defaults(d) else prior.slots)
         case None => None
         case Some((m, _)) => Some((VMessage(m), rest)))
    case _ => DecodeScalar(f, bs)
  }

  /** The loop over the entries of a packed array. */
  function DecodePacked(f: Field, bs: Bytes, got: seq<Value>): (r: Option<seq<Value>>)
    requires WellFormedField(f) && f.Packable()
    requires |got| <= PB_SIZE_MAX && forall k | 0 <= k < |got| :: ValueOk(f, got[k], false)
    ensures r.Some? ==> |got| <= |r.value| <= PB_SIZE_MAX && forall k | 0 <= k < |r.value| :: ValueOk(f, r.value[k], false)
    ensures r.Some? && |got| <= f.arraySize ==> |r.value| <= f.arraySize
    decreases |bs|
  {
    if bs == [] then Some(got)
    else if |got| >= f.arraySize then None
    else match DecodeScalar(f, bs)
      case None => None
      case Some((v, rest)) => DecodePacked(f, rest, got + [v])
  }

  /** The repeated case of decode_static_field: `got` are the entries received
      so far. */
  function DecodeArray(f: Field, wireType: nat, bs: Bytes, got: seq<Value>): (r: Option<(seq<Value>, Bytes)>)
    requires WellFormedField(f) && f.htype.Repeated?
    requires |got| <= PB_SIZE_MAX && forall k | 0 <= k < |got| :: ValueOk(f, got[k], false)
    ensures r.Some? ==> |r.value.1| < |bs| && |got| <= |r.value.0| <= PB_SIZE_MAX
    ensures r.Some? ==> forall k | 0 <= k < |r.value.0| :: ValueOk(f, r.value.0[k], false)
    ensures r.Some? && |got| <= f.arraySize ==> |r.value.0| <= f.arraySize
    decreases f, 1
  {
    if wireType == WT_STRING && f.Packable() then
      Varint32Below(bs);
      match Substream(bs)
      case None => None
      case Some((sub, rest)) =>
        match DecodePacked(f, sub, got)
        case None => None
        case Some(items) => Some((items, rest))
    else if |got| >= f.arraySize then None
    else match DecodeValue(f, bs, Undefined)
      case None => None
      case Some((v, rest)) => Some((got + [v], rest))
  }

  /** decode_static_field but for its repeated case. */
  function DecodeSlot(f: Field, bs: Bytes, s: Slot): (r: Option<(Slot, Bytes)>)
    requires WellFormedField(f) && SlotOk(f, s, false) && !f.htype.Repeated?
    ensures r.Some? ==> |r.value.1| < |bs| && SlotOk(f, r.value.0, false)
    ensures r.Some? && r.value.0.Union? ==> r.value.0.which == f.tag
    decreases f, 1
  {
    DefaultValueOk(f);
    match DecodeValue(f, bs, if f.htype.OneOf? then DefaultValue(f) else s.v)
    case None => None
    case Some((v, rest)) =>
      match f.htype
      case Required => Some((One(v), rest))
      case Optional => Some((if f.sizeOffset == 0 then One(v) else Maybe(true, v), rest))
      case OneOf => Some((Union(f.tag, v), rest))
  }

  lemma DefaultValueOk(f: Field)
    requires WellFormedField(f)
    ensures ValueOk(f, DefaultValue(f), false)
  {
    if f.ltype.LSubMessage? { DefaultsShaped(f.ltype.desc); }
  }

  predicate FixedComplete(d: Desc, st: DecodeState) {
    st.fixedField.None? || (st.fixedField.value < |d.fields| && st.fixedCount == d.fields[st.fixedField.value].arraySize)
  }

  /** The state keeps the layout of the struct, and of the fixed-count array
      being received the first `fixedCount` entries are defined. */
  ghost predicate StateOk(d: Desc, st: DecodeState) {
    && Shaped(d, st.msg, false)
    && (st.fixedField.Some? ==>
          var i := st.fixedField.value;
          && i < |d.fields| && d.fields[i].FixedCount()
          && Received(d.fields[i], SlotOf(d, st.msg, i, false), st.fixedCount))
  }

  ghost predicate Received(f: Field, s: Slot, n: nat) {
    s.FixedMany? && n <= |s.items| && forall k | 0 <= k < n :: ValueOk(f, s.items[k], false)
  }

  /** Before entries of array `i` are stored. Only a fixed-count array needs
      care: a different one that is not complete is an error, and a new one
      starts from nothing. */
  function EnterArray(d: Desc, i: nat, st: DecodeState): (r: Option<DecodeState>)
    requires i < |d.fields| && StateOk(d, st)
    ensures r.Some? ==> Entered(d, i, r.value)
  {
    if !d.fields[i].FixedCount() || st.fixedField == Some(i) then Some(st)
    else if !FixedComplete(d, st) then None
    else
      assert SlotOk(d.fields[i], SlotOf(d, st.msg, i, false), false);
      Some(st.(fixedField := Some(i), fixedCount := 0))
  }

  ghost predicate Entered(d: Desc, i: nat, st: DecodeState) {
    i < |d.fields| && StateOk(d, st) && (d.fields[i].FixedCount() ==> st.fixedField == Some(i))
  }

  /** The entries of array `i` received so far. */
  function Items(d: Desc, i: nat, st: DecodeState): (items: seq<Value>)
    requires Entered(d, i, st) && WellFormed(d) && d.fields[i].htype.Repeated?
    ensures |items| <= PB_SIZE_MAX && forall k | 0 <= k < |items| :: ValueOk(d.fields[i], items[k], false)
    ensures d.fields[i].FixedCount() ==> |items| <= d.fields[i].arraySize
  {
    assert WellFormedField(d.fields[i]);
    var items := SlotOf(d, st.msg, i, false).items;
    if d.fields[i].FixedCount() then items[..st.fixedCount] else items
  }

  /** The state in which array `i` has received `items`. */
  function WithItems(d: Desc, i: nat, st: DecodeState, items: seq<Value>): (st2: DecodeState)
    requires Entered(d, i, st) && WellFormed(d) && d.fields[i].htype.Repeated?
    requires |items| <= PB_SIZE_MAX && forall k | 0 <= k < |items| :: ValueOk(d.fields[i], items[k], false)
    requires d.fields[i].FixedCount() ==> |items| <= d.fields[i].arraySize
    ensures Entered(d, i, st2) && Items(d, i, st2) == items
  {
    if d.fields[i].FixedCount() then
      var slot := FixedMany(items + SlotOf(d, st.msg, i, false).items[|items|..]);
      assert slot.items[..|items|] == items;
      st.(msg := Put(d, st.msg, i, slot), fixedCount := |items|)
    else
      PutKeepsState(d, i, st, Many(items));
      st.(msg := Put(d, st.msg, i, Many(items)))
  }

  /** One record, after its key. */
  function DecodeRecord(d: Desc, tag: nat, wireType: nat, bs: Bytes, st: DecodeState): (r: Option<(DecodeState, Bytes)>)
    requires WellFormed(d) && StateOk(d, st)
    ensures r.Some? ==> |r.value.1| <= |bs| && StateOk(d, r.value.0)
    decreases d, 2
  {
    if d.fields == [] && tag == 0 then
      // The iterator rests on the terminator, which passes for a required bool.
      Varint32Below(bs);
      match Varint32(bs)
      case None => None
      case Some((_, rest)) => Some((st.(seen := st.seen + {0}), rest))
    else match FieldWithTag(d.fields, tag)
      case None =>
        SkipShrinks(wireType, bs);
        (match SkipField(wireType, bs) case None => None case Some(rest) => Some((st, rest)))
      case Some(i) => DecodeKnown(d, i, wireType, bs, st)
  }

  lemma SkipShrinks(wireType: nat, bs: Bytes)
    ensures SkipField(wireType, bs).Some? ==> |SkipField(wireType, bs).value| < |bs|
  {
    Varint32Below(bs);
  }

  function DecodeKnown(d: Desc, i: nat, wireType: nat, bs: Bytes, st: DecodeState): (r: Option<(DecodeState, Bytes)>)
    requires WellFormed(d) && StateOk(d, st) && i < |d.fields|
    ensures r.Some? ==> |r.value.1| <= |bs| && StateOk(d, r.value.0)
    decreases d, 1
  {
    if d.fields[i].htype.Repeated? then
      match EnterArray(d, i, st)
      case None => None
      case Some(st1) => DecodeEntries(d, i, wireType, bs, st1)
    else DecodeSingle(d, i, bs, st)
  }

  function DecodeEntries(d: Desc, i: nat, wireType: nat, bs: Bytes, st: DecodeState): (r: Option<(DecodeState, Bytes)>)
    requires WellFormed(d) && Entered(d, i, st) && d.fields[i].htype.Repeated?
    ensures r.Some? ==> |r.value.1| <= |bs| && Entered(d, i, r.value.0)
    decreases d, 0
  {
    assert WellFormedField(d.fields[i]);
    match DecodeArray(d.fields[i], wireType, bs, Items(d, i, st))
    case None => None
    case Some((items, rest)) => Some((WithItems(d, i, st, items), rest))
  }

  function DecodeSingle(d: Desc, i: nat, bs: Bytes, st: DecodeState): (r: Option<(DecodeState, Bytes)>)
    requires WellFormed(d) && StateOk(d, st) && i < |d.fields| && !d.fields[i].htype.Repeated?
    ensures r.Some? ==> |r.value.1| <= |bs| && StateOk(d, r.value.0)
    decreases d, 0
  {
    assert WellFormedField(d.fields[i]);
    match DecodeSlot(d.fields[i], bs, SlotOf(d, st.msg, i, false))
    case None => None
    case Some((slot, rest)) =>
      PutKeepsState(d, i, st, slot);
      Some((st.(msg := Put(d, st.msg, i, slot), seen := MarkSeen(d, i, st.seen)), rest))
  }

  /** fields_seen with the bit of field `i`, when it is one that is tracked. */
  function MarkSeen(d: Desc, i: nat, seen: set<nat>): set<nat>
    requires i < |d.fields|
  {
    var r := RequiredBefore(d.fields, i);
    if d.fields[i].htype.Required? && r < PB_MAX_REQUIRED_FIELDS then seen + {r} else seen
  }

  lemma PutKeepsState(d: Desc, i: nat, st: DecodeState, slot: Slot)
    requires WellFormed(d) && StateOk(d, st) && i < |d.fields| && !d.fields[i].FixedCount()
    requires SlotOk(d.fields[i], slot, false) && (slot.Union? ==> slot.which == d.fields[i].tag)
    ensures StateOk(d, st.(msg := Put(d, st.msg, i, slot)))
  {
    if st.fixedField.Some? && SlotIndex(d.fields, st.fixedField.value) == SlotIndex(d.fields, i) {
      SharedSlotIsUnion(d.fields, st.fixedField.value, i);
    }
  }

  /** The main loop of pb_decode_noinit. */
  function DecodeLoop(d: Desc, bs: Bytes, st: DecodeState): (r: Option<LoopEnd>)
    requires WellFormed(d) && StateOk(d, st)
    ensures r.Some? ==> StateOk(d, r.value.st) && |r.value.rest| <= |bs|
    decreases d, 3, |bs|
  {
    if bs == [] then Some(LoopEnd(st, [], false))
    else
      Varint32Below(bs);
      match Varint32(bs)
      case None => None
      case Some((key, rest)) =>
        if key == 0 then Some(LoopEnd(st, rest, true))
        else match DecodeRecord(d, key / 8, key % 8, rest, st)
          case None => None
          case Some((st2, rest2)) => DecodeLoop(d, rest2, st2)
  }

  /** The checks after the loop. */
  predicate Complete(d: Desc, st: DecodeState) {
    FixedComplete(d, st) && RequiredSeen(d, st.seen)
  }

  predicate RequiredSeen(d: Desc, seen: set<nat>) {
    forall r: nat | r < RequiredBefore(d.fields, |d.fields|) && r < PB_MAX_REQUIRED_FIELDS :: r in seen
  }

  /** pb_decode_noinit. */
  function DecodeMessage(d: Desc, bs: Bytes, m: Message): (r: Option<(Message, Bytes)>)
    requires WellFormed(d) && Shaped(d, m, false)
    ensures r.Some? ==> Shaped(d, r.value.0, false) && |r.value.1| <= |bs|
    decreases d, 4
  {
    match DecodeLoop(d, bs, Start(m))
    case None => None
    case Some(end) => if Complete(d, end.st) then Some((end.st.msg, end.rest)) else None
  }

  // ---------------------------------------------------------------------
  // Single steps
  // ---------------------------------------------------------------------

  /** Tags are distinct, so a tag leads to its field. */
  lemma {:induction false} TagFindsField(fs: seq<Field>, i: nat)
    requires i < |fs| && DistinctTags(fs)
    ensures FieldWithTag(fs, fs[i].tag) == Some(i)
  {
    if i > 0 {
      TagsDiffer(fs, 0, i);
      forall j, k | 0 <= j < k < |fs[1..]| ensures TagAt(fs[1..], j) != TagAt(fs[1..], k) {
        TagsDiffer(fs, j + 1, k + 1);
      }
      TagFindsField(fs[1..], i - 1);
    }
  }

  /** The main loop, one key at a time. */
  lemma LoopIs(d: Desc, bs: Bytes, st: DecodeState)
    requires WellFormed(d) && StateOk(d, st)
    ensures bs == [] ==> DecodeLoop(d, bs, st) == Some(LoopEnd(st, [], false))
    ensures bs != [] ==>
            var key := Varint32(bs);
            if key.None? then DecodeLoop(d, bs, st) == None
            else if key.value.0 == 0 then DecodeLoop(d, bs, st) == Some(LoopEnd(st, key.value.1, true))
            else var r := DecodeRecord(d, key.value.0 / 8, key.value.0 % 8, key.value.1, st);
                 |key.value.1| < |bs| && DecodeLoop(d, bs, st) == if r.None? then None else DecodeLoop(d, r.value.1, r.value.0)
  {
    Varint32Below(bs);
  }

  /** One iteration of the main loop, on a record of field `i`. */
  lemma LoopStep(d: Desc, i: nat, bs: Bytes, st: DecodeState, wireType: nat, rest: Bytes)
    requires WellFormed(d) && StateOk(d, st) && i < |d.fields| && wireType < 8
    requires bs == Key(wireType, d.fields[i].tag) + rest
    ensures DecodeLoop(d, bs, st) ==
            match DecodeKnown(d, i, wireType, rest, st)
            case None => None
            case Some((st2, rest2)) => DecodeLoop(d, rest2, st2)
  {
    var tag := d.fields[i].tag;
    assert WellFormedField(d.fields[i]);
    ReadKey(wireType, tag, rest);
    TagFindsField(d.fields, i);
    RecordStep(d, bs, st, tag, wireType, rest);
  }

  /** The decoder takes a written key apart again. */
  lemma ReadKey(wireType: nat, tag: nat, rest: Bytes)
    requires wireType < 8 && tag < 0x2000_0000
    ensures Varint32(Key(wireType, tag) + rest) == Some((tag * 8 + wireType, rest))
  {
    Varint32RoundTrip(tag * 8 + wireType, rest);
  }

  lemma RecordStep(d: Desc, bs: Bytes, st: DecodeState, tag: nat, wireType: nat, rest: Bytes)
    requires WellFormed(d) && StateOk(d, st) && tag > 0 && wireType < 8
    requires Varint32(bs) == Some((tag * 8 + wireType, rest))
    ensures DecodeLoop(d, bs, st) ==
            match DecodeRecord(d, tag, wireType, rest, st)
            case None => None
            case Some((st2, rest2)) => DecodeLoop(d, rest2, st2)
  {
    hide DecodeRecord;
    KeyParts(tag, wireType);
    Varint32Below(bs);
  }

  lemma KeyParts(tag: nat, wireType: nat)
    requires wireType < 8
    ensures (tag * 8 + wireType) / 8 == tag && (tag * 8 + wireType) % 8 == wireType
  {
  }
}
