/** Decoding what was encoded: pb_decode inverts pb_encode. */
module PbRoundTrip {
  import opened Wrappers
  import opened Bits
  import opened PbVarint
  import opened PbModel
  import opened PbEncoding
  import opened PbDecoding
  import opened PbMerge
  import opened PbPacked

  // ---------------------------------------------------------------------
  // The message that comes back
  // ---------------------------------------------------------------------

  /** A string buffer up to its NUL; the other values as they are. */
  function CanonValue(f: Field, v: Value): Value
    requires ValueOk(f, v, true)
    decreases f, 0
  {
    match f.ltype
    case LString => VBytes(CString(v.bytes))
    case LSubMessage(d) => VMessage(Canon(d, v.slots))
    case _ => v
  }

  function CanonItems(f: Field, items: seq<Value>): (r: seq<Value>)
    requires forall k | 0 <= k < |items| :: ValueOk(f, items[k], true)
    ensures |r| == |items| && forall k | 0 <= k < |items| :: r[k] == CanonValue(f, items[k])
    decreases f, 1
  {
    seq(|items|, k requires 0 <= k < |items| => CanonValue(f, items[k]))
  }

  /** The slot of a field that is on the wire. */
  function CanonSlot(f: Field, s: Slot): Slot
    requires SlotOk(f, s, true)
    decreases f, 2
  {
    match f.htype
    case Required => One(CanonValue(f, s.v))
    case Optional => if f.sizeOffset == 0 then One(CanonValue(f, s.v)) else Maybe(true, CanonValue(f, s.v))
    case Repeated => if f.sizeOffset == 0 then FixedMany(CanonItems(f, s.items)) else Many(CanonItems(f, s.items))
    case OneOf => if s.which == f.tag then Union(f.tag, CanonValue(f, s.v)) else DefaultSlot(f)
  }

  /** What each field of `m` puts on the wire. */
  function Contributions(d: Desc, m: Message): (cs: seq<Option<Slot>>)
    requires Shaped(d, m, true)
    ensures |cs| == |d.fields|
    ensures forall i | 0 <= i < |cs| ::
              cs[i] == var s := SlotOf(d, m, i, true);
                       if Present(d.fields[i], s) then Some(CanonSlot(d.fields[i], s)) else None
    decreases d, 0
  {
    seq(|d.fields|, i requires 0 <= i < |d.fields| =>
      var s := SlotOf(d, m, i, true);
      if Present(d.fields[i], s) then Some(CanonSlot(d.fields[i], s)) else None)
  }

  /** `base` with the slots of the first `n` fields that are on the wire. */
  function Overlay(fs: seq<Field>, base: Message, cs: seq<Option<Slot>>, n: nat): (r: Message)
    requires n <= |fs| == |cs| && |base| == SlotCount(Desc(fs))
    ensures |r| == |base|
  {
    if n == 0 then base
    else
      SlotInBounds(Desc(fs), n - 1);
      var r := Overlay(fs, base, cs, n - 1);
      if cs[n - 1].Some? then r[SlotIndex(fs, n - 1) := cs[n - 1].value] else r
  }

  /** `m` with every field that is absent from the wire back at its default. */
  function Canon(d: Desc, m: Message): (c: Message)
    requires Shaped(d, m, true)
    decreases d, 1
  {
    Overlay(d.fields, Defaults(d), Contributions(d, m), |d.fields|)
  }

  /** The first `n` fields of it. */
  function CanonUpTo(d: Desc, m: Message, n: nat): (c: Message)
    requires Shaped(d, m, true) && n <= |d.fields|
  {
    Overlay(d.fields, Defaults(d), Contributions(d, m), n)
  }

  /** The one field of a slot that is on the wire decides it. */
  lemma {:induction false} OverlayPresent(fs: seq<Field>, base: Message, cs: seq<Option<Slot>>, n: nat, i: nat)
    requires i < n <= |fs| == |cs| && |base| == SlotCount(Desc(fs))
    requires cs[i].Some?
    requires forall j {:trigger cs[j]} | 0 <= j < n && j != i && SlotIndex(fs, j) == SlotIndex(fs, i) :: cs[j].None?
    ensures SlotIndex(fs, i) < |base| && Overlay(fs, base, cs, n)[SlotIndex(fs, i)] == cs[i].value
    decreases n
  {
    SlotInBounds(Desc(fs), i);
    SlotInBounds(Desc(fs), n - 1);
    if i < n - 1 { OverlayPresent(fs, base, cs, n - 1, i); }
  }

  lemma {:induction false} OverlayAbsent(fs: seq<Field>, base: Message, cs: seq<Option<Slot>>, n: nat, i: nat)
    requires n <= |fs| == |cs| && i < |fs| && |base| == SlotCount(Desc(fs))
    requires forall j {:trigger cs[j]} | 0 <= j < n && SlotIndex(fs, j) == SlotIndex(fs, i) :: cs[j].None?
    ensures SlotIndex(fs, i) < |base| && Overlay(fs, base, cs, n)[SlotIndex(fs, i)] == base[SlotIndex(fs, i)]
    decreases n
  {
    SlotInBounds(Desc(fs), i);
    if n > 0 { SlotInBounds(Desc(fs), n - 1); }
    if n > 0 { OverlayAbsent(fs, base, cs, n - 1, i); }
  }

  /** Two members of a union cannot both be on the wire. */
  lemma PresentAlone(d: Desc, m: Message, i: nat, j: nat)
    requires WellFormed(d) && Shaped(d, m, true) && i < |d.fields| && j < |d.fields| && i != j
    requires SlotIndex(d.fields, i) == SlotIndex(d.fields, j)
    requires Present(d.fields[i], SlotOf(d, m, i, true))
    ensures !Present(d.fields[j], SlotOf(d, m, j, true))
  {
    SharedSlotIsUnion(d.fields, i, j);
    TagsDiffer(d.fields, i, j);
  }

  /** Meaning of Canon: a present field keeps its value, ... */
  lemma CanonPresent(d: Desc, m: Message, i: nat)
    requires WellFormed(d) && Shaped(d, m, true) && i < |d.fields|
    requires Present(d.fields[i], SlotOf(d, m, i, true))
    ensures var s := SlotIndex(d.fields, i);
            s < |Canon(d, m)| && Canon(d, m)[s] == CanonSlot(d.fields[i], SlotOf(d, m, i, true))
  {
    var cs, n := Contributions(d, m), |d.fields|;
    SlotInBounds(d, i);
    forall j | 0 <= j < n && j != i && SlotIndex(d.fields, j) == SlotIndex(d.fields, i) ensures cs[j].None? {
      PresentAlone(d, m, i, j);
    }
    OverlayPresent(d.fields, Defaults(d), cs, n, i);
  }

  /** ... and a slot none of whose fields is present is at its default. */
  lemma CanonAbsent(d: Desc, m: Message, i: nat)
    requires WellFormed(d) && Shaped(d, m, true) && i < |d.fields|
    requires forall j: nat {:trigger SlotOf(d, m, j, true)} |
               j < |d.fields| && SlotIndex(d.fields, j) == SlotIndex(d.fields, i) ::
               !Present(d.fields[j], SlotOf(d, m, j, true))
    ensures var s := SlotIndex(d.fields, i);
            s < |Canon(d, m)| && Canon(d, m)[s] == DefaultSlot(d.fields[i])
  {
    DefaultsAt(d, |d.fields|, i);
    OverlayAbsent(d.fields, Defaults(d), Contributions(d, m), |d.fields|, i);
  }

  lemma {:induction false} OverlayNothing(fs: seq<Field>, base: Message, cs: seq<Option<Slot>>, n: nat)
    requires n <= |fs| == |cs| && |base| == SlotCount(Desc(fs))
    requires forall j | 0 <= j < n :: cs[j].None?
    ensures Overlay(fs, base, cs, n) == base
  {
    if n > 0 { OverlayNothing(fs, base, cs, n - 1); }
  }

  /** A submessage that pb_check_proto3_default_value takes for empty comes back
      with every field at its default. */
  lemma EmptySubmessage(f: Field, v: Value)
    requires WellFormedField(f) && ValueOk(f, v, true) && f.ltype.LSubMessage? && IsProto3Zero(f, v)
    ensures CanonValue(f, v) == DefaultValue(f)
  {
    var d, m := f.ltype.desc, v.slots;
    forall j: nat | j < |d.fields| ensures Contributions(d, m)[j].None? {
      assert WellFormedField(d.fields[j]);
      assert IsProto3Default(d.fields[j], SlotOf(d, m, j, true));
      assert !Present(d.fields[j], SlotOf(d, m, j, true));
    }
    OverlayNothing(d.fields, Defaults(d), Contributions(d, m), |d.fields|);
  }

  /** A field without a presence flag is not written when it is zero, and comes
      back at its default. So its value survives exactly when it is not zero or
      is the default; always, when there is no explicit default. */
  lemma SingularSurvives(d: Desc, m: Message, i: nat)
    requires WellFormed(d) && Shaped(d, m, true) && i < |d.fields|
    requires d.fields[i].htype.Optional? && d.fields[i].sizeOffset == 0
    ensures SlotIndex(d.fields, i) < |Canon(d, m)|
    ensures var f, v := d.fields[i], SlotOf(d, m, i, true).v;
            && (Canon(d, m)[SlotIndex(d.fields, i)] == One(CanonValue(f, v))
                <==> !IsProto3Zero(f, v) || DefaultValue(f) == CanonValue(f, v))
            && (f.initial.None? ==> Canon(d, m)[SlotIndex(d.fields, i)] == One(CanonValue(f, v)))
  {
    var f, v := d.fields[i], SlotOf(d, m, i, true).v;
    if IsProto3Zero(f, v) {
      forall j: nat | j < |d.fields| && SlotIndex(d.fields, j) == SlotIndex(d.fields, i)
        ensures !Present(d.fields[j], SlotOf(d, m, j, true))
      {
        if j != i { SharedSlotIsUnion(d.fields, i, j); }
      }
      CanonAbsent(d, m, i);
      assert WellFormedField(f);
      if f.ltype.LSubMessage? { EmptySubmessage(f, v); }
      if f.ltype.LFixedBytes? { assert v.bytes == Zeros(f.dataSize); }
    } else {
      CanonPresent(d, m, i);
    }
  }

  /** Before its turn, the slot of a present field is at its default. */
  lemma CanonPending(d: Desc, m: Message, i: nat)
    requires WellFormed(d) && Shaped(d, m, true) && i < |d.fields|
    requires Present(d.fields[i], SlotOf(d, m, i, true))
    ensures SlotIndex(d.fields, i) < |CanonUpTo(d, m, i)|
    ensures CanonUpTo(d, m, i)[SlotIndex(d.fields, i)] == DefaultSlot(d.fields[i])
  {
    var cs := Contributions(d, m);
    DefaultsAt(d, |d.fields|, i);
    forall j | 0 <= j < i && SlotIndex(d.fields, j) == SlotIndex(d.fields, i) ensures cs[j].None? {
      PresentAlone(d, m, i, j);
    }
    OverlayAbsent(d.fields, Defaults(d), cs, i, i);
  }

  /** Field `i` itself. */
  lemma CanonStep(d: Desc, m: Message, i: nat)
    requires Shaped(d, m, true) && i < |d.fields|
    ensures SlotIndex(d.fields, i) < SlotCount(d)
    ensures var f, slot := d.fields[i], SlotOf(d, m, i, true);
            CanonUpTo(d, m, i + 1) ==
            if Present(f, slot) then CanonUpTo(d, m, i)[SlotIndex(d.fields, i) := CanonSlot(f, slot)] else CanonUpTo(d, m, i)
  {
    SlotInBounds(d, i);
    assert Contributions(d, m)[i].Some? == Present(d.fields[i], SlotOf(d, m, i, true));
  }

  // ---------------------------------------------------------------------
  // Strings that fit
  // ---------------------------------------------------------------------

  /** The decoder stores a NUL behind every string, so a buffer that is full
      to the last byte can be written but not read back. */
  predicate FitsValue(f: Field, v: Value)
    requires ValueOk(f, v, true)
    decreases f, 0
  {
    match f.ltype
    case LString => |CString(v.bytes)| < f.dataSize
    case LSubMessage(d) => Fits(d, v.slots)
    case _ => true
  }

  predicate FitsSlot(f: Field, s: Slot)
    requires SlotOk(f, s, true)
    decreases f, 2
  {
    if f.htype.Repeated? then FitsItems(f, s.items) else Present(f, s) ==> FitsValue(f, s.v)
  }

  predicate FitsItems(f: Field, items: seq<Value>)
    requires forall k | 0 <= k < |items| :: ValueOk(f, items[k], true)
    decreases f, 1
  {
    forall k | 0 <= k < |items| :: FitsValue(f, items[k])
  }

  /** Every string on the wire leaves room for its NUL. */
  predicate Fits(d: Desc, m: Message)
    requires Shaped(d, m, true)
    decreases d, 2
  {
    FitsFrom(d, m, 0)
  }

  predicate FitsFrom(d: Desc, m: Message, i: nat)
    requires Shaped(d, m, true) && i <= |d.fields|
    decreases d, 1
  {
    forall j | i <= j < |d.fields| :: FitsSlot(d.fields[j], SlotOf(d, m, j, true))
  }

  // ---------------------------------------------------------------------
  // Values
  // ---------------------------------------------------------------------

  lemma CastKeeps(n: int, size: nat)
    requires ValidIntSize(size)
    ensures CastSigned(n, size) == n <==> -SignedLimit(size) <= n < SignedLimit(size)
  {
    var limit := SignedLimit(size);
    if 0 <= n < limit { ModUnique(n, 2 * limit, 0, n); }
    if -limit <= n < 0 { assert n + 2 * limit == n % (2 * limit); }
  }

  /** pb_dec_varint takes back what pb_enc_varint wrote, for each width. */
  lemma VarintFits(size: nat, n: int)
    requires ValidIntSize(size) && -SignedLimit(size) <= n < SignedLimit(size)
    ensures Pattern64(n) < TWO_64 && FitVarint(size, Pattern64(n)) == Some(VInt(n))
  {
    CastKeeps(n, size);
    var p := Pattern64(n);
    assert ToInt64(p) == n;
    if size != 8 {
      assert ToInt32(p) == n by {
        if n < 0 { ModUnique(p, TWO_32, TWO_32 - 1, n + TWO_32); } else { ModUnique(p, TWO_32, 0, n); }
      }
    }
  }

  lemma UVarintFits(size: nat, n: nat)
    requires ValidIntSize(size) && n < 2 * SignedLimit(size)
    ensures n < TWO_64 && FitUVarint(size, n) == Some(VInt(n))
  {
    ModUnique(n, 2 * SignedLimit(size), 0, n);
  }

  lemma SVarintFits(size: nat, n: int)
    requires ValidIntSize(size) && -SignedLimit(size) <= n < SignedLimit(size)
    ensures ZigZag(n) < TWO_64 && FitSVarint(size, ZigZag(n)) == Some(VInt(n))
  {
    ZigZagRoundTrip(n, 0);
    CastKeeps(n, size);
  }

  /** What the field decoders accept: the value, as a signed number of 64 bits, or
      of its low 32 bits in fields of up to four bytes, if it fits the field. */
  lemma VarintAccepted(size: nat, p: nat)
    requires ValidIntSize(size) && p < TWO_64
    ensures var low := p % TWO_32;
            var n := if size == 8 then (if p < TWO_63 then p else p - TWO_64)
                     else (if low < TWO_31 then low else low - TWO_32);
            FitVarint(size, p) == if -SignedLimit(size) <= n < SignedLimit(size) then Some(VInt(n)) else None
  {
    CastKeeps(ToInt64(p), size);
    CastKeeps(ToInt32(p), size);
  }

  lemma UVarintAccepted(size: nat, p: nat)
    requires ValidIntSize(size)
    ensures FitUVarint(size, p) == if p < 2 * SignedLimit(size) then Some(VInt(p)) else None
  {
    if p < 2 * SignedLimit(size) { ModUnique(p, 2 * SignedLimit(size), 0, p); }
  }

  lemma SVarintAccepted(size: nat, p: nat)
    requires ValidIntSize(size) && p < TWO_64
    ensures var n := if p % 2 == 1 then -(p / 2) - 1 else p / 2;
            FitSVarint(size, p) == if -SignedLimit(size) <= n < SignedLimit(size) then Some(VInt(n)) else None
  {
    UnZigZagNumbers(p);
    CastKeeps(UnZigZag(p), size);
  }

  lemma {:induction false} LittleEndianRoundTrip(n: nat, width: nat)
    requires n < Pow2(8 * width)
    ensures FromLittleEndian(LittleEndian(n, width)) == n
  {
    if width > 0 {
      Pow2Add(8, 8 * (width - 1));
      assert Pow2(8) == 256;
      assert n / 256 < Pow2(8 * (width - 1));
      LittleEndianRoundTrip(n / 256, width - 1);
      assert LittleEndian(n, width)[1..] == LittleEndian(n / 256, width - 1);
    }
  }

  lemma WordRoundTrip(n: nat, width: nat, rest: Bytes)
    requires (width == 4 && n < TWO_32) || (width == 8 && n < TWO_64)
    ensures DecodeWord(width, LittleEndian(n, width) + rest) == Some((VInt(n), rest))
  {
    Pow2Constants();
    LittleEndianRoundTrip(n, width);
    var bs := LittleEndian(n, width) + rest;
    assert bs[..width] == LittleEndian(n, width) && bs[width..] == rest;
  }

  /** Byte arrays and strings are read back just when they fit their buffer, a
      string with its NUL behind it; an array of fixed length must have that
      length, or none, which stands for zeros. */
  lemma BytesRoundTrip(f: Field, raw: Bytes, rest: Bytes)
    requires f.ltype.LBytes? || f.ltype.LString? || f.ltype.LFixedBytes?
    requires |raw| < TWO_32 && f.dataSize < TWO_32
    ensures DecodeBytes(f, Framed(raw) + rest) ==
            if f.ltype.LFixedBytes? && raw == [] then Some((VBytes(Zeros(f.dataSize)), rest))
            else if (f.ltype.LBytes? && |raw| + BYTES_HEADER <= f.dataSize)
                    || (f.ltype.LString? && |raw| + 1 <= f.dataSize)
                    || (f.ltype.LFixedBytes? && |raw| == f.dataSize)
            then Some((VBytes(raw), rest))
            else None
  {
    assert Framed(raw) + rest == EncodeVarint(|raw|) + (raw + rest);
    Varint32RoundTrip(|raw|, raw + rest);
    assert (raw + rest)[..|raw|] == raw && (raw + rest)[|raw|..] == rest;
    if |raw| == 0 { assert raw + rest == rest; }
  }

  /** Scalars and strings come back, and nothing behind them is read. */
  lemma ScalarRoundTrip(f: Field, v: Value, rest: Bytes)
    requires WellFormedField(f) && !f.ltype.LSubMessage? && ValueOk(f, v, true)
    requires EncodeValue(f, v).Some? && |EncodeValue(f, v).value| < TWO_32
    ensures DecodeScalar(f, EncodeValue(f, v).value + rest)
            == if FitsValue(f, v) then Some((CanonValue(f, v), rest)) else None
  {
    match f.ltype
    case LBool => Varint32RoundTrip(if v.b then 1 else 0, rest);
    case LVarint => VarintFits(f.dataSize, v.n); VarintRoundTrip(Pattern64(v.n), rest);
    case LUVarint => UVarintFits(f.dataSize, v.n); VarintRoundTrip(v.n, rest);
    case LSVarint => SVarintFits(f.dataSize, v.n); VarintRoundTrip(ZigZag(v.n), rest);
    case LFixed32 => WordRoundTrip(v.n, 4, rest);
    case LFixed64 => WordRoundTrip(v.n, 8, rest);
    case LBytes => BytesRoundTrip(f, v.bytes, rest);
    case LString => BytesRoundTrip(f, CString(v.bytes), rest);
    case LFixedBytes => BytesRoundTrip(f, v.bytes, rest);
  }

  // ---------------------------------------------------------------------
  // Messages
  // ---------------------------------------------------------------------

  /** Where the decoder stands when the fields before `i` have been read. */
  ghost predicate Reached(d: Desc, m: Message, i: nat, st: DecodeState)
    requires Shaped(d, m, true) && i <= |d.fields|
  {
    && StateOk(d, st)
    && st.msg == CanonUpTo(d, m, i)
    && FixedComplete(d, st)
    && (st.fixedField.Some? ==> st.fixedField.value < i)
    && SeenUpTo(d, i, st.seen)
  }

  /** The tracked required fields before `i` have been seen. */
  ghost predicate SeenUpTo(d: Desc, i: nat, seen: set<nat>)
    requires i <= |d.fields|
  {
    forall j | 0 <= j < i && d.fields[j].htype.Required? && RequiredBefore(d.fields, j) < PB_MAX_REQUIRED_FIELDS ::
      RequiredBefore(d.fields, j) in seen
  }

  lemma SeenNext(d: Desc, i: nat, seen: set<nat>)
    requires i < |d.fields| && SeenUpTo(d, i, seen)
    ensures SeenUpTo(d, i + 1, MarkSeen(d, i, seen))
  {
  }

  /** Values come back: for a submessage, into defaults. */
  lemma {:induction false} ValueRoundTrip(f: Field, v: Value, rest: Bytes, prior: Value)
    requires WellFormedField(f) && ValueOk(f, v, true)
    requires EncodeValue(f, v).Some? && |EncodeValue(f, v).value| < TWO_32
    requires f.ltype.LSubMessage? && !f.htype.Repeated? ==> ValueOk(f, prior, false) && prior == DefaultValue(f)
    ensures DecodeValue(f, EncodeValue(f, v).value + rest, prior)
            == if FitsValue(f, v) then Some((CanonValue(f, v), rest)) else None
    decreases f, 0
  {
    if f.ltype.LSubMessage? {
      var d := f.ltype.desc;
      var body := EncodeMessage(d, v.slots).value;
      DefaultsShaped(d);
      MessageRoundTrip(d, v.slots);
      ReadFrame(body, rest);
    } else {
      ScalarRoundTrip(f, v, rest);
    }
  }

  /** Full message round trip: reading into defaults what pb_encode wrote gives
      the message back, up to absent fields and characters behind a NUL, and
      consumes exactly those bytes. It fails just when some string on the wire
      leaves no room for its NUL. */
  lemma {:induction false} MessageRoundTrip(d: Desc, m: Message)
    requires WellFormed(d) && Shaped(d, m, true)
    requires EncodeMessage(d, m).Some? && |EncodeMessage(d, m).value| < TWO_32
    ensures Shaped(d, Defaults(d), false)
    ensures DecodeMessage(d, EncodeMessage(d, m).value, Defaults(d))
            == if Fits(d, m) then Some((Canon(d, m), [])) else None
    decreases d, 4
  {
    DefaultsShaped(d);
    FieldsRoundTrip(d, m, 0, Start(Defaults(d)));
  }

  lemma {:induction false} FieldsRoundTrip(d: Desc, m: Message, i: nat, st: DecodeState)
    requires WellFormed(d) && Shaped(d, m, true) && i <= |d.fields| && Reached(d, m, i, st)
    requires EncodeFrom(d, m, i).Some? && |EncodeFrom(d, m, i).value| < TWO_32
    ensures var r := DecodeLoop(d, EncodeFrom(d, m, i).value, st);
            if FitsFrom(d, m, i)
            then r.Some? && r.value.rest == [] && r.value.st.msg == Canon(d, m) && Complete(d, r.value.st)
            else r.None?
    decreases d, 3, |d.fields| - i
  {
    if i == |d.fields| {
      AllRequiredSeen(d, i, st.seen);
    } else {
      FromStep(d, m, i);
      var f, slot, tail := d.fields[i], SlotOf(d, m, i, true), EncodeFrom(d, m, i + 1).value;
      var st2 := FieldRoundTrip(d, m, i, st, tail);
      if FitsSlot(f, slot) {
        FieldsRoundTrip(d, m, i + 1, st2);
      }
    }
  }

  lemma FromStep(d: Desc, m: Message, i: nat)
    requires Shaped(d, m, true) && i < |d.fields| && EncodeFrom(d, m, i).Some?
    ensures var slot := SlotOf(d, m, i, true);
            && SlotOk(d.fields[i], slot, true)
            && FitsFrom(d, m, i) == (FitsSlot(d.fields[i], slot) && FitsFrom(d, m, i + 1))
            && EncodeField(d.fields[i], slot).Some? && EncodeFrom(d, m, i + 1).Some?
            && EncodeFrom(d, m, i).value == EncodeField(d.fields[i], slot).value + EncodeFrom(d, m, i + 1).value
  {
  }

  lemma {:induction false} AllRequiredSeen(d: Desc, n: nat, seen: set<nat>)
    requires n <= |d.fields| && SeenUpTo(d, n, seen)
    ensures forall r: nat | r < RequiredBefore(d.fields, n) && r < PB_MAX_REQUIRED_FIELDS :: r in seen
  {
    if n > 0 { AllRequiredSeen(d, n - 1, seen); }
  }

  /** One field: what it wrote is read, and takes the decoder to the next. */
  lemma {:induction false} FieldRoundTrip(d: Desc, m: Message, i: nat, st: DecodeState, tail: Bytes) returns (st2: DecodeState)
    requires WellFormed(d) && Shaped(d, m, true) && i < |d.fields| && Reached(d, m, i, st)
    requires var e := EncodeField(d.fields[i], SlotOf(d, m, i, true)); e.Some? && |e.value| < TWO_32
    ensures var f, slot := d.fields[i], SlotOf(d, m, i, true);
            var loop := DecodeLoop(d, EncodeField(f, slot).value + tail, st);
            if FitsSlot(f, slot) then Reached(d, m, i + 1, st2) && loop == DecodeLoop(d, tail, st2) else loop.None?
    decreases d, 2
  {
    var f, slot := d.fields[i], SlotOf(d, m, i, true);
    assert SlotOk(f, slot, true);
    if !Present(f, slot) {
      AbsentField(f, slot, tail);
      SlotInBounds(d, i);
      ReachedNext(d, m, i, st, st);
      st2 := st;
    } else if f.htype.Repeated? {
      st2 := ArrayRoundTrip(d, m, i, st, tail);
    } else {
      st2 := SingleRoundTrip(d, m, i, st, tail);
    }
  }

  lemma AbsentField(f: Field, slot: Slot, tail: Bytes)
    requires SlotOk(f, slot, true) && !Present(f, slot)
    ensures FitsSlot(f, slot) && EncodeField(f, slot) == Some([]) && [] + tail == tail
  {
  }

  lemma ReachedNext(d: Desc, m: Message, i: nat, st: DecodeState, st2: DecodeState)
    requires WellFormed(d) && Shaped(d, m, true) && i < |d.fields| && Reached(d, m, i, st)
    requires StateOk(d, st2) && FixedComplete(d, st2) && (st2.fixedField.Some? ==> st2.fixedField.value <= i)
    requires SlotIndex(d.fields, i) < |st.msg|
    requires var f, slot := d.fields[i], SlotOf(d, m, i, true);
             && st2.msg == (if Present(f, slot) then st.msg[SlotIndex(d.fields, i) := CanonSlot(f, slot)] else st.msg)
             && st2.seen == MarkSeen(d, i, st.seen)
    ensures Reached(d, m, i + 1, st2)
  {
    SeenNext(d, i, st.seen);
    assert st2.msg == CanonUpTo(d, m, i + 1) by { CanonStep(d, m, i); }
  }

  lemma {:induction false} SingleRoundTrip(d: Desc, m: Message, i: nat, st: DecodeState, tail: Bytes) returns (st2: DecodeState)
    requires WellFormed(d) && Shaped(d, m, true) && i < |d.fields| && Reached(d, m, i, st)
    requires var f, slot := d.fields[i], SlotOf(d, m, i, true);
             && Present(f, slot) && !f.htype.Repeated?
             && EncodeRecord(f, slot.v).Some? && |EncodeRecord(f, slot.v).value| < TWO_32
    ensures var f, slot := d.fields[i], SlotOf(d, m, i, true);
            var loop := DecodeLoop(d, EncodeRecord(f, slot.v).value + tail, st);
            if FitsValue(f, slot.v) then Reached(d, m, i + 1, st2) && loop == DecodeLoop(d, tail, st2) else loop.None?
    decreases d, 1
  {
    var f, slot := d.fields[i], SlotOf(d, m, i, true);
    var e, wt := EncodeValue(f, slot.v).value, WireType(f.ltype);
    CanonPending(d, m, i);
    SlotInBounds(d, i);
    RecordBytes(f, slot.v, tail);
    LoopStep(d, i, EncodeRecord(f, slot.v).value + tail, st, wt, e + tail);
    KnownSingle(d, i, slot, tail, st);
    st2 := st.(msg := st.msg[SlotIndex(d.fields, i) := CanonSlot(f, slot)], seen := MarkSeen(d, i, st.seen));
    if FitsValue(f, slot.v) { ReachedNext(d, m, i, st, st2); }
  }

  lemma {:induction false} KnownSingle(d: Desc, i: nat, slot: Slot, tail: Bytes, st: DecodeState)
    requires WellFormed(d) && StateOk(d, st) && i < |d.fields| && !d.fields[i].htype.Repeated?
    requires SlotOk(d.fields[i], slot, true) && Present(d.fields[i], slot)
    requires SlotOf(d, st.msg, i, false) == DefaultSlot(d.fields[i])
    requires var e := EncodeValue(d.fields[i], slot.v); e.Some? && |e.value| < TWO_32
    ensures SlotIndex(d.fields, i) < |st.msg|
    ensures var f, s := d.fields[i], SlotIndex(d.fields, i);
            DecodeKnown(d, i, WireType(f.ltype), EncodeValue(f, slot.v).value + tail, st) ==
            if FitsValue(f, slot.v)
            then Some((st.(msg := st.msg[s := CanonSlot(f, slot)], seen := MarkSeen(d, i, st.seen)), tail))
            else None
    decreases d, 0, 0
  {
    var f := d.fields[i];
    assert WellFormedField(f);
    SlotInBounds(d, i);
    DefaultValueOk(f);
    ValueRoundTrip(f, slot.v, tail, DefaultValue(f));
    assert DecodeSlot(f, EncodeValue(f, slot.v).value + tail, SlotOf(d, st.msg, i, false))
           == if FitsValue(f, slot.v) then Some((CanonSlot(f, slot), tail)) else None;
  }

  /** An array: packed scalars in one record, everything else a record each. */
  lemma {:induction false} ArrayRoundTrip(d: Desc, m: Message, i: nat, st: DecodeState, tail: Bytes) returns (st2: DecodeState)
    requires WellFormed(d) && Shaped(d, m, true) && i < |d.fields| && Reached(d, m, i, st)
    requires d.fields[i].htype.Repeated? && Entries(d, m, i) != []
    requires var e := EncodeArray(d.fields[i], Entries(d, m, i)); e.Some? && |e.value| < TWO_32
    ensures var f, items := d.fields[i], Entries(d, m, i);
            var loop := DecodeLoop(d, EncodeArray(f, items).value + tail, st);
            if FitsItems(f, items) then Reached(d, m, i + 1, st2) && loop == DecodeLoop(d, tail, st2) else loop.None?
    decreases d, 1
  {
    var f, items := d.fields[i], Entries(d, m, i);
    NothingReceived(d, m, i, st);
    var st1 := EnterArray(d, i, st).value;
    if f.Packable() {
      PackedRoundTrip(d, i, items, tail, st);
    } else {
      assert |items| <= f.arraySize <= PB_SIZE_MAX by { assert WellFormedField(f); }
      FirstRecordEnters(d, i, items, tail, st);
      RecordsRoundTrip(d, i, items, tail, st1);
    }
    st2 := st;
    if FitsItems(f, items) {
      if !f.Packable() {
        ReceiveAll(d, i, st1, CanonItems(f, items));
        assert [] + CanonItems(f, items) == CanonItems(f, items);
      }
      st2 := WithItems(d, i, st1, CanonItems(f, items));
      ReceivedAll(d, m, i, st);
    }
  }

  /** The entries of array `i` in a message. */
  function Entries(d: Desc, m: Message, i: nat): (items: seq<Value>)
    requires Shaped(d, m, true) && i < |d.fields| && d.fields[i].htype.Repeated?
    ensures forall k | 0 <= k < |items| :: ValueOk(d.fields[i], items[k], true)
    ensures |items| <= PB_SIZE_MAX || d.fields[i].FixedCount()
    ensures d.fields[i].FixedCount() ==> |items| == d.fields[i].arraySize
  {
    assert SlotOk(d.fields[i], SlotOf(d, m, i, true), true);
    SlotOf(d, m, i, true).items
  }

  /** The array is entered with nothing received. */
  lemma NothingReceived(d: Desc, m: Message, i: nat, st: DecodeState)
    requires WellFormed(d) && Shaped(d, m, true) && i < |d.fields| && Reached(d, m, i, st)
    requires d.fields[i].htype.Repeated? && Entries(d, m, i) != []
    ensures EnterArray(d, i, st).Some? && Items(d, i, EnterArray(d, i, st).value) == []
  {
    CanonPending(d, m, i);
  }

  lemma ReceivedAll(d: Desc, m: Message, i: nat, st: DecodeState)
    requires WellFormed(d) && Shaped(d, m, true) && i < |d.fields| && Reached(d, m, i, st)
    requires d.fields[i].htype.Repeated? && Entries(d, m, i) != [] && EnterArray(d, i, st).Some?
    requires var items := CanonItems(d.fields[i], Entries(d, m, i));
             |items| <= PB_SIZE_MAX && forall k | 0 <= k < |items| :: ValueOk(d.fields[i], items[k], false)
    ensures Reached(d, m, i + 1, WithItems(d, i, EnterArray(d, i, st).value, CanonItems(d.fields[i], Entries(d, m, i))))
  {
    StoredAll(d, m, i, EnterArray(d, i, st).value);
    ReachedNext(d, m, i, st, WithItems(d, i, EnterArray(d, i, st).value, CanonItems(d.fields[i], Entries(d, m, i))));
  }

  lemma StoredAll(d: Desc, m: Message, i: nat, st: DecodeState)
    requires WellFormed(d) && Shaped(d, m, true) && Entered(d, i, st)
    requires d.fields[i].htype.Repeated? && Entries(d, m, i) != []
    requires var items := CanonItems(d.fields[i], Entries(d, m, i));
             |items| <= PB_SIZE_MAX && forall k | 0 <= k < |items| :: ValueOk(d.fields[i], items[k], false)
    ensures SlotIndex(d.fields, i) < |st.msg|
    ensures var f, slot := d.fields[i], SlotOf(d, m, i, true);
            var st2 := WithItems(d, i, st, CanonItems(f, Entries(d, m, i)));
            && Present(f, slot) && st2.msg == st.msg[SlotIndex(d.fields, i) := CanonSlot(f, slot)]
            && st2.fixedField == st.fixedField && st2.seen == st.seen
            && st2.fixedCount == if f.FixedCount() then f.arraySize else st.fixedCount
  {
    var f := d.fields[i];
    var items := CanonItems(f, Entries(d, m, i));
    SlotInBounds(d, i);
    if f.FixedCount() {
      assert items + SlotOf(d, st.msg, i, false).items[|items|..] == items;
    }
  }

  lemma {:induction false} PackedRoundTrip(d: Desc, i: nat, items: seq<Value>, tail: Bytes, st: DecodeState)
    requires WellFormed(d) && StateOk(d, st) && i < |d.fields| && d.fields[i].htype.Repeated? && d.fields[i].Packable()
    requires items != [] && forall k | 0 <= k < |items| :: ValueOk(d.fields[i], items[k], true)
    requires var e := EncodeArray(d.fields[i], items); e.Some? && |e.value| < TWO_32
    requires EnterArray(d, i, st).Some? && Items(d, i, EnterArray(d, i, st).value) == []
    ensures var f := d.fields[i];
            && |CanonItems(f, items)| <= PB_SIZE_MAX
            && (forall k | 0 <= k < |items| :: ValueOk(f, CanonItems(f, items)[k], false))
            && FitsItems(f, items)
            && (f.FixedCount() ==> |items| <= f.arraySize)
            && DecodeLoop(d, EncodeArray(f, items).value + tail, st)
               == DecodeLoop(d, tail, WithItems(d, i, EnterArray(d, i, st).value, CanonItems(f, items)))
  {
    var f := d.fields[i];
    assert WellFormedField(f);
    var es := Encoded(f, items);
    assert EncodeArray(f, items).value == PackedRecord(f, es);
    PackedStep(d, i, es, tail, st);
    assert [] + Values(es) == Values(es);
    assert CanonItems(f, items) == Values(es);
  }

  /** Each scalar with the bytes it was written as. */
  lemma {:induction false} Encoded(f: Field, items: seq<Value>) returns (es: seq<Entry>)
    requires WellFormedField(f) && f.Packable() && forall k | 0 <= k < |items| :: ValueOk(f, items[k], true)
    requires EncodeValues(f, items).Some? && |EncodeValues(f, items).value| < TWO_32
    ensures AreEntries(f, es) && Values(es) == items && Concat(es) == EncodeValues(f, items).value
  {
    if items == [] {
      es := [];
    } else {
      var e := EncodeValue(f, items[0]).value;
      ScalarRoundTrip(f, items[0], []);
      assert e + [] == e;
      var rest := Encoded(f, items[1..]);
      es := [Entry(e, items[0])] + rest;
      assert es[1..] == rest;
    }
  }

  lemma FirstRecordEnters(d: Desc, i: nat, items: seq<Value>, tail: Bytes, st: DecodeState)
    requires WellFormed(d) && StateOk(d, st) && i < |d.fields| && d.fields[i].htype.Repeated?
    requires items != [] && forall k | 0 <= k < |items| :: ValueOk(d.fields[i], items[k], true)
    requires EncodeRecords(d.fields[i], items).Some? && EnterArray(d, i, st).Some?
    ensures DecodeLoop(d, EncodeRecords(d.fields[i], items).value + tail, st)
            == DecodeLoop(d, EncodeRecords(d.fields[i], items).value + tail, EnterArray(d, i, st).value)
  {
    var f := d.fields[i];
    var rest := EncodeRecords(f, items[1..]).value + tail;
    FirstOfEncoded(f, items, tail);
    RecordBytes(f, items[0], rest);
    EnterSame(d, i, WireType(f.ltype), EncodeValue(f, items[0]).value + rest, st);
  }

  lemma FirstOfEncoded(f: Field, items: seq<Value>, tail: Bytes)
    requires items != [] && forall k | 0 <= k < |items| :: ValueOk(f, items[k], true)
    requires EncodeRecords(f, items).Some?
    ensures EncodeRecord(f, items[0]).Some? && EncodeRecords(f, items[1..]).Some?
    ensures EncodeRecords(f, items).value + tail
            == EncodeRecord(f, items[0]).value + (EncodeRecords(f, items[1..]).value + tail)
    ensures |EncodeRecord(f, items[0]).value| + |EncodeRecords(f, items[1..]).value| == |EncodeRecords(f, items).value|
  {
    var e, es := EncodeRecord(f, items[0]).value, EncodeRecords(f, items[1..]).value;
    assert EncodeRecords(f, items).value == e + es;
    assert (e + es) + tail == e + (es + tail);
  }

  lemma FirstOfCanon(f: Field, items: seq<Value>)
    requires items != [] && forall k | 0 <= k < |items| :: ValueOk(f, items[k], true)
    ensures CanonItems(f, items) == [CanonValue(f, items[0])] + CanonItems(f, items[1..])
    ensures FitsItems(f, items) == (FitsValue(f, items[0]) && FitsItems(f, items[1..]))
  {
    hide ValueOk, FitsValue, CanonValue;
    assert items == [items[0]] + items[1..];
  }

  lemma {:induction false} RecordsRoundTrip(d: Desc, i: nat, items: seq<Value>, tail: Bytes, st: DecodeState)
    requires WellFormed(d) && Entered(d, i, st) && d.fields[i].htype.Repeated? && !d.fields[i].Packable()
    requires forall k | 0 <= k < |items| :: ValueOk(d.fields[i], items[k], true)
    requires var e := EncodeRecords(d.fields[i], items); e.Some? && |e.value| < TWO_32
    requires |Items(d, i, st)| + |items| <= d.fields[i].arraySize <= PB_SIZE_MAX
    ensures var f := d.fields[i];
            var loop := DecodeLoop(d, EncodeRecords(f, items).value + tail, st);
            if FitsItems(f, items)
            then && (forall k | 0 <= k < |items| :: ValueOk(f, CanonItems(f, items)[k], false))
                 && loop == DecodeLoop(d, tail, Receive(d, i, st, CanonItems(f, items)))
            else loop.None?
    decreases d, 0, 2 + |items|
  {
    var f := d.fields[i];
    if items == [] {
      assert EncodeRecords(f, items).value + tail == tail;
    } else {
      FirstOfEncoded(f, items, tail);
      FirstOfCanon(f, items);
      RecordRoundTrip(d, i, items[0], EncodeRecords(f, items[1..]).value + tail, st);
      if FitsValue(f, items[0]) {
        RecordsRoundTrip(d, i, items[1..], tail, WithItems(d, i, st, Items(d, i, st) + [CanonValue(f, items[0])]));
        assert CanonItems(f, items)[1..] == CanonItems(f, items[1..]);
      }
    }
  }

  lemma {:induction false} RecordRoundTrip(d: Desc, i: nat, v: Value, rest: Bytes, st: DecodeState)
    requires WellFormed(d) && Entered(d, i, st) && d.fields[i].htype.Repeated? && !d.fields[i].Packable()
    requires ValueOk(d.fields[i], v, true) && |Items(d, i, st)| < d.fields[i].arraySize <= PB_SIZE_MAX
    requires var e := EncodeRecord(d.fields[i], v); e.Some? && |e.value| < TWO_32
    ensures var f, got := d.fields[i], Items(d, i, st);
            var loop := DecodeLoop(d, EncodeRecord(f, v).value + rest, st);
            if FitsValue(f, v)
            then ValueOk(f, CanonValue(f, v), false) && loop == DecodeLoop(d, rest, WithItems(d, i, st, got + [CanonValue(f, v)]))
            else loop.None?
    decreases d, 0, 1
  {
    var f := d.fields[i];
    var e, wt := EncodeValue(f, v).value, WireType(f.ltype);
    RecordBytes(f, v, rest);
    LoopStep(d, i, EncodeRecord(f, v).value + rest, st, wt, e + rest);
    KnownRecord(d, i, v, rest, st);
  }

  lemma RecordBytes(f: Field, v: Value, rest: Bytes)
    requires ValueOk(f, v, true) && EncodeRecord(f, v).Some?
    ensures EncodeValue(f, v).Some? && |EncodeValue(f, v).value| <= |EncodeRecord(f, v).value|
    ensures EncodeRecord(f, v).value + rest == Key(WireType(f.ltype), f.tag) + (EncodeValue(f, v).value + rest)
  {
  }

  lemma {:induction false} KnownRecord(d: Desc, i: nat, v: Value, rest: Bytes, st: DecodeState)
    requires WellFormed(d) && Entered(d, i, st) && d.fields[i].htype.Repeated? && !d.fields[i].Packable()
    requires ValueOk(d.fields[i], v, true) && |Items(d, i, st)| < d.fields[i].arraySize <= PB_SIZE_MAX
    requires var e := EncodeValue(d.fields[i], v); e.Some? && |e.value| < TWO_32
    ensures var f, got := d.fields[i], Items(d, i, st);
            var known := DecodeKnown(d, i, WireType(f.ltype), EncodeValue(f, v).value + rest, st);
            if FitsValue(f, v)
            then ValueOk(f, CanonValue(f, v), false) && known == Some((WithItems(d, i, st, got + [CanonValue(f, v)]), rest))
            else known.None?
    decreases d, 0, 0
  {
    var f, got := d.fields[i], Items(d, i, st);
    assert WellFormedField(f);
    ValueRoundTrip(f, v, rest, Undefined);
    assert EnterArray(d, i, st) == Some(st);
    assert DecodeArray(f, WireType(f.ltype), EncodeValue(f, v).value + rest, got)
           == if FitsValue(f, v) then Some((got + [CanonValue(f, v)], rest)) else None;
  }
}
