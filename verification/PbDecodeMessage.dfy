/** The message level of pb_decode.c: default values, the field dispatch, the
    main loop with its bookkeeping, and the checks after it. */
module PbDecodeMessage {
  import opened Wrappers
  import opened Bits
  import opened PbVarint
  import opened PbModel
  import opened PbEncoding
  import opened PbDecoding
  import opened PbCommon
  import opened PbStream
  import opened PbDecode

  /** The memory of a message struct. */
  class Struct {
    var slots: Message

    constructor (slots: Message)
      ensures this.slots == slots
    {
      this.slots := slots;
    }
  }

  // ---------------------------------------------------------------------
  // Default values
  // ---------------------------------------------------------------------

  /** pb_message_set_to_defaults, over whatever the memory held before. */
  method SetToDefaults(d: Desc, dest: Struct)
    requires WellFormed(d) && |dest.slots| == SlotCount(d)
    modifies dest
    ensures dest.slots == Defaults(d)
    decreases d, 1
  {
    hide DefaultsUpTo, DefaultSlot;
    TagsPositive(d);
    var iter := new FieldIter(d.fields, 0);
    if FieldAt(d.fields, iter.pos).tag == 0 { return; }
    var more := true;
    ghost var i := 0;
    while more
      invariant iter.Valid() && iter.fields == d.fields && fresh(iter)
      invariant 0 <= i <= |d.fields| && (more ==> i == iter.pos < |d.fields|) && (!more ==> i == |d.fields|)
      invariant |dest.slots| == SlotCount(d) && DefaultsUpTo(d, i) <= dest.slots
      decreases |d.fields| - i
    {
      DefaultsGrow(d, dest.slots, i);
      assert WellFormedField(d.fields[iter.pos]);
      var slot := FieldDefault(d.fields[iter.pos]);
      dest.slots := dest.slots[SlotIndex(d.fields, iter.pos) := slot];
      more := iter.Next();
      i := i + 1;
    }
  }

  lemma DefaultsGrow(d: Desc, m: Message, i: nat)
    requires i < |d.fields| && |m| == SlotCount(d) && DefaultsUpTo(d, i) <= m
    ensures SlotIndex(d.fields, i) < |m|
    ensures DefaultsUpTo(d, i + 1) <= m[SlotIndex(d.fields, i) := DefaultSlot(d.fields[i])]
  {
    SlotInBounds(d, i);
    DefaultsAt(d, i + 1, i);
  }

  /** pb_field_set_to_default. */
  method FieldDefault(f: Field) returns (slot: Slot)
    requires WellFormedField(f)
    ensures slot == DefaultSlot(f)
    decreases f, 0
  {
    if f.htype.Repeated? {
      return if f.sizeOffset == 0 then FixedMany(seq(f.arraySize, _ => Undefined)) else Many([]);
    }
    if f.htype.OneOf? { return Union(0, Undefined); }
    var v;
    if f.ltype.LSubMessage? {
      var sub := new Struct(seq(SlotCount(f.ltype.desc), _ => One(Undefined)));
      SetToDefaults(f.ltype.desc, sub);
      v := VMessage(sub.slots);
    } else if f.initial.Some? {
      v := f.initial.value;
    } else {
      v := ZeroValue(f);
    }
    return if f.htype.Optional? && f.sizeOffset != 0 then Maybe(false, v) else One(v);
  }

  /** memset(pData, 0, data_size), seen through the type of the field. */
  function ZeroValue(f: Field): Value
    requires !f.ltype.LSubMessage?
  {
    match f.ltype
    case LBool => VBool(false)
    case LBytes => VBytes([])
    case LString => VBytes([])
    case LFixedBytes => VBytes(Zeros(f.dataSize))
    case _ => VInt(0)
  }

  // ---------------------------------------------------------------------
  // The bitmap of required fields
  // ---------------------------------------------------------------------

  /** The two words of fields_seen hold exactly the set `seen`. */
  ghost predicate SeenWords(w0: nat, w1: nat, seen: set<nat>) {
    WordHolds(w0, 0, seen) && WordHolds(w1, 32, seen) && forall r | r in seen :: r < PB_MAX_REQUIRED_FIELDS
  }

  ghost predicate WordHolds(w: nat, base: nat, seen: set<nat>) {
    w < TWO_32 && forall r: nat | base <= r < base + 32 :: r in seen <==> Bit(w, r - base)
  }

  /** No bit at or above the number of required fields is ever set. */
  ghost predicate SeenBelow(d: Desc, seen: set<nat>) {
    d.fields != [] ==> forall r | r in seen :: r < RequiredBefore(d.fields, |d.fields|)
  }

  lemma NothingSeen()
    ensures SeenWords(0, 0, {})
  {
    forall r: nat | r < 32 ensures !Bit(0, r) { BitOfZero(r); }
  }

  lemma SetBit(w: nat, base: nat, seen: set<nat>, k: nat)
    requires WordHolds(w, base, seen) && k < 32
    ensures WordHolds(Or(w, Shl32(1, k)), base, seen + {base + k})
  {
    hide Or, Bit, Pow2;
    assert Shl32(1, k) == Pow2(k) < TWO_32 by { Pow2Constants(); Pow2Below(k, 32); }
    assert Or(w, Pow2(k)) < TWO_32 by { Pow2Constants(); OrBound(w, Pow2(k), 32); }
    var or, seen' := Or(w, Pow2(k)), seen + {base + k};
    forall r: nat | base <= r < base + 32 ensures r in seen' <==> Bit(or, r - base) {
      BitOr(w, Pow2(k), r - base);
      BitPow2(k, r - base);
    }
  }

  lemma OtherWord(w: nat, base: nat, seen: set<nat>, r: nat)
    requires WordHolds(w, base, seen) && (r < base || r >= base + 32)
    ensures WordHolds(w, base, seen + {r})
  {
  }

  ghost predicate AllIn(seen: set<nat>, lo: nat, hi: nat) {
    forall r: nat | lo <= r < hi :: r in seen
  }

  /** A word without bits above the first `n` is complete just when it equals
      the mask of `n` ones. */
  lemma WordFull(w: nat, base: nat, seen: set<nat>, n: nat)
    requires WordHolds(w, base, seen) && n <= 32
    requires forall r | r in seen :: r < base + n || r >= base + 32
    ensures w == Pow2(n) - 1 <==> AllIn(seen, base, base + n)
  {
    hide Pow2, Bit;
    var mask: nat := Pow2(n) - 1;
    forall r: nat | r < 32 ensures Bit(mask, r) <==> r < n { BitOnes(n, r); }
    forall r: nat | r < 32 ensures Bit(w, r) <==> base + r in seen { assert base + r in seen <==> Bit(w, base + r - base); }
    if AllIn(seen, base, base + n) {
      assert Pow2(32) == TWO_32 by { Pow2Constants(); }
      if n < 32 { Pow2Below(n, 32); }
      forall k: nat | k < 32 ensures Bit(w, k) == Bit(mask, k) {
        assert base + k in seen <==> k < n;
      }
      BitsDetermine(w, mask, 32);
    } else {
      var r: nat :| base <= r < base + n && r !in seen;
      assert Bit(mask, r - base) && !Bit(w, r - base);
    }
  }

  /** allbits >> (32 - n). */
  lemma AllBitsShifted(n: nat)
    requires n <= 32
    ensures (TWO_32 - 1) / Pow2(32 - n) == Pow2(n) - 1
  {
    hide Pow2;
    assert Pow2(32) == TWO_32 by { Pow2Constants(); }
    Pow2Add(n, 32 - n);
    LowOnes(Pow2(n), Pow2(32 - n));
  }

  lemma LowOnes(p: nat, q: nat)
    requires p > 0 && q > 0
    ensures (p * q - 1) / q == p - 1
  {
    ModUnique((q - 1) + q * (p - 1), q, p - 1, q - 1);
    assert (q - 1) + q * (p - 1) == p * q - 1;
  }

  lemma {:induction false} RequiredMonotone(fs: seq<Field>, i: nat, j: nat)
    requires i <= j <= |fs|
    ensures RequiredBefore(fs, i) <= RequiredBefore(fs, j)
    decreases j
  {
    if i < j { RequiredMonotone(fs, i, j - 1); }
  }

  /** Marking a field keeps the bitmap below the number of required fields. */
  lemma MarkBelow(d: Desc, i: nat, seen: set<nat>)
    requires i < |d.fields| && SeenBelow(d, seen)
    ensures SeenBelow(d, MarkSeen(d, i, seen))
  {
    RequiredMonotone(d.fields, i + 1, |d.fields|);
  }

  /** fields_seen[index >> 5] |= 1 << (index & 31). */
  method SetSeen(fieldsSeen: array<nat>, index: nat, ghost seen: set<nat>)
    requires fieldsSeen.Length == 2 && SeenWords(fieldsSeen[0], fieldsSeen[1], seen) && index < PB_MAX_REQUIRED_FIELDS
    modifies fieldsSeen
    ensures SeenWords(fieldsSeen[0], fieldsSeen[1], seen + {index})
  {
    hide WordHolds, Or, Shl32;
    var k := index % 32;
    var tmp := Shl32(1, k);
    SetBit(fieldsSeen[index / 32], 32 * (index / 32), seen, k);
    OtherWord(fieldsSeen[1 - index / 32], 32 * (1 - index / 32), seen, index);
    fieldsSeen[index / 32] := Or(fieldsSeen[index / 32], tmp);
  }

  /** The word-by-word comparison at the end of pb_decode_noinit accepts exactly
      when every tracked required field was seen. */
  method CheckWords(fieldsSeen: array<nat>, count: nat, ghost seen: set<nat>) returns (ok: bool)
    requires fieldsSeen.Length == 2 && SeenWords(fieldsSeen[0], fieldsSeen[1], seen)
    requires 0 < count <= PB_MAX_REQUIRED_FIELDS && forall r | r in seen :: r < count
    ensures ok <==> AllIn(seen, 0, count)
  {
    hide WordHolds, Pow2, AllIn;
    var allbits := TWO_32 - 1;
    var whole, part := count / 32, count % 32;
    CountSplits(fieldsSeen[0], fieldsSeen[1], seen, count);
    AllBitsShifted(part);
    var i := 0;
    while i < whole
      invariant 0 <= i <= whole
      invariant forall k | 0 <= k < i :: fieldsSeen[k] == allbits
    {
      if fieldsSeen[i] != allbits { return false; }
      i := i + 1;
    }
    if part != 0 && fieldsSeen[whole] != allbits / Pow2(32 - part) { return false; }
    return true;
  }

  lemma CountSplits(w0: nat, w1: nat, seen: set<nat>, count: nat)
    requires SeenWords(w0, w1, seen) && count <= PB_MAX_REQUIRED_FIELDS && forall r | r in seen :: r < count
    ensures AllIn(seen, 0, count) <==>
            && (if count < 32 then w0 == Pow2(count) - 1 else w0 == TWO_32 - 1)
            && (32 < count < 64 ==> w1 == Pow2(count - 32) - 1)
            && (count == 64 ==> w1 == TWO_32 - 1)
  {
    hide Pow2, WordHolds;
    assert Pow2(32) == TWO_32 by { Pow2Constants(); }
    if count < 32 {
      WordFull(w0, 0, seen, count);
    } else {
      WordFull(w0, 0, seen, 32);
      WordFull(w1, 32, seen, count - 32);
      assert AllIn(seen, 0, count) == (AllIn(seen, 0, 32) && AllIn(seen, 32, count));
    }
  }

  /** The check that all required fields were present, from wherever the
      iterator happens to be. */
  method CheckRequired(iter: FieldIter, fieldsSeen: array<nat>, d: Desc, ghost seen: set<nat>) returns (ok: bool)
    requires iter.Placed() && iter.fields == d.fields && forall i | 0 <= i < |d.fields| :: d.fields[i].tag > 0
    requires fieldsSeen.Length == 2 && SeenWords(fieldsSeen[0], fieldsSeen[1], seen) && SeenBelow(d, seen)
    modifies iter
    ensures ok <==> RequiredSeen(d, seen)
  {
    hide SeenWords;
    var reqFieldCount: nat, lastRequired := 0, false;
    var more := true;
    ghost var n := |d.fields|;
    while more
      invariant iter.Placed() && iter.fields == d.fields
      invariant !more && n > 0 ==> iter.pos == 0 && reqFieldCount == RequiredBefore(d.fields, n - 1)
                                   && lastRequired == d.fields[n - 1].htype.Required?
      invariant !more && n == 0 ==> reqFieldCount == 0
      decreases if more then n - iter.pos + 1 else 0
    {
      reqFieldCount := iter.requiredFieldIndex;
      lastRequired := FieldAt(d.fields, iter.pos).htype.Required?;
      more := iter.Next();
    }
    // Fixup if last field was also required.
    if lastRequired && FieldAt(d.fields, iter.pos).tag != 0 { reqFieldCount := reqFieldCount + 1; }
    assert reqFieldCount == RequiredBefore(d.fields, n);
    if reqFieldCount > PB_MAX_REQUIRED_FIELDS { reqFieldCount := PB_MAX_REQUIRED_FIELDS; }
    if reqFieldCount == 0 { return true; }
    assert forall r | r in seen :: r < reqFieldCount by { SeenInRange(d, fieldsSeen[0], fieldsSeen[1], seen); }
    ok := CheckWords(fieldsSeen, reqFieldCount, seen);
  }

  lemma SeenInRange(d: Desc, w0: nat, w1: nat, seen: set<nat>)
    requires SeenWords(w0, w1, seen)
    ensures forall r | r in seen :: r < PB_MAX_REQUIRED_FIELDS
  {
  }

  // ---------------------------------------------------------------------
  // Fields
  // ---------------------------------------------------------------------

  /** pb_dec_submessage. The struct is decoded in memory of its own, which then
      replaces the value. */
  method DecSubmessage(stream: IStream, f: Field, prior: Value) returns (ok: bool, v: Value)
    requires stream.Valid() && WellFormedField(f) && f.ltype.LSubMessage?
    requires !f.htype.Repeated? ==> ValueOk(f, prior, false)
    modifies stream
    ensures stream.Valid() && stream.End() <= old(stream.End()) && (ok ==> stream.End() == old(stream.End()))
    ensures DecodeValue(f, old(stream.Rest()), prior) == Outcome(ok, v, stream.Rest())
    decreases f, 0
  {
    hide Shaped, WellFormed;
    var d := f.ltype.desc;
    ghost var bs := stream.Rest();
    SubmessageStep(f, bs, prior);
    var substream;
    ok, substream := MakeSubstream(stream);
    if !ok { return false, Undefined; }
    ghost var end, rest := substream.End(), stream.From(substream.End());
    var status;
    status, v := DecInSubstream(substream, f, prior);
    assert stream.From(end) == rest;
    ok := CloseSubstream(stream, substream);
    return status, v;
  }

  lemma SubmessageStep(f: Field, bs: Bytes, prior: Value)
    requires WellFormedField(f) && f.ltype.LSubMessage? && (!f.htype.Repeated? ==> ValueOk(f, prior, false))
    ensures var d := f.ltype.desc;
            WellFormed(d) && Shaped(d, Defaults(d), false) && (!f.htype.Repeated? ==> Shaped(d, prior.slots, false))
    ensures var d := f.ltype.desc;
            DecodeValue(f, bs, prior) ==
            match Substream(bs)
            case None => None
            case Some((sub, rest)) =>
              match DecodeMessage(d, sub, if f.htype.Repeated? then Defaults(d) else prior.slots)
              case None => None
              case Some((m, _)) => Some((VMessage(m), rest))
  {
    DefaultsShaped(f.ltype.desc);
  }

  /** New array entries are initialized; other submessages have been already. */
  method DecInSubstream(substream: IStream, f: Field, prior: Value) returns (ok: bool, v: Value)
    requires substream.Valid() && WellFormedField(f) && f.ltype.LSubMessage?
    requires WellFormed(f.ltype.desc) && Shaped(f.ltype.desc, Defaults(f.ltype.desc), false)
    requires !f.htype.Repeated? ==> prior.VMessage? && Shaped(f.ltype.desc, prior.slots, false)
    modifies substream
    ensures substream.Valid() && substream.End() <= old(substream.End()) && (ok ==> substream.End() == old(substream.End()))
    ensures var m := if f.htype.Repeated? then Defaults(f.ltype.desc) else prior.slots;
            var r := DecodeMessage(f.ltype.desc, old(substream.Rest()), m);
            (ok <==> r.Some?) && (ok ==> v == VMessage(r.value.0))
    decreases f.ltype.desc, 6
  {
    hide Shaped, WellFormed;
    var d := f.ltype.desc;
    var dest := new Struct(if f.htype.Repeated? then seq(SlotCount(d), _ => One(Undefined)) else prior.slots);
    if f.htype.Repeated? {
      ok := Decode(substream, d, dest);
    } else {
      ok := DecodeNoinit(substream, d, dest);
    }
    return ok, VMessage(dest.slots);
  }

  /** func(stream, field, pData). */
  method DecValue(stream: IStream, f: Field, prior: Value) returns (ok: bool, v: Value)
    requires stream.Valid() && WellFormedField(f)
    requires f.ltype.LSubMessage? && !f.htype.Repeated? ==> ValueOk(f, prior, false)
    modifies stream
    ensures stream.Valid() && stream.End() <= old(stream.End()) && (ok ==> stream.End() == old(stream.End()))
    ensures DecodeValue(f, old(stream.Rest()), prior) == Outcome(ok, v, stream.Rest())
    decreases f, 1
  {
    if f.ltype.LSubMessage? {
      ok, v := DecSubmessage(stream, f, prior);
    } else {
      ok, v := DecScalar(stream, f);
    }
  }

  /** The packed case of decode_static_field. */
  method DecPacked(stream: IStream, f: Field, got: seq<Value>) returns (ok: bool, items: seq<Value>)
    requires stream.Valid() && WellFormedField(f) && f.htype.Repeated? && f.Packable()
    requires |got| <= PB_SIZE_MAX && forall k | 0 <= k < |got| :: ValueOk(f, got[k], false)
    modifies stream
    ensures stream.Valid() && stream.End() <= old(stream.End()) && (ok ==> stream.End() == old(stream.End()))
    ensures DecodeArray(f, WT_STRING, old(stream.Rest()), got) == Outcome(ok, items, stream.Rest())
  {
    hide WellFormedField, ValueOk, DecodePacked;
    var substream;
    ok, substream := MakeSubstream(stream);
    if !ok { return false, got; }
    ghost var end, rest := substream.End(), stream.From(substream.End());
    var status;
    status, items := DecEntries(substream, f, got);
    if substream.bytesLeft != 0 { return false, items; }
    assert stream.From(end) == rest;
    ok := CloseSubstream(stream, substream);
    return status, items;
  }

  /** Its loop over the entries, which stops at an error or a full array. */
  method DecEntries(substream: IStream, f: Field, got: seq<Value>) returns (status: bool, items: seq<Value>)
    requires substream.Valid() && WellFormedField(f) && f.htype.Repeated? && f.Packable()
    requires |got| <= PB_SIZE_MAX && forall k | 0 <= k < |got| :: ValueOk(f, got[k], false)
    modifies substream
    ensures substream.Valid() && substream.End() == old(substream.End())
    ensures DecodePacked(f, old(substream.Rest()), got) == if status && substream.bytesLeft == 0 then Some(items) else None
  {
    hide WellFormedField, ValueOk;
    ghost var all := DecodePacked(f, substream.Rest(), got);
    status, items := true, got;
    while substream.bytesLeft > 0 && |items| < f.arraySize
      invariant substream.Valid() && substream.End() == old(substream.End()) && status
      invariant |items| <= PB_SIZE_MAX && forall k | 0 <= k < |items| :: ValueOk(f, items[k], false)
      invariant all == DecodePacked(f, substream.Rest(), items)
      decreases substream.bytesLeft
    {
      PackedStep(f, substream.Rest(), items);
      var v;
      status, v := DecScalar(substream, f);
      if !status { return; }
      items := items + [v];
    }
  }

  lemma PackedStep(f: Field, bs: Bytes, got: seq<Value>)
    requires WellFormedField(f) && f.Packable() && bs != [] && |got| < f.arraySize
    requires |got| <= PB_SIZE_MAX && forall k | 0 <= k < |got| :: ValueOk(f, got[k], false)
    ensures |got| + 1 <= PB_SIZE_MAX
    ensures var r := DecodeScalar(f, bs);
            if r.None? then DecodePacked(f, bs, got) == None
            else |r.value.1| < |bs| && ValueOk(f, r.value.0, false)
                 && DecodePacked(f, bs, got) == DecodePacked(f, r.value.1, got + [r.value.0])
  {
    hide DecodeScalar;
  }

  /** The repeated case of decode_static_field. */
  method DecArray(stream: IStream, f: Field, wireType: nat, got: seq<Value>) returns (ok: bool, items: seq<Value>)
    requires stream.Valid() && WellFormedField(f) && f.htype.Repeated?
    requires |got| <= PB_SIZE_MAX && forall k | 0 <= k < |got| :: ValueOk(f, got[k], false)
    modifies stream
    ensures stream.Valid() && stream.End() <= old(stream.End()) && (ok ==> stream.End() == old(stream.End()))
    ensures DecodeArray(f, wireType, old(stream.Rest()), got) == Outcome(ok, items, stream.Rest())
    decreases f, 2
  {
    if wireType == WT_STRING && f.Packable() {
      ok, items := DecPacked(stream, f, got);
    } else {
      if |got| >= f.arraySize { return false, got; }
      var v;
      ok, v := DecValue(stream, f, Undefined);
      items := got + [v];
    }
  }

  /** decode_static_field but for its repeated case. */
  method DecSlot(stream: IStream, f: Field, s: Slot) returns (ok: bool, slot: Slot)
    requires stream.Valid() && WellFormedField(f) && SlotOk(f, s, false) && !f.htype.Repeated?
    modifies stream
    ensures stream.Valid() && stream.End() <= old(stream.End()) && (ok ==> stream.End() == old(stream.End()))
    ensures DecodeSlot(f, old(stream.Rest()), s) == Outcome(ok, slot, stream.Rest())
    decreases f, 2
  {
    DefaultValueOk(f);
    var v;
    if f.htype.Required? {
      ok, v := DecValue(stream, f, s.v);
      slot := One(v);
    } else if f.htype.Optional? {
      ok, v := DecValue(stream, f, s.v);
      slot := if f.sizeOffset != 0 then Maybe(true, v) else One(v);
    } else {
      v := Undefined;
      if f.ltype.LSubMessage? { v := FreshSubmessage(f); }
      DecodeValueIgnores(f, stream.Rest(), v, DefaultValue(f));
      ok, v := DecValue(stream, f, v);
      slot := Union(f.tag, v);
    }
  }

  /** What the memory of a union held before does not matter: a submessage is
      set to its defaults, and scalars are overwritten. */
  lemma DecodeValueIgnores(f: Field, bs: Bytes, v: Value, w: Value)
    requires WellFormedField(f) && (f.ltype.LSubMessage? ==> v == w && ValueOk(f, v, false))
    ensures DecodeValue(f, bs, v) == DecodeValue(f, bs, w)
  {
  }

  /** The memset and pb_message_set_to_defaults for a submessage in a union. */
  method FreshSubmessage(f: Field) returns (v: Value)
    requires WellFormedField(f) && f.ltype.LSubMessage?
    ensures v == DefaultValue(f)
  {
    var sub := new Struct(seq(SlotCount(f.ltype.desc), _ => One(Undefined)));
    SetToDefaults(f.ltype.desc, sub);
    return VMessage(sub.slots);
  }

  /** decode_static_field. `fixedCount` is the counter that pSize leads to when
      the array has none in the struct. */
  method DecodeStaticField(stream: IStream, wireType: nat, d: Desc, i: nat, dest: Struct, fixedCount: nat,
                           ghost st: DecodeState)
    returns (ok: bool, newCount: nat)
    requires stream.Valid() && WellFormed(d) && i < |d.fields| && StateOk(d, st)
    requires d.fields[i].htype.Repeated? ==> Entered(d, i, st)
    requires st.msg == dest.slots && st.fixedCount == fixedCount
    modifies stream, dest
    ensures stream.Valid() && stream.End() <= old(stream.End()) && (ok ==> stream.End() == old(stream.End()))
    ensures d.fields[i].htype.Repeated? ==>
              DecodeEntries(d, i, wireType, old(stream.Rest()), st)
              == Outcome(ok, st.(msg := dest.slots, fixedCount := newCount), stream.Rest())
    ensures !d.fields[i].htype.Repeated? ==>
              DecodeSingle(d, i, old(stream.Rest()), st)
              == Outcome(ok, st.(msg := dest.slots, seen := MarkSeen(d, i, st.seen)), stream.Rest())
    ensures !d.fields[i].htype.Repeated? ==> newCount == fixedCount
    decreases d, 0
  {
    var f := d.fields[i];
    assert WellFormedField(f);
    SlotInBounds(d, i);
    newCount := fixedCount;
    if f.htype.Repeated? {
      var stored := SlotOf(d, dest.slots, i, false).items;
      var got := if f.FixedCount() then stored[..fixedCount] else stored;
      assert got == Items(d, i, st);
      var items;
      ok, items := DecArray(stream, f, wireType, got);
      if !ok { return; }
      if f.FixedCount() { newCount := |items|; }
      var slot := if f.FixedCount() then FixedMany(items + stored[|items|..]) else Many(items);
      dest.slots := dest.slots[SlotIndex(d.fields, i) := slot];
    } else {
      var slot;
      ok, slot := DecSlot(stream, f, SlotOf(d, dest.slots, i, false));
      if !ok { return; }
      dest.slots := dest.slots[SlotIndex(d.fields, i) := slot];
    }
  }

  /** The bookkeeping for a field that was found: a fixed-count array gets the
      counter, and a required field its bit. */
  method TrackField(d: Desc, iter: FieldIter, fieldsSeen: array<nat>, fixedField: Option<nat>, fixedCount: nat,
                    ghost st: DecodeState)
    returns (ok: bool, newField: Option<nat>, newCount: nat)
    requires WellFormed(d) && StateOk(d, st) && st.fixedField == fixedField && st.fixedCount == fixedCount
    requires iter.Placed() && iter.fields == d.fields && iter.pos < |d.fields| && (iter.Valid() || fixedField == Some(iter.pos))
    requires fieldsSeen.Length == 2 && SeenWords(fieldsSeen[0], fieldsSeen[1], st.seen) && SeenBelow(d, st.seen)
    modifies iter`pSize, fieldsSeen
    ensures ok == EnterArray(d, iter.pos, st).Some?
    ensures ok ==> EnterArray(d, iter.pos, st) == Some(st.(fixedField := newField, fixedCount := newCount))
    ensures ok ==> var seen := MarkSeen(d, iter.pos, st.seen);
                   SeenWords(fieldsSeen[0], fieldsSeen[1], seen) && SeenBelow(d, seen)
    ensures iter.Placed() && (ok ==> iter.Valid() || newField == Some(iter.pos))
  {
    hide Shaped, WellFormed, SeenWords, SeenBelow;
    var f := d.fields[iter.pos];
    newField, newCount := fixedField, fixedCount;
    if f.htype.Repeated? && iter.pSize == iter.pData {
      if newField != Some(iter.pos) {
        if newField.Some? && newCount != d.fields[newField.value].arraySize { return false, newField, newCount; }
        newField := Some(iter.pos);
        newCount := 0;
      }
      iter.pSize := COUNTER;
    }
    if f.htype.Required? && iter.requiredFieldIndex < PB_MAX_REQUIRED_FIELDS {
      SetSeen(fieldsSeen, iter.requiredFieldIndex, st.seen);
    }
    MarkBelow(d, iter.pos, st.seen);
    return true, newField, newCount;
  }

  /** The local variables of the main loop stand for the state `st`. */
  ghost predicate InLoop(d: Desc, iter: FieldIter, dest: Struct, fieldsSeen: array<nat>,
                         fixedField: Option<nat>, fixedCount: nat, st: DecodeState)
    reads iter, dest, fieldsSeen
  {
    && iter.Placed() && iter.fields == d.fields && (iter.Valid() || fixedField == Some(iter.pos))
    && st.msg == dest.slots && st.fixedField == fixedField && st.fixedCount == fixedCount
    && fieldsSeen.Length == 2 && SeenWords(fieldsSeen[0], fieldsSeen[1], st.seen) && SeenBelow(d, st.seen)
  }

  /** The part of the main loop for a field that was found. */
  method DecodeFound(stream: IStream, wireType: nat, d: Desc, iter: FieldIter, dest: Struct, fieldsSeen: array<nat>,
                     fixedField: Option<nat>, fixedCount: nat, ghost st: DecodeState)
    returns (ok: bool, newField: Option<nat>, newCount: nat, ghost st2: DecodeState)
    requires stream.Valid() && WellFormed(d) && StateOk(d, st) && iter.pos < |d.fields|
    requires InLoop(d, iter, dest, fieldsSeen, fixedField, fixedCount, st)
    modifies stream, dest, iter`pSize, fieldsSeen
    ensures stream.Valid() && stream.End() <= old(stream.End()) && (ok ==> stream.End() == old(stream.End()))
    ensures DecodeKnown(d, iter.pos, wireType, old(stream.Rest()), st) == Outcome(ok, st2, stream.Rest())
    ensures ok ==> InLoop(d, iter, dest, fieldsSeen, newField, newCount, st2)
    decreases d, 1
  {
    hide Shaped, WellFormed, SeenWords, SeenBelow;
    var i := iter.pos;
    st2 := st;
    ok, newField, newCount := TrackField(d, iter, fieldsSeen, fixedField, fixedCount, st);
    KnownIs(d, i, wireType, stream.Rest(), st);
    if !ok { return; }
    ghost var st1 := st.(fixedField := newField, fixedCount := newCount);
    ok, newCount := DecodeStaticField(stream, wireType, d, i, dest, newCount, st1);
    st2 := st1.(msg := dest.slots, fixedCount := newCount, seen := MarkSeen(d, i, st.seen));
  }

  /** DecodeKnown with the order of steps of the main loop. */
  lemma KnownIs(d: Desc, i: nat, wireType: nat, bs: Bytes, st: DecodeState)
    requires WellFormed(d) && StateOk(d, st) && i < |d.fields|
    ensures var entered := EnterArray(d, i, st);
            match entered
            case None => DecodeKnown(d, i, wireType, bs, st) == None
            case Some(st1) =>
              && StateOk(d, st1) && st1.msg == st.msg && st1.seen == st.seen
              && if d.fields[i].htype.Repeated?
                 then Entered(d, i, st1) && MarkSeen(d, i, st.seen) == st.seen
                      && DecodeKnown(d, i, wireType, bs, st) == DecodeEntries(d, i, wireType, bs, st1)
                 else st1 == st && DecodeKnown(d, i, wireType, bs, st) == DecodeSingle(d, i, bs, st1)
  {
  }

  // ---------------------------------------------------------------------
  // Messages
  // ---------------------------------------------------------------------

  /** The main loop after a key: find the field, and decode or skip it. On the
      terminator of an empty descriptor, which tag 0 finds, the decoder goes on
      as for a required bool at the start of the struct. */
  method HandleRecord(stream: IStream, wireType: nat, tag: nat, d: Desc, iter: FieldIter, dest: Struct,
                      fieldsSeen: array<nat>, fixedField: Option<nat>, fixedCount: nat, ghost st: DecodeState)
    returns (ok: bool, newField: Option<nat>, newCount: nat, ghost st2: DecodeState)
    requires stream.Valid() && WellFormed(d) && StateOk(d, st) && forall i | 0 <= i < |d.fields| :: d.fields[i].tag > 0
    requires InLoop(d, iter, dest, fieldsSeen, fixedField, fixedCount, st)
    modifies stream, dest, iter, fieldsSeen
    ensures stream.Valid() && stream.End() <= old(stream.End()) && (ok ==> stream.End() == old(stream.End()))
    ensures DecodeRecord(d, tag, wireType, old(stream.Rest()), st) == Outcome(ok, st2, stream.Rest())
    ensures ok ==> InLoop(d, iter, dest, fieldsSeen, newField, newCount, st2)
    decreases d, 2
  {
    hide Shaped, WellFormed, SeenWords;
    newField, newCount, st2 := fixedField, fixedCount, st;
    var found, _ := iter.Find(tag);
    RecordIs(d, tag, wireType, stream.Rest(), st);
    if !found {
      ok := SkipOver(stream, wireType);
    } else if iter.pos == |d.fields| {
      SetSeen(fieldsSeen, iter.requiredFieldIndex, st.seen);
      st2 := st.(seen := st.seen + {0});
      var lost;
      ok, lost := ReadVarint32(stream);
    } else {
      ok, newField, newCount, st2 := DecodeFound(stream, wireType, d, iter, dest, fieldsSeen, fixedField, fixedCount, st);
    }
  }

  lemma RecordIs(d: Desc, tag: nat, wireType: nat, bs: Bytes, st: DecodeState)
    requires WellFormed(d) && StateOk(d, st)
    ensures (forall i | 0 <= i < |d.fields| :: d.fields[i].tag != tag) && !(d.fields == [] && tag == 0) ==>
              DecodeRecord(d, tag, wireType, bs, st) ==
              match SkipField(wireType, bs) case None => None case Some(rest) => Some((st, rest))
    ensures forall i {:trigger d.fields[i]} | 0 <= i < |d.fields| && d.fields[i].tag == tag ::
              DecodeRecord(d, tag, wireType, bs, st) == DecodeKnown(d, i, wireType, bs, st)
    ensures d.fields == [] && tag == 0 ==>
              DecodeRecord(d, tag, wireType, bs, st) ==
              match Varint32(bs) case None => None case Some((_, rest)) => Some((st.(seen := st.seen + {0}), rest))
  {
    forall i | 0 <= i < |d.fields| && d.fields[i].tag == tag
      ensures DecodeRecord(d, tag, wireType, bs, st) == DecodeKnown(d, i, wireType, bs, st)
    {
      TagFindsField(d.fields, i);
    }
  }

  /** The main loop of pb_decode_noinit. */
  method DecodeFields(stream: IStream, d: Desc, iter: FieldIter, dest: Struct, fieldsSeen: array<nat>)
    returns (ok: bool, fixedField: Option<nat>, fixedCount: nat, ghost st: DecodeState)
    requires stream.Valid() && WellFormed(d) && Shaped(d, dest.slots, false)
    requires forall i | 0 <= i < |d.fields| :: d.fields[i].tag > 0
    requires InLoop(d, iter, dest, fieldsSeen, None, 0, Start(dest.slots))
    modifies stream, dest, iter, fieldsSeen
    ensures stream.Valid() && stream.End() <= old(stream.End()) && (ok ==> stream.End() == old(stream.End()))
    ensures var end := DecodeLoop(d, old(stream.Rest()), Start(old(dest.slots)));
            (ok <==> end.Some?) && (ok ==> end.value.st == st && end.value.rest == stream.Rest())
    ensures ok ==> InLoop(d, iter, dest, fieldsSeen, fixedField, fixedCount, st)
    decreases d, 3
  {
    hide Varint32, SlotIndex, SlotOk, SlotCount, ValueOk;
    hide Shaped, WellFormed, InLoop, StateOk, DecodeLoop, DecodeRecord;
    StartOk(d, dest.slots);
    fixedField, fixedCount, st := None, 0, Start(dest.slots);
    ghost var end := DecodeLoop(d, stream.Rest(), st);
    while stream.bytesLeft > 0
      invariant stream.Valid() && stream.End() == old(stream.End()) && StateOk(d, st)
      invariant InLoop(d, iter, dest, fieldsSeen, fixedField, fixedCount, st)
      invariant end == DecodeLoop(d, stream.Rest(), st)
      decreases stream.bytesLeft
    {
      LoopIs(d, stream.Rest(), st);
      var keyOk, wireType, tag, eof := ReadTag(stream);
      if !keyOk {
        if eof { return true, fixedField, fixedCount, st; }
        return false, fixedField, fixedCount, st;
      }
      ok, fixedField, fixedCount, st :=
        HandleRecord(stream, wireType, tag, d, iter, dest, fieldsSeen, fixedField, fixedCount, st);
      if !ok { return; }
    }
    LoopIs(d, stream.Rest(), st);
    return true, fixedField, fixedCount, st;
  }

  lemma StartOk(d: Desc, m: Message)
    requires Shaped(d, m, false)
    ensures StateOk(d, Start(m))
  {
  }

  /** pb_decode_noinit. */
  method DecodeNoinit(stream: IStream, d: Desc, dest: Struct) returns (ok: bool)
    requires stream.Valid() && WellFormed(d) && Shaped(d, dest.slots, false)
    modifies stream, dest
    ensures stream.Valid() && stream.End() <= old(stream.End()) && (ok ==> stream.End() == old(stream.End()))
    ensures DecodeMessage(d, old(stream.Rest()), old(dest.slots)) == Outcome(ok, dest.slots, stream.Rest())
    decreases d, 4
  {
    hide Shaped, WellFormed, SeenWords;
    TagsPositive(d);
    var fieldsSeen := new nat[2];
    fieldsSeen[0], fieldsSeen[1] := 0, 0;
    NothingSeen();
    var iter := new FieldIter(d.fields, 0);
    var fixedField, fixedCount;
    ghost var st;
    ok, fixedField, fixedCount, st := DecodeFields(stream, d, iter, dest, fieldsSeen);
    if !ok { return; }
    if fixedField.Some? && fixedCount != d.fields[fixedField.value].arraySize { return false; }
    ok := CheckRequired(iter, fieldsSeen, d, st.seen);
  }

  /** pb_decode. */
  method Decode(stream: IStream, d: Desc, dest: Struct) returns (ok: bool)
    requires stream.Valid() && WellFormed(d) && |dest.slots| == SlotCount(d)
    modifies stream, dest
    ensures Shaped(d, Defaults(d), false)
    ensures stream.Valid() && stream.End() <= old(stream.End()) && (ok ==> stream.End() == old(stream.End()))
    ensures DecodeMessage(d, old(stream.Rest()), Defaults(d)) == Outcome(ok, dest.slots, stream.Rest())
    decreases d, 5
  {
    DefaultsShaped(d);
    SetToDefaults(d, dest);
    ok := DecodeNoinit(stream, d, dest);
  }
}
