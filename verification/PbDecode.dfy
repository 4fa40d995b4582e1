/** pb_decode.c as it works on a stream. Every method is tied to what
    PbDecoding says the bytes left in the stream decode to, and none reads past
    the end of its stream. */
module PbDecode {
  import opened Wrappers
  import opened Bits
  import opened PbVarint
  import opened PbModel
  import opened PbEncoding
  import opened PbDecoding
  import opened PbCommon
  import opened PbStream

  // ---------------------------------------------------------------------
  // Varints
  // ---------------------------------------------------------------------

  /** pb_decode_varint32_eof. `eof` says that there was no byte at all. */
  method ReadVarint32Eof(stream: IStream) returns (ok: bool, dest: nat, eof: bool)
    requires stream.Valid()
    modifies stream
    ensures stream.Valid() && stream.End() == old(stream.End())
    ensures eof == (old(stream.bytesLeft) == 0)
    ensures ok <==> Varint32(old(stream.Rest())).Some?
    ensures ok ==> Varint32(old(stream.Rest())) == Some((dest, stream.Rest())) && dest < TWO_32
  {
    hide Or, Pow2, Overflows32;
    ghost var bs := stream.Rest();
    Varint32Below(bs);
    var byte;
    ok, byte := stream.ReadByte();
    if !ok { return false, 0, true; }
    if byte < 0x80 { return true, byte, false; }
    var bitpos: nat, result: nat := 7, byte % 128;
    var more := true;
    while more
      invariant stream.Valid() && stream.End() == old(stream.End()) && bitpos < 256
      invariant more ==> Varint32(bs) == Varint32Loop(stream.Rest(), bitpos, result)
      invariant !more ==> Varint32(bs) == if bitpos == 35 && byte % 128 / 16 != 0 then None else Some((result, stream.Rest()))
      decreases stream.bytesLeft, more
    {
      ok, byte := stream.ReadByte();
      if !ok { return false, 0, false; }
      OverflowRefused(byte, bitpos, result);
      if bitpos >= 32 {
        var signExtension := if bitpos < 63 then 0xFF else 0x01;
        if byte % 128 != 0 && (result / TWO_31 == 0 || byte != signExtension) {
          return false, 0, false;
        }
      } else {
        result := Or(result, Shl32(byte % 128, bitpos));
      }
      bitpos := (bitpos + 7) % 256;
      more := byte >= 0x80;
    }
    if bitpos == 35 && byte % 128 / 16 != 0 { return false, 0, false; }
    return true, result, false;
  }

  lemma OverflowRefused(b: Byte, bitpos: nat, result: nat)
    ensures Overflows32(b, bitpos, result)
            <==> bitpos >= 32 && b % 128 != 0 && (result / TWO_31 == 0 || b != (if bitpos < 63 then 0xFF else 0x01))
  {
  }

  /** pb_decode_varint32. */
  method ReadVarint32(stream: IStream) returns (ok: bool, dest: nat)
    requires stream.Valid()
    modifies stream
    ensures stream.Valid() && stream.End() == old(stream.End())
    ensures ok <==> Varint32(old(stream.Rest())).Some?
    ensures ok ==> Varint32(old(stream.Rest())) == Some((dest, stream.Rest())) && dest < TWO_32
  {
    var eof;
    ok, dest, eof := ReadVarint32Eof(stream);
  }

  /** pb_decode_varint. */
  method ReadVarint(stream: IStream) returns (ok: bool, dest: nat)
    requires stream.Valid()
    modifies stream
    ensures stream.Valid() && stream.End() == old(stream.End())
    ensures ok <==> Varint64(old(stream.Rest())).Some?
    ensures ok ==> Varint64(old(stream.Rest())) == Some((dest, stream.Rest())) && dest < TWO_64
  {
    hide Or, Pow2;
    ghost var bs := stream.Rest();
    Varint64Below(bs);
    var bitpos: nat, result: nat := 0, 0;
    var more := true;
    while more
      invariant stream.Valid() && stream.End() == old(stream.End()) && bitpos <= 70
      invariant Varint64(bs) == if more then Varint64Loop(stream.Rest(), bitpos, result) else Some((result, stream.Rest()))
      decreases stream.bytesLeft, more
    {
      if bitpos >= 64 { return false, 0; }
      var byte;
      ok, byte := stream.ReadByte();
      if !ok { return false, 0; }
      result := Or(result, Shl64(byte % 128, bitpos));
      bitpos := (bitpos + 7) % 256;
      more := byte >= 0x80;
    }
    return true, result;
  }

  /** pb_decode_svarint. */
  method ReadSVarint(stream: IStream) returns (ok: bool, dest: int)
    requires stream.Valid()
    modifies stream
    ensures stream.Valid() && stream.End() == old(stream.End())
    ensures ok <==> Varint64(old(stream.Rest())).Some?
    ensures ok ==> var (n, rest) := Varint64(old(stream.Rest())).value;
                   n < TWO_64 && dest == UnZigZag(n) && stream.Rest() == rest
  {
    var value;
    ok, value := ReadVarint(stream);
    if !ok { return false, 0; }
    dest := if value % 2 == 1 then ToInt64(TWO_64 - 1 - value / 2) else ToInt64(value / 2);
  }

  /** pb_skip_varint. */
  method SkipVarint(stream: IStream) returns (ok: bool)
    requires stream.Valid()
    modifies stream
    ensures stream.Valid() && stream.End() == old(stream.End())
    ensures ok <==> SkipField(WT_VARINT, old(stream.Rest())).Some?
    ensures ok ==> SkipField(WT_VARINT, old(stream.Rest())) == Some(stream.Rest())
  {
    ghost var bs := stream.Rest();
    var buffer := new Byte[1];
    var more := true;
    while more
      invariant stream.Valid() && stream.End() == old(stream.End())
      invariant SkipField(WT_VARINT, bs) == if more then SkipField(WT_VARINT, stream.Rest()) else Some(stream.Rest())
      decreases stream.bytesLeft, more
    {
      ok := stream.Read(buffer, 1);
      if !ok { return false; }
      more := buffer[0] >= 0x80;
    }
    return true;
  }

  /** pb_skip_string. */
  method SkipString(stream: IStream) returns (ok: bool)
    requires stream.Valid()
    modifies stream
    ensures stream.Valid() && stream.End() == old(stream.End())
    ensures ok <==> SkipField(WT_STRING, old(stream.Rest())).Some?
    ensures ok ==> SkipField(WT_STRING, old(stream.Rest())) == Some(stream.Rest())
  {
    var length;
    ok, length := ReadVarint32(stream);
    if !ok { return false; }
    ok := stream.Skip(length);
  }

  /** pb_skip_field. */
  method SkipOver(stream: IStream, wireType: nat) returns (ok: bool)
    requires stream.Valid()
    modifies stream
    ensures stream.Valid() && stream.End() == old(stream.End())
    ensures ok <==> SkipField(wireType, old(stream.Rest())).Some?
    ensures ok ==> SkipField(wireType, old(stream.Rest())) == Some(stream.Rest())
  {
    if wireType == WT_VARINT {
      ok := SkipVarint(stream);
    } else if wireType == WT_64BIT {
      ok := stream.Skip(8);
    } else if wireType == WT_STRING {
      ok := SkipString(stream);
    } else if wireType == WT_32BIT {
      ok := stream.Skip(4);
    } else {
      ok := false;
    }
  }

  /** pb_decode_tag. `eof` is set at the end of the stream and at a zero key. */
  method ReadTag(stream: IStream) returns (ok: bool, wireType: nat, tag: nat, eof: bool)
    requires stream.Valid()
    modifies stream
    ensures stream.Valid() && stream.End() == old(stream.End())
    ensures ok ==> wireType < 8 && tag * 8 + wireType > 0
                   && Varint32(old(stream.Rest())) == Some((tag * 8 + wireType, stream.Rest()))
    ensures !ok && eof && old(stream.bytesLeft) > 0 ==> Varint32(old(stream.Rest())) == Some((0, stream.Rest()))
    ensures !ok && !eof ==> old(stream.bytesLeft) > 0 && Varint32(old(stream.Rest())).None?
  {
    var temp;
    ok, temp, eof := ReadVarint32Eof(stream);
    if !ok { return false, 0, 0, eof; }
    if temp == 0 { return false, 0, 0, true; }
    return true, temp % 8, temp / 8, eof;
  }

  // ---------------------------------------------------------------------
  // Substreams
  // ---------------------------------------------------------------------

  lemma SliceSplits(mem: Bytes, p: nat, n: nat, k: nat)
    requires k <= n && p + n <= |mem|
    ensures mem[p..p + n][..k] == mem[p..p + k] && mem[p..p + n][k..] == mem[p + k..p + n]
  {
  }

  /** pb_make_string_substream: the bytes of the stream are shared out between
      it and its substream. Both stand at the first byte of the payload. */
  method MakeSubstream(stream: IStream) returns (ok: bool, substream: IStream)
    requires stream.Valid()
    modifies stream
    ensures stream.Valid() && stream.End() <= old(stream.End())
    ensures ok <==> Substream(old(stream.Rest())).Some?
    ensures ok ==> fresh(substream) && substream.Valid() && substream.buf == stream.buf && substream.pos == stream.pos
    ensures ok ==> stream.bytesLeft + substream.bytesLeft == old(stream.bytesLeft) - (stream.pos - old(stream.pos))
    ensures ok ==> substream.End() + stream.bytesLeft == old(stream.End())
    ensures ok ==> Substream(old(stream.Rest())) == Some((substream.Rest(), stream.From(substream.End())))
    ensures ok ==> |substream.Rest()| < |old(stream.Rest())|
  {
    hide Varint32;
    Varint32Below(stream.Rest());
    substream := stream;
    var size;
    ok, size := ReadVarint32(stream);
    if !ok { return false, substream; }
    if stream.bytesLeft < size { return false, substream; }
    substream := SplitOff(stream, size);
  }

  /** Its assignments: the copy gets `size` bytes, the stream keeps the rest. */
  method SplitOff(stream: IStream, size: nat) returns (substream: IStream)
    requires stream.Valid() && size <= stream.bytesLeft
    modifies stream
    ensures fresh(substream) && substream.Valid() && substream.buf == stream.buf
    ensures substream.pos == stream.pos == old(stream.pos) && substream.bytesLeft == size
    ensures stream.bytesLeft == old(stream.bytesLeft) - size
    ensures substream.Rest() == old(stream.Rest())[..size]
    ensures stream.From(substream.End()) == old(stream.Rest())[size..]
  {
    substream := new IStream(stream.buf, stream.pos, stream.bytesLeft);
    substream.bytesLeft := size;
    stream.bytesLeft := stream.bytesLeft - size;
    SliceSplits(stream.buf[..], stream.pos, stream.bytesLeft + size, size);
  }

  /** pb_close_string_substream: the stream goes on just behind the payload,
      however much of it was read. */
  method CloseSubstream(stream: IStream, substream: IStream) returns (ok: bool)
    requires substream.Valid() && substream != stream && substream.buf == stream.buf
    requires substream.End() + stream.bytesLeft <= stream.buf.Length
    modifies stream, substream
    ensures ok && stream.Valid() && substream.Valid() && substream.bytesLeft == 0
    ensures stream.pos == old(substream.End()) && stream.bytesLeft == old(stream.bytesLeft)
    ensures stream.Rest() == old(stream.From(substream.End()))
  {
    if substream.bytesLeft > 0 {
      ok := substream.Skip(substream.bytesLeft);
      if !ok { return false; }
    }
    stream.pos := substream.pos;
    return true;
  }

  // ---------------------------------------------------------------------
  // Values
  // ---------------------------------------------------------------------

  /** What a reading step that returned `ok` and `v` and left `rest` amounts to. */
  ghost function Outcome<T>(ok: bool, v: T, rest: Bytes): Option<(T, Bytes)> {
    if ok then Some((v, rest)) else None
  }

  /** `acc | b << 8 * k`, where no bit leaves the word. */
  function Place(acc: nat, b: Byte, k: nat): nat {
    Or(acc, b * Pow2(8 * k))
  }

  lemma {:induction false} FromLittleEndianNext(low: Bytes, b: Byte)
    ensures FromLittleEndian(low + [b]) == FromLittleEndian(low) + b * Pow2(8 * |low|)
  {
    hide Or;
    if low == [] {
      assert ([] + [b])[1..] == [];
    } else {
      assert (low + [b])[1..] == low[1..] + [b];
      FromLittleEndianNext(low[1..], b);
      Pow2Add(8, 8 * (|low| - 1));
      assert Pow2(8) == 256;
      calc { 256 * (b * Pow2(8 * (|low| - 1))); b * (256 * Pow2(8 * (|low| - 1))); b * Pow2(8 * |low|); }
    }
  }

  lemma PlaceNext(raw: Bytes, k: nat)
    requires k < |raw|
    ensures Place(FromLittleEndian(raw[..k]), raw[k], k) == FromLittleEndian(raw[..k + 1])
  {
    assert raw[..k + 1] == raw[..k] + [raw[k]];
    FromLittleEndianBelow(raw[..k]);
    FromLittleEndianNext(raw[..k], raw[k]);
    OrDisjoint(FromLittleEndian(raw[..k]), raw[k], 8 * k);
  }

  lemma FirstPlace(raw: Bytes)
    requires raw != []
    ensures FromLittleEndian(raw[..1]) == raw[0]
  {
    assert raw[..1][1..] == [];
  }

  lemma PlacesAre32(raw: Bytes)
    requires |raw| == 4
    ensures Place(Place(Place(raw[0], raw[1], 1), raw[2], 2), raw[3], 3) == FromLittleEndian(raw)
  {
    hide Place, FromLittleEndian;
    FirstPlace(raw);
    PlaceNext(raw, 1);
    PlaceNext(raw, 2);
    PlaceNext(raw, 3);
    assert raw[..4] == raw;
  }

  lemma PlacesAre64(raw: Bytes)
    requires |raw| == 8
    ensures Place(Place(Place(Place(Place(Place(Place(raw[0], raw[1], 1), raw[2], 2), raw[3], 3),
              raw[4], 4), raw[5], 5), raw[6], 6), raw[7], 7) == FromLittleEndian(raw)
  {
    hide Place, FromLittleEndian;
    FirstPlace(raw);
    PlaceNext(raw, 1);
    PlaceNext(raw, 2);
    PlaceNext(raw, 3);
    PlaceNext(raw, 4);
    PlaceNext(raw, 5);
    PlaceNext(raw, 6);
    PlaceNext(raw, 7);
    assert raw[..8] == raw;
  }

  /** pb_decode_fixed32. */
  method ReadFixed32(stream: IStream) returns (ok: bool, v: Value)
    requires stream.Valid()
    modifies stream
    ensures stream.Valid() && stream.End() == old(stream.End())
    ensures DecodeWord(4, old(stream.Rest())) == Outcome(ok, v, stream.Rest())
  {
    var bytes := new Byte[4];
    ok := stream.Read(bytes, 4);
    if !ok { return false, Undefined; }
    PlacesAre32(bytes[..]);
    v := VInt(Place(Place(Place(bytes[0], bytes[1], 1), bytes[2], 2), bytes[3], 3));
    assert bytes[..4] == bytes[..];
  }

  /** pb_decode_fixed64. */
  method ReadFixed64(stream: IStream) returns (ok: bool, v: Value)
    requires stream.Valid()
    modifies stream
    ensures stream.Valid() && stream.End() == old(stream.End())
    ensures DecodeWord(8, old(stream.Rest())) == Outcome(ok, v, stream.Rest())
  {
    var bytes := new Byte[8];
    ok := stream.Read(bytes, 8);
    if !ok { return false, Undefined; }
    PlacesAre64(bytes[..]);
    v := VInt(Place(Place(Place(Place(Place(Place(Place(bytes[0], bytes[1], 1), bytes[2], 2), bytes[3], 3),
                bytes[4], 4), bytes[5], 5), bytes[6], 6), bytes[7], 7));
    assert bytes[..8] == bytes[..];
  }

  /** pb_dec_bool. */
  method DecBool(stream: IStream, f: Field) returns (ok: bool, v: Value)
    requires stream.Valid() && f.ltype.LBool?
    modifies stream
    ensures stream.Valid() && stream.End() == old(stream.End())
    ensures DecodeVarint(f, old(stream.Rest())) == Outcome(ok, v, stream.Rest())
  {
    var value;
    ok, value := ReadVarint32(stream);
    v := VBool(value != 0);
  }

  /** pb_dec_varint. */
  method DecVarint(stream: IStream, f: Field) returns (ok: bool, v: Value)
    requires stream.Valid() && f.ltype.LVarint?
    modifies stream
    ensures stream.Valid() && stream.End() == old(stream.End())
    ensures DecodeVarint(f, old(stream.Rest())) == Outcome(ok, v, stream.Rest())
  {
    var value;
    ok, value := ReadVarint(stream);
    if !ok { return false, Undefined; }
    var svalue := if f.dataSize == 8 then ToInt64(value) else ToInt32(value);
    if !ValidIntSize(f.dataSize) { return false, Undefined; }
    var clamped := CastSigned(svalue, f.dataSize);
    if clamped != svalue { return false, Undefined; }
    return true, VInt(clamped);
  }

  /** pb_dec_uvarint. */
  method DecUVarint(stream: IStream, f: Field) returns (ok: bool, v: Value)
    requires stream.Valid() && f.ltype.LUVarint?
    modifies stream
    ensures stream.Valid() && stream.End() == old(stream.End())
    ensures DecodeVarint(f, old(stream.Rest())) == Outcome(ok, v, stream.Rest())
  {
    var value;
    ok, value := ReadVarint(stream);
    if !ok { return false, Undefined; }
    if !ValidIntSize(f.dataSize) { return false, Undefined; }
    var clamped := value % (2 * SignedLimit(f.dataSize));
    if clamped != value { return false, Undefined; }
    return true, VInt(clamped);
  }

  /** pb_dec_svarint. */
  method DecSVarint(stream: IStream, f: Field) returns (ok: bool, v: Value)
    requires stream.Valid() && f.ltype.LSVarint?
    modifies stream
    ensures stream.Valid() && stream.End() == old(stream.End())
    ensures DecodeVarint(f, old(stream.Rest())) == Outcome(ok, v, stream.Rest())
  {
    var value;
    ok, value := ReadSVarint(stream);
    if !ok { return false, Undefined; }
    if !ValidIntSize(f.dataSize) { return false, Undefined; }
    var clamped := CastSigned(value, f.dataSize);
    if clamped != value { return false, Undefined; }
    return true, VInt(clamped);
  }

  /** pb_read of the contents of a string into fresh memory. */
  method ReadRaw(stream: IStream, size: nat) returns (ok: bool, v: Value)
    requires stream.Valid()
    modifies stream
    ensures stream.Valid() && stream.End() == old(stream.End())
    ensures match Take(old(stream.Rest()), size)
            case None => !ok
            case Some((raw, rest)) => ok && v == VBytes(raw) && stream.Rest() == rest
  {
    var raw := new Byte[size];
    ok := stream.Read(raw, size);
    v := VBytes(raw[..]);
    assert raw[..] == raw[..size];
  }

  /** pb_dec_bytes. */
  method DecBytes(stream: IStream, f: Field) returns (ok: bool, v: Value)
    requires stream.Valid() && f.ltype.LBytes?
    modifies stream
    ensures stream.Valid() && stream.End() == old(stream.End())
    ensures DecodeBytes(f, old(stream.Rest())) == Outcome(ok, v, stream.Rest())
  {
    hide Varint32;
    var size;
    ok, size := ReadVarint32(stream);
    if !ok { return false, Undefined; }
    var allocSize := size + BYTES_HEADER;
    if allocSize > f.dataSize { return false, Undefined; }
    ok, v := ReadRaw(stream, size);
  }

  /** pb_dec_string. */
  method DecString(stream: IStream, f: Field) returns (ok: bool, v: Value)
    requires stream.Valid() && f.ltype.LString?
    modifies stream
    ensures stream.Valid() && stream.End() == old(stream.End())
    ensures DecodeBytes(f, old(stream.Rest())) == Outcome(ok, v, stream.Rest())
  {
    hide Varint32;
    var size;
    ok, size := ReadVarint32(stream);
    if !ok { return false, Undefined; }
    var allocSize := (size + 1) % TWO_32;
    if allocSize < size { return false, Undefined; }
    if allocSize > f.dataSize { return false, Undefined; }
    ok, v := ReadRaw(stream, size);
  }

  /** pb_dec_fixed_length_bytes. */
  method DecFixedBytes(stream: IStream, f: Field) returns (ok: bool, v: Value)
    requires stream.Valid() && f.ltype.LFixedBytes?
    modifies stream
    ensures stream.Valid() && stream.End() == old(stream.End())
    ensures DecodeBytes(f, old(stream.Rest())) == Outcome(ok, v, stream.Rest())
  {
    hide Varint32;
    var size;
    ok, size := ReadVarint32(stream);
    if !ok { return false, Undefined; }
    if size == 0 { return true, VBytes(Zeros(f.dataSize)); }
    if size != f.dataSize { return false, Undefined; }
    ok, v := ReadRaw(stream, size);
  }

  /** The PB_DECODERS that are not for submessages. */
  method DecScalar(stream: IStream, f: Field) returns (ok: bool, v: Value)
    requires stream.Valid() && !f.ltype.LSubMessage?
    modifies stream
    ensures stream.Valid() && stream.End() == old(stream.End())
    ensures DecodeScalar(f, old(stream.Rest())) == Outcome(ok, v, stream.Rest())
  {
    if f.ltype.LBool? { ok, v := DecBool(stream, f); }
    else if f.ltype.LVarint? { ok, v := DecVarint(stream, f); }
    else if f.ltype.LUVarint? { ok, v := DecUVarint(stream, f); }
    else if f.ltype.LSVarint? { ok, v := DecSVarint(stream, f); }
    else if f.ltype.LFixed32? { ok, v := ReadFixed32(stream); }
    else if f.ltype.LFixed64? { ok, v := ReadFixed64(stream); }
    else if f.ltype.LBytes? { ok, v := DecBytes(stream, f); }
    else if f.ltype.LString? { ok, v := DecString(stream, f); }
    else { ok, v := DecFixedBytes(stream, f); }
  }
}
