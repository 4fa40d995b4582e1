/** Encoder and decoder together, on one buffer. */
module PbCodec {
  import opened Wrappers
  import opened Bits
  import opened PbVarint
  import opened PbModel
  import opened PbEncoding
  import opened PbDecoding
  import opened PbStream
  import opened PbRoundTrip
  import PbEncode
  import PbDecodeMessage

  /** pb_encode into a buffer and pb_decode of what was written: when the message
      fits the buffer, decoding succeeds just when its strings leave room for
      their NUL, gives the canonical message back, and ends just behind the
      bytes written. */
  method EncodeThenDecode(d: Desc, m: Message, buffer: array<Byte>, n: nat)
    returns (encoded: bool, written: nat, decoded: bool, back: Message, left: nat)
    requires WellFormed(d) && Shaped(d, m, true) && n <= buffer.Length && n < TWO_32
    modifies buffer
    ensures encoded <==> EncodeMessage(d, m).Some? && |EncodeMessage(d, m).value| <= n
    ensures encoded ==> decoded == Fits(d, m)
    ensures encoded && decoded ==> back == Canon(d, m) && left == 0
  {
    hide Shaped, WellFormed, EncodeMessage, DecodeMessage, Canon, Fits;
    var sized, size;
    sized, size, encoded, written := PbEncode.EncodeToBuffer(d, m, buffer, n);
    decoded, back, left := false, [], 0;
    if !encoded { return; }
    var stream := new IStream(buffer, 0, written);
    var dest := new PbDecodeMessage.Struct(seq(SlotCount(d), _ => One(Undefined)));
    assert stream.Rest() == buffer[..written] == EncodeMessage(d, m).value;
    MessageRoundTrip(d, m);
    decoded := PbDecodeMessage.Decode(stream, d, dest);
    back, left := dest.slots, stream.bytesLeft;
  }
}
