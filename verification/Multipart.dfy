/** MultipartFormData.swift: the multipart body in memory and streamed. */
module Multipart {
  import opened Wrappers

  // ---------------------------------------------------------------------
  // Streams, which hand over bytes in pieces of their own choice
  // ---------------------------------------------------------------------

  /** An InputStream over `data`. How much a read returns, and whether bytes seem
      available at the end, is up to `chunk` and `hopeful`. */
  class InputStream {
    const data: Bytes
    const chunk: nat -> nat
    const hopeful: nat -> bool
    var pos: nat
    var readCount: nat

    ghost predicate Valid()
      reads this
    {
      pos <= |data|
    }

    constructor (data: Bytes, chunk: nat -> nat, hopeful: nat -> bool)
      ensures Valid() && pos == 0 && this.data == data
    {
      this.data, this.chunk, this.hopeful := data, chunk, hopeful;
      pos, readCount := 0, 0;
    }

    method HasBytesAvailable() returns (yes: bool)
      requires Valid()
      ensures pos < |data| ==> yes
    {
      yes := pos < |data| || hopeful(readCount);
    }

    /** Some bytes, at least one unless at the end. */
    method Read(maxLength: nat) returns (bytes: Bytes)
      requires Valid() && maxLength > 0
      modifies this
      ensures Valid() && old(pos) <= pos && bytes == data[old(pos)..pos] && |bytes| <= maxLength
      ensures bytes == [] <==> old(pos) == |data|
    {
      readCount := readCount + 1;
      var left := |data| - pos;
      if left == 0 { return []; }
      var most := if left < maxLength then left else maxLength;
      var count := 1 + chunk(readCount) % most;
      bytes := data[pos..pos + count];
      pos := pos + count;
    }
  }

  /** An OutputStream that always has space and takes a part of what it is given. */
  class OutputStream {
    var data: Bytes
    const chunk: nat -> nat
    var writeCount: nat

    constructor (chunk: nat -> nat)
      ensures data == []
    {
      this.chunk := chunk;
      data, writeCount := [], 0;
    }

    method Write(buffer: Bytes, maxLength: nat) returns (bytesWritten: nat)
      requires 0 < maxLength <= |buffer|
      modifies this
      ensures 0 < bytesWritten <= maxLength && data == old(data) + buffer[..bytesWritten]
    {
      writeCount := writeCount + 1;
      bytesWritten := 1 + chunk(writeCount) % maxLength;
      data := data + buffer[..bytesWritten];
    }
  }

  // ---------------------------------------------------------------------
  // The format
  // ---------------------------------------------------------------------

  const CR: Byte := '\r' as int
  const CRLF: Bytes := [CR, '\n' as int]
  const DASHES: Bytes := ['-' as int, '-' as int]
  const COLON: Byte := ':' as int
  const BLANK: Byte := ' ' as int

  datatype BoundaryType = Initial | Encapsulated | Final

  /** BoundaryGenerator.boundaryData */
  function BoundaryData(boundaryType: BoundaryType, boundary: Bytes): Bytes {
    match boundaryType
    case Initial => DASHES + boundary + CRLF
    case Encapsulated => CRLF + DASHES + boundary + CRLF
    case Final => CRLF + DASHES + boundary + DASHES + CRLF
  }

  datatype Header = Header(name: Bytes, value: Bytes)

  /** encodeHeaders */
  function EncodeHeaders(headers: seq<Header>): Bytes {
    if headers == [] then CRLF
    else headers[0].name + [COLON, BLANK] + headers[0].value + CRLF + EncodeHeaders(headers[1..])
  }

  /** What a body part stands for. */
  datatype Part = Part(headers: seq<Header>, body: Bytes)

  /** A body-part: its header fields, an empty line and its octets. */
  function Rendered(p: Part): Bytes {
    EncodeHeaders(p.headers) + p.body
  }

  /** A part with its boundaries: one before it, and one behind the last part. */
  function PartBytes(boundary: Bytes, p: Part, first: bool, last: bool): Bytes {
    BoundaryData(if first then Initial else Encapsulated, boundary) + Rendered(p)
    + (if last then BoundaryData(Final, boundary) else [])
  }

  /** The parts from number `i` on, each with its own boundaries. */
  function EncodingFrom(boundary: Bytes, parts: seq<Part>, i: nat): Bytes
    requires i <= |parts|
    decreases |parts| - i
  {
    if i == |parts| then []
    else PartBytes(boundary, parts[i], i == 0, i == |parts| - 1) + EncodingFrom(boundary, parts, i + 1)
  }

  /** The bytes that encode and writeEncodedData have to produce. */
  function Encoding(boundary: Bytes, parts: seq<Part>): Bytes {
    EncodingFrom(boundary, parts, 0)
  }

  function JoinRendered(separator: Bytes, parts: seq<Part>): Bytes
    requires parts != []
  {
    if |parts| == 1 then Rendered(parts[0]) else Rendered(parts[0]) + separator + JoinRendered(separator, parts[1..])
  }

  /** The shape of section 5.1.1 of RFC 2046: one initial boundary, one boundary
      between consecutive parts, and one final boundary. */
  lemma EncodingIsMultipart(boundary: Bytes, parts: seq<Part>)
    requires parts != []
    ensures Encoding(boundary, parts)
            == BoundaryData(Initial, boundary) + JoinRendered(BoundaryData(Encapsulated, boundary), parts)
               + BoundaryData(Final, boundary)
  {
    JoinedFrom(boundary, parts, 0);
    assert parts[0..] == parts;
  }

  lemma {:induction false} JoinedFrom(boundary: Bytes, parts: seq<Part>, i: nat)
    requires i < |parts|
    ensures EncodingFrom(boundary, parts, i)
            == BoundaryData(if i == 0 then Initial else Encapsulated, boundary)
               + JoinRendered(BoundaryData(Encapsulated, boundary), parts[i..]) + BoundaryData(Final, boundary)
    decreases |parts| - i
  {
    hide BoundaryData, Rendered;
    if i < |parts| - 1 {
      JoinedFrom(boundary, parts, i + 1);
      assert parts[i..][1..] == parts[i + 1..];
    } else {
      assert EncodingFrom(boundary, parts, i + 1) == [];
    }
  }

  /** One more part done. */
  lemma Assemble(boundary: Bytes, parts: seq<Part>, done: Bytes, i: nat)
    requires i < |parts|
    ensures done + PartBytes(boundary, parts[i], i == 0, i == |parts| - 1) + EncodingFrom(boundary, parts, i + 1)
            == done + EncodingFrom(boundary, parts, i)
  {
  }

  lemma AllAssembled(boundary: Bytes, parts: seq<Part>, done: Bytes)
    ensures done + EncodingFrom(boundary, parts, |parts|) == done
  {
  }

  // ---------------------------------------------------------------------
  // The encoder
  // ---------------------------------------------------------------------

  class BodyPart {
    const headers: seq<Header>
    const bodyStream: InputStream
    var hasInitialBoundary: bool
    var hasFinalBoundary: bool

    constructor (headers: seq<Header>, bodyStream: InputStream)
      ensures this.headers == headers && this.bodyStream == bodyStream && !hasInitialBoundary && !hasFinalBoundary
    {
      this.headers, this.bodyStream := headers, bodyStream;
      hasInitialBoundary, hasFinalBoundary := false, false;
    }

    function Value(): Part {
      Part(headers, bodyStream.data)
    }
  }

  class MultipartFormData {
    const boundary: Bytes
    const streamBufferSize: nat := 1024
    var bodyParts: seq<BodyPart>

    constructor (boundary: Bytes)
      ensures this.boundary == boundary && bodyParts == []
    {
      this.boundary, bodyParts := boundary, [];
    }

    /** append */
    method Append(part: BodyPart)
      modifies this
      ensures bodyParts == old(bodyParts) + [part]
    {
      bodyParts := bodyParts + [part];
    }

    /** Every part has a stream of its own that has not been read, and has not
        been encoded before. */
    ghost predicate Unread()
      reads this, bodyParts, Streams()
    {
      && (forall i, j | 0 <= i < j < |bodyParts| :: bodyParts[i].bodyStream != bodyParts[j].bodyStream)
      && (forall p | p in bodyParts :: !p.hasInitialBoundary && !p.hasFinalBoundary && p.bodyStream.pos == 0)
    }

    ghost function Streams(): set<InputStream>
      reads this
    {
      set p | p in bodyParts :: p.bodyStream
    }

    function Parts(): (parts: seq<Part>)
      reads this
      ensures |parts| == |bodyParts|
    {
      seq(|bodyParts|, i requires 0 <= i < |bodyParts| reads this => bodyParts[i].Value())
    }

    /** The flags of the boundaries: set on the first and on the last part. */
    ghost predicate Flagged()
      reads this, bodyParts
    {
      forall i | 0 <= i < |bodyParts| ::
        bodyParts[i].hasInitialBoundary == (i == 0) && bodyParts[i].hasFinalBoundary == (i == |bodyParts| - 1)
    }

    method SetFlags()
      requires Unread()
      modifies bodyParts
      ensures Flagged()
    {
      if |bodyParts| > 0 {
        assert forall i, j | 0 <= i < j < |bodyParts| :: bodyParts[i] != bodyParts[j] by {
          forall i, j | 0 <= i < j < |bodyParts| ensures bodyParts[i] != bodyParts[j] {
            assert bodyParts[i].bodyStream != bodyParts[j].bodyStream;
          }
        }
        bodyParts[0].hasInitialBoundary := true;
        bodyParts[|bodyParts| - 1].hasFinalBoundary := true;
      }
    }

    /** encode */
    method Encode() returns (encoded: Bytes)
      requires Unread()
      modifies bodyParts, Streams()
      ensures encoded == Encoding(boundary, Parts())
    {
      hide PartBytes, EncodingFrom;
      SetFlags();
      encoded := [];
      var i := 0;
      ghost var parts, all := Parts(), Encoding(boundary, Parts());
      while i < |bodyParts|
        invariant 0 <= i <= |bodyParts| && Flagged()
        invariant forall k | i <= k < |bodyParts| :: bodyParts[k].bodyStream.pos == 0
        invariant encoded + EncodingFrom(boundary, parts, i) == all
        modifies Streams()
      {
        var encodedData := EncodePart(bodyParts[i]);
        assert encodedData == PartBytes(boundary, parts[i], i == 0, i == |parts| - 1);
        Assemble(boundary, parts, encoded, i);
        encoded := encoded + encodedData;
        i := i + 1;
      }
      AllAssembled(boundary, parts, encoded);
    }

    method EncodePart(bodyPart: BodyPart) returns (encoded: Bytes)
      requires bodyPart.bodyStream.pos == 0
      modifies bodyPart.bodyStream
      ensures encoded == PartBytes(boundary, bodyPart.Value(), bodyPart.hasInitialBoundary, bodyPart.hasFinalBoundary)
    {
      hide BoundaryData, EncodeHeaders;
      encoded := [];
      var initialData := BoundaryData(if bodyPart.hasInitialBoundary then Initial else Encapsulated, boundary);
      encoded := encoded + initialData;
      var headerData := EncodeHeaders(bodyPart.headers);
      encoded := encoded + headerData;
      var bodyStreamData := EncodeBodyStream(bodyPart);
      encoded := encoded + bodyStreamData;
      assert encoded == initialData + (headerData + bodyStreamData);
      if bodyPart.hasFinalBoundary { encoded := encoded + BoundaryData(Final, boundary); }
    }

    /** encodeBodyStream: whatever the reads return, all of the stream. */
    method EncodeBodyStream(bodyPart: BodyPart) returns (encoded: Bytes)
      requires bodyPart.bodyStream.pos == 0
      modifies bodyPart.bodyStream
      ensures encoded == bodyPart.bodyStream.data
    {
      var inputStream := bodyPart.bodyStream;
      encoded := [];
      var available := inputStream.HasBytesAvailable();
      while available
        invariant inputStream.Valid() && encoded == inputStream.data[..inputStream.pos]
        invariant !available ==> inputStream.pos == |inputStream.data|
        decreases |inputStream.data| - inputStream.pos, available
      {
        var bytes := inputStream.Read(streamBufferSize);
        if |bytes| > 0 {
          encoded := encoded + bytes;
        } else {
          break;
        }
        available := inputStream.HasBytesAvailable();
      }
    }

    /** writeEncodedData, to an open stream. */
    method WriteEncodedData(outputStream: OutputStream)
      requires Unread()
      modifies bodyParts, Streams(), outputStream
      ensures outputStream.data == old(outputStream.data) + Encoding(boundary, Parts())
    {
      hide PartBytes, EncodingFrom;
      SetFlags();
      ghost var parts, all := Parts(), outputStream.data + Encoding(boundary, Parts());
      var i := 0;
      while i < |bodyParts|
        invariant 0 <= i <= |bodyParts| && Flagged()
        invariant forall k | i <= k < |bodyParts| :: bodyParts[k].bodyStream.pos == 0
        invariant outputStream.data + EncodingFrom(boundary, parts, i) == all
        modifies Streams(), outputStream
      {
        Assemble(boundary, parts, outputStream.data, i);
        ghost var part := PartBytes(boundary, parts[i], i == 0, i == |parts| - 1);
        ghost var done := outputStream.data;
        WritePart(bodyParts[i], outputStream);
        assert outputStream.data == done + part;
        i := i + 1;
      }
      AllAssembled(boundary, parts, outputStream.data);
    }

    method WritePart(bodyPart: BodyPart, outputStream: OutputStream)
      requires bodyPart.bodyStream.pos == 0
      modifies bodyPart.bodyStream, outputStream
      ensures outputStream.data == old(outputStream.data)
                + PartBytes(boundary, bodyPart.Value(), bodyPart.hasInitialBoundary, bodyPart.hasFinalBoundary)
    {
      hide BoundaryData, EncodeHeaders;
      ghost var before := outputStream.data;
      var initialData := BoundaryData(if bodyPart.hasInitialBoundary then Initial else Encapsulated, boundary);
      WriteBuffer(initialData, outputStream);
      WriteBuffer(EncodeHeaders(bodyPart.headers), outputStream);
      WriteBodyStream(bodyPart, outputStream);
      ghost var middle := Rendered(bodyPart.Value());
      assert outputStream.data == before + (initialData + middle);
      if bodyPart.hasFinalBoundary {
        WriteBuffer(BoundaryData(Final, boundary), outputStream);
        assert outputStream.data == before + (initialData + middle + BoundaryData(Final, boundary));
      }
    }

    /** writeBodyStream */
    method WriteBodyStream(bodyPart: BodyPart, outputStream: OutputStream)
      requires bodyPart.bodyStream.pos == 0
      modifies bodyPart.bodyStream, outputStream
      ensures outputStream.data == old(outputStream.data) + bodyPart.bodyStream.data
    {
      var inputStream := bodyPart.bodyStream;
      ghost var before := outputStream.data;
      var available := inputStream.HasBytesAvailable();
      while available
        invariant inputStream.Valid() && outputStream.data == before + inputStream.data[..inputStream.pos]
        invariant !available ==> inputStream.pos == |inputStream.data|
        decreases |inputStream.data| - inputStream.pos, available
      {
        var bytes := inputStream.Read(streamBufferSize);
        if |bytes| > 0 {
          WriteBuffer(bytes, outputStream);
        } else {
          break;
        }
        available := inputStream.HasBytesAvailable();
      }
    }

    /** The partial-write loop: whatever the stream takes at a time, it ends up
        with exactly the buffer. */
    method WriteBuffer(bytes: Bytes, outputStream: OutputStream)
      modifies outputStream
      ensures outputStream.data == old(outputStream.data) + bytes
    {
      var buffer := bytes;
      var bytesToWrite := |buffer|;
      while bytesToWrite > 0
        invariant bytesToWrite > 0 ==> bytesToWrite == |buffer| && outputStream.data + buffer == old(outputStream.data) + bytes
        invariant bytesToWrite >= 0 && (bytesToWrite == 0 ==> outputStream.data == old(outputStream.data) + bytes)
      {
        var bytesWritten := outputStream.Write(buffer, bytesToWrite);
        assert buffer[..bytesWritten] + buffer[bytesWritten..] == buffer;
        bytesToWrite := bytesToWrite - bytesWritten;
        if bytesToWrite > 0 { buffer := buffer[bytesWritten..]; }
      }
    }
  }
}
