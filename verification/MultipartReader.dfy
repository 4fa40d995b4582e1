/** A reader of multipart bodies after section 5.1.1 of RFC 2046, and that it takes
    an encoded form apart again. */
module MultipartReader {
  import opened Wrappers
  import opened Multipart

  // ---------------------------------------------------------------------
  // The reader
  // ---------------------------------------------------------------------

  /** Where a pattern first occurs. */
  function Search(pattern: Bytes, bs: Bytes): (i: Option<nat>)
    ensures i.Some? ==> i.value + |pattern| <= |bs|
  {
    if pattern <= bs then Some(0)
    else if bs == [] then None
    else match Search(pattern, bs[1..])
      case None => None
      case Some(i) => Some(i + 1)
  }

  /** A header field: a name up to the first colon, and its value with one blank
      in front of it taken away. */
  function ReadHeader(line: Bytes): Option<Header> {
    match Search([COLON], line)
    case None => None
    case Some(i) =>
      var value := line[i + 1..];
      Some(Header(line[..i], if value != [] && value[0] == BLANK then value[1..] else value))
  }

  /** Header fields, a line each, up to an empty line, and what follows it. */
  function ReadHeaders(bs: Bytes): Option<(seq<Header>, Bytes)>
    decreases |bs|
  {
    match Search(CRLF, bs)
    case None => None
    case Some(i) =>
      if i == 0 then Some(([], bs[2..]))
      else match (ReadHeader(bs[..i]), ReadHeaders(bs[i + 2..]))
        case (Some(header), Some((headers, body))) => Some(([header] + headers, body))
        case _ => None
  }

  function ReadPart(octets: Bytes): Option<Part> {
    match ReadHeaders(octets)
    case None => None
    case Some((headers, body)) => Some(Part(headers, body))
  }

  /** The delimiter: a line that starts with two dashes and the boundary. */
  function Delimiter(boundary: Bytes): Bytes {
    ['\r' as int, '\n' as int, '-' as int, '-' as int] + boundary
  }

  /** Parts up to the delimiter that has two dashes behind it; whatever follows
      that is ignored. */
  function ReadParts(boundary: Bytes, bs: Bytes): Option<seq<Part>>
    decreases |bs|
  {
    match Search(Delimiter(boundary), bs)
    case None => None
    case Some(i) =>
      var rest := bs[i + |Delimiter(boundary)|..];
      match ReadPart(bs[..i])
      case None => None
      case Some(part) =>
        if ['-' as int, '-' as int] <= rest then Some([part])
        else if !(['\r' as int, '\n' as int] <= rest) then None
        else match ReadParts(boundary, rest[2..])
          case None => None
          case Some(parts) => Some([part] + parts)
  }

  /** A body without preamble: its first line is a delimiter. */
  function ReadMultipart(boundary: Bytes, bs: Bytes): Option<seq<Part>> {
    var first := Delimiter(boundary)[2..] + ['\r' as int, '\n' as int];
    if first <= bs then ReadParts(boundary, bs[|first|..]) else None
  }

  // ---------------------------------------------------------------------
  // What can be read
  // ---------------------------------------------------------------------

  ghost predicate OccursAt(pattern: Bytes, bs: Bytes, k: nat) {
    k + |pattern| <= |bs| && bs[k..k + |pattern|] == pattern
  }

  ghost predicate Occurs(pattern: Bytes, bs: Bytes) {
    exists k: nat :: OccursAt(pattern, bs, k)
  }

  /** No line break within a header, and no colon in its name. */
  ghost predicate Clean(h: Header) {
    !Occurs(CRLF, h.name) && !Occurs(CRLF, h.value) && COLON !in h.name
  }

  /** Section 5.1.1 asks that the delimiter does not occur within a part. */
  ghost predicate Readable(boundary: Bytes, p: Part) {
    !Occurs(Delimiter(boundary), Rendered(p)) && forall k | 0 <= k < |p.headers| :: Clean(p.headers[k])
  }

  // ---------------------------------------------------------------------
  // Searching
  // ---------------------------------------------------------------------

  lemma {:induction false} SearchFinds(pattern: Bytes, a: Bytes, b: Bytes)
    requires pattern <= b
    requires forall k | 0 <= k < |a| :: !(pattern <= (a + b)[k..])
    ensures Search(pattern, a + b) == Some(|a|)
  {
    if a == [] {
      assert a + b == b;
    } else {
      assert (a + b)[0..] == a + b;
      assert (a + b)[1..] == a[1..] + b;
      forall k | 0 <= k < |a[1..]| ensures !(pattern <= (a[1..] + b)[k..]) {
        assert (a[1..] + b)[k..] == (a + b)[k + 1..];
      }
      SearchFinds(pattern, a[1..], b);
    }
  }

  /** A pattern that does not occur before and cannot overlap itself is found
      where it stands. */
  lemma FirstOccurrence(pattern: Bytes, a: Bytes, b: Bytes)
    requires pattern != [] && pattern <= b && pattern[0] !in pattern[1..] && !Occurs(pattern, a)
    ensures Search(pattern, a + b) == Some(|a|)
  {
    forall k | 0 <= k < |a| ensures !(pattern <= (a + b)[k..]) {
      var s := (a + b)[k..];
      if k + |pattern| <= |a| {
        assert a[k..k + |pattern|] == s[..|pattern|];
        assert !OccursAt(pattern, a, k);
      } else {
        assert s[|a| - k] == b[0] == pattern[0];
        assert pattern[|a| - k] == pattern[1..][|a| - k - 1];
      }
    }
    SearchFinds(pattern, a, b);
  }

  // ---------------------------------------------------------------------
  // Parts
  // ---------------------------------------------------------------------

  function Line(h: Header): Bytes {
    h.name + [COLON, BLANK] + h.value
  }

  lemma LineIsOne(h: Header)
    requires Clean(h)
    ensures !Occurs(CRLF, Line(h)) && Line(h) != []
  {
    forall k: nat ensures !OccursAt(CRLF, Line(h), k) {
      if OccursAt(CRLF, Line(h), k) {
        var n := |h.name|;
        assert Line(h)[k] == CRLF[0] && Line(h)[k + 1] == CRLF[1] by {
          assert Line(h)[k..k + 2][0] == CRLF[0] && Line(h)[k..k + 2][1] == CRLF[1];
        }
        if k + 2 <= n {
          assert h.name[k..k + 2] == Line(h)[k..k + 2];
          assert OccursAt(CRLF, h.name, k);
        } else if k >= n + 2 {
          assert h.value[k - n - 2..k - n] == Line(h)[k..k + 2];
          assert OccursAt(CRLF, h.value, k - n - 2);
        }
      }
    }
  }

  lemma HeaderRead(h: Header)
    requires Clean(h)
    ensures ReadHeader(Line(h)) == Some(h)
  {
    var tail := [COLON, BLANK] + h.value;
    assert Line(h) == h.name + tail;
    assert !Occurs([COLON], h.name) by {
      forall k: nat ensures !OccursAt([COLON], h.name, k) {
        if k < |h.name| { assert h.name[k] == h.name[k..k + 1][0]; }
      }
    }
    FirstOccurrence([COLON], h.name, tail);
    assert Line(h)[..|h.name|] == h.name && Line(h)[|h.name| + 1..] == [BLANK] + h.value;
    assert ([BLANK] + h.value)[1..] == h.value;
  }

  /** One line, and the other headers behind it. */
  lemma LineRead(h: Header, rest: Bytes)
    requires Clean(h)
    ensures ReadHeaders(Line(h) + (CRLF + rest)) ==
            match ReadHeaders(rest)
            case None => None
            case Some((headers, body)) => Some(([h] + headers, body))
  {
    hide Line, ReadHeader, Search;
    var bs := Line(h) + (CRLF + rest);
    LineIsOne(h);
    FirstOccurrence(CRLF, Line(h), CRLF + rest);
    assert bs[..|Line(h)|] == Line(h) && bs[|Line(h)| + 2..] == rest;
    HeaderRead(h);
  }

  lemma {:induction false} HeadersRead(headers: seq<Header>, body: Bytes)
    requires forall k | 0 <= k < |headers| :: Clean(headers[k])
    ensures ReadHeaders(EncodeHeaders(headers) + body) == Some((headers, body))
  {
    if headers == [] {
      assert (CRLF + body)[2..] == body;
    } else {
      var h, rest := headers[0], EncodeHeaders(headers[1..]) + body;
      assert EncodeHeaders(headers) + body == Line(h) + (CRLF + rest);
      HeadersRead(headers[1..], body);
      LineRead(h, rest);
      assert [h] + headers[1..] == headers;
    }
  }

  // ---------------------------------------------------------------------
  // Bodies
  // ---------------------------------------------------------------------

  /** What stands behind the first part. */
  function Behind(boundary: Bytes, parts: seq<Part>): Bytes
    requires parts != []
  {
    if |parts| == 1 then BoundaryData(Final, boundary)
    else BoundaryData(Encapsulated, boundary) + Remaining(boundary, parts[1..])
  }

  function Remaining(boundary: Bytes, parts: seq<Part>): Bytes
    requires parts != []
  {
    JoinRendered(BoundaryData(Encapsulated, boundary), parts) + BoundaryData(Final, boundary)
  }

  lemma RemainingIs(boundary: Bytes, parts: seq<Part>)
    requires parts != []
    ensures Remaining(boundary, parts) == Rendered(parts[0]) + Behind(boundary, parts)
  {
    hide BoundaryData, Rendered;
  }

  lemma BehindIs(boundary: Bytes, parts: seq<Part>)
    requires parts != []
    ensures Delimiter(boundary) <= Behind(boundary, parts)
    ensures var rest := Behind(boundary, parts)[|Delimiter(boundary)|..];
            if |parts| == 1 then DASHES <= rest
            else CRLF <= rest && !(DASHES <= rest) && rest[2..] == Remaining(boundary, parts[1..])
  {
    hide Remaining;
    if |parts| == 1 {
      assert Behind(boundary, parts) == Delimiter(boundary) + (DASHES + CRLF);
    } else {
      var rest := CRLF + Remaining(boundary, parts[1..]);
      assert Behind(boundary, parts) == Delimiter(boundary) + rest;
      assert Behind(boundary, parts)[|Delimiter(boundary)|..] == rest && rest[0] == CR && rest[2..] == Remaining(boundary, parts[1..]);
    }
  }

  lemma {:induction false} PartsRead(boundary: Bytes, parts: seq<Part>)
    requires parts != [] && CR !in boundary && forall k | 0 <= k < |parts| :: Readable(boundary, parts[k])
    ensures ReadParts(boundary, Remaining(boundary, parts)) == Some(parts)
  {
    hide Remaining, Behind, Rendered, ReadPart, Search;
    var p, bs := parts[0], Remaining(boundary, parts);
    assert Readable(boundary, p);
    RemainingIs(boundary, parts);
    BehindIs(boundary, parts);
    FirstOccurrence(Delimiter(boundary), Rendered(p), Behind(boundary, parts));
    assert bs[..|Rendered(p)|] == Rendered(p);
    assert bs[|Rendered(p)| + |Delimiter(boundary)|..] == Behind(boundary, parts)[|Delimiter(boundary)|..];
    PartRead(p);
    if |parts| == 1 {
      assert [p] == parts;
    } else {
      PartsRead(boundary, parts[1..]);
      assert [p] + parts[1..] == parts;
    }
  }

  lemma PartRead(p: Part)
    requires forall k | 0 <= k < |p.headers| :: Clean(p.headers[k])
    ensures ReadPart(Rendered(p)) == Some(p)
  {
    HeadersRead(p.headers, p.body);
  }

  lemma EncodingStarts(boundary: Bytes, parts: seq<Part>)
    requires parts != []
    ensures Encoding(boundary, parts) == BoundaryData(Initial, boundary) + Remaining(boundary, parts)
  {
    hide BoundaryData, JoinRendered, Encoding;
    EncodingIsMultipart(boundary, parts);
  }

  /** A receiver gets back exactly the parts, with their headers and bodies, in
      order, and sees the end. */
  lemma EncodingReads(boundary: Bytes, parts: seq<Part>)
    requires parts != [] && CR !in boundary && forall k | 0 <= k < |parts| :: Readable(boundary, parts[k])
    ensures ReadMultipart(boundary, Encoding(boundary, parts)) == Some(parts)
  {
    hide ReadParts, Remaining, Encoding;
    PartsRead(boundary, parts);
    EncodingStarts(boundary, parts);
    assert BoundaryData(Initial, boundary) == Delimiter(boundary)[2..] + CRLF;
  }
}
