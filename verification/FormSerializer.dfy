/** URLEncodedFormSerializer: the query string of a component tree, and that it
    can be parsed. Keys and values are ASCII text or UTF-8 bytes. */
module FormSerializer {
  import opened Wrappers
  import opened FormComponent

  const SPACE: Byte := ' ' as int
  const PERCENT: Byte := '%' as int
  const AMPERSAND: Byte := '&' as int
  const PLUS: Byte := '+' as int
  const EQUALS: Byte := '=' as int
  const OPEN: Byte := '[' as int
  const CLOSE: Byte := ']' as int

  /** The settings that matter for the shape of the query. */
  datatype Serializer = Serializer(alphabetize: bool, brackets: bool, plusReplaced: bool)

  // ---------------------------------------------------------------------
  // Escaping
  // ---------------------------------------------------------------------

  /** CharacterSet.afURLQueryAllowed: letters, digits and - . _ ~ / ? */
  predicate Allowed(b: Byte) {
    48 <= b <= 57 || 65 <= b <= 90 || 97 <= b <= 122 || b in {45, 46, 95, 126, 47, 63}
  }

  function HexDigit(n: nat): (d: Byte)
    requires n < 16
    ensures Allowed(d)
  {
    if n < 10 then 48 + n else 55 + n
  }

  /** addingPercentEncoding, with the space allowed too. */
  function PercentEncode(s: Text): Text {
    if s == [] then []
    else (if Allowed(s[0]) || s[0] == SPACE then [s[0]] else [PERCENT, HexDigit(s[0] / 16), HexDigit(s[0] % 16)])
         + PercentEncode(s[1..])
  }

  /** SpaceEncoding.encode */
  function SpaceEncode(z: Serializer, s: Text): Text {
    if s == [] then []
    else (if s[0] != SPACE then [s[0]] else if z.plusReplaced then [PLUS] else [PERCENT, 50, 48]) + SpaceEncode(z, s[1..])
  }

  /** escape */
  function Escape(z: Serializer, s: Text): Text {
    SpaceEncode(z, PercentEncode(s))
  }

  function HexValue(d: Byte): nat {
    if 48 <= d <= 57 then d - 48 else if 65 <= d <= 70 then d - 55 else 0
  }

  /** What a receiver makes of escaped text. */
  function Unescape(z: Serializer, t: Text): Text
    decreases |t|
  {
    if t == [] then []
    else if t[0] == PERCENT && |t| >= 3 then [(16 * HexValue(t[1]) + HexValue(t[2])) % 256] + Unescape(z, t[3..])
    else if t[0] == PLUS && z.plusReplaced then [SPACE] + Unescape(z, t[1..])
    else [t[0]] + Unescape(z, t[1..])
  }

  /** One character, escaped. */
  function Piece(z: Serializer, b: Byte): Text {
    if b == SPACE then (if z.plusReplaced then [PLUS] else [PERCENT, 50, 48])
    else if Allowed(b) then [b]
    else [PERCENT, HexDigit(b / 16), HexDigit(b % 16)]
  }

  lemma {:induction false} SpaceEncodeConcat(z: Serializer, a: Text, b: Text)
    ensures SpaceEncode(z, a + b) == SpaceEncode(z, a) + SpaceEncode(z, b)
  {
    if a == [] {
      assert a + b == b;
    } else {
      assert (a + b)[1..] == a[1..] + b;
      SpaceEncodeConcat(z, a[1..], b);
    }
  }

  lemma {:induction false} NoSpaceEncode(z: Serializer, a: Text)
    requires SPACE !in a
    ensures SpaceEncode(z, a) == a
  {
    if a != [] { NoSpaceEncode(z, a[1..]); }
  }

  lemma EscapeStep(z: Serializer, s: Text)
    requires s != []
    ensures Escape(z, s) == Piece(z, s[0]) + Escape(z, s[1..])
  {
    var b, rest := s[0], PercentEncode(s[1..]);
    if b == SPACE {
      SpaceEncodeConcat(z, [b], rest);
      assert [b][1..] == [];
    } else {
      SpaceEncodeConcat(z, Piece(z, b), rest);
      NoSpaceEncode(z, Piece(z, b));
    }
  }

  lemma HexRoundTrip(b: Byte)
    ensures HexValue(HexDigit(b / 16)) == b / 16 && HexValue(HexDigit(b % 16)) == b % 16
  {
  }

  lemma PieceRead(z: Serializer, b: Byte, rest: Text)
    ensures Unescape(z, Piece(z, b) + rest) == [b] + Unescape(z, rest)
  {
    var t := Piece(z, b) + rest;
    if |Piece(z, b)| == 1 {
      assert t[1..] == rest;
    } else {
      HexRoundTrip(b);
      assert t[3..] == rest;
    }
  }

  /** Percent-decoding recovers every text, under both encodings of spaces. */
  lemma {:induction false} UnescapeEscape(z: Serializer, s: Text)
    ensures Unescape(z, Escape(z, s)) == s
  {
    if s != [] {
      EscapeStep(z, s);
      UnescapeEscape(z, s[1..]);
      PieceRead(z, s[0], Escape(z, s[1..]));
    }
  }

  /** What stays as it is: of the printable characters all but the delimiters of
      section 2.2 of RFC 3986, except for / and ?, and those that no query may
      have. */
  lemma DelimitersEscaped(b: Byte)
    ensures Allowed(b) <==> '!' as int <= b <= '~' as int
                            && b as char !in ":#[]@!$&'()*+,;=" && b as char !in "\"%<>\\^`{|}"
  {
  }

  /** Every other byte is written as a percent sign and its two upper-case
      hexadecimal digits, and a space as it has been chosen. */
  lemma Escaped(z: Serializer, b: Byte)
    ensures Escape(z, [b]) ==
            if Allowed(b) then [b]
            else if b == ' ' as int && z.plusReplaced then ['+' as int]
            else ['%' as int, "0123456789ABCDEF"[b / 16] as int, "0123456789ABCDEF"[b % 16] as int]
  {
    EscapeStep(z, [b]);
    assert Piece(z, b) + [] == Piece(z, b);
    HexDigitIs(b / 16);
    HexDigitIs(b % 16);
  }

  lemma HexDigitIs(n: nat)
    requires n < 16
    ensures HexDigit(n) == "0123456789ABCDEF"[n] as int
  {
  }

  /** Escaped text has only unreserved characters, %, / and ?, and + where it
      stands for a space: none of the delimiters of section 2.2 of RFC 3986 that
      the query gives a meaning. */
  lemma {:induction false} EscapeIsClean(z: Serializer, s: Text)
    ensures forall b | b in Escape(z, s) :: Allowed(b) || b == PERCENT || (b == PLUS && z.plusReplaced)
  {
    if s != [] {
      EscapeStep(z, s);
      EscapeIsClean(z, s[1..]);
    }
  }

  // ---------------------------------------------------------------------
  // Serializing
  // ---------------------------------------------------------------------

  /** joinedWithAmpersands */
  function Joined(segments: seq<Text>): Text {
    if segments == [] then []
    else if |segments| == 1 then segments[0]
    else segments[0] + [AMPERSAND] + Joined(segments[1..])
  }

  /** The order of sorted(). */
  predicate AtMost(a: Text, b: Text) {
    a == [] || (b != [] && (a[0] < b[0] || (a[0] == b[0] && AtMost(a[1..], b[1..]))))
  }

  function Insert(x: Text, segments: seq<Text>): seq<Text> {
    if segments == [] || AtMost(x, segments[0]) then [x] + segments else [segments[0]] + Insert(x, segments[1..])
  }

  function Sorted(segments: seq<Text>): seq<Text> {
    if segments == [] then [] else Insert(segments[0], Sorted(segments[1..]))
  }

  function Arranged(z: Serializer, segments: seq<Text>): seq<Text> {
    if z.alphabetize then Sorted(segments) else segments
  }

  /** ArrayEncoding.encode */
  function ArrayKey(z: Serializer, key: Text): Text {
    if z.brackets then key + [OPEN, CLOSE] else key
  }

  function SubKey(key: Text, sub: Text): Text {
    key + ([OPEN] + sub + [CLOSE])
  }

  /** serialize(_:forKey:) with default keys. */
  function Serialize(z: Serializer, c: Component, key: Text): Text
    decreases c, 0
  {
    match c
    case Str(text) => Escape(z, key) + [EQUALS] + Escape(z, text)
    case Arr(items) => Joined(Arranged(z, ItemSegments(z, items, key, 0)))
    case Obj(entries) => Joined(Arranged(z, EntrySegments(z, entries, Nested(key), 0)))
  }

  function ItemSegments(z: Serializer, items: seq<Component>, key: Text, i: nat): seq<Text>
    requires i <= |items|
    decreases items, |items| - i
  {
    if i == |items| then [] else [Serialize(z, items[i], ArrayKey(z, key))] + ItemSegments(z, items, key, i + 1)
  }

  /** The key an entry is serialized under: its own at the root. */
  datatype Parent = Root | Nested(key: Text)
  {
    function KeyOf(sub: Text): Text { if Root? then sub else SubKey(key, sub) }
  }

  function EntrySegments(z: Serializer, entries: seq<Entry>, parent: Parent, i: nat): seq<Text>
    requires i <= |entries|
    decreases entries, |entries| - i
  {
    if i == |entries| then []
    else [Serialize(z, entries[i].value, parent.KeyOf(entries[i].key))] + EntrySegments(z, entries, parent, i + 1)
  }

  /** serialize(_ object) at the root, with its loop over the entries. */
  method SerializeRoot(z: Serializer, entries: seq<Entry>) returns (query: Text)
    ensures query == Joined(Arranged(z, EntrySegments(z, entries, Root, 0)))
  {
    var output: seq<Text> := [];
    var i := 0;
    while i < |entries|
      invariant 0 <= i <= |entries|
      invariant EntrySegments(z, entries, Root, 0) == output + EntrySegments(z, entries, Root, i)
    {
      output := output + [Serialize(z, entries[i].value, entries[i].key)];
      i := i + 1;
    }
    assert output + [] == output;
    query := Joined(Arranged(z, output));
  }

  // ---------------------------------------------------------------------
  // Parsing
  // ---------------------------------------------------------------------

  datatype Pair = Pair(key: Text, value: Text)

  function Find(t: Text, b: Byte): (i: nat)
    ensures i <= |t| && (i < |t| ==> t[i] == b)
    ensures forall j | 0 <= j < i :: t[j] != b
  {
    if t == [] || t[0] == b then 0 else 1 + Find(t[1..], b)
  }

  function ParsePair(z: Serializer, t: Text): Pair {
    var i := Find(t, EQUALS);
    Pair(Unescape(z, t[..i]), if i < |t| then Unescape(z, t[i + 1..]) else [])
  }

  /** Split at &, then at =, then decode. */
  function Parse(z: Serializer, query: Text): seq<Pair>
    decreases |query|
  {
    var i := Find(query, AMPERSAND);
    if i == |query| then [ParsePair(z, query)]
    else [ParsePair(z, query[..i])] + Parse(z, query[i + 1..])
  }

  function ParseAll(z: Serializer, segments: seq<Text>): seq<Pair> {
    if segments == [] then [] else Parse(z, segments[0]) + ParseAll(z, segments[1..])
  }

  /** What the rest of a path adds to a key: a name in brackets, and for an
      index a pair of brackets or nothing. */
  function Suffix(z: Serializer, path: seq<Key>): Text {
    if path == [] then []
    else (match path[0]
          case Name(name) => [OPEN] + name + [CLOSE]
          case Index(_) => if z.brackets then [OPEN, CLOSE] else []) + Suffix(z, path[1..])
  }

  predicate Named(path: seq<Key>) {
    path != [] && path[0].Name?
  }

  /** The key of a leaf, by its path alone: its first name, and then the rest. */
  function LeafKey(z: Serializer, path: seq<Key>): Text
    requires Named(path)
  {
    path[0].name + Suffix(z, path[1..])
  }

  function LeafPairs(z: Serializer, leaves: seq<Leaf>): (pairs: seq<Pair>)
    requires forall k | 0 <= k < |leaves| :: Named(leaves[k].path)
  {
    seq(|leaves|, k requires 0 <= k < |leaves| => Pair(LeafKey(z, leaves[k].path), leaves[k].text))
  }

  /** The pairs of leaves below a key. */
  function PairsBelow(z: Serializer, key: Text, leaves: seq<Leaf>): seq<Pair> {
    seq(|leaves|, k requires 0 <= k < |leaves| => Pair(key + Suffix(z, leaves[k].path), leaves[k].text))
  }

  /** No empty array or object. */
  predicate Full(c: Component) {
    match c
    case Str(_) => true
    case Arr(items) => items != [] && forall i | 0 <= i < |items| :: Full(items[i])
    case Obj(entries) => entries != [] && forall i | 0 <= i < |entries| :: Full(entries[i].value)
  }

  /** In order, or as a permutation when alphabetised. */
  predicate Same(z: Serializer, a: seq<Pair>, b: seq<Pair>) {
    if z.alphabetize then multiset(a) == multiset(b) else a == b
  }

  lemma {:induction false} FindPast(a: Text, t: Text, b: Byte)
    requires b !in a
    ensures Find(a + t, b) == |a| + Find(t, b)
  {
    if a == [] {
      assert a + t == t;
    } else {
      assert (a + t)[1..] == a[1..] + t;
      FindPast(a[1..], t, b);
    }
  }

  /** The text of a pair is read back as that pair. */
  lemma PairRead(z: Serializer, key: Text, text: Text)
    ensures Parse(z, Escape(z, key) + [EQUALS] + Escape(z, text)) == [Pair(key, text)]
  {
    hide Unescape, Escape;
    var k, v := Escape(z, key), Escape(z, text);
    var t := k + [EQUALS] + v;
    EscapeIsClean(z, key);
    EscapeIsClean(z, text);
    assert AMPERSAND !in t;
    assert t == k + ([EQUALS] + v);
    FindPast(k, [EQUALS] + v, EQUALS);
    assert t[..|k|] == k && t[|k| + 1..] == v;
    UnescapeEscape(z, key);
    UnescapeEscape(z, text);
  }

  /** The first piece of a query, and the rest of it. */
  lemma ParseFirst(z: Serializer, piece: Text, rest: Text)
    requires AMPERSAND !in piece
    ensures Parse(z, piece + [AMPERSAND] + rest) == [ParsePair(z, piece)] + Parse(z, rest)
  {
    hide ParsePair;
    var t := piece + [AMPERSAND] + rest;
    assert t == piece + ([AMPERSAND] + rest);
    FindPast(piece, [AMPERSAND] + rest, AMPERSAND);
    assert t[..|piece|] == piece && t[|piece| + 1..] == rest;
  }

  /** The last piece. */
  lemma ParseLast(z: Serializer, piece: Text)
    requires Find(piece, AMPERSAND) == |piece|
    ensures Parse(z, piece) == [ParsePair(z, piece)]
  {
    hide ParsePair;
    assert piece[..|piece|] == piece;
  }

  lemma {:induction false} ParseConcat(z: Serializer, a: Text, b: Text)
    ensures Parse(z, a + [AMPERSAND] + b) == Parse(z, a) + Parse(z, b)
    decreases |a|
  {
    hide Parse, ParsePair, Find;
    var i := Find(a, AMPERSAND);
    if i == |a| {
      ParseLast(z, a);
      ParseFirst(z, a, b);
    } else {
      assert a == a[..i] + [AMPERSAND] + a[i + 1..];
      ParseConcat(z, a[i + 1..], b);
      ParseMore(z, a[..i], a[i + 1..], b);
      ParseFirst(z, a[..i], a[i + 1..]);
    }
  }

  lemma ParseMore(z: Serializer, piece: Text, rest: Text, b: Text)
    requires AMPERSAND !in piece
    requires Parse(z, rest + [AMPERSAND] + b) == Parse(z, rest) + Parse(z, b)
    ensures Parse(z, piece + [AMPERSAND] + rest + [AMPERSAND] + b) == Parse(z, piece + [AMPERSAND] + rest) + Parse(z, b)
  {
    hide Parse, ParsePair;
    ParseFirst(z, piece, rest);
    ParseFirst(z, piece, rest + [AMPERSAND] + b);
    assert piece + [AMPERSAND] + rest + [AMPERSAND] + b == piece + [AMPERSAND] + (rest + [AMPERSAND] + b);
  }

  lemma {:induction false} ParseJoined(z: Serializer, segments: seq<Text>)
    requires segments != []
    ensures Parse(z, Joined(segments)) == ParseAll(z, segments)
  {
    hide Parse;
    if |segments| == 1 {
      assert ParseAll(z, segments[1..]) == [];
    } else {
      ParseConcat(z, segments[0], Joined(segments[1..]));
      ParseJoined(z, segments[1..]);
    }
  }

  lemma {:induction false} InsertParsed(z: Serializer, x: Text, segments: seq<Text>)
    ensures |Insert(x, segments)| == |segments| + 1
    ensures multiset(ParseAll(z, Insert(x, segments))) == multiset(Parse(z, x)) + multiset(ParseAll(z, segments))
  {
    hide Parse, AtMost;
    if segments == [] || AtMost(x, segments[0]) {
      assert ([x] + segments)[1..] == segments;
    } else {
      InsertParsed(z, x, segments[1..]);
      assert ([segments[0]] + Insert(x, segments[1..]))[1..] == Insert(x, segments[1..]);
    }
  }

  /** Sorting the segments only permutes what they parse to. */
  lemma {:induction false} SortedParsed(z: Serializer, segments: seq<Text>)
    ensures |Sorted(segments)| == |segments|
    ensures multiset(ParseAll(z, Sorted(segments))) == multiset(ParseAll(z, segments))
  {
    if segments != [] {
      InsertParsed(z, segments[0], Sorted(segments[1..]));
      SortedParsed(z, segments[1..]);
    }
  }

  lemma ArrangedParsed(z: Serializer, segments: seq<Text>)
    requires segments != []
    ensures Same(z, Parse(z, Joined(Arranged(z, segments))), ParseAll(z, segments))
  {
    SortedParsed(z, segments);
    ParseJoined(z, Arranged(z, segments));
  }

  lemma SameConcat(z: Serializer, a: seq<Pair>, a': seq<Pair>, b: seq<Pair>, b': seq<Pair>)
    requires Same(z, a, a') && Same(z, b, b')
    ensures Same(z, a + b, a' + b')
  {
  }

  lemma BelowIndex(z: Serializer, key: Text, i: nat, leaves: seq<Leaf>)
    ensures PairsBelow(z, key, Prefixed(Index(i), leaves)) == PairsBelow(z, ArrayKey(z, key), leaves)
  {
    var all := Prefixed(Index(i), leaves);
    forall k | 0 <= k < |leaves| ensures key + Suffix(z, all[k].path) == ArrayKey(z, key) + Suffix(z, leaves[k].path) {
      assert all[k].path[1..] == leaves[k].path;
    }
  }

  lemma BelowName(z: Serializer, key: Text, name: Text, leaves: seq<Leaf>)
    ensures PairsBelow(z, key, Prefixed(Name(name), leaves)) == PairsBelow(z, SubKey(key, name), leaves)
  {
    var all := Prefixed(Name(name), leaves);
    forall k | 0 <= k < |leaves| ensures key + Suffix(z, all[k].path) == SubKey(key, name) + Suffix(z, leaves[k].path) {
      assert all[k].path[1..] == leaves[k].path;
    }
  }

  lemma BelowRoot(z: Serializer, name: Text, leaves: seq<Leaf>)
    ensures forall k | 0 <= k < |leaves| :: Named(Prefixed(Name(name), leaves)[k].path)
    ensures LeafPairs(z, Prefixed(Name(name), leaves)) == PairsBelow(z, name, leaves)
  {
    var all := Prefixed(Name(name), leaves);
    forall k | 0 <= k < |leaves| ensures all[k].path[1..] == leaves[k].path {}
  }

  /** Query printing is parseable: splitting the text of any tree without empty
      containers at & and = and decoding gives its leaves, each under the key
      that its path stands for. */
  lemma {:induction false} SerializeParses(z: Serializer, c: Component, key: Text)
    requires Full(c)
    ensures Same(z, Parse(z, Serialize(z, c, key)), PairsBelow(z, key, Leaves(c)))
    decreases c, 0
  {
    match c
    case Str(text) =>
      PairRead(z, key, text);
      assert PairsBelow(z, key, Leaves(c)) == [Pair(key, text)] by { assert key + [] == key; }
    case Arr(items) =>
      ArrangedParsed(z, ItemSegments(z, items, key, 0));
      ItemsParse(z, items, key, 0);
    case Obj(entries) =>
      ArrangedParsed(z, EntrySegments(z, entries, Nested(key), 0));
      EntriesParse(z, entries, key, 0);
  }

  lemma {:induction false} ItemsParse(z: Serializer, items: seq<Component>, key: Text, i: nat)
    requires i <= |items| && forall k | 0 <= k < |items| :: Full(items[k])
    ensures Same(z, ParseAll(z, ItemSegments(z, items, key, i)), PairsBelow(z, key, ItemLeaves(items, i)))
    decreases items, |items| - i
  {
    if i < |items| {
      var segments, leaves := ItemSegments(z, items, key, i), Prefixed(Index(i), Leaves(items[i]));
      SerializeParses(z, items[i], ArrayKey(z, key));
      BelowIndex(z, key, i, Leaves(items[i]));
      ItemsParse(z, items, key, i + 1);
      assert segments[1..] == ItemSegments(z, items, key, i + 1);
      SameConcat(z, Parse(z, segments[0]), PairsBelow(z, key, leaves),
                 ParseAll(z, segments[1..]), PairsBelow(z, key, ItemLeaves(items, i + 1)));
      BelowConcat(z, key, leaves, ItemLeaves(items, i + 1));
    }
  }

  lemma BelowConcat(z: Serializer, key: Text, a: seq<Leaf>, b: seq<Leaf>)
    ensures PairsBelow(z, key, a + b) == PairsBelow(z, key, a) + PairsBelow(z, key, b)
  {
  }

  lemma {:induction false} EntriesParse(z: Serializer, entries: seq<Entry>, key: Text, i: nat)
    requires i <= |entries| && forall k | 0 <= k < |entries| :: Full(entries[k].value)
    ensures Same(z, ParseAll(z, EntrySegments(z, entries, Nested(key), i)), PairsBelow(z, key, EntryLeaves(entries, i)))
    decreases entries, |entries| - i
  {
    if i < |entries| {
      var e := entries[i];
      var segments, leaves := EntrySegments(z, entries, Nested(key), i), Prefixed(Name(e.key), Leaves(e.value));
      SerializeParses(z, e.value, SubKey(key, e.key));
      BelowName(z, key, e.key, Leaves(e.value));
      EntriesParse(z, entries, key, i + 1);
      assert segments[1..] == EntrySegments(z, entries, Nested(key), i + 1);
      SameConcat(z, Parse(z, segments[0]), PairsBelow(z, key, leaves),
                 ParseAll(z, segments[1..]), PairsBelow(z, key, EntryLeaves(entries, i + 1)));
      BelowConcat(z, key, leaves, EntryLeaves(entries, i + 1));
    }
  }

  lemma {:induction false} RootParses(z: Serializer, entries: seq<Entry>, i: nat)
    requires i <= |entries| && forall k | 0 <= k < |entries| :: Full(entries[k].value)
    ensures forall k | 0 <= k < |EntryLeaves(entries, i)| :: Named(EntryLeaves(entries, i)[k].path)
    ensures Same(z, ParseAll(z, EntrySegments(z, entries, Root, i)), LeafPairs(z, EntryLeaves(entries, i)))
    decreases |entries| - i
  {
    if i < |entries| {
      var e := entries[i];
      var segments, leaves := EntrySegments(z, entries, Root, i), Prefixed(Name(e.key), Leaves(e.value));
      SerializeParses(z, e.value, e.key);
      BelowRoot(z, e.key, Leaves(e.value));
      RootParses(z, entries, i + 1);
      assert segments[1..] == EntrySegments(z, entries, Root, i + 1);
      SameConcat(z, Parse(z, segments[0]), LeafPairs(z, leaves),
                 ParseAll(z, segments[1..]), LeafPairs(z, EntryLeaves(entries, i + 1)));
      LeafPairsConcat(z, leaves, EntryLeaves(entries, i + 1));
    }
  }

  lemma LeafPairsConcat(z: Serializer, a: seq<Leaf>, b: seq<Leaf>)
    requires forall k | 0 <= k < |a| :: Named(a[k].path)
    requires forall k | 0 <= k < |b| :: Named(b[k].path)
    ensures forall k | 0 <= k < |a + b| :: Named((a + b)[k].path)
    ensures LeafPairs(z, a + b) == LeafPairs(z, a) + LeafPairs(z, b)
  {
  }

  /** The whole query: its pairs are those of the leaves of the root object. */
  lemma QueryParses(z: Serializer, entries: seq<Entry>)
    requires Full(Obj(entries))
    ensures forall k | 0 <= k < |Leaves(Obj(entries))| :: Named(Leaves(Obj(entries))[k].path)
    ensures Same(z, Parse(z, Joined(Arranged(z, EntrySegments(z, entries, Root, 0)))), LeafPairs(z, Leaves(Obj(entries))))
  {
    ArrangedParsed(z, EntrySegments(z, entries, Root, 0));
    RootParses(z, entries, 0);
  }

  lemma {:induction false} PlainIsFull(c: Component)
    requires Plain(c)
    ensures Full(c)
  {
    match c
    case Str(_) =>
    case Arr(items) => forall i | 0 <= i < |items| ensures Full(items[i]) { PlainIsFull(items[i]); }
    case Obj(entries) => forall i | 0 <= i < |entries| ensures Full(entries[i].value) { PlainIsFull(entries[i].value); }
  }

  /** From end to end: what a receiver reads out of the query of a nested value
      are the leaves of that value, each with the key of its coding path. */
  lemma EncoderParses(z: Serializer, v: Component)
    requires Plain(v) && v.Obj?
    ensures Encoded(v).Obj? && forall k | 0 <= k < |Leaves(v)| :: Named(Leaves(v)[k].path)
    ensures Same(z, Parse(z, Joined(Arranged(z, EntrySegments(z, Encoded(v).entries, Root, 0)))), LeafPairs(z, Leaves(v)))
  {
    EncodedKeeps(v);
    PlainIsFull(v);
    QueryParses(z, v.entries);
  }

  // ---------------------------------------------------------------------
  // Keys of different leaves
  // ---------------------------------------------------------------------

  /** Names only, none of them with a bracket. */
  predicate PlainNames(path: seq<Key>) {
    forall k | 0 <= k < |path| :: path[k].Name? && OPEN !in path[k].name && CLOSE !in path[k].name
  }

  lemma {:induction false} SuffixesDiffer(z: Serializer, p: seq<Key>, q: seq<Key>)
    requires PlainNames(p) && PlainNames(q) && Suffix(z, p) == Suffix(z, q)
    ensures p == q
  {
    if p != [] && q != [] {
      var m, n, a, b := p[0].name, q[0].name, Suffix(z, p[1..]), Suffix(z, q[1..]);
      assert Suffix(z, p)[1..] == m + ([CLOSE] + a) && Suffix(z, q)[1..] == n + ([CLOSE] + b);
      NamesDiffer(m, a, n, b);
      SuffixesDiffer(z, p[1..], q[1..]);
      assert p == [p[0]] + p[1..] && q == [q[0]] + q[1..];
    }
  }

  /** A name ends at its bracket. */
  lemma NamesDiffer(m: Text, a: Text, n: Text, b: Text)
    requires CLOSE !in m && CLOSE !in n && m + ([CLOSE] + a) == n + ([CLOSE] + b)
    ensures m == n && a == b
  {
    FindPast(m, [CLOSE] + a, CLOSE);
    FindPast(n, [CLOSE] + b, CLOSE);
    SplitSame(m, [CLOSE] + a, n, [CLOSE] + b);
    assert ([CLOSE] + a)[1..] == a && ([CLOSE] + b)[1..] == b;
  }

  lemma SplitSame(a: Text, b: Text, a': Text, b': Text)
    requires a + b == a' + b' && |a| == |a'|
    ensures a == a' && b == b'
  {
    assert a == (a + b)[..|a|] && b == (a + b)[|a|..];
    assert a' == (a' + b')[..|a|] && b' == (a' + b')[|a|..];
  }

  /** Names without brackets lead to a key of their own each. */
  lemma LeafKeysDiffer(z: Serializer, p: seq<Key>, q: seq<Key>)
    requires Named(p) && Named(q) && PlainNames(p) && PlainNames(q)
    ensures LeafKey(z, p) == LeafKey(z, q) <==> p == q
  {
    if LeafKey(z, p) == LeafKey(z, q) {
      FindPast(p[0].name, Suffix(z, p[1..]), OPEN);
      FindPast(q[0].name, Suffix(z, q[1..]), OPEN);
      SplitSame(p[0].name, Suffix(z, p[1..]), q[0].name, Suffix(z, q[1..]));
      SuffixesDiffer(z, p[1..], q[1..]);
      assert p == [p[0]] + p[1..] && q == [q[0]] + q[1..];
    }
  }

  // ---------------------------------------------------------------------
  // The order when alphabetised
  // ---------------------------------------------------------------------

  predicate InOrder(segments: seq<Text>) {
    forall i | 0 <= i < |segments| - 1 :: AtMost(segments[i], segments[i + 1])
  }

  /** The first difference of two texts, if neither is a prefix of the other. */
  ghost predicate DifferAt(a: Text, b: Text, k: nat) {
    k < |a| && k < |b| && a[k] != b[k] && forall j | 0 <= j < k :: a[j] == b[j]
  }

  /** The order is that of dictionaries: a prefix comes first, and otherwise the
      first difference decides. */
  lemma {:induction false} AtMostIsDictionary(a: Text, b: Text, k: nat)
    ensures a <= b ==> AtMost(a, b)
    ensures b < a ==> !AtMost(a, b)
    ensures DifferAt(a, b, k) ==> (AtMost(a, b) <==> a[k] < b[k])
  {
    if a != [] && b != [] {
      AtMostIsDictionary(a[1..], b[1..], if k == 0 then 0 else k - 1);
    }
  }

  lemma {:induction false} AtMostTotal(a: Text, b: Text)
    ensures AtMost(a, b) || AtMost(b, a)
  {
    if a != [] && b != [] && a[0] == b[0] { AtMostTotal(a[1..], b[1..]); }
  }

  lemma {:induction false} InsertInOrder(x: Text, segments: seq<Text>)
    requires InOrder(segments)
    ensures InOrder(Insert(x, segments))
    ensures Insert(x, segments)[0] == x || (segments != [] && Insert(x, segments)[0] == segments[0])
  {
    if segments != [] && !AtMost(x, segments[0]) {
      AtMostTotal(x, segments[0]);
      var rest := segments[1..];
      assert InOrder(rest) by {
        forall i | 0 <= i < |rest| - 1 ensures AtMost(rest[i], rest[i + 1]) {
          assert AtMost(segments[i + 1], segments[i + 1 + 1]);
        }
      }
      InsertInOrder(x, rest);
      var all := [segments[0]] + Insert(x, rest);
      forall i | 0 <= i < |all| - 1 ensures AtMost(all[i], all[i + 1]) {
        if i == 0 {
          assert rest != [] ==> AtMost(segments[0], segments[1]);
        } else {
          assert AtMost(Insert(x, rest)[i - 1], Insert(x, rest)[i - 1 + 1]);
        }
      }
    }
  }

  /** The segments of an alphabetised query are in order, and still the same. */
  lemma {:induction false} SortedInOrder(segments: seq<Text>)
    ensures InOrder(Sorted(segments)) && multiset(Sorted(segments)) == multiset(segments)
  {
    if segments != [] {
      SortedInOrder(segments[1..]);
      InsertInOrder(segments[0], Sorted(segments[1..]));
      InsertKeeps(segments[0], Sorted(segments[1..]));
      assert segments == [segments[0]] + segments[1..];
    }
  }

  lemma {:induction false} InsertKeeps(x: Text, segments: seq<Text>)
    ensures multiset(Insert(x, segments)) == multiset{x} + multiset(segments)
  {
    if segments != [] && !AtMost(x, segments[0]) {
      InsertKeeps(x, segments[1..]);
      assert segments == [segments[0]] + segments[1..];
    }
  }
}
