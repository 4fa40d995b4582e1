/** Base 128 varints: what pb_encode.c writes and the two readers of
    pb_decode.c, as functions of the bytes that remain in the stream. */
module PbVarint {
  import opened Wrappers
  import opened Bits

  // ---------------------------------------------------------------------
  // The code
  // ---------------------------------------------------------------------

  /** pb_encode_varint. */
  function EncodeVarint(n: nat): Bytes {
    if n <= 0x7F then [n] else [n % 128 + 128] + EncodeVarint(n / 128)
  }

  /** pb_decode_varint: the value and the bytes after it. */
  function Varint64(bs: Bytes): Option<(nat, Bytes)> {
    Varint64Loop(bs, 0, 0)
  }

  /** The loop of pb_decode_varint, entered with `bitpos` and `result`. */
  function Varint64Loop(bs: Bytes, bitpos: nat, result: nat): Option<(nat, Bytes)>
    decreases |bs|
  {
    if bitpos >= 64 || bs == [] then None
    else
      var next := Or(result, Shl64(bs[0] % 128, bitpos));
      if bs[0] >= 128 then Varint64Loop(bs[1..], bitpos + 7, next) else Some((next, bs[1..]))
  }

  /** pb_decode_varint32_eof: the value and the bytes after it. */
  function Varint32(bs: Bytes): Option<(nat, Bytes)> {
    if bs == [] then None
    else if bs[0] < 128 then Some((bs[0], bs[1..]))
    else Varint32Loop(bs[1..], 7, bs[0] % 128)
  }

  /** The multi-byte loop of pb_decode_varint32_eof. `bitpos` is an 8-bit
      counter, so it wraps; the overflow test after the loop only looks at a
      last byte read at bit position 28. */
  function Varint32Loop(bs: Bytes, bitpos: nat, result: nat): Option<(nat, Bytes)>
    decreases |bs|
  {
    if bs == [] || Overflows32(bs[0], bitpos, result) then None
    else
      var next := if bitpos >= 32 then result else Or(result, Shl32(bs[0] % 128, bitpos));
      if bs[0] >= 128 then Varint32Loop(bs[1..], (bitpos + 7) % 256, next)
      else if (bitpos + 7) % 256 == 35 && bs[0] % 128 / 16 != 0 then None
      else Some((next, bs[1..]))
  }

  /** A byte past bit 31 that is neither padding nor sign extension. */
  predicate Overflows32(b: Byte, bitpos: nat, result: nat) {
    bitpos >= 32 && b % 128 != 0 && (result / TWO_31 == 0 || b != (if bitpos < 63 then 0xFF else 0x01))
  }

  /** The zig-zag step of pb_encode_svarint, on the 64-bit pattern of `v`. */
  function ZigZag(v: int): nat
    requires -TWO_63 <= v < TWO_63
  {
    if v < 0 then TWO_64 - 1 - (v + TWO_64) * 2 % TWO_64 else v * 2 % TWO_64
  }

  /** The inverse step of pb_decode_svarint. */
  function UnZigZag(n: nat): int
    requires n < TWO_64
  {
    if n % 2 == 1 then ToInt64(TWO_64 - 1 - n / 2) else ToInt64(n / 2)
  }

  /** (int64_t) of a 64-bit pattern. */
  function ToInt64(n: nat): int {
    if n % TWO_64 < TWO_63 then n % TWO_64 else n % TWO_64 - TWO_64
  }

  /** (int32_t) of a 64-bit pattern. */
  function ToInt32(n: nat): int {
    if n % TWO_32 < TWO_31 then n % TWO_32 else n % TWO_32 - TWO_32
  }

  // ---------------------------------------------------------------------
  // The meaning: groups of seven bits, least significant first
  // ---------------------------------------------------------------------

  /** The bytes up to and including the first without a continuation bit. */
  function Split(bs: Bytes): (r: Option<(Bytes, Bytes)>)
    ensures r.Some? ==> r.value.0 + r.value.1 == bs && |r.value.0| > 0
    ensures r.Some? ==> forall k | 0 <= k < |r.value.0| :: r.value.0[k] >= 128 <==> k < |r.value.0| - 1
    ensures r.None? ==> forall k | 0 <= k < |bs| :: bs[k] >= 128
  {
    if bs == [] then None
    else if bs[0] < 128 then Some(([bs[0]], bs[1..]))
    else match Split(bs[1..])
      case None => None
      case Some((run, rest)) => Some(([bs[0]] + run, rest))
  }

  /** The number a run of varint bytes stands for. */
  function Leb128(run: Bytes): nat {
    if run == [] then 0 else run[0] % 128 + 128 * Leb128(run[1..])
  }

  // ---------------------------------------------------------------------
  // Reader of 64-bit values
  // ---------------------------------------------------------------------

  lemma ModUnique(n: nat, w: nat, d: nat, m: nat)
    requires w > 0 && n == m + w * d && m < w
    ensures n % w == m && n / w == d
  {
    var q := n / w;
    if q < d { MulMono(q + 1, d, w); } else if q > d { MulMono(d + 1, q, w); }
  }

  lemma MulMono(a: nat, b: nat, w: nat)
    requires a <= b
    ensures w * a <= w * b
  {
  }

  lemma ProductPositive(p: nat, q: nat)
    requires p > 0 && q > 0
    ensures p * q > 0
  {
  }

  /** A digit below `q` and a remainder below `p` stay below `p * q`. */
  lemma DigitsBelow(r: nat, g: nat, p: nat, q: nat)
    requires r < p && g < q
    ensures r + g * p < p * q
  {
    MulMono(g + 1, q, p);
    assert p * (g + 1) == g * p + p;
  }

  lemma Redistribute(g: nat, d: nat, p: nat, q: nat)
    ensures (q * d + g) * p == g * p + (p * q) * d
  {
    calc { (q * d + g) * p; (q * d) * p + g * p; (p * q) * d + g * p; }
  }

  /** Truncating to `p * q` keeps the part below `p` and the low part of the
      multiple of `p`. */
  lemma SplitMod(r: nat, x: nat, p: nat, q: nat)
    requires r < p && q > 0
    ensures p * q > 0 && (r + x * p) % (p * q) == r + (x % q) * p
  {
    var g, d := x % q, x / q;
    ProductPositive(p, q);
    DigitsBelow(r, g, p, q);
    Redistribute(g, d, p, q);
    var pq, xp, gp := p * q, x * p, g * p;
    ModUnique(r + xp, pq, d, r + gp);
  }

  /** Or-ing in a shifted group adds it, truncated to the word. */
  lemma OrGroup(result: nat, x: nat, k: nat, w: nat)
    requires k <= w && result < Pow2(k)
    ensures Or(result, x * Pow2(k) % Pow2(w)) == (result + x * Pow2(k)) % Pow2(w)
  {
    hide Or, Pow2;
    Pow2Add(k, w - k);
    SplitMod(result, x, Pow2(k), Pow2(w - k));
    SplitMod(0, x, Pow2(k), Pow2(w - k));
    OrDisjoint(result, x % Pow2(w - k), k);
  }

  /** One step of either loop on a `w`-bit word: the accumulated value stays
      the value read so far, truncated to the word and below the next bit
      position. */
  lemma GroupStep(result: nat, x: nat, k: nat, w: nat)
    requires k <= w && result < Pow2(k) && x < 128
    ensures Or(result, x * Pow2(k) % Pow2(w)) == (result + x * Pow2(k)) % Pow2(w)
    ensures Or(result, x * Pow2(k) % Pow2(w)) < Pow2(k + 7)
  {
    assert Pow2(7) == 128 by { Pow2Constants(); }
    OrGroup(result, x, k, w);
    Pow2Add(k, 7);
    BelowNext(result, x, Pow2(k), Pow2(w));
  }

  lemma BelowNext(result: nat, x: nat, p: nat, w: nat)
    requires w > 0 && result < p && x < 128
    ensures (result + x * p) % w < p * 128
  {
    MulMono(x + 1, 128, p);
    assert result + x * p < p * (x + 1);
    ModAtMost(result + x * p, w);
  }

  lemma ModAtMost(n: nat, w: nat)
    requires w > 0
    ensures n % w <= n
  {
    if n < w { ModUnique(n, w, 0, n); }
  }

  lemma {:induction false} Varint64LoopIsLeb(bs: Bytes, bitpos: nat, result: nat)
    requires bitpos % 7 == 0 && bitpos <= 70
    requires result < TWO_64 && (bitpos <= 63 ==> result < Pow2(bitpos))
    ensures Varint64Loop(bs, bitpos, result) ==
            match Split(bs)
            case None => None
            case Some((run, rest)) =>
              if bitpos + 7 * |run| <= 70
              then Some(((result + Leb128(run) * Pow2(bitpos)) % TWO_64, rest)) else None
    decreases |bs|
  {
    hide Pow2, Or;
    if bitpos < 64 && bs != [] {
      var x, next := bs[0] % 128, Or(result, Shl64(bs[0] % 128, bitpos));
      Step64(result, x, 0, bitpos);
      if bs[0] >= 128 {
        Varint64LoopIsLeb(bs[1..], bitpos + 7, next);
      }
      if Split(bs).Some? {
        var run := Split(bs).value.0;
        var l := Leb128(run[1..]);
        assert run[0] == bs[0] && Leb128(run) == x + 128 * l;
        Step64(result, x, l, bitpos);
        if bs[0] >= 128 { assert run[1..] == Split(bs[1..]).value.0; }
      }
    }
  }

  lemma Step64(result: nat, x: nat, l: nat, k: nat)
    requires k <= 63 && x < 128 && result < Pow2(k)
    ensures Or(result, Shl64(x, k)) == (result + x * Pow2(k)) % TWO_64
    ensures Or(result, Shl64(x, k)) < Pow2(k + 7)
    ensures (Or(result, Shl64(x, k)) + l * Pow2(k + 7)) % TWO_64 == (result + (x + 128 * l) * Pow2(k)) % TWO_64
  {
    assert Pow2(64) == TWO_64 by { Pow2Constants(); }
    GroupStep(result, x, k, 64);
    GroupsAdd(result, x, l, k, 64);
  }

  lemma GroupsAdd(result: nat, x: nat, l: nat, k: nat, w: nat)
    ensures ((result + x * Pow2(k)) % Pow2(w) + l * Pow2(k + 7)) % Pow2(w)
            == (result + (x + 128 * l) * Pow2(k)) % Pow2(w)
  {
    assert Pow2(7) == 128 by { Pow2Constants(); }
    Pow2Add(k, 7);
    var p := Pow2(k);
    calc { (x + 128 * l) * p; x * p + 128 * l * p; x * p + l * (p * 128); }
    ModAdd(result + x * p, l * Pow2(k + 7), Pow2(w));
  }

  lemma ModAdd(a: nat, b: nat, w: nat)
    requires w > 0
    ensures (a % w + b) % w == (a + b) % w
  {
    var q, r := a / w, a % w;
    var q2, r2 := (r + b) / w, (r + b) % w;
    calc { a + b; w * q + r + b; w * q + (w * q2 + r2); r2 + w * (q + q2); }
    ModUnique(a + b, w, q + q2, r2);
  }

  /** pb_decode_varint accepts exactly the runs of at most ten bytes, and reads
      the low 64 bits of their value. */
  lemma Varint64IsLeb(bs: Bytes)
    ensures Varint64(bs) ==
            match Split(bs)
            case None => None
            case Some((run, rest)) => if |run| <= 10 then Some((Leb128(run) % TWO_64, rest)) else None
  {
    Varint64LoopIsLeb(bs, 0, 0);
    if Split(bs).Some? {
      assert Leb128(Split(bs).value.0) * Pow2(0) == Leb128(Split(bs).value.0);
    }
  }

  // ---------------------------------------------------------------------
  // Writer
  // ---------------------------------------------------------------------

  /** The encoder writes one run that stands for the value, and nothing in it
      looks like the end of the run before its last byte. */
  lemma {:induction false} EncodeVarintIsLeb(n: nat, rest: Bytes)
    ensures Split(EncodeVarint(n) + rest) == Some((EncodeVarint(n), rest))
    ensures Leb128(EncodeVarint(n)) == n
    decreases n
  {
    hide Split, Leb128;
    if n <= 0x7F {
      LastByte(n, rest);
    } else {
      var b, bs := n % 128 + 128, EncodeVarint(n / 128);
      EncodeVarintIsLeb(n / 128, rest);
      SplitNext(b, bs + rest);
      assert EncodeVarint(n) + rest == [b] + (bs + rest);
      LebNext(n % 128, bs);
    }
  }

  lemma LastByte(b: Byte, rest: Bytes)
    requires b < 128
    ensures Split([b] + rest) == Some(([b], rest)) && Leb128([b]) == b
  {
    assert ([b] + rest)[1..] == rest;
    assert Leb128([b][1..]) == 0;
  }

  lemma LebNext(x: Byte, run: Bytes)
    requires x < 128
    ensures Leb128([x + 128] + run) == x + 128 * Leb128(run)
  {
    var bs: Bytes := [x + 128] + run;
    assert bs[1..] == run && bs[0] % 128 == x;
  }

  lemma SplitNext(b: Byte, bs: Bytes)
    requires b >= 128 && Split(bs).Some?
    ensures Split([b] + bs) == Some(([b] + Split(bs).value.0, Split(bs).value.1))
  {
    assert ([b] + bs)[1..] == bs;
  }

  lemma {:induction false} EncodeVarintLength(n: nat, k: nat)
    requires k > 0 && n < Pow2(7 * k)
    ensures 1 <= |EncodeVarint(n)| <= k
    decreases k
  {
    if n > 0x7F {
      Pow2Add(7, 7 * (k - 1));
      Pow2Constants();
      assert k > 1 by { if k == 1 { assert Pow2(7) == 128; } }
      assert n / 128 < Pow2(7 * (k - 1));
      EncodeVarintLength(n / 128, k - 1);
    }
  }

  /** Every 64-bit value takes between one and ten bytes. */
  lemma EncodeVarint64Length(n: nat)
    requires n < TWO_64
    ensures 1 <= |EncodeVarint(n)| <= 10
  {
    Pow2Constants();
    Pow2Add(64, 6);
    assert Pow2(6) == 64;
    EncodeVarintLength(n, 10);
  }

  /** Varint round trip: the value comes back and the reader stops exactly
      after it, whatever follows. */
  lemma VarintRoundTrip(n: nat, rest: Bytes)
    requires n < TWO_64
    ensures Varint64(EncodeVarint(n) + rest) == Some((n, rest))
  {
    hide Pow2, Or, Varint64, Leb128, EncodeVarint, Split;
    EncodeVarintIsLeb(n, rest);
    EncodeVarint64Length(n);
    Varint64IsLeb(EncodeVarint(n) + rest);
  }

  /** The bit trick of the encoder is the zig-zag numbering 0, -1, 1, -2, ... */
  lemma ZigZagNumbers(v: int)
    requires -TWO_63 <= v < TWO_63
    ensures ZigZag(v) == if v < 0 then -2 * v - 1 else 2 * v
  {
    if v < 0 { ModUnique((v + TWO_64) * 2, TWO_64, 1, 2 * v + TWO_64); }
  }

  lemma UnZigZagNumbers(n: nat)
    requires n < TWO_64
    ensures UnZigZag(n) == if n % 2 == 1 then -(n / 2) - 1 else n / 2
  {
    var h := n / 2;
    if n % 2 == 1 { ModUnique(TWO_64 - 1 - h, TWO_64, 0, TWO_64 - 1 - h); } else { ModUnique(h, TWO_64, 0, h); }
  }

  /** Zig-zag inverts on all of int64, and every 64-bit pattern is reached. */
  lemma ZigZagRoundTrip(v: int, n: nat)
    requires -TWO_63 <= v < TWO_63 && n < TWO_64
    ensures ZigZag(v) < TWO_64 && UnZigZag(ZigZag(v)) == v
    ensures -TWO_63 <= UnZigZag(n) < TWO_63 && ZigZag(UnZigZag(n)) == n
  {
    hide ZigZag, UnZigZag;
    ZigZagNumbers(v);
    UnZigZagNumbers(ZigZag(v));
    UnZigZagNumbers(n);
    ZigZagNumbers(UnZigZag(n));
  }

  // ---------------------------------------------------------------------
  // Reader of 32-bit values
  // ---------------------------------------------------------------------

  /** What the 32-bit reader tolerates in a run of at most 37 bytes, from byte
      `i` on, when the run stands for `low` modulo 2^32: nothing but padding and
      sign extension past bit 31, and no stray bit in a fifth byte that is the
      last one. */
  predicate Accepts32(run: Bytes, i: nat, low: nat) {
    run == [] ||
    (!Overflows32(run[0], 7 * i, low)
     && (i == 4 && |run| == 1 ==> run[0] % 128 < 16)
     && Accepts32(run[1..], i + 1, low))
  }

  lemma {:induction false} Varint32LoopIsLeb(bs: Bytes, i: nat, result: nat)
    requires 1 <= i <= 37 && result < TWO_32 && (i <= 4 ==> result < Pow2(7 * i))
    requires Split(bs).Some? ==> i + |Split(bs).value.0| <= 37
    ensures Varint32Loop(bs, 7 * i, result) ==
            match Split(bs)
            case None => Varint32Loop(bs, 7 * i, result)
            case Some((run, rest)) =>
              var low := (result + Leb128(run) * Pow2(7 * i)) % TWO_32;
              if Accepts32(run, i, low) then Some((low, rest)) else None
    decreases |bs|
  {
    hide Pow2, Or, Varint32Loop, Accepts32, Overflows32;
    if Split(bs).Some? {
      if bs[0] < 128 {
        LastGroup32(bs, i, result);
      } else {
        var run, rest := Split(bs).value.0, Split(bs[1..]).value;
        var next := if i >= 5 then result else Or(result, Shl32(bs[0] % 128, 7 * i));
        assert run[1..] == rest.0;
        Step32(result, bs[0] % 128, Leb128(rest.0), i);
        Varint32LoopIsLeb(bs[1..], i + 1, next);
        MoreRead32(bs, i, result);
        MoreAccepted(run, i, (result + Leb128(run) * Pow2(7 * i)) % TWO_32);
        FreeBelow32(bs[0], i, result, (result + Leb128(run) * Pow2(7 * i)) % TWO_32);
      }
    }
  }

  lemma MoreRead32(bs: Bytes, i: nat, result: nat)
    requires 1 <= i <= 35 && bs != [] && bs[0] >= 128
    ensures Varint32Loop(bs, 7 * i, result) ==
            if Overflows32(bs[0], 7 * i, result) then None
            else Varint32Loop(bs[1..], 7 * (i + 1), if i >= 5 then result else Or(result, Shl32(bs[0] % 128, 7 * i)))
  {
    hide Pow2, Or, Overflows32, Shl32;
    assert (7 * i + 7) % 256 == 7 * (i + 1);
  }

  lemma MoreAccepted(run: Bytes, i: nat, low: nat)
    requires |run| > 1
    ensures Accepts32(run, i, low) == (!Overflows32(run[0], 7 * i, low) && Accepts32(run[1..], i + 1, low))
  {
  }

  /** A byte below bit 32 never overflows. */
  lemma FreeBelow32(b: Byte, i: nat, result: nat, low: nat)
    ensures i <= 4 ==> !Overflows32(b, 7 * i, result) && !Overflows32(b, 7 * i, low)
  {
  }

  lemma LastGroup32(bs: Bytes, i: nat, result: nat)
    requires 1 <= i <= 36 && result < TWO_32 && (i <= 4 ==> result < Pow2(7 * i))
    requires bs != [] && bs[0] < 128
    ensures var low := (result + Leb128([bs[0]]) * Pow2(7 * i)) % TWO_32;
            Varint32Loop(bs, 7 * i, result) == if Accepts32([bs[0]], i, low) then Some((low, bs[1..])) else None
  {
    hide Split, Pow2, Or, Varint32Loop, Accepts32;
    var b, next := bs[0], if i >= 5 then result else Or(result, Shl32(bs[0], 7 * i));
    assert Leb128([b][1..]) == 0;
    Step32(result, b, 0, i);
    NoMoreGroups(next, 7 * i + 7);
    LastRead32(bs, i, result);
    LastAccepted(b, i, next);
    FreeBelow32(b, i, result, next);
  }

  lemma LastRead32(bs: Bytes, i: nat, result: nat)
    requires 1 <= i <= 36 && bs != [] && bs[0] < 128
    ensures Varint32Loop(bs, 7 * i, result) ==
            if Overflows32(bs[0], 7 * i, result) || (i == 4 && bs[0] >= 16) then None
            else Some((if i >= 5 then result else Or(result, Shl32(bs[0], 7 * i)), bs[1..]))
  {
    hide Pow2, Or;
  }

  lemma LastAccepted(b: Byte, i: nat, low: nat)
    requires b < 128
    ensures Accepts32([b], i, low) == (!Overflows32(b, 7 * i, low) && (i == 4 ==> b < 16))
  {
    assert Accepts32([b][1..], i + 1, low);
  }

  lemma NoMoreGroups(n: nat, k: nat)
    requires n < TWO_32
    ensures (n + 0 * Pow2(k)) % TWO_32 == n
  {
  }

  lemma Step32(result: nat, x: nat, l: nat, i: nat)
    requires x < 128 && result < TWO_32 && (i <= 4 ==> result < Pow2(7 * i))
    ensures var next := if i >= 5 then result else Or(result, Shl32(x, 7 * i));
            && next < TWO_32
            && (i + 1 <= 4 ==> next < Pow2(7 * i + 7))
            && (next + l * Pow2(7 * i + 7)) % TWO_32 == (result + (x + 128 * l) * Pow2(7 * i)) % TWO_32
            && (i >= 5 ==> (result + (x + 128 * l) * Pow2(7 * i)) % TWO_32 == result)
  {
    hide Or, Pow2, Shl32;
    if i >= 5 {
      HighGroupsVanish(result, l, 7 * i + 7);
      HighGroupsVanish(result, x + 128 * l, 7 * i);
    } else {
      LowStep32(result, x, l, 7 * i);
    }
  }

  lemma LowStep32(result: nat, x: nat, l: nat, k: nat)
    requires x < 128 && k <= 32 && result < Pow2(k)
    ensures var next := Or(result, Shl32(x, k));
            next < TWO_32 && next < Pow2(k + 7)
            && (next + l * Pow2(k + 7)) % TWO_32 == (result + (x + 128 * l) * Pow2(k)) % TWO_32
  {
    hide Or, Pow2;
    assert Pow2(32) == TWO_32 by { Pow2Constants(); }
    GroupStep(result, x, k, 32);
    GroupsAdd(result, x, l, k, 32);
  }

  lemma HighGroupsVanish(result: nat, l: nat, k: nat)
    requires k >= 32 && result < TWO_32
    ensures (result + l * Pow2(k)) % TWO_32 == result
  {
    hide Pow2, Or;
    assert Pow2(32) == TWO_32 by { Pow2Constants(); }
    Pow2Add(32, k - 32);
    var q := Pow2(k - 32);
    calc { l * Pow2(k); l * (TWO_32 * q); TWO_32 * (l * q); }
    ModUnique(result + l * Pow2(k), TWO_32, l * q, result);
  }

  lemma {:induction false} NoEndNoValue32(bs: Bytes, bitpos: nat, result: nat)
    requires Split(bs).None?
    ensures Varint32Loop(bs, bitpos, result).None?
    decreases |bs|
  {
    if bs != [] {
      var next := if bitpos >= 32 then result else Or(result, Shl32(bs[0] % 128, bitpos));
      NoEndNoValue32(bs[1..], (bitpos + 7) % 256, next);
    }
  }

  /** pb_decode_varint32 on every input whose run has at most 37 bytes: which
      ones it accepts, and that it then reads the low 32 bits of their value. */
  lemma Varint32IsLeb(bs: Bytes)
    requires Split(bs).Some? ==> |Split(bs).value.0| <= 37
    ensures Varint32(bs) ==
            match Split(bs)
            case None => None
            case Some((run, rest)) =>
              var low := Leb128(run) % TWO_32;
              if Accepts32(run, 0, low) then Some((low, rest)) else None
  {
    if Split(bs).None? {
      if bs != [] { NoEndNoValue32(bs[1..], 7, bs[0] % 128); }
    } else if bs[0] < 128 {
      OneByte32(bs);
    } else {
      MoreBytes32(bs);
    }
  }

  lemma OneByte32(bs: Bytes)
    requires bs != [] && bs[0] < 128
    ensures Split(bs) == Some(([bs[0]], bs[1..])) && Leb128([bs[0]]) % TWO_32 == bs[0]
    ensures Accepts32([bs[0]], 0, bs[0]) && Varint32(bs) == Some((bs[0], bs[1..]))
  {
    assert Leb128([bs[0]][1..]) == 0;
    assert Accepts32([bs[0]][1..], 1, bs[0]);
  }

  lemma MoreBytes32(bs: Bytes)
    requires Split(bs).Some? && |Split(bs).value.0| <= 37 && bs[0] >= 128
    ensures var (run, rest) := Split(bs).value;
            var low := Leb128(run) % TWO_32;
            Varint32(bs) == if Accepts32(run, 0, low) then Some((low, rest)) else None
  {
    hide Pow2, Or, Varint32Loop, Accepts32;
    var run := Split(bs).value.0;
    var x, l := bs[0] % 128, Leb128(run[1..]);
    assert Split(bs[1..]).Some? && run[1..] == Split(bs[1..]).value.0;
    assert Pow2(7) == 128 by { Pow2Constants(); }
    Varint32LoopIsLeb(bs[1..], 1, x);
    assert Leb128(run) == x + 128 * l == x + l * Pow2(7 * 1);
    FirstAccepted(run, Leb128(run) % TWO_32);
  }

  /** A first byte is never refused. */
  lemma FirstAccepted(run: Bytes, low: nat)
    requires run != []
    ensures |run| > 1 ==> Accepts32(run, 0, low) == Accepts32(run[1..], 1, low)
  {
  }

  /** The 32-bit reader refines the 64-bit one: on bytes both accept they stop at
      the same place and agree modulo 2^32. */
  lemma Varint32Refines(bs: Bytes)
    requires Varint32(bs).Some? && Varint64(bs).Some?
    ensures Varint32(bs) == Some((Varint64(bs).value.0 % TWO_32, Varint64(bs).value.1))
  {
    Varint64IsLeb(bs);
    Varint32IsLeb(bs);
    var n := Leb128(Split(bs).value.0);
    var q := n / TWO_64;
    ModUnique(n, TWO_32, q * TWO_32 + n % TWO_64 / TWO_32, n % TWO_64 % TWO_32);
  }

  lemma {:induction false} UnsignedAccepted(m: nat, i: nat, low: nat)
    requires i <= 4 && m < Pow2(32 - 7 * i)
    ensures Accepts32(EncodeVarint(m), i, low)
    decreases 4 - i
  {
    if i == 4 {
      assert Pow2(4) == 16;
      assert EncodeVarint(m)[1..] == [];
    } else if m <= 0x7F {
      assert EncodeVarint(m)[1..] == [];
    } else {
      Pow2Add(25 - 7 * i, 7);
      Pow2Constants();
      UnsignedAccepted(m / 128, i + 1, low);
      assert EncodeVarint(m)[1..] == EncodeVarint(m / 128);
    }
  }

  /** From byte `i` on, a sign-extended negative number is all ones but for the
      bits below `2^(35 - 7i)`. */
  ghost predicate SignExtended(m: nat, i: nat)
    requires i <= 9
  {
    Pow2(64 - 7 * i) - Pow2(if i <= 5 then 35 - 7 * i else 0) <= m < Pow2(64 - 7 * i)
  }

  lemma {:induction false} SignExtendedAccepted(m: nat, i: nat, low: nat)
    requires i <= 9 && SignExtended(m, i) && TWO_31 <= low < TWO_32
    ensures Accepts32(EncodeVarint(m), i, low)
    decreases 9 - i
  {
    hide SignExtended, Pow2;
    SignGroup(m, i);
    if i == 9 {
      assert EncodeVarint(m)[1..] == [];
    } else {
      SignExtendedAccepted(m / 128, i + 1, low);
      assert EncodeVarint(m)[1..] == EncodeVarint(m / 128);
    }
  }

  lemma SignGroup(m: nat, i: nat)
    requires i <= 9 && SignExtended(m, i)
    ensures if i == 9 then m == 1 else m > 0x7F && SignExtended(m / 128, i + 1)
    ensures 5 <= i < 9 ==> m % 128 == 127
  {
    if i <= 4 {
      SignGroupLow(m, i);
    } else if i <= 8 {
      SignGroupHigh(m, i);
    }
  }

  lemma SignGroupLow(m: nat, i: nat)
    requires i <= 4 && SignExtended(m, i)
    ensures m > 0x7F && SignExtended(m / 128, i + 1)
  {
    hide Pow2;
    SevenMore(57 - 7 * i);
    SevenMore(28 - 7 * i);
    Pow2Below(28 - 7 * i, 57 - 7 * i);
  }

  lemma SignGroupHigh(m: nat, i: nat)
    requires 5 <= i <= 8 && SignExtended(m, i)
    ensures m > 0x7F && SignExtended(m / 128, i + 1) && m % 128 == 127
  {
    hide Pow2;
    assert Pow2(0) == 1 by { PowZero(); }
    SevenMore(57 - 7 * i);
    Pow2Below(0, 57 - 7 * i);
    if i == 5 { assert Pow2(35 - 7 * i) == 1; }
  }

  lemma PowZero()
    ensures Pow2(0) == 1
  {
  }

  lemma SevenMore(k: nat)
    ensures Pow2(k + 7) == Pow2(k) * 128
  {
    Pow2Add(k, 7);
    Pow2Constants();
  }

  lemma {:induction false} Pow2Below(a: nat, b: nat)
    requires a < b
    ensures 2 * Pow2(a) <= Pow2(b)
    decreases b
  {
    if a < b - 1 { Pow2Below(a, b - 1); }
  }

  /** The 32-bit reader takes back every value below 2^32. */
  lemma Varint32RoundTrip(n: nat, rest: Bytes)
    requires n < TWO_32
    ensures Varint32(EncodeVarint(n) + rest) == Some((n, rest))
  {
    hide Pow2, Or, Accepts32, Leb128, EncodeVarint, Split, Varint32;
    assert Accepts32(EncodeVarint(n), 0, n) by { Pow2Constants(); UnsignedAccepted(n, 0, n); }
    assert |EncodeVarint(n)| <= 10 by { EncodeVarint64Length(n); }
    EncodeVarintIsLeb(n, rest);
    Varint32IsLeb(EncodeVarint(n) + rest);
  }

  /** The 32-bit reader takes the ten-byte encoding of a negative 32-bit integer
      and reads its 32-bit pattern. */
  lemma Varint32SignExtended(v: int, rest: Bytes)
    requires -TWO_31 <= v < 0
    ensures Varint32(EncodeVarint(v + TWO_64) + rest) == Some((v + TWO_32, rest))
  {
    hide Pow2, Or, Accepts32, Leb128, EncodeVarint, Split, Varint32;
    var n := v + TWO_64;
    EncodeVarintIsLeb(n, rest);
    EncodeVarint64Length(n);
    Varint32IsLeb(EncodeVarint(n) + rest);
    ModUnique(n, TWO_32, TWO_32 - 1, v + TWO_32);
    assert Pow2(64) == TWO_64 && Pow2(31) == TWO_31 by { Pow2Constants(); }
    Pow2Below(31, 35);
    SignExtendedAccepted(n, 0, v + TWO_32);
  }

  // ---------------------------------------------------------------------
  // Runs too long for the 8-bit bit position
  // ---------------------------------------------------------------------

  function Padding(k: nat): (bs: Bytes)
    ensures |bs| == k
  {
    seq(k, _ => 0x80)
  }

  lemma PaddingFirst(k: nat, rest: Bytes)
    requires k > 0
    ensures (Padding(k) + rest)[0] == 0x80 && (Padding(k) + rest)[1..] == Padding(k - 1) + rest
  {
  }

  lemma {:induction false} PaddingRead(k: nat, bitpos: nat, result: nat, rest: Bytes)
    requires bitpos < 256
    ensures Varint32Loop(Padding(k) + rest, bitpos, result) == Varint32Loop(rest, (bitpos + 7 * k) % 256, result)
  {
    hide Pow2, Varint32Loop, Padding;
    if k == 0 {
      assert Padding(0) + rest == rest;
    } else {
      PaddingFirst(k, rest);
      PaddingByte(Padding(k) + rest, bitpos, result);
      PaddingRead(k - 1, (bitpos + 7) % 256, result, rest);
      ModAdd(bitpos + 7, 7 * (k - 1), 256);
    }
  }

  lemma PaddingByte(bs: Bytes, bitpos: nat, result: nat)
    requires bs != [] && bs[0] == 0x80
    ensures Varint32Loop(bs, bitpos, result) == Varint32Loop(bs[1..], (bitpos + 7) % 256, result)
  {
    hide Pow2;
    assert Or(result, Shl32(0, bitpos)) == result;
  }

  lemma {:induction false} PaddingLeb(k: nat, rest: Bytes)
    ensures Leb128(Padding(k) + rest) == Leb128(rest) * Pow2(7 * k)
  {
    var bs := Padding(k) + rest;
    if k == 0 {
      assert bs == rest;
    } else {
      assert bs[1..] == Padding(k - 1) + rest && bs[0] == 0x80;
      PaddingLeb(k - 1, rest);
      SevenMore(7 * (k - 1));
    }
  }

  lemma {:induction false} RunSplits(run: Bytes, rest: Bytes)
    requires run != [] && run[|run| - 1] < 128 && forall k | 0 <= k < |run| - 1 :: run[k] >= 128
    ensures Split(run + rest) == Some((run, rest))
  {
    assert (run + rest)[1..] == run[1..] + rest && run == [run[0]] + run[1..];
    if |run| > 1 { RunSplits(run[1..], rest); }
  }

  /** The groups behind 37 bytes of padding: a one and, if there is room, more
      padding. */
  function LateOne(n: nat): (bs: Bytes)
    requires n > 0
    ensures |bs| == n && bs[n - 1] < 128 && forall k | 0 <= k < n - 1 :: bs[k] >= 128
  {
    if n == 1 then [1] else [0x81] + (Padding(n - 2) + [0])
  }

  /** Read at bit position 3 they give 8. */
  lemma LateOneRead(n: nat, rest: Bytes)
    requires n > 0
    ensures Varint32Loop(LateOne(n) + rest, 3, 0) == Some((8, rest))
  {
    hide Varint32Loop, Padding;
    if n == 1 {
      AtThree(rest);
    } else {
      var tail: Bytes := [0] + rest;
      assert LateOne(n) + rest == [0x81] + (Padding(n - 2) + tail);
      GoesOnAtTen(Padding(n - 2) + tail);
      PaddingRead(n - 2, 10, 8, tail);
      ZeroEnds(rest, (10 + 7 * (n - 2)) % 256, 8);
    }
  }

  lemma AtThree(rest: Bytes)
    ensures Varint32Loop([1] + rest, 3, 0) == Some((8, rest))
  {
    assert ([1] + rest)[1..] == rest;
    assert Pow2(3) == 8 && Shl32(1, 3) == 8;
  }

  lemma GoesOnAtTen(rest: Bytes)
    ensures Varint32Loop([0x81] + rest, 3, 0) == Varint32Loop(rest, 10, 8)
  {
    assert ([0x81] + rest)[1..] == rest;
    assert Pow2(3) == 8 && Shl32(1, 3) == 8;
  }

  lemma ZeroEnds(rest: Bytes, bitpos: nat, result: nat)
    ensures Varint32Loop([0] + rest, bitpos, result) == Some((result, rest))
  {
    hide Pow2;
    assert ([0] + rest)[1..] == rest;
    assert Or(result, Shl32(0, bitpos)) == result;
  }

  /** A run of `n` bytes: padding for 37 bytes, then the late one. */
  function LongRun(n: nat): (run: Bytes)
    requires n >= 38
    ensures |run| == n
  {
    Padding(37) + LateOne(n - 37)
  }

  /** The 8-bit bit position comes back to 3 after 37 bytes. So there is a run
      of every greater length, a multiple of 2^32, that reads as 8. */
  lemma LongRunMisread(n: nat, rest: Bytes)
    requires n >= 38
    ensures Split(LongRun(n) + rest) == Some((LongRun(n), rest)) && Leb128(LongRun(n)) % TWO_32 == 0
    ensures Varint32(LongRun(n) + rest) == Some((8, rest))
  {
    hide Varint32Loop, LateOne, Pow2, Split, Leb128;
    var late, bs := LateOne(n - 37), LongRun(n) + rest;
    RunSplits(LongRun(n), rest);
    PaddingLeb(37, late);
    HighGroupsVanish(0, Leb128(late), 259);
    assert bs[0] == 0x80 && bs[1..] == Padding(36) + (late + rest);
    PaddingRead(36, 7, 0, late + rest);
    LateOneRead(n - 37, rest);
  }

  /** What the 32-bit reader makes of an accepted run of `n` bytes is the low 32
      bits of its value. */
  ghost predicate ReadsRight32(n: nat) {
    forall bs: Bytes | Split(bs).Some? && |Split(bs).value.0| == n && Varint32(bs).Some? ::
      Varint32(bs) == Some((Leb128(Split(bs).value.0) % TWO_32, Split(bs).value.1))
  }

  /** Exactly the runs of at most 37 bytes are read right. */
  lemma ReadsRightUpTo37(n: nat)
    ensures ReadsRight32(n) <==> n <= 37
  {
    hide Split, Varint32, Leb128, LongRun;
    if n <= 37 {
      forall bs: Bytes | Split(bs).Some? && |Split(bs).value.0| == n && Varint32(bs).Some?
        ensures Varint32(bs) == Some((Leb128(Split(bs).value.0) % TWO_32, Split(bs).value.1))
      {
        Varint32IsLeb(bs);
      }
    } else {
      LongRunMisread(n, []);
      var bs := LongRun(n) + [];
      assert Varint32(bs).Some? && Varint32(bs).value.0 == 8;
    }
  }
}
