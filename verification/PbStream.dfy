/** pb_istream_t and pb_ostream_t over memory buffers. */
module PbStream {
  import opened Wrappers
  import opened Bits
  import opened PbVarint

  // ---------------------------------------------------------------------
  // Input
  // ---------------------------------------------------------------------

  /** pb_istream_t: `pos` is the state pointer, as an index into the buffer. */
  class IStream {
    const buf: array<Byte>
    var pos: nat
    var bytesLeft: nat

    ghost predicate Valid()
      reads this
    {
      pos + bytesLeft <= buf.Length
    }

    /** The bytes that this stream may still hand out. */
    ghost function Rest(): (bs: Bytes)
      requires Valid()
      reads this, buf
      ensures |bs| == bytesLeft
    {
      buf[pos..pos + bytesLeft]
    }

    /** Where this stream ends in the buffer. */
    ghost function End(): nat
      reads this
    {
      pos + bytesLeft
    }

    /** The bytes this stream may still hand out once it has been moved on to
        position `p`. */
    ghost function From(p: nat): Bytes
      requires p + bytesLeft <= buf.Length
      reads this, buf
    {
      buf[p..p + bytesLeft]
    }

    /** pb_istream_from_buffer, and the copy of a stream struct. */
    constructor (buf: array<Byte>, pos: nat, bytesLeft: nat)
      ensures this.buf == buf && this.pos == pos && this.bytesLeft == bytesLeft
    {
      this.buf, this.pos, this.bytesLeft := buf, pos, bytesLeft;
    }

    /** pb_read into a buffer. */
    method Read(dst: array<Byte>, count: nat) returns (ok: bool)
      requires Valid() && count <= dst.Length && dst != buf
      modifies this, dst
      ensures Valid() && End() == old(End()) && ok == (count <= old(bytesLeft))
      ensures ok ==> dst[..count] == old(Rest())[..count] && Rest() == old(Rest())[count..]
      ensures !ok ==> unchanged(this)
    {
      if count == 0 { return true; }
      if bytesLeft < count { return false; }
      var i := 0;
      while i < count
        invariant 0 <= i <= count
        invariant forall k | 0 <= k < i :: dst[k] == buf[pos + k]
        modifies dst
      {
        dst[i] := buf[pos + i];
        i := i + 1;
      }
      pos := pos + count;
      bytesLeft := bytesLeft - count;
      return true;
    }

    /** pb_read without a buffer. */
    method Skip(count: nat) returns (ok: bool)
      requires Valid()
      modifies this
      ensures Valid() && End() == old(End()) && ok == (count <= old(bytesLeft))
      ensures ok ==> Rest() == old(Rest())[count..] && pos == old(pos) + count
      ensures !ok ==> unchanged(this)
    {
      if count == 0 { return true; }
      if bytesLeft < count { return false; }
      pos := pos + count;
      bytesLeft := bytesLeft - count;
      return true;
    }

    /** pb_readbyte. */
    method ReadByte() returns (ok: bool, b: Byte)
      requires Valid()
      modifies this
      ensures Valid() && End() == old(End()) && ok == (old(bytesLeft) > 0)
      ensures ok ==> b == old(Rest())[0] && Rest() == old(Rest())[1..] && pos == old(pos) + 1
      ensures !ok ==> unchanged(this)
    {
      if bytesLeft == 0 { return false, 0; }
      b := buf[pos];
      pos := pos + 1;
      bytesLeft := bytesLeft - 1;
      return true, b;
    }
  }

  // ---------------------------------------------------------------------
  // Output
  // ---------------------------------------------------------------------

  /** `mem` with `bs` written over it from `p` on. */
  function Patch(mem: Bytes, p: nat, bs: Bytes): (r: Bytes)
    requires p + |bs| <= |mem|
    ensures |r| == |mem|
  {
    mem[..p] + bs + mem[p + |bs|..]
  }

  /** The two memories differ at most between `lo` and `hi`. */
  ghost predicate SameOutside(mem: Bytes, mem': Bytes, lo: nat, hi: nat) {
    |mem'| == |mem| && forall k | 0 <= k < |mem| && (k < lo || hi <= k) :: mem'[k] == mem[k]
  }

  /** A snapshot of a pb_ostream_t and the memory behind it. */
  datatype OState = OState(sizing: bool, mem: Bytes, pos: nat, maxSize: nat, written: nat, sizeChanged: bool)
  {
    ghost predicate Valid() {
      maxSize < TWO_64 && written < TWO_64 && (!sizing ==> written <= maxSize && pos + (maxSize - written) <= |mem|)
    }

    /** How many more bytes the stream takes. */
    function Room(): nat
      requires Valid()
    {
      if sizing then TWO_64 - 1 - written else maxSize - written
    }
  }

  /** What a step of the encoder that has to write `e` does: it succeeds just
      when there is something to write and it fits; then exactly these bytes
      were appended. If not, no byte outside the room was touched. */
  ghost predicate Emits(s: OState, ok: bool, e: Option<Bytes>, s': OState)
    requires s.Valid()
  {
    && s'.Valid() && s'.sizing == s.sizing && s'.maxSize == s.maxSize && s'.sizeChanged == s.sizeChanged
    && (ok <==> e.Some? && |e.value| <= s.Room())
    && (ok ==> s'.written == s.written + |e.value|)
    && (if s.sizing then s'.mem == s.mem && s'.pos == s.pos
        else if ok then s'.pos == s.pos + |e.value| && s'.mem == Patch(s.mem, s.pos, e.value)
        else SameOutside(s.mem, s'.mem, s.pos, s.pos + s.Room()))
  }

  /** Two steps in a row. */
  lemma EmitsBoth(s0: OState, a: Bytes, s1: OState, ok: bool, b: Option<Bytes>, s2: OState)
    requires s0.Valid() && Emits(s0, true, Some(a), s1) && Emits(s1, ok, b, s2)
    ensures Emits(s0, ok, if b.Some? then Some(a + b.value) else None, s2)
  {
  }

  /** A failed step is a failure of all that was to be written. */
  lemma EmitsFail(s0: OState, a: Option<Bytes>, s1: OState, all: Option<Bytes>)
    requires s0.Valid() && Emits(s0, false, a, s1)
    requires all.Some? ==> a.Some? && |a.value| <= |all.value|
    ensures Emits(s0, false, all, s1)
  {
  }

  /** pb_ostream_t. A sizing stream, whose callback is NULL, only counts.
      `sizeChanged` stands for the error message "submsg size changed". */
  class OStream {
    const sizing: bool
    const buf: array<Byte>
    var pos: nat
    var maxSize: nat
    var bytesWritten: nat
    var sizeChanged: bool

    ghost function State(): OState
      reads this, buf
    {
      OState(sizing, buf[..], pos, maxSize, bytesWritten, sizeChanged)
    }

    /** pb_ostream_from_buffer, and the copy of a stream struct. */
    constructor (buf: array<Byte>, pos: nat, maxSize: nat)
      ensures !sizing && this.buf == buf && this.pos == pos && this.maxSize == maxSize
      ensures bytesWritten == 0 && !sizeChanged
    {
      this.sizing, this.buf, this.pos, this.maxSize := false, buf, pos, maxSize;
      bytesWritten, sizeChanged := 0, false;
    }

    /** PB_OSTREAM_SIZING. */
    constructor Sizing()
      ensures sizing && fresh(buf) && maxSize == 0 && bytesWritten == 0 && !sizeChanged
    {
      sizing, buf, pos, maxSize := true, new Byte[0], 0, 0;
      bytesWritten, sizeChanged := 0, false;
    }

    /** pb_write. The test for overflow of bytes_written, which the source
        makes for streams with a callback, is made here for sizing streams too,
        where the source would wrap around at 2^64. */
    method Write(src: Bytes) returns (ok: bool)
      requires State().Valid()
      modifies this, buf
      ensures Emits(old(State()), ok, Some(src), State())
    {
      var count := |src|;
      if bytesWritten + count >= TWO_64 { return false; }
      if count > 0 && !sizing {
        if bytesWritten + count > maxSize { return false; }
        Copy(src);
        pos := pos + count;
      }
      bytesWritten := bytesWritten + count;
      assert src == [] && !sizing ==> Patch(old(State()).mem, old(pos), src) == old(State()).mem;
      return true;
    }

    /** buf_write. */
    method Copy(src: Bytes)
      requires pos + |src| <= buf.Length
      modifies buf
      ensures buf[..] == Patch(old(buf[..]), pos, src)
    {
      var i := 0;
      while i < |src|
        invariant 0 <= i <= |src|
        invariant forall k | 0 <= k < i :: buf[pos + k] == src[k]
        invariant forall k | 0 <= k < buf.Length && (k < pos || pos + i <= k) :: buf[k] == old(buf[k])
      {
        buf[pos + i] := src[i];
        i := i + 1;
      }
    }

    /** pb_write(stream, NULL, count), on sizing streams only: it stands for
        writing any `count` bytes. */
    method Count(count: nat) returns (ok: bool)
      requires State().Valid() && sizing
      modifies this
      ensures forall src: Bytes | |src| == count :: Emits(old(State()), ok, Some(src), State())
    {
      if bytesWritten + count >= TWO_64 { return false; }
      bytesWritten := bytesWritten + count;
      return true;
    }
  }
}
