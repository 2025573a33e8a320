/**
 The byte FIFO of libavutil: a buffer used as a ring, with two indices into it and two counters
 of 32 bits whose difference is the number of bytes held.
 */
module AvFifo {

  import opened Common

  const COUNT: int := 0x1_0000_0000

  /** Counters wrap round at 32 bits. */
  function Advance(ndx: int, n: int): (r: int)
    ensures 0 <= r < COUNT
  {
    (ndx + n) % COUNT
  }

  function Distance(wndx: int, rndx: int): int {
    (wndx - rndx) % COUNT
  }

  lemma DistanceGrows(wndx: int, rndx: int, n: nat)
    requires 0 <= wndx < COUNT && 0 <= rndx < COUNT && Distance(wndx, rndx) + n < COUNT
    ensures Distance(Advance(wndx, n), rndx) == Distance(wndx, rndx) + n
  {
  }

  lemma DistanceShrinks(wndx: int, rndx: int, n: nat)
    requires 0 <= wndx < COUNT && 0 <= rndx < COUNT && n <= Distance(wndx, rndx)
    ensures Distance(wndx, Advance(rndx, n)) == Distance(wndx, rndx) - n
  {
  }

  /** An index that went past the end goes on at the start. */
  function Wrap(i: nat, length: nat): nat {
    if i < length then i else i - length
  }

  /** The bytes of a ring from `r` on. */
  ghost predicate Holds(ring: seq<Byte>, r: nat, contents: seq<Byte>) {
    && r < |ring| && |contents| <= |ring|
    && forall i :: 0 <= i < |contents| ==> contents[i] == ring[Wrap(r + i, |ring|)]
  }

  /** A chunk written where the contents end goes on with them. */
  lemma WriteHolds(ring: seq<Byte>, r: nat, contents: seq<Byte>, chunk: seq<Byte>)
    requires Holds(ring, r, contents) && |contents| + |chunk| <= |ring|
    requires Wrap(r + |contents|, |ring|) + |chunk| <= |ring|
    requires |contents| < |ring| || chunk == []
    ensures Wrap(r + |contents|, |ring|) <= |ring|
    ensures Holds(Overwrite(ring, Wrap(r + |contents|, |ring|), chunk), r, contents + chunk)
  {
    var n, at := |contents|, Wrap(r + |contents|, |ring|);
    var after := Overwrite(ring, at, chunk);
    forall i | 0 <= i < n + |chunk| ensures (contents + chunk)[i] == after[Wrap(r + i, |ring|)] {
      var k := Wrap(r + i, |ring|);
      if i < n {
        assert k < at || at + |chunk| <= k;
      } else {
        assert k == at + (i - n);
      }
    }
  }

  /** Bytes taken from the front leave the others. */
  lemma DrainHolds(ring: seq<Byte>, r: nat, contents: seq<Byte>, n: nat)
    requires Holds(ring, r, contents) && n <= |contents| && r + n <= |ring|
    ensures ring[r..r + n] == contents[..n]
    ensures Holds(ring, Wrap(r + n, |ring|), contents[n..])
  {
    forall i | 0 <= i < n ensures ring[r..r + n][i] == contents[..n][i] {
      assert contents[i] == ring[Wrap(r + i, |ring|)];
    }
    forall i | 0 <= i < |contents| - n ensures contents[n..][i] == ring[Wrap(Wrap(r + n, |ring|) + i, |ring|)] {
      assert contents[n + i] == ring[Wrap(r + (n + i), |ring|)];
    }
  }

  class Fifo {
    var buffer: array<Byte>
    var rptr: nat
    var wptr: nat
    var rndx: int
    var wndx: int
    ghost var contents: seq<Byte>

    ghost predicate Valid()
      reads this, buffer
    {
      && Holds(buffer[..], rptr, contents) && wptr == Wrap(rptr + |contents|, buffer.Length)
      && 0 <= rndx < COUNT && 0 <= wndx < COUNT && buffer.Length < COUNT && Distance(wndx, rndx) == |contents|
    }

    /** av_fifo_alloc */
    constructor (size: nat)
      requires 0 < size < COUNT
      ensures Valid() && contents == [] && fresh(buffer)
    {
      buffer := new Byte[size];
      rptr, wptr, rndx, wndx, contents := 0, 0, 0, 0, [];
    }

    /** av_fifo_size */
    function Size(): (n: int)
      requires Valid()
      reads this, buffer
      ensures n == |contents|
    {
      Distance(wndx, rndx)
    }

    /** av_fifo_realloc2: a larger ring starts with the bytes held. */
    method Realloc(newSize: nat)
      requires Valid() && newSize < COUNT
      modifies this, buffer
      ensures Valid() && contents == old(contents) && buffer.Length >= newSize
      ensures buffer == old(buffer) || fresh(buffer)
    {
      if buffer.Length < newSize {
        var len := Size();
        var held := Read(len);
        var larger := new Byte[newSize];
        forall i | 0 <= i < len {
          larger[i] := held[i];
        }
        buffer, rptr, wptr, rndx, wndx := larger, 0, len, 0, len;
        contents := held;
      }
    }

    /** One turn of a write: up to the end of the ring. */
    method WriteSome(src: seq<Byte>) returns (len: nat)
      requires Valid() && |contents| + |src| <= buffer.Length
      modifies this, buffer
      ensures Valid() && buffer == old(buffer) && len <= |src| && (src != [] ==> len > 0)
      ensures contents == old(contents) + src[..len]
    {
      hide Holds, Distance, Advance, Overwrite;
      HoldsBounds(buffer[..], rptr, contents);
      len := Min(buffer.Length - wptr, |src|);
      var chunk := src[..len];
      WriteHolds(buffer[..], rptr, contents, chunk);
      Copy(chunk);
      wptr := wptr + len;
      if wptr >= buffer.Length {
        wptr := 0;
      }
      DistanceGrows(wndx, rndx, len);
      wndx := Advance(wndx, len);
      contents := contents + chunk;
    }

    /** memcpy into the ring */
    method Copy(chunk: seq<Byte>)
      requires wptr + |chunk| <= buffer.Length
      modifies buffer
      ensures buffer[..] == Overwrite(old(buffer[..]), wptr, chunk)
    {
      forall i | 0 <= i < |chunk| {
        buffer[wptr + i] := chunk[i];
      }
    }

    /** av_fifo_generic_write from memory */
    method Write(src: seq<Byte>)
      requires Valid() && |contents| + |src| <= buffer.Length
      modifies this, buffer
      ensures Valid() && buffer == old(buffer) && contents == old(contents) + src
    {
      hide Holds;
      var done := WriteSome(src);
      while done < |src|
        invariant Valid() && buffer == old(buffer) && done <= |src|
        invariant contents == old(contents) + src[..done]
      {
        var len := WriteSome(src[done..]);
        done := done + len;
      }
    }

    /** av_fifo_drain */
    method Drain(size: nat)
      requires Valid() && size <= |contents| && rptr + size <= buffer.Length
      modifies this
      ensures Valid() && buffer == old(buffer) && contents == old(contents)[size..]
    {
      hide Holds, Distance, Advance;
      HoldsBounds(buffer[..], rptr, contents);
      DrainHolds(buffer[..], rptr, contents, size);
      rptr := rptr + size;
      if rptr >= buffer.Length {
        rptr := rptr - buffer.Length;
      }
      DistanceShrinks(wndx, rndx, size);
      rndx := Advance(rndx, size);
      contents := contents[size..];
    }

    /** av_fifo_generic_read to memory */
    method Read(size: nat) returns (dest: seq<Byte>)
      requires Valid() && size <= |contents|
      modifies this
      ensures Valid() && buffer == old(buffer)
      ensures dest == old(contents)[..size] && contents == old(contents)[size..]
    {
      hide Holds;
      dest := [];
      dest := ReadSome(size);
      while |dest| < size
        invariant Valid() && buffer == old(buffer) && |dest| <= size
        invariant dest == old(contents)[..|dest|] && contents == old(contents)[|dest|..]
      {
        var more := ReadSome(size - |dest|);
        dest := dest + more;
      }
    }

    /** One turn of a read: up to the end of the ring. */
    method ReadSome(size: nat) returns (dest: seq<Byte>)
      requires Valid() && size <= |contents|
      modifies this
      ensures Valid() && buffer == old(buffer) && |dest| <= size && (size > 0 ==> |dest| > 0)
      ensures dest == old(contents)[..|dest|] && contents == old(contents)[|dest|..]
    {
      hide Holds;
      HoldsBounds(buffer[..], rptr, contents);
      var len := Min(buffer.Length - rptr, size);
      DrainHolds(buffer[..], rptr, contents, len);
      dest := buffer[rptr..rptr + len];
      Drain(len);
    }
  }

  lemma HoldsBounds(ring: seq<Byte>, r: nat, contents: seq<Byte>)
    requires Holds(ring, r, contents)
    ensures r < |ring| && |contents| <= |ring|
  {
  }
}
