/** The byte ring: a bounded byte sequence, however it wraps. */
module RingBuf {
  import opened Ring
  import opened Memory

  function Min(a: nat, b: nat): nat {
    if a < b then a else b
  }

  class RingBuf {
    const buffer: array<bv8>
    var readPos: nat
    var count: nat

    ghost predicate Valid()
      reads this
    {
      readPos < buffer.Length && count <= buffer.Length
    }

    ghost function Contents(): (s: seq<bv8>)
      requires Valid()
      reads this, buffer
      ensures |s| == count
    {
      Window(buffer[..], readPos, count)
    }

    constructor (capacity: nat)
      requires capacity > 0
      ensures Valid() && fresh(buffer) && buffer.Length == capacity && Contents() == []
    {
      buffer := new bv8[capacity];
      readPos, count := 0, 0;
    }

    /** Append what fits, in at most two copies. */
    method Write(src: seq<bv8>) returns (n: nat)
      requires Valid()
      modifies this, buffer
      ensures Valid() && n == Min(|src|, buffer.Length - old(count))
      ensures Contents() == old(Contents()) + src[..n]
    {
      hide Window;
      n := Min(|src|, buffer.Length - count);
      if n == 0 {
        return;
      }
      ghost var before := buffer[..];
      var wpos := readPos + count;
      if wpos >= buffer.Length {
        wpos := wpos - buffer.Length;
      }
      CopyRound(wpos, src[..n]);
      WindowPut(before, readPos, count, src[..n]);
      count := count + n;
    }

    /** Up to the buffer's end in one copy, and the wrapped rest in a second. */
    method CopyRound(at: nat, src: seq<bv8>)
      requires at < buffer.Length && |src| <= buffer.Length
      modifies buffer
      ensures buffer[..] == Put(old(buffer[..]), at, src)
    {
      hide Put;
      ghost var was := buffer[..];
      var first := Min(buffer.Length - at, |src|);
      Copy(buffer, at, src[..first]);
      if |src| > first {
        Copy(buffer, 0, src[first..]);
        PutRound(was, at, src, buffer[..]);
      } else {
        assert src[..first] == src;
        PutStraight(was, at, src);
      }
    }

    /** nx_ringbuf_copy_out: the oldest bytes, left where they are. */
    method Peek(len: nat) returns (dst: seq<bv8>)
      requires Valid()
      ensures dst == Contents()[..Min(len, count)]
    {
      hide Window;
      var n := Min(len, count);
      if n == 0 {
        return [];
      }
      WindowTake(buffer[..], readPos, count, n);
      WindowPieces(buffer[..], readPos, n);
      var first := Min(buffer.Length - readPos, n);
      dst := buffer[readPos..readPos + first];
      if n > first {
        dst := dst + buffer[..n - first];
      }
    }

    method Discard(len: nat) returns (n: nat)
      requires Valid()
      modifies this
      ensures Valid() && n == Min(len, old(count))
      ensures Contents() == old(Contents())[n..]
    {
      hide Window;
      n := Min(len, count);
      WindowDrop(buffer[..], readPos, count, n);
      readPos := readPos + n;
      if readPos >= buffer.Length {
        readPos := readPos - buffer.Length;
      }
      count := count - n;
    }

    method Read(len: nat) returns (dst: seq<bv8>)
      requires Valid()
      modifies this
      ensures Valid() && old(Contents()) == dst + Contents() && |dst| == Min(len, old(count))
    {
      dst := Peek(len);
      var _ := Discard(|dst|);
    }

    method Clear()
      requires Valid()
      modifies this
      ensures Valid() && Contents() == []
    {
      readPos, count := 0, 0;
    }

    /** The contiguous readable run: empty only when the ring is. */
    method PeekLinear() returns (n: nat)
      requires Valid()
      ensures n <= count && readPos + n <= buffer.Length && (n == 0 <==> count == 0)
      ensures buffer[readPos..readPos + n] == Contents()[..n]
    {
      if count == 0 {
        return 0;
      }
      n := Min(count, buffer.Length - readPos);
    }

    /** The contiguous free run: where it starts and how long it is; empty only when the ring
        is full. */
    method PokeLinear() returns (at: nat, n: nat)
      requires Valid()
      ensures at + n <= buffer.Length && count + n <= buffer.Length && (n == 0 <==> count == buffer.Length)
      ensures n > 0 ==> at == Wrapped(readPos + count, buffer.Length)
    {
      if count == buffer.Length {
        return 0, 0;
      }
      at := readPos + count;
      if at >= buffer.Length {
        at := at - buffer.Length;
      }
      n := Min(buffer.Length - count, buffer.Length - at);
    }

    /** Take over bytes already placed behind the contents. */
    method Commit(len: nat) returns (n: nat)
      requires Valid()
      modifies this`count
      ensures Valid() && n == Min(len, buffer.Length - old(count))
      ensures Contents() == Window(buffer[..], readPos, old(count) + n)
    {
      n := Min(len, buffer.Length - count);
      count := count + n;
    }

    /** Filling the free runs in place and committing them is writing. */
    method WriteInPlace(src: seq<bv8>) returns (n: nat)
      requires Valid()
      modifies this, buffer
      ensures Valid() && n == Min(|src|, buffer.Length - old(count))
      ensures Contents() == old(Contents()) + src[..n]
    {
      hide Window, Put;
      n := 0;
      var room: nat := 1;
      while n < |src| && room > 0
        invariant Valid() && n <= |src| && readPos == old(readPos) && count == old(count) + n
        invariant Contents() == old(Contents()) + src[..n]
        invariant room == 0 ==> count == buffer.Length
        decreases |src| - n, room
      {
        var at;
        at, room := PokeLinear();
        if room > 0 {
          var take := Min(room, |src| - n);
          ghost var before := buffer[..];
          Copy(buffer, at, src[n..n + take]);
          PutStraight(before, at, src[n..n + take]);
          WindowPut(before, readPos, count, src[n..n + take]);
          assert src[..n] + src[n..n + take] == src[..n + take];
          var _ := Commit(take);
          n := n + take;
        }
      }
    }
  }

  lemma PutRound<T>(b: seq<T>, at: nat, src: seq<T>, c: seq<T>)
    requires at < |b| && |src| <= |b| < at + |src|
    requires var once := b[..at] + src[..|b| - at];
             c == src[|b| - at..] + once[at + |src| - |b|..]
    ensures c == Put(b, at, src)
  {}

  lemma PutStraight<T>(b: seq<T>, at: nat, src: seq<T>)
    requires at < |b| && at + |src| <= |b|
    ensures Put(b, at, src) == b[..at] + src + b[at + |src|..]
  {}
}
