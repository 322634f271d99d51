/** The ring-buffer queue: a bounded sequence with two policies for a full buffer. */
module Queue {
  import opened Ring

  datatype OnFull = Reject | Overwrite
  datatype Ret = Ok | Full | Empty

  /** What a push makes of the contents. */
  function Pushed<T>(s: seq<T>, x: T, capacity: nat, onFull: OnFull): seq<T> {
    if |s| < capacity then s + [x]
    else if onFull.Reject? then s
    else if s == [] then s
    else s[1..] + [x]
  }

  class Queue<T(0)> {
    const buffer: array<T>
    const onFull: OnFull
    var head: nat
    var count: nat

    ghost predicate Valid()
      reads this
    {
      head < buffer.Length && count <= buffer.Length
    }

    ghost function Contents(): (s: seq<T>)
      requires Valid()
      reads this, buffer
      ensures |s| == count
    {
      Window(buffer[..], head, count)
    }

    constructor (capacity: nat, onFull: OnFull)
      requires capacity > 0
      ensures Valid() && fresh(buffer) && buffer.Length == capacity && this.onFull == onFull
      ensures Contents() == []
    {
      buffer := new T[capacity];
      this.onFull := onFull;
      head, count := 0, 0;
    }

    method Push(x: T) returns (r: Ret)
      requires Valid()
      modifies this, buffer
      ensures Valid()
      ensures r == if old(count) == buffer.Length && onFull.Reject? then Full else Ok
      ensures Contents() == Pushed(old(Contents()), x, buffer.Length, onFull)
    {
      hide Window, Put;
      if count == buffer.Length {
        if onFull.Reject? {
          return Full;
        }
        WindowDrop(buffer[..], head, count, 1);
        head := head + 1;
        if head >= buffer.Length {
          head := head - buffer.Length;
        }
        count := count - 1;
        assert Contents() == old(Contents())[1..];
      }
      ghost var kept := Contents();
      ghost var before := buffer[..];
      var tail := head + count;
      if tail >= buffer.Length {
        tail := tail - buffer.Length;
      }
      buffer[tail] := x;
      PutOne(before, tail, x);
      WindowPut(before, head, count, [x]);
      count := count + 1;
      return Ok;
    }

    method Pop() returns (r: Ret, x: T)
      requires Valid()
      modifies this
      ensures Valid()
      ensures r == if old(count) == 0 then Empty else Ok
      ensures r.Ok? ==> old(Contents()) == [x] + Contents()
      ensures r.Empty? ==> Contents() == old(Contents()) == []
    {
      if count == 0 {
        x := *;
        return Empty, x;
      }
      x := buffer[head];
      WindowDrop(buffer[..], head, count, 1);
      head := head + 1;
      if head >= buffer.Length {
        head := head - buffer.Length;
      }
      count := count - 1;
      return Ok, x;
    }

    method Peek() returns (r: Ret, x: T)
      requires Valid()
      ensures r == if count == 0 then Empty else Ok
      ensures r.Ok? ==> x == Contents()[0]
    {
      if count == 0 {
        x := *;
        return Empty, x;
      }
      x := buffer[head];
      return Ok, x;
    }

    method Clear()
      requires Valid()
      modifies this
      ensures Valid() && Contents() == []
    {
      head, count := 0, 0;
    }
  }

  /** Pushing a whole list keeps the newest `capacity` elements when overwriting, and the
      oldest when rejecting. */
  ghost function PushedAll<T>(s: seq<T>, xs: seq<T>, capacity: nat, onFull: OnFull): seq<T> {
    if xs == [] then s
    else Pushed(PushedAll(s, xs[..|xs| - 1], capacity, onFull), xs[|xs| - 1], capacity, onFull)
  }

  lemma {:induction false} FullPolicies<T>(s: seq<T>, xs: seq<T>, capacity: nat)
    requires 0 < capacity && |s| <= capacity
    ensures PushedAll(s, xs, capacity, Reject) == (if |s + xs| <= capacity then s + xs else (s + xs)[..capacity])
    ensures PushedAll(s, xs, capacity, Overwrite)
         == (if |s + xs| <= capacity then s + xs else (s + xs)[|s + xs| - capacity..])
  {
    if xs != [] {
      FullPolicies(s, xs[..|xs| - 1], capacity);
      assert s + xs == s + xs[..|xs| - 1] + [xs[|xs| - 1]];
    } else {
      assert s + xs == s;
    }
  }
}
