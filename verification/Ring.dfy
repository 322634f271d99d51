/** Circular windows onto a fixed buffer. */
module Ring {
  function Wrapped(i: nat, cap: nat): (r: nat)
    requires i < 2 * cap
    ensures r < cap
  {
    if i >= cap then i - cap else i
  }

  /** The n elements of b that start at `from` and go on round its end. */
  function Window<T>(b: seq<T>, from: nat, n: nat): (w: seq<T>)
    requires from < |b| && n <= |b|
    ensures |w| == n
  {
    if from + n <= |b| then b[from..from + n] else b[from..] + b[..from + n - |b|]
  }

  lemma WindowAt<T>(b: seq<T>, from: nat, n: nat, i: nat)
    requires from < |b| && i < n <= |b|
    ensures Window(b, from, n)[i] == b[Wrapped(from + i, |b|)]
  {}

  /** Dropping from the front moves the start. */
  lemma WindowDrop<T>(b: seq<T>, from: nat, n: nat, k: nat)
    requires from < |b| && k <= n <= |b|
    ensures Window(b, Wrapped(from + k, |b|), n - k) == Window(b, from, n)[k..]
  {
    hide Window;
    forall i | 0 <= i < n - k
      ensures Window(b, Wrapped(from + k, |b|), n - k)[i] == Window(b, from, n)[k..][i]
    {
      WindowAt(b, Wrapped(from + k, |b|), n - k, i);
      WindowAt(b, from, n, k + i);
    }
  }

  lemma WindowTake<T>(b: seq<T>, from: nat, n: nat, k: nat)
    requires from < |b| && k <= n <= |b|
    ensures Window(b, from, k) == Window(b, from, n)[..k]
  {}

  /** Up to the end of the buffer, and what goes on at its start. */
  lemma WindowPieces<T>(b: seq<T>, from: nat, n: nat)
    requires from < |b| && n <= |b|
    ensures from + n <= |b| ==> Window(b, from, n) == b[from..from + n]
    ensures from + n > |b| ==> Window(b, from, n) == b[from..|b|] + b[..n - (|b| - from)]
  {}

  /** b with src written over it from `at` on, going on at its start past its end. */
  function Put<T>(b: seq<T>, at: nat, src: seq<T>): (c: seq<T>)
    requires at < |b| && |src| <= |b|
    ensures |c| == |b|
  {
    if at + |src| <= |b| then b[..at] + src + b[at + |src|..]
    else src[|b| - at..] + b[at + |src| - |b|..at] + src[..|b| - at]
  }

  lemma PutOne<T>(b: seq<T>, at: nat, x: T)
    requires at < |b|
    ensures Put(b, at, [x]) == b[at := x]
  {}

  lemma PutAt<T>(b: seq<T>, at: nat, src: seq<T>, i: nat)
    requires at < |b| && i < |b| && |src| <= |b|
    ensures i < |src| ==> Put(b, at, src)[Wrapped(at + i, |b|)] == src[i]
    ensures i >= |src| ==> Put(b, at, src)[Wrapped(at + i, |b|)] == b[Wrapped(at + i, |b|)]
  {}

  /** What is written behind a window that has room for it extends the window by it. */
  lemma WindowPut<T>(b: seq<T>, from: nat, n: nat, src: seq<T>)
    requires from < |b| && n < |b| && n + |src| <= |b|
    ensures Window(Put(b, Wrapped(from + n, |b|), src), from, n + |src|) == Window(b, from, n) + src
  {
    hide Put, Window;
    var at := Wrapped(from + n, |b|);
    var c := Put(b, at, src);
    forall i | 0 <= i < n + |src|
      ensures Window(c, from, n + |src|)[i] == (Window(b, from, n) + src)[i]
    {
      WindowAt(c, from, n + |src|, i);
      if i < n {
        WindowAt(b, from, n, i);
        PutAt(b, at, src, |b| - n + i);
      } else {
        PutAt(b, at, src, i - n);
      }
    }
  }
}
