/** The C memory operations, on arrays. */
module Memory {
  method Copy<T>(dst: array<T>, at: nat, src: seq<T>)
    requires at + |src| <= dst.Length
    modifies dst
    ensures dst[..] == old(dst[..at]) + src + old(dst[at + |src|..])
  {
    for i := 0 to |src|
      invariant dst[..at] == old(dst[..at])
      invariant dst[at..at + i] == src[..i]
      invariant dst[at + i..] == old(dst[at + i..])
    {
      dst[at + i] := src[i];
      assert dst[at..at + i + 1] == dst[at..at + i] + [src[i]];
    }
  }

  method Fill<T>(dst: array<T>, from: nat, value: T)
    requires from <= dst.Length
    modifies dst
    ensures dst[..] == old(dst[..from]) + seq(dst.Length - from, _ => value)
  {
    for i := from to dst.Length
      invariant dst[..from] == old(dst[..from])
      invariant forall k :: from <= k < i ==> dst[k] == value
    {
      dst[i] := value;
    }
  }
}
