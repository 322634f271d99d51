/** In-use bitmaps kept inside a shared byte array, one bit per block. */
module Bitmap {
  function Bit(k: nat): bv8
    requires k < 8
  {
    if k == 0 then 0x01 else if k == 1 then 0x02 else if k == 2 then 0x04 else if k == 3 then 0x08
    else if k == 4 then 0x10 else if k == 5 then 0x20 else if k == 6 then 0x40 else 0x80
  }

  predicate Has(b: bv8, k: nat)
    requires k < 8
  {
    b & Bit(k) != 0
  }

  function With(b: bv8, k: nat): bv8
    requires k < 8
  {
    b | Bit(k)
  }

  function Without(b: bv8, k: nat): bv8
    requires k < 8
  {
    b & !Bit(k)
  }

  lemma WithHas(b: bv8, k: nat, j: nat)
    requires k < 8 && j < 8
    ensures Has(With(b, k), j) <==> j == k || Has(b, j)
    ensures Has(Without(b, k), j) <==> j != k && Has(b, j)
  {
    hide Bit;
    BitsApart(k, j);
    if j == k {
      OneBit(b, Bit(k));
    } else {
      BitLogic(b, Bit(k), Bit(j));
    }
  }

  lemma BitsApart(k: nat, j: nat)
    requires k < 8 && j < 8
    ensures Bit(k) != 0 && (j != k ==> Bit(k) & Bit(j) == 0)
  {}

  lemma BitLogic(b: bv8, m: bv8, n: bv8)
    requires m & n == 0
    ensures (b | m) & n == b & n && (b & !m) & n == b & n
  {}

  lemma OneBit(b: bv8, m: bv8)
    ensures (b | m) & m == m && (b & !m) & m == 0
  {}

  function BitmapBytes(n: nat): nat {
    (n + 7) / 8
  }

  /** The bits of an n-bit bitmap at `at`: true for a block in use. */
  function Bits(m: seq<bv8>, at: nat, n: nat): (bits: seq<bool>)
    requires at + BitmapBytes(n) <= |m|
    ensures |bits| == n
  {
    seq(n, i requires 0 <= i < n => Has(m[at + i / 8], i % 8))
  }

  function Clear(bits: seq<bool>): (c: nat)
    ensures c <= |bits|
  {
    if bits == [] then 0 else (if bits[0] then 0 else 1) + Clear(bits[1..])
  }

  lemma {:induction false} ClearUpdate(bits: seq<bool>, i: nat, used: bool)
    requires i < |bits| && bits[i] != used
    ensures Clear(bits[i := used]) == Clear(bits) + (if used then -1 else 1)
  {
    if i == 0 {
      assert bits[i := used][1..] == bits[1..];
    } else {
      assert bits[i := used][1..] == bits[1..][i - 1 := used];
      ClearUpdate(bits[1..], i - 1, used);
    }
  }

  lemma {:induction false} ClearExists(bits: seq<bool>)
    ensures Clear(bits) > 0 <==> false in bits
    ensures Clear(bits) == |bits| <==> true !in bits
  {
    if bits != [] {
      ClearExists(bits[1..]);
      assert bits == [bits[0]] + bits[1..];
    }
  }

  /** Rewriting the byte of one bit changes that bit and no other. */
  lemma BitsUpdate(m: seq<bv8>, at: nat, n: nat, i: nat, byte: bv8, used: bool)
    requires i < n && at + BitmapBytes(n) <= |m|
    requires byte == if used then With(m[at + i / 8], i % 8) else Without(m[at + i / 8], i % 8)
    ensures Bits(m[at + i / 8 := byte], at, n) == Bits(m, at, n)[i := used]
  {
    hide Has, With, Without;
    forall j | 0 <= j < n
      ensures Has(m[at + i / 8 := byte][at + j / 8], j % 8) == Bits(m, at, n)[i := used][j]
    {
      WithHas(m[at + i / 8], i % 8, j % 8);
      if j / 8 == i / 8 && j % 8 == i % 8 {
        assert j == i;
      }
    }
  }

  lemma BitsFrame(m: seq<bv8>, m': seq<bv8>, at: nat, n: nat)
    requires at + BitmapBytes(n) <= |m| == |m'|
    requires m[at..at + BitmapBytes(n)] == m'[at..at + BitmapBytes(n)]
    ensures Bits(m, at, n) == Bits(m', at, n)
  {}

  lemma BitsZero(m: seq<bv8>, at: nat, n: nat)
    requires at + BitmapBytes(n) <= |m|
    requires forall j :: at <= j < at + BitmapBytes(n) ==> m[j] == 0
    ensures Bits(m, at, n) == seq(n, _ => false)
  {}
}
