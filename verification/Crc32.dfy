/** CRC-32 the way Ethernet and zlib define it: a register shifted down under the mirrored
    polynomial. The core, which shifts up and mirrors bytes and result, computes the same. */
module Crc32 {
  import opened Crc

  const CRC32 := Params(W32, 0x04C11DB7, 0xFFFFFFFF, true, true, 0xFFFFFFFF)

  predicate Odd(c: bv32) { c & 1 == 1 }
  function Half(c: bv32): bv32 { c >> 1 }
  function WithMirrored(c: bv32): bv32 { c ^ 0xEDB88320 }

  function Down(c: bv32): bv32 {
    if Odd(c) then WithMirrored(Half(c)) else Half(c)
  }

  function Downs(c: bv32, n: nat): bv32 {
    if n == 0 then c else Down(Downs(c, n - 1))
  }

  function Sum(a: bv32, b: bv32): bv32 { a ^ b }

  function DownByte(c: bv32, b: bv8): bv32 {
    Downs(Sum(c, b as bv32), 8)
  }

  function DownBytes(c: bv32, data: seq<bv8>): bv32 {
    if data == [] then c else DownByte(DownBytes(c, data[..|data| - 1]), data[|data| - 1])
  }

  // ---------------------------------------------------------------- the mirror

  function Up(r: bv32): bv32 { r << 1 }
  predicate TopSet(r: bv32) { r & 0x80000000 != 0 }
  function WithPoly(r: bv32): bv32 { r ^ 0x04C11DB7 }
  function Fed(b: bv8): bv32 { (Reflect8(b) as bv32) << 24 }

  lemma MirrorSum(a: bv32, b: bv32)
    ensures Reflect32(Sum(a, b)) == Sum(Reflect32(a), Reflect32(b))
  {}

  /** One byte of a register, in its place. */
  function Lane(r: bv32, mask: bv32): bv32 { r & mask }

  lemma FourLanes(r: bv32)
    ensures r == Sum(Sum(Lane(r, 0xFF000000), Lane(r, 0x00FF0000)), Sum(Lane(r, 0x0000FF00), Lane(r, 0x000000FF)))
  {}

  lemma UpAndHalf(a: bv32, b: bv32)
    ensures Up(Sum(a, b)) == Sum(Up(a), Up(b)) && Half(Sum(a, b)) == Sum(Half(a), Half(b))
  {}

  lemma MirrorUp3(r: bv32)
    ensures var l := Lane(r, 0xFF000000); Reflect32(Up(l)) == Half(Reflect32(l))
  {}

  lemma MirrorUp2(r: bv32)
    ensures var l := Lane(r, 0x00FF0000); Reflect32(Up(l)) == Half(Reflect32(l))
  {}

  lemma MirrorUp1(r: bv32)
    ensures var l := Lane(r, 0x0000FF00); Reflect32(Up(l)) == Half(Reflect32(l))
  {}

  lemma MirrorUp0(r: bv32)
    ensures var l := Lane(r, 0x000000FF); Reflect32(Up(l)) == Half(Reflect32(l))
  {}

  lemma MirrorUpSum(a: bv32, b: bv32)
    requires Reflect32(Up(a)) == Half(Reflect32(a)) && Reflect32(Up(b)) == Half(Reflect32(b))
    ensures Reflect32(Up(Sum(a, b))) == Half(Reflect32(Sum(a, b)))
  {
    hide Reflect32, Up, Half, Sum;
    UpAndHalf(a, b);
    MirrorSum(a, b);
    MirrorSum(Up(a), Up(b));
    UpAndHalf(Reflect32(a), Reflect32(b));
  }

  lemma MirrorUp(r: bv32)
    ensures Reflect32(Up(r)) == Half(Reflect32(r))
  {
    hide Reflect32, Up, Half, Sum, Lane;
    FourLanes(r);
    MirrorUp3(r);
    MirrorUp2(r);
    MirrorUp1(r);
    MirrorUp0(r);
    MirrorUpSum(Lane(r, 0xFF000000), Lane(r, 0x00FF0000));
    MirrorUpSum(Lane(r, 0x0000FF00), Lane(r, 0x000000FF));
    MirrorUpSum(Sum(Lane(r, 0xFF000000), Lane(r, 0x00FF0000)), Sum(Lane(r, 0x0000FF00), Lane(r, 0x000000FF)));
  }

  lemma MirrorTop(r: bv32)
    ensures TopSet(r) <==> Odd(Reflect32(r))
  {}

  lemma MirrorPoly(r: bv32)
    ensures Reflect32(WithPoly(r)) == WithMirrored(Reflect32(r))
  {
    hide Reflect32;
    MirrorSum(r, 0x04C11DB7);
    PolyMirrored();
  }

  lemma PolyMirrored()
    ensures Reflect32(0x04C11DB7) == 0xEDB88320
  {}

  lemma MirrorFed(b: bv8)
    ensures Reflect32(Fed(b)) == b as bv32
  {}

  lemma AllBits(r: bv32)
    ensures r & 0xFFFFFFFF == r
  {}

  lemma CoreBitForm(r: bv32)
    ensures CoreBit(CRC32, r) == if TopSet(r) then WithPoly(Up(r)) else Up(r)
  {
    AllBits(Up(r));
    AllBits(WithPoly(Up(r)));
    assert CRC32.poly & Mask(W32) == 0x04C11DB7;
    assert CoreBit(CRC32, r) == Shifted(r, 0x80000000, 0x04C11DB7, 0xFFFFFFFF);
  }

  lemma CoreBitMirrored(r: bv32)
    ensures Reflect32(CoreBit(CRC32, r)) == Down(Reflect32(r))
  {
    hide Reflect32, TopSet, Up, Odd, Half, WithPoly, WithMirrored;
    CoreBitForm(r);
    hide CoreBit;
    MirrorTop(r);
    MirrorUp(r);
    MirrorPoly(Up(r));
  }

  lemma {:induction false} CoreBitsMirrored(r: bv32, n: nat)
    ensures Reflect32(CoreBits(CRC32, r, n)) == Downs(Reflect32(r), n)
  {
    hide Reflect32, CoreBit, Down;
    if n > 0 {
      CoreBitsMirrored(r, n - 1);
      CoreBitMirrored(CoreBits(CRC32, r, n - 1));
    }
  }

  lemma FeedForm(r: bv32, b: bv8)
    ensures CoreByte(CRC32, r, b) == CoreBits(CRC32, Sum(r, Fed(b)), 8)
  {
    hide CoreBits;
  }

  lemma {:induction false} CoreMirrored(r: bv32, data: seq<bv8>)
    ensures Reflect32(CoreBytes(CRC32, r, data)) == DownBytes(Reflect32(r), data)
    decreases |data|
  {
    hide Reflect32, CoreByte, CoreBits, Downs, Sum, Fed;
    if data != [] {
      var front, b := data[..|data| - 1], data[|data| - 1];
      var reg := CoreBytes(CRC32, r, front);
      CoreMirrored(r, front);
      FeedForm(reg, b);
      CoreBitsMirrored(Sum(reg, Fed(b)), 8);
      MirrorSum(reg, Fed(b));
      MirrorFed(b);
    }
  }

  lemma StartAndEnd(r: bv32)
    ensures Reflect32(Start(CRC32)) == 0xFFFFFFFF
    ensures Final(CRC32, r) == Sum(Reflect32(r), 0xFFFFFFFF)
  {}

  /** For every byte string the core's CRC-32 is the complement of the downward register's. */
  lemma Crc32IsTheDownwardForm(data: seq<bv8>)
    ensures Compute(CRC32, data) == Sum(DownBytes(0xFFFFFFFF, data), 0xFFFFFFFF)
  {
    hide Reflect32, CoreBytes, Final, Start, Sum, DownBytes;
    CoreMirrored(Start(CRC32), data);
    StartAndEnd(CoreBytes(CRC32, Start(CRC32), data));
  }
}
