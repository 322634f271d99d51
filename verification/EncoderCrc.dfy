/** The CRC-8 forms of the two encoder drivers refine the bitwise core: a byte table for the
    KTH7112, two nibble lookups a byte for the KTM5220. */
module EncoderCrc {
  import opened Crc
  import opened CrcTables

  function Wide(b: bv8): bv32 { b as bv32 }

  function Byte8(c: bv8, b: bv8): bv8 {
    Eight8(Sum8(c, b))
  }

  function Bytes8(data: seq<bv8>): bv8 {
    if data == [] then 0 else Byte8(Bytes8(data[..|data| - 1]), data[|data| - 1])
  }

  // ---------------------------------------------------------------- against the bitwise core

  /** The two named variants that share this register, whatever is exclusive-ored at the end. */
  predicate Plain(p: Params) {
    p.width == W8 && p.poly == 7 && p.init == 0 && !p.refin && !p.refout
  }

  lemma CoreBitIsStep(p: Params, c: bv8)
    requires Plain(p)
    ensures CoreBit(p, Wide(c)) == Wide(Step8(c))
  {}

  lemma CoreBitsIsEight(p: Params, c: bv8)
    requires Plain(p)
    ensures CoreBits(p, Wide(c), 8) == Wide(Eight8(c))
  {
    hide CoreBit, Wide, Step8;
    assert CoreBits(p, Wide(c), 0) == Wide(c);
    var c1 := Step8(c);
    CoreBitIsStep(p, c);
    var c2 := Step8(c1);
    CoreBitIsStep(p, c1);
    var c3 := Step8(c2);
    CoreBitIsStep(p, c2);
    var c4 := Step8(c3);
    CoreBitIsStep(p, c3);
    var c5 := Step8(c4);
    CoreBitIsStep(p, c4);
    var c6 := Step8(c5);
    CoreBitIsStep(p, c5);
    var c7 := Step8(c6);
    CoreBitIsStep(p, c6);
    CoreBitIsStep(p, c7);
    assert CoreBits(p, Wide(c), 1) == Wide(c1);
    assert CoreBits(p, Wide(c), 2) == Wide(c2);
    assert CoreBits(p, Wide(c), 3) == Wide(c3);
    assert CoreBits(p, Wide(c), 4) == Wide(c4);
    assert CoreBits(p, Wide(c), 5) == Wide(c5);
    assert CoreBits(p, Wide(c), 6) == Wide(c6);
    assert CoreBits(p, Wide(c), 7) == Wide(c7);
  }

  lemma FeedXor(c: bv8, b: bv8)
    ensures Wide(c) ^ Feed(W8, b) == Wide(Sum8(c, b))
  {}

  lemma {:induction false} CoreIsBytes(p: Params, data: seq<bv8>)
    requires Plain(p)
    ensures CoreBytes(p, Start(p), data) == Wide(Bytes8(data))
  {
    hide CoreBits, Wide, Feed, Eight8, Sum8;
    if data == [] {
      assert Start(p) == 0 && Wide(0) == 0 by { Zeros(p); }
    } else {
      var k := |data| - 1;
      CoreIsBytes(p, data[..k]);
      FeedXor(Bytes8(data[..k]), data[k]);
      CoreBitsIsEight(p, Sum8(Bytes8(data[..k]), data[k]));
    }
  }

  lemma Zeros(p: Params)
    requires Plain(p)
    ensures Start(p) == 0 && Wide(0) == 0
  {}

  lemma Finals(c: bv8)
    ensures Final(CRC8, Wide(c)) == Wide(c)
    ensures Final(CRC8_ITU, Wide(c)) == Wide(Sum8(c, 0x55))
  {}

  /** For every byte string, the register of both drivers is nx_crc8's, and nx_crc8_itu's
      before its final exclusive or. */
  lemma EncoderRegisterIsCore(data: seq<bv8>)
    ensures Compute(CRC8, data) == Wide(Bytes8(data))
    ensures Compute(CRC8_ITU, data) == Wide(Sum8(Bytes8(data), 0x55))
  {
    hide CoreBytes, Final, Wide, Sum8, Bytes8;
    CoreIsBytes(CRC8, data);
    CoreIsBytes(CRC8_ITU, data);
    Finals(Bytes8(data));
  }

  // ---------------------------------------------------------------- the drivers' loops

  lemma BytesStep(data: seq<bv8>, i: nat)
    requires i < |data|
    ensures Bytes8(data[..i + 1]) == Byte8(Bytes8(data[..i]), data[i])
  {
    hide Byte8;
    assert data[..i + 1][..i] == data[..i];
  }

  lemma NoBytes(data: seq<bv8>)
    ensures Bytes8(data[..0]) == 0
  {}

  /** kth_crc8 is nx_crc8_itu. */
  method KthCrc8(data: seq<bv8>) returns (crc: bv8)
    ensures Wide(crc) == Compute(CRC8_ITU, data)
  {
    hide Bytes8, KthTable, Eight8, Sum8, Wide, Compute;
    crc := 0;
    NoBytes(data);
    for i := 0 to |data|
      invariant crc == Bytes8(data[..i])
    {
      BytesStep(data, i);
      KthTableIsSteps(Sum8(crc, data[i]));
      crc := KthTable(Sum8(crc, data[i]));
    }
    assert data[..|data|] == data;
    EncoderRegisterIsCore(data);
    crc := Sum8(crc, 0x55);
  }

  /** One nibble of the KTM5220 form. */
  function Lookup(c: bv8): bv8 {
    KtmLookupIsSteps(c);
    (c << 4) ^ KTM_NIBBLE[(c >> 4) as nat]
  }

  lemma LookupIsFour(c: bv8)
    ensures Lookup(c) == Four8(c)
  {
    hide Four8;
    KtmLookupIsSteps(c);
  }

  /** ktm_crc8 is nx_crc8, inverted when the part is configured so. */
  method KtmCrc8(data: seq<bv8>, invert: bool) returns (crc: bv8)
    ensures Wide(if invert then Sum8(crc, 0xFF) else crc) == Compute(CRC8, data)
  {
    hide Bytes8, Lookup, Four8, Sum8, Wide, Compute;
    crc := 0;
    NoBytes(data);
    for i := 0 to |data|
      invariant crc == Bytes8(data[..i])
    {
      BytesStep(data, i);
      crc := Sum8(crc, data[i]);
      LookupIsFour(crc);
      crc := Lookup(crc);
      LookupIsFour(crc);
      crc := Lookup(crc);
    }
    assert data[..|data|] == data;
    EncoderRegisterIsCore(data);
    if invert {
      InvertsBack(crc);
      crc := Sum8(crc, 0xFF);
    }
  }

  lemma InvertsBack(c: bv8)
    ensures Sum8(Sum8(c, 0xFF), 0xFF) == c
  {}
}
