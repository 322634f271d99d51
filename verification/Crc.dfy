/** CRC registers: the bitwise, non-reflected core of nx_crc and its named variants. */
module Crc {
  /** The register widths the one-shot functions use. */
  datatype Width = W8 | W16 | W32

  function Mask(w: Width): bv32 {
    match w case W8 => 0xFF case W16 => 0xFFFF case W32 => 0xFFFFFFFF
  }

  function TopBit(w: Width): bv32 {
    match w case W8 => 0x80 case W16 => 0x8000 case W32 => 0x80000000
  }

  /** A byte aligned with the register's most significant bits. */
  function Feed(w: Width, b: bv8): bv32 {
    match w case W8 => b as bv32 case W16 => (b as bv32) << 8 case W32 => (b as bv32) << 24
  }

  function Reflect8(v: bv8): bv8 {
    var a := ((v & 0x55) << 1) | ((v & 0xAA) >> 1);
    var b := ((a & 0x33) << 2) | ((a & 0xCC) >> 2);
    ((b & 0x0F) << 4) | ((b & 0xF0) >> 4)
  }

  function Reflect32(v: bv32): bv32 {
    var a := ((v & 0x55555555) << 1) | ((v & 0xAAAAAAAA) >> 1);
    var b := ((a & 0x33333333) << 2) | ((a & 0xCCCCCCCC) >> 2);
    var c := ((b & 0x0F0F0F0F) << 4) | ((b & 0xF0F0F0F0) >> 4);
    var d := ((c & 0x00FF00FF) << 8) | ((c & 0xFF00FF00) >> 8);
    ((d & 0x0000FFFF) << 16) | ((d & 0xFFFF0000) >> 16)
  }

  function ReflectWidth(w: Width, v: bv32): bv32 {
    match w case W8 => Reflect32(v) >> 24 case W16 => Reflect32(v) >> 16 case W32 => Reflect32(v)
  }

  /** What nx_crc_init is given. */
  datatype Params = Params(width: Width, poly: bv32, init: bv32, refin: bool, refout: bool, xorout: bv32)

  const CRC8 := Params(W8, 0x07, 0, false, false, 0)
  const CRC8_ITU := Params(W8, 0x07, 0, false, false, 0x55)
  const CRC16_MODBUS := Params(W16, 0x8005, 0xFFFF, true, true, 0)

  // ---------------------------------------------------------------- the register

  /** One step of a register given its top bit, polynomial and mask. */
  function Shifted(reg: bv32, top: bv32, poly: bv32, mask: bv32): bv32 {
    if reg & top != 0 then ((reg << 1) ^ poly) & mask else (reg << 1) & mask
  }

  function CoreBit(p: Params, reg: bv32): bv32 {
    Shifted(reg, TopBit(p.width), p.poly & Mask(p.width), Mask(p.width))
  }

  function CoreBits(p: Params, reg: bv32, n: nat): bv32 {
    if n == 0 then reg else CoreBit(p, CoreBits(p, reg, n - 1))
  }

  function CoreByte(p: Params, reg: bv32, b: bv8): bv32 {
    CoreBits(p, reg ^ Feed(p.width, if p.refin then Reflect8(b) else b), 8)
  }

  function CoreBytes(p: Params, reg: bv32, data: seq<bv8>): bv32 {
    if data == [] then reg else CoreByte(p, CoreBytes(p, reg, data[..|data| - 1]), data[|data| - 1])
  }

  function Final(p: Params, reg: bv32): bv32 {
    ((if p.refout then ReflectWidth(p.width, reg) else reg) ^ (p.xorout & Mask(p.width))) & Mask(p.width)
  }

  function Start(p: Params): bv32 {
    p.init & Mask(p.width)
  }

  /** The one-shot CRC of a byte string. */
  function Compute(p: Params, data: seq<bv8>): bv32 {
    Final(p, CoreBytes(p, Start(p), data))
  }

  /** Feeding a string in two parts is feeding it whole. */
  lemma {:induction false} CoreSplits(p: Params, reg: bv32, a: seq<bv8>, b: seq<bv8>)
    ensures CoreBytes(p, reg, a + b) == CoreBytes(p, CoreBytes(p, reg, a), b)
    decreases |b|
  {
    hide CoreByte;
    if b == [] {
      assert a + b == a;
    } else {
      assert (a + b)[..|a + b| - 1] == a + b[..|b| - 1];
      CoreSplits(p, reg, a, b[..|b| - 1]);
    }
  }

  /** The streaming context. */
  class Context {
    const p: Params
    var reg: bv32

    constructor (p: Params)
      ensures this.p == p && reg == Start(p)
    {
      this.p := p;
      reg := p.init & Mask(p.width);
    }

    method Update(data: seq<bv8>)
      modifies this
      ensures reg == CoreBytes(p, old(reg), data)
    {
      hide CoreByte;
      assert data[..0] == [];
      for i := 0 to |data|
        invariant reg == CoreBytes(p, old(reg), data[..i])
      {
        reg := ShiftByte(reg, data[i]);
        assert data[..i + 1][..i] == data[..i];
      }
      assert data[..|data|] == data;
    }

    /** One byte, bit by bit. */
    method ShiftByte(from: bv32, byte: bv8) returns (r: bv32)
      ensures r == CoreByte(p, from, byte)
    {
      hide CoreBit, Feed, Reflect8;
      var b := if p.refin then Reflect8(byte) else byte;
      r := from ^ Feed(p.width, b);
      ghost var fed := r;
      for k := 0 to 8
        invariant r == CoreBits(p, fed, k)
      {
        r := CoreBit(p, r);
      }
    }

    /** However a string is cut into updates, the result is the CRC of the whole string. */
    method UpdateAll(parts: seq<seq<bv8>>) returns (crc: bv32)
      requires reg == Start(p)
      modifies this
      ensures crc == Compute(p, Joined(parts))
    {
      hide CoreBytes, Final, Start;
      assert parts[..0] == [] && reg == CoreBytes(p, Start(p), []) by { NothingFed(p); }
      for i := 0 to |parts|
        invariant reg == CoreBytes(p, Start(p), Joined(parts[..i]))
      {
        Update(parts[i]);
        CoreSplits(p, Start(p), Joined(parts[..i]), parts[i]);
        assert parts[..i + 1][..i] == parts[..i];
      }
      assert parts[..|parts|] == parts;
      crc := Final(p, reg);
    }
  }

  function Joined(parts: seq<seq<bv8>>): seq<bv8> {
    if parts == [] then [] else Joined(parts[..|parts| - 1]) + parts[|parts| - 1]
  }

  lemma NothingFed(p: Params)
    ensures CoreBytes(p, Start(p), []) == Start(p)
  {}
}
