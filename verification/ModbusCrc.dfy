/** CRC-16/MODBUS over frames: the table form equals the bitwise core, a stamped frame checks,
    and damage to two adjacent bytes never goes unnoticed. */
module ModbusCrc {
  import opened Crc
  import opened CrcTables

  // ---------------------------------------------------------------- the register

  function Wide(b: bv8): bv16 {
    b as bv16
  }

  function Byte16(c: bv16, b: bv8): bv16 {
    Eight16(Sum16(c, Wide(b)))
  }

  function Bytes16(c: bv16, data: seq<bv8>): bv16 {
    if data == [] then c else Byte16(Bytes16(c, data[..|data| - 1]), data[|data| - 1])
  }

  function Crc16(data: seq<bv8>): bv16 {
    Bytes16(0xFFFF, data)
  }

  // ---------------------------------------------------------------- against the bitwise core

  /** The core's 16-bit register read from its other end. */
  function Mirror(reg: bv32): bv16 {
    (Reflect32(reg) >> 16) as bv16
  }

  lemma MirrorLinear(a: bv32, b: bv32)
    ensures Mirror(a ^ b) == Mirror(a) ^ Mirror(b)
  {}

  /** The pieces of a core step: the register moved up, and what falls out at the top. */
  function MovedUp(reg: bv32): bv32 { (reg << 1) & 0xFFFF }
  predicate TopSet(reg: bv32) { reg & 0x8000 != 0 }
  predicate Odd(c: bv16) { c & 1 == 1 }
  function Half(c: bv16): bv16 { c >> 1 }

  lemma MirrorShift(reg: bv32)
    requires reg <= 0xFFFF
    ensures Mirror(MovedUp(reg)) == Half(Mirror(reg))
  {}

  lemma MirrorTop(reg: bv32)
    requires reg <= 0xFFFF
    ensures TopSet(reg) <==> Odd(Mirror(reg))
  {}

  lemma MirrorByte(b: bv8)
    ensures Mirror((Reflect8(b) as bv32) << 8) == b as bv16
  {}

  lemma MirrorConstants()
    ensures Mirror(0x8005) == 0xA001 && Mirror(0) == 0 && Mirror(0xFFFF) == 0xFFFF
  {}

  function WithPoly(reg: bv32): bv32 { reg ^ 0x8005 }
  function WithMirrored(c: bv16): bv16 { c ^ 0xA001 }

  /** The core's step, with the mask moved inside. */
  lemma ShiftedForm(reg: bv32)
    ensures var r := Shifted(reg, 0x8000, 0x8005, 0xFFFF);
            && r <= 0xFFFF
            && (TopSet(reg) ==> r == WithPoly(MovedUp(reg)))
            && (!TopSet(reg) ==> r == MovedUp(reg))
  {}

  lemma CoreBitForm(reg: bv32)
    ensures CoreBit(CRC16_MODBUS, reg) == Shifted(reg, 0x8000, 0x8005, 0xFFFF)
  {}

  lemma StepForm(c: bv16)
    ensures Odd(c) ==> Step16(c) == WithMirrored(Half(c))
    ensures !Odd(c) ==> Step16(c) == Half(c)
  {}

  lemma MirrorPoly(reg: bv32)
    ensures Mirror(WithPoly(reg)) == WithMirrored(Mirror(reg))
  {
    hide Mirror;
    MirrorLinear(reg, 0x8005);
    MirrorConstants();
  }

  /** A core step seen from the other end is a low-bit-first step. */
  lemma CoreBitMirrored(reg: bv32)
    requires reg <= 0xFFFF
    ensures CoreBit(CRC16_MODBUS, reg) <= 0xFFFF
    ensures Mirror(CoreBit(CRC16_MODBUS, reg)) == Step16(Mirror(reg))
  {
    hide Mirror, CoreBit, Shifted, Step16, MovedUp, TopSet, Odd, Half, WithPoly, WithMirrored;
    CoreBitForm(reg);
    ShiftedForm(reg);
    MirrorTop(reg);
    MirrorShift(reg);
    MirrorPoly(MovedUp(reg));
    StepForm(Mirror(reg));
  }

  lemma Fits16(a: bv32, b: bv32)
    requires b <= 0xFFFF
    ensures a & 0xFFFF <= 0xFFFF && (a ^ b) & 0xFFFF <= 0xFFFF
    ensures a <= 0xFFFF ==> a ^ b <= 0xFFFF
  {}

  lemma CoreBitsMirrored(reg: bv32)
    requires reg <= 0xFFFF
    ensures CoreBits(CRC16_MODBUS, reg, 8) <= 0xFFFF
    ensures Mirror(CoreBits(CRC16_MODBUS, reg, 8)) == Eight16(Mirror(reg))
  {
    hide Mirror, CoreBit, Step16;
    var p := CRC16_MODBUS;
    assert CoreBits(p, reg, 0) == reg;
    CoreBitMirrored(CoreBits(p, reg, 0));
    CoreBitMirrored(CoreBits(p, reg, 1));
    CoreBitMirrored(CoreBits(p, reg, 2));
    CoreBitMirrored(CoreBits(p, reg, 3));
    CoreBitMirrored(CoreBits(p, reg, 4));
    CoreBitMirrored(CoreBits(p, reg, 5));
    CoreBitMirrored(CoreBits(p, reg, 6));
    CoreBitMirrored(CoreBits(p, reg, 7));
  }

  lemma FeedFits(b: bv8)
    ensures (b as bv32) << 8 <= 0xFFFF
  {}

  lemma {:induction false} CoreMirrored(data: seq<bv8>)
    ensures var reg := CoreBytes(CRC16_MODBUS, Start(CRC16_MODBUS), data);
            reg <= 0xFFFF && Mirror(reg) == Crc16(data)
  {
    hide Mirror, CoreByte, Byte16;
    var p := CRC16_MODBUS;
    if data == [] {
      MirrorConstants();
    } else {
      var k := |data| - 1;
      CoreMirrored(data[..k]);
      CoreByteMirrored(CoreBytes(p, Start(p), data[..k]), data[k]);
    }
  }

  lemma CoreByteMirrored(reg: bv32, b: bv8)
    requires reg <= 0xFFFF
    ensures var next := CoreByte(CRC16_MODBUS, reg, b);
            next <= 0xFFFF && Mirror(next) == Byte16(Mirror(reg), b)
  {
    hide Mirror, CoreBits, Reflect8, Eight16;
    var fed := (Reflect8(b) as bv32) << 8;
    FeedFits(Reflect8(b));
    Fits16(reg, fed);
    MirrorLinear(reg, fed);
    MirrorByte(b);
    CoreBitsMirrored(reg ^ fed);
  }

  lemma MirrorIsFinal(reg: bv32)
    requires reg <= 0xFFFF
    ensures Final(CRC16_MODBUS, reg) == Mirror(reg) as bv32
  {}

  /** For every byte string, the register Modbus frames carry is nx_crc16_modbus. */
  lemma ModbusIsNamedVariant(data: seq<bv8>)
    ensures Compute(CRC16_MODBUS, data) == Crc16(data) as bv32
  {
    hide Mirror, Final, CoreBytes;
    CoreMirrored(data);
    MirrorIsFinal(CoreBytes(CRC16_MODBUS, Start(CRC16_MODBUS), data));
  }

  // ---------------------------------------------------------------- the table form

  function High(c: bv16): bv16 { c & 0xFF00 }
  function Low(c: bv16): bv8 { (c & 0xFF) as bv8 }
  function Down(c: bv16): bv16 { c >> 8 }
  function Up(b: bv8): bv16 { (b as bv16) << 8 }

  lemma Halves(c: bv16)
    ensures c == Sum16(High(c), Wide(Low(c)))
  {}

  lemma Eight16High(c: bv16)
    ensures Eight16(High(c)) == Down(c)
  {}

  lemma EightSplits(c: bv16)
    ensures Eight16(c) == Sum16(Down(c), ModbusTable(Low(c)))
  {
    hide ModbusTable, Eight16, Sum16, High, Down, Low, Wide;
    Halves(c);
    Eight16Linear(High(c), Wide(Low(c)));
    Eight16High(c);
    TableOfWide(Low(c));
  }

  lemma TableOfWide(b: bv8)
    ensures ModbusTable(b) == Eight16(Wide(b))
  {
    hide Eight16, ModbusTable;
    ModbusTableIsSteps(b);
  }

  lemma FeedIsLow(crc: bv16, b: bv8)
    ensures Down(Sum16(crc, Wide(b))) == Down(crc)
  {}

  /** One lookup takes the register through a byte. */
  lemma LookupIsByte(crc: bv16, b: bv8)
    ensures Byte16(crc, b) == Sum16(Down(crc), ModbusTable(Low(Sum16(crc, Wide(b)))))
  {
    hide ModbusTable, Eight16, Sum16, Down, Low, Wide;
    EightSplits(Sum16(crc, Wide(b)));
    FeedIsLow(crc, b);
  }

  lemma BytesStep(data: seq<bv8>, i: nat)
    requires i < |data|
    ensures Crc16(data[..i + 1]) == Byte16(Crc16(data[..i]), data[i])
  {
    hide Byte16;
    assert data[..i + 1][..i] == data[..i];
  }

  lemma NoBytes(data: seq<bv8>)
    ensures Crc16(data[..0]) == 0xFFFF
  {}

  /** nx_modbus_rtu_crc16: one table lookup a byte. */
  method TableCrc16(data: seq<bv8>) returns (crc: bv16)
    ensures crc == Crc16(data)
  {
    hide Byte16, Bytes16, Sum16, Down, Low, Wide, ModbusTable, Crc16;
    crc := 0xFFFF;
    NoBytes(data);
    for i := 0 to |data|
      invariant crc == Crc16(data[..i])
    {
      BytesStep(data, i);
      LookupIsByte(crc, data[i]);
      var index := Low(Sum16(crc, Wide(data[i])));
      crc := Sum16(Down(crc), ModbusTable(index));
    }
    assert data[..|data|] == data;
  }

  // ---------------------------------------------------------------- frames

  const ADU_SMALLEST := 5

  /** nx_modbus_rtu_set_crc: the frame's last two bytes become its CRC, low byte first. */
  method SetCrc(frame: array<bv8>) returns (ok: bool)
    modifies frame
    ensures ok == (frame.Length >= ADU_SMALLEST)
    ensures !ok ==> frame[..] == old(frame[..])
    ensures ok ==> frame[..] == Stamped(old(frame[..frame.Length - 2]))
  {
    hide Crc16, Low, Down;
    if frame.Length < ADU_SMALLEST {
      return false;
    }
    var n := frame.Length - 2;
    var crc := TableCrc16(frame[..n]);
    frame[n] := Low(crc);
    frame[n + 1] := Low(Down(crc));
    assert frame[..n] == old(frame[..n]);
    return true;
  }

  /** A frame body followed by its CRC. */
  function Stamped(body: seq<bv8>): seq<bv8> {
    body + [Low(Crc16(body)), Low(Down(Crc16(body)))]
  }

  /** nx_modbus_rtu_check_crc. */
  predicate CrcOk(frame: seq<bv8>) {
    && |frame| >= ADU_SMALLEST
    && Crc16(frame[..|frame| - 2]) == Pair(frame[|frame| - 2], frame[|frame| - 1])
  }

  method CheckCrc(frame: seq<bv8>) returns (ok: bool)
    ensures ok == CrcOk(frame)
  {
    hide Crc16, Pair;
    if |frame| < ADU_SMALLEST {
      return false;
    }
    var computed := TableCrc16(frame[..|frame| - 2]);
    var stored := Pair(frame[|frame| - 2], frame[|frame| - 1]);
    return computed == stored;
  }

  function Pair(lo: bv8, hi: bv8): bv16 {
    Wide(lo) | Up(hi)
  }

  /** Stamping always establishes the check. */
  lemma StampedChecks(body: seq<bv8>)
    requires |body| >= ADU_SMALLEST - 2
    ensures CrcOk(Stamped(body))
  {}

  // ---------------------------------------------------------------- injectivity

  lemma Step16Injective(a: bv16, b: bv16)
    requires Step16(a) == Step16(b)
    ensures a == b
  {}

  lemma Eight16Injective(a: bv16, b: bv16)
    requires Eight16(a) == Eight16(b)
    ensures a == b
  {
    hide Step16;
    var a1, b1 := Step16(a), Step16(b);
    var a2, b2 := Step16(a1), Step16(b1);
    var a3, b3 := Step16(a2), Step16(b2);
    var a4, b4 := Step16(a3), Step16(b3);
    var a5, b5 := Step16(a4), Step16(b4);
    var a6, b6 := Step16(a5), Step16(b5);
    var a7, b7 := Step16(a6), Step16(b6);
    Step16Injective(a7, b7);
    Step16Injective(a6, b6);
    Step16Injective(a5, b5);
    Step16Injective(a4, b4);
    Step16Injective(a3, b3);
    Step16Injective(a2, b2);
    Step16Injective(a1, b1);
    Step16Injective(a, b);
  }

  lemma XorCancels(a: bv16, b: bv16, k: bv16)
    requires Sum16(a, k) == Sum16(b, k)
    ensures a == b
  {}

  /** Different registers stay different through the same bytes. */
  lemma {:induction false} BytesInjective(a: bv16, b: bv16, data: seq<bv8>)
    requires Bytes16(a, data) == Bytes16(b, data)
    ensures a == b
    decreases |data|
  {
    hide Eight16, Sum16, Wide;
    if data != [] {
      var k := |data| - 1;
      var a1, b1 := Bytes16(a, data[..k]), Bytes16(b, data[..k]);
      Eight16Injective(Sum16(a1, Wide(data[k])), Sum16(b1, Wide(data[k])));
      XorCancels(a1, b1, Wide(data[k]));
      BytesInjective(a, b, data[..k]);
    }
  }

  /** Two bytes enter the register as one 16-bit word. */
  lemma TwoBytes(c: bv16, lo: bv8, hi: bv8)
    ensures Byte16(Byte16(c, lo), hi) == Eight16(Eight16(Sum16(c, Pair(lo, hi))))
  {
    hide Eight16, Sum16, Wide, Up, Pair, Down, High;
    PairFeeds(c, lo, hi);
    Eight16Linear(Sum16(c, Wide(lo)), Up(hi));
    HighByte(hi);
    Eight16High(Up(hi));
  }

  lemma PairFeeds(c: bv16, lo: bv8, hi: bv8)
    ensures Sum16(c, Pair(lo, hi)) == Sum16(Sum16(c, Wide(lo)), Up(hi))
  {}

  lemma HighByte(hi: bv8)
    ensures High(Up(hi)) == Up(hi) && Down(Up(hi)) == Wide(hi)
  {}

  lemma {:induction false} BytesSplit(c: bv16, a: seq<bv8>, b: seq<bv8>)
    ensures Bytes16(c, a + b) == Bytes16(Bytes16(c, a), b)
    decreases |b|
  {
    hide Byte16;
    if b == [] {
      assert a + b == a;
    } else {
      assert (a + b)[..|a + b| - 1] == a + b[..|b| - 1];
      BytesSplit(c, a, b[..|b| - 1]);
    }
  }

  lemma BytesOfTwo(c: bv16, x: bv8, y: bv8)
    ensures Bytes16(c, [x, y]) == Byte16(Byte16(c, x), y)
  {
    hide Byte16;
    assert [x, y][..1] == [x] && [x][..0] == [];
    assert Bytes16(c, [x]) == Byte16(Bytes16(c, []), x);
  }

  // ---------------------------------------------------------------- the frame theorems

  lemma EightOfZero(z: bv16)
    ensures Eight16(Eight16(z)) == 0 <==> z == 0
  {
    assert Step16(0) == 0;
    assert Eight16(0) == 0;
    hide Eight16;
    if Eight16(Eight16(z)) == 0 {
      Eight16Injective(Eight16(z), 0);
      Eight16Injective(z, 0);
    }
  }

  lemma SameIffXorZero(a: bv16, b: bv16)
    ensures Sum16(a, b) == 0 <==> a == b
  {}

  /** A frame checks exactly when the CRC over all of it, trailer included, is zero. */
  lemma ChecksIffWholeIsZero(frame: seq<bv8>)
    requires |frame| >= ADU_SMALLEST
    ensures CrcOk(frame) <==> Crc16(frame) == 0
  {
    hide Eight16, Pair, Byte16, Sum16;
    var n := |frame| - 2;
    var c, lo, hi := Crc16(frame[..n]), frame[n], frame[n + 1];
    assert frame == frame[..n] + [lo, hi];
    BytesSplit(0xFFFF, frame[..n], [lo, hi]);
    BytesOfTwo(c, lo, hi);
    TwoBytes(c, lo, hi);
    EightOfZero(Sum16(c, Pair(lo, hi)));
    SameIffXorZero(c, Pair(lo, hi));
  }

  lemma PairInjective(x: bv8, y: bv8, x1: bv8, y1: bv8)
    requires Pair(x, y) == Pair(x1, y1)
    ensures x == x1 && y == y1
  {}

  /** Changing two adjacent bytes of a valid frame, in any way and anywhere (its CRC bytes
      included), is always detected. */
  lemma AdjacentDamageIsDetected(frame: seq<bv8>, i: nat, x: bv8, y: bv8)
    requires CrcOk(frame) && i + 1 < |frame|
    requires x != frame[i] || y != frame[i + 1]
    ensures !CrcOk(frame[i := x][i + 1 := y])
  {
    hide Crc16, Pair, Eight16, Byte16, Sum16;
    var damaged := frame[i := x][i + 1 := y];
    if CrcOk(damaged) {
      ChecksIffWholeIsZero(frame);
      ChecksIffWholeIsZero(damaged);
      var a, z := frame[..i], frame[i + 2..];
      assert frame == a + [frame[i], frame[i + 1]] + z;
      assert damaged == a + [x, y] + z;
      DamageShows(a, frame[i], frame[i + 1], x, y, z);
    }
  }

  lemma DamageShows(a: seq<bv8>, u: bv8, v: bv8, x: bv8, y: bv8, z: seq<bv8>)
    requires Crc16(a + [u, v] + z) == Crc16(a + [x, y] + z)
    ensures u == x && v == y
  {
    hide Pair, Eight16, Byte16, Sum16;
    var c := Bytes16(0xFFFF, a);
    BytesSplit(0xFFFF, a + [u, v], z);
    BytesSplit(0xFFFF, a + [x, y], z);
    BytesSplit(0xFFFF, a, [u, v]);
    BytesSplit(0xFFFF, a, [x, y]);
    BytesInjective(Bytes16(c, [u, v]), Bytes16(c, [x, y]), z);
    BytesOfTwo(c, u, v);
    BytesOfTwo(c, x, y);
    TwoBytes(c, u, v);
    TwoBytes(c, x, y);
    Eight16Injective(Eight16(Sum16(c, Pair(u, v))), Eight16(Sum16(c, Pair(x, y))));
    Eight16Injective(Sum16(c, Pair(u, v)), Sum16(c, Pair(x, y)));
    XorCommutes(c, Pair(u, v));
    XorCommutes(c, Pair(x, y));
    XorCancels(Pair(u, v), Pair(x, y), c);
    PairInjective(u, v, x, y);
  }

  lemma XorCommutes(a: bv16, b: bv16)
    ensures Sum16(a, b) == Sum16(b, a)
  {}
}
