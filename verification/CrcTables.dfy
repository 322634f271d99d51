/** The table-driven CRCs refine the bitwise core: CRC-16/MODBUS, and the CRC-8 forms of the
    two encoders. Each register step is linear over exclusive or, so a table is checked on
    its first row and first column. */
module CrcTables {
  import opened Crc

  /** crc16_table: the register update for an input byte, low bit first, a row for each high nibble. */
  function ModbusTableRow(hi: nat): (r: seq<bv16>)
    ensures |r| == 16
  {
    match hi
    case 0 => [0x0000, 0xC0C1, 0xC181, 0x0140, 0xC301, 0x03C0, 0x0280, 0xC241, 0xC601, 0x06C0, 0x0780, 0xC741, 0x0500, 0xC5C1, 0xC481, 0x0440]
    case 1 => [0xCC01, 0x0CC0, 0x0D80, 0xCD41, 0x0F00, 0xCFC1, 0xCE81, 0x0E40, 0x0A00, 0xCAC1, 0xCB81, 0x0B40, 0xC901, 0x09C0, 0x0880, 0xC841]
    case 2 => [0xD801, 0x18C0, 0x1980, 0xD941, 0x1B00, 0xDBC1, 0xDA81, 0x1A40, 0x1E00, 0xDEC1, 0xDF81, 0x1F40, 0xDD01, 0x1DC0, 0x1C80, 0xDC41]
    case 3 => [0x1400, 0xD4C1, 0xD581, 0x1540, 0xD701, 0x17C0, 0x1680, 0xD641, 0xD201, 0x12C0, 0x1380, 0xD341, 0x1100, 0xD1C1, 0xD081, 0x1040]
    case 4 => [0xF001, 0x30C0, 0x3180, 0xF141, 0x3300, 0xF3C1, 0xF281, 0x3240, 0x3600, 0xF6C1, 0xF781, 0x3740, 0xF501, 0x35C0, 0x3480, 0xF441]
    case 5 => [0x3C00, 0xFCC1, 0xFD81, 0x3D40, 0xFF01, 0x3FC0, 0x3E80, 0xFE41, 0xFA01, 0x3AC0, 0x3B80, 0xFB41, 0x3900, 0xF9C1, 0xF881, 0x3840]
    case 6 => [0x2800, 0xE8C1, 0xE981, 0x2940, 0xEB01, 0x2BC0, 0x2A80, 0xEA41, 0xEE01, 0x2EC0, 0x2F80, 0xEF41, 0x2D00, 0xEDC1, 0xEC81, 0x2C40]
    case 7 => [0xE401, 0x24C0, 0x2580, 0xE541, 0x2700, 0xE7C1, 0xE681, 0x2640, 0x2200, 0xE2C1, 0xE381, 0x2340, 0xE101, 0x21C0, 0x2080, 0xE041]
    case 8 => [0xA001, 0x60C0, 0x6180, 0xA141, 0x6300, 0xA3C1, 0xA281, 0x6240, 0x6600, 0xA6C1, 0xA781, 0x6740, 0xA501, 0x65C0, 0x6480, 0xA441]
    case 9 => [0x6C00, 0xACC1, 0xAD81, 0x6D40, 0xAF01, 0x6FC0, 0x6E80, 0xAE41, 0xAA01, 0x6AC0, 0x6B80, 0xAB41, 0x6900, 0xA9C1, 0xA881, 0x6840]
    case 10 => [0x7800, 0xB8C1, 0xB981, 0x7940, 0xBB01, 0x7BC0, 0x7A80, 0xBA41, 0xBE01, 0x7EC0, 0x7F80, 0xBF41, 0x7D00, 0xBDC1, 0xBC81, 0x7C40]
    case 11 => [0xB401, 0x74C0, 0x7580, 0xB541, 0x7700, 0xB7C1, 0xB681, 0x7640, 0x7200, 0xB2C1, 0xB381, 0x7340, 0xB101, 0x71C0, 0x7080, 0xB041]
    case 12 => [0x5000, 0x90C1, 0x9181, 0x5140, 0x9301, 0x53C0, 0x5280, 0x9241, 0x9601, 0x56C0, 0x5780, 0x9741, 0x5500, 0x95C1, 0x9481, 0x5440]
    case 13 => [0x9C01, 0x5CC0, 0x5D80, 0x9D41, 0x5F00, 0x9FC1, 0x9E81, 0x5E40, 0x5A00, 0x9AC1, 0x9B81, 0x5B40, 0x9901, 0x59C0, 0x5880, 0x9841]
    case 14 => [0x8801, 0x48C0, 0x4980, 0x8941, 0x4B00, 0x8BC1, 0x8A81, 0x4A40, 0x4E00, 0x8EC1, 0x8F81, 0x4F40, 0x8D01, 0x4DC0, 0x4C80, 0x8C41]
    case _ => [0x4400, 0x84C1, 0x8581, 0x4540, 0x8701, 0x47C0, 0x4680, 0x8641, 0x8201, 0x42C0, 0x4380, 0x8341, 0x4100, 0x81C1, 0x8081, 0x4040]
  }

  function ModbusTable(i: bv8): bv16 {
    ModbusTableRow((i >> 4) as nat)[(i & 0xF) as nat]
  }

  /** KTH_CRC8_TABLE: the register update for an input byte, high bit first, a row for each high nibble. */
  function KthTableRow(hi: nat): (r: seq<bv8>)
    ensures |r| == 16
  {
    match hi
    case 0 => [0x00, 0x07, 0x0E, 0x09, 0x1C, 0x1B, 0x12, 0x15, 0x38, 0x3F, 0x36, 0x31, 0x24, 0x23, 0x2A, 0x2D]
    case 1 => [0x70, 0x77, 0x7E, 0x79, 0x6C, 0x6B, 0x62, 0x65, 0x48, 0x4F, 0x46, 0x41, 0x54, 0x53, 0x5A, 0x5D]
    case 2 => [0xE0, 0xE7, 0xEE, 0xE9, 0xFC, 0xFB, 0xF2, 0xF5, 0xD8, 0xDF, 0xD6, 0xD1, 0xC4, 0xC3, 0xCA, 0xCD]
    case 3 => [0x90, 0x97, 0x9E, 0x99, 0x8C, 0x8B, 0x82, 0x85, 0xA8, 0xAF, 0xA6, 0xA1, 0xB4, 0xB3, 0xBA, 0xBD]
    case 4 => [0xC7, 0xC0, 0xC9, 0xCE, 0xDB, 0xDC, 0xD5, 0xD2, 0xFF, 0xF8, 0xF1, 0xF6, 0xE3, 0xE4, 0xED, 0xEA]
    case 5 => [0xB7, 0xB0, 0xB9, 0xBE, 0xAB, 0xAC, 0xA5, 0xA2, 0x8F, 0x88, 0x81, 0x86, 0x93, 0x94, 0x9D, 0x9A]
    case 6 => [0x27, 0x20, 0x29, 0x2E, 0x3B, 0x3C, 0x35, 0x32, 0x1F, 0x18, 0x11, 0x16, 0x03, 0x04, 0x0D, 0x0A]
    case 7 => [0x57, 0x50, 0x59, 0x5E, 0x4B, 0x4C, 0x45, 0x42, 0x6F, 0x68, 0x61, 0x66, 0x73, 0x74, 0x7D, 0x7A]
    case 8 => [0x89, 0x8E, 0x87, 0x80, 0x95, 0x92, 0x9B, 0x9C, 0xB1, 0xB6, 0xBF, 0xB8, 0xAD, 0xAA, 0xA3, 0xA4]
    case 9 => [0xF9, 0xFE, 0xF7, 0xF0, 0xE5, 0xE2, 0xEB, 0xEC, 0xC1, 0xC6, 0xCF, 0xC8, 0xDD, 0xDA, 0xD3, 0xD4]
    case 10 => [0x69, 0x6E, 0x67, 0x60, 0x75, 0x72, 0x7B, 0x7C, 0x51, 0x56, 0x5F, 0x58, 0x4D, 0x4A, 0x43, 0x44]
    case 11 => [0x19, 0x1E, 0x17, 0x10, 0x05, 0x02, 0x0B, 0x0C, 0x21, 0x26, 0x2F, 0x28, 0x3D, 0x3A, 0x33, 0x34]
    case 12 => [0x4E, 0x49, 0x40, 0x47, 0x52, 0x55, 0x5C, 0x5B, 0x76, 0x71, 0x78, 0x7F, 0x6A, 0x6D, 0x64, 0x63]
    case 13 => [0x3E, 0x39, 0x30, 0x37, 0x22, 0x25, 0x2C, 0x2B, 0x06, 0x01, 0x08, 0x0F, 0x1A, 0x1D, 0x14, 0x13]
    case 14 => [0xAE, 0xA9, 0xA0, 0xA7, 0xB2, 0xB5, 0xBC, 0xBB, 0x96, 0x91, 0x98, 0x9F, 0x8A, 0x8D, 0x84, 0x83]
    case _ => [0xDE, 0xD9, 0xD0, 0xD7, 0xC2, 0xC5, 0xCC, 0xCB, 0xE6, 0xE1, 0xE8, 0xEF, 0xFA, 0xFD, 0xF4, 0xF3]
  }

  function KthTable(i: bv8): bv8 {
    KthTableRow((i >> 4) as nat)[(i & 0xF) as nat]
  }

  /** KTM_CRC8_NIBBLE: the register update for the high nibble. */
  const KTM_NIBBLE: seq<bv8> := [0x00, 0x07, 0x0E, 0x09, 0x1C, 0x1B, 0x12, 0x15, 0x38, 0x3F, 0x36, 0x31, 0x24, 0x23, 0x2A, 0x2D]

  // ---------------------------------------------------------------- one step

  /** One low-bit-first step of the Modbus register. */
  function Step16(c: bv16): bv16 {
    Sum16(c >> 1, Fold16(c))
  }

  function Sum16(a: bv16, b: bv16): bv16 { a ^ b }

  /** What a bit shifted out folds back in. */
  function Fold16(c: bv16): bv16 {
    if c & 1 == 1 then 0xA001 else 0
  }

  function Eight16(c: bv16): bv16 {
    Step16(Step16(Step16(Step16(Step16(Step16(Step16(Step16(c))))))))
  }

  /** One high-bit-first step of the CRC-8 register. */
  function Step8(c: bv8): bv8 {
    Sum8(c << 1, Fold8(c))
  }

  function Sum8(a: bv8, b: bv8): bv8 { a ^ b }

  function Fold8(c: bv8): bv8 {
    if c & 0x80 == 0x80 then 7 else 0
  }

  function Four8(c: bv8): bv8 {
    Step8(Step8(Step8(Step8(c))))
  }

  function Eight8(c: bv8): bv8 {
    Four8(Four8(c))
  }

  // ---------------------------------------------------------------- linearity

  lemma Sum16Laws(a: bv16, b: bv16, c: bv16)
    ensures Sum16(a, b) == Sum16(b, a) && Sum16(Sum16(a, b), c) == Sum16(a, Sum16(b, c))
  {}

  lemma Regroup16(a: bv16, b: bv16, k: bv16, l: bv16)
    ensures Sum16(Sum16(a, b), Sum16(k, l)) == Sum16(Sum16(a, k), Sum16(b, l))
  {
    hide Sum16;
    Sum16Laws(a, b, Sum16(k, l));
    Sum16Laws(b, k, l);
    Sum16Laws(k, b, l);
    Sum16Laws(a, k, Sum16(b, l));
  }

  lemma Shift16(a: bv16, b: bv16)
    ensures Sum16(a, b) >> 1 == Sum16(a >> 1, b >> 1)
  {}

  lemma Fold16Linear(a: bv16, b: bv16)
    ensures Fold16(Sum16(a, b)) == Sum16(Fold16(a), Fold16(b))
  {}

  lemma Step16Linear(a: bv16, b: bv16)
    ensures Step16(Sum16(a, b)) == Sum16(Step16(a), Step16(b))
  {
    hide Sum16, Fold16;
    Shift16(a, b);
    Fold16Linear(a, b);
    Regroup16(a >> 1, b >> 1, Fold16(a), Fold16(b));
  }

  lemma Eight16Linear(a: bv16, b: bv16)
    ensures Eight16(Sum16(a, b)) == Sum16(Eight16(a), Eight16(b))
  {
    hide Step16, Sum16;
    Step16Linear(a, b);
    var a1, b1 := Step16(a), Step16(b);
    Step16Linear(a1, b1);
    var a2, b2 := Step16(a1), Step16(b1);
    Step16Linear(a2, b2);
    var a3, b3 := Step16(a2), Step16(b2);
    Step16Linear(a3, b3);
    var a4, b4 := Step16(a3), Step16(b3);
    Step16Linear(a4, b4);
    var a5, b5 := Step16(a4), Step16(b4);
    Step16Linear(a5, b5);
    var a6, b6 := Step16(a5), Step16(b5);
    Step16Linear(a6, b6);
    Step16Linear(Step16(a6), Step16(b6));
  }

  lemma Sum8Laws(a: bv8, b: bv8, c: bv8)
    ensures Sum8(a, b) == Sum8(b, a) && Sum8(Sum8(a, b), c) == Sum8(a, Sum8(b, c))
  {}

  lemma Regroup8(a: bv8, b: bv8, k: bv8, l: bv8)
    ensures Sum8(Sum8(a, b), Sum8(k, l)) == Sum8(Sum8(a, k), Sum8(b, l))
  {
    hide Sum8;
    Sum8Laws(a, b, Sum8(k, l));
    Sum8Laws(b, k, l);
    Sum8Laws(k, b, l);
    Sum8Laws(a, k, Sum8(b, l));
  }

  lemma Shift8(a: bv8, b: bv8)
    ensures Sum8(a, b) << 1 == Sum8(a << 1, b << 1)
  {}

  lemma Fold8Linear(a: bv8, b: bv8)
    ensures Fold8(Sum8(a, b)) == Sum8(Fold8(a), Fold8(b))
  {}

  lemma Step8Linear(a: bv8, b: bv8)
    ensures Step8(Sum8(a, b)) == Sum8(Step8(a), Step8(b))
  {
    hide Sum8, Fold8;
    Shift8(a, b);
    Fold8Linear(a, b);
    Regroup8(a << 1, b << 1, Fold8(a), Fold8(b));
  }

  lemma Four8Linear(a: bv8, b: bv8)
    ensures Four8(Sum8(a, b)) == Sum8(Four8(a), Four8(b))
  {
    hide Step8, Sum8;
    Step8Linear(a, b);
    var a1, b1 := Step8(a), Step8(b);
    Step8Linear(a1, b1);
    var a2, b2 := Step8(a1), Step8(b1);
    Step8Linear(a2, b2);
    Step8Linear(Step8(a2), Step8(b2));
  }

  lemma Eight8Linear(a: bv8, b: bv8)
    ensures Eight8(Sum8(a, b)) == Sum8(Eight8(a), Eight8(b))
  {
    hide Four8, Sum8;
    Four8Linear(a, b);
    Four8Linear(Four8(a), Four8(b));
  }

  // ---------------------------------------------------------------- the tables

  lemma Nibbles(x: bv8)
    ensures x >> 4 < 16 && x & 0xF < 16
    ensures x == Sum8((x >> 4) << 4, x & 0xF)
    ensures x as bv16 == Sum16(((x >> 4) as bv16) << 4, (x & 0xF) as bv16)
  {}

  lemma ModbusRows(hi: bv8, lo: bv8)
    requires hi < 16 && lo < 16
    ensures ModbusTableRow(hi as nat)[lo as nat] == Sum16(ModbusTableRow(hi as nat)[0], ModbusTableRow(0)[lo as nat])
  {
    hide ModbusTableRow, Sum16;
    if hi < 4 {
      ModbusRows0To3(hi, lo);
    } else if hi < 8 {
      ModbusRows4To7(hi, lo);
    } else if hi < 12 {
      ModbusRows8To11(hi, lo);
    } else {
      ModbusRows12To15(hi, lo);
    }
  }

  lemma ModbusRows0To3(hi: bv8, lo: bv8)
    requires hi < 4 && lo < 16
    ensures ModbusTableRow(hi as nat)[lo as nat] == Sum16(ModbusTableRow(hi as nat)[0], ModbusTableRow(0)[lo as nat])
  {
    if hi == 0 {} else if hi == 1 {} else if hi == 2 {} else {}
    if lo == 0 {} else if lo == 1 {} else if lo == 2 {} else if lo == 3 {} else if lo == 4 {} else if lo == 5 {}
    else if lo == 6 {} else if lo == 7 {} else if lo == 8 {} else if lo == 9 {} else if lo == 10 {} else if lo == 11 {}
    else if lo == 12 {} else if lo == 13 {} else if lo == 14 {} else {}
  }

  lemma ModbusRows4To7(hi: bv8, lo: bv8)
    requires 4 <= hi < 8 && lo < 16
    ensures ModbusTableRow(hi as nat)[lo as nat] == Sum16(ModbusTableRow(hi as nat)[0], ModbusTableRow(0)[lo as nat])
  {
    if hi == 4 {} else if hi == 5 {} else if hi == 6 {} else {}
    if lo == 0 {} else if lo == 1 {} else if lo == 2 {} else if lo == 3 {} else if lo == 4 {} else if lo == 5 {}
    else if lo == 6 {} else if lo == 7 {} else if lo == 8 {} else if lo == 9 {} else if lo == 10 {} else if lo == 11 {}
    else if lo == 12 {} else if lo == 13 {} else if lo == 14 {} else {}
  }

  lemma ModbusRows8To11(hi: bv8, lo: bv8)
    requires 8 <= hi < 12 && lo < 16
    ensures ModbusTableRow(hi as nat)[lo as nat] == Sum16(ModbusTableRow(hi as nat)[0], ModbusTableRow(0)[lo as nat])
  {
    if hi == 8 {} else if hi == 9 {} else if hi == 10 {} else {}
    if lo == 0 {} else if lo == 1 {} else if lo == 2 {} else if lo == 3 {} else if lo == 4 {} else if lo == 5 {}
    else if lo == 6 {} else if lo == 7 {} else if lo == 8 {} else if lo == 9 {} else if lo == 10 {} else if lo == 11 {}
    else if lo == 12 {} else if lo == 13 {} else if lo == 14 {} else {}
  }

  lemma ModbusRows12To15(hi: bv8, lo: bv8)
    requires 12 <= hi < 16 && lo < 16
    ensures ModbusTableRow(hi as nat)[lo as nat] == Sum16(ModbusTableRow(hi as nat)[0], ModbusTableRow(0)[lo as nat])
  {
    if hi == 12 {} else if hi == 13 {} else if hi == 14 {} else {}
    if lo == 0 {} else if lo == 1 {} else if lo == 2 {} else if lo == 3 {} else if lo == 4 {} else if lo == 5 {}
    else if lo == 6 {} else if lo == 7 {} else if lo == 8 {} else if lo == 9 {} else if lo == 10 {} else if lo == 11 {}
    else if lo == 12 {} else if lo == 13 {} else if lo == 14 {} else {}
  }

  lemma ModbusColumn(n: bv8)
    requires n < 16
    ensures ModbusTableRow(n as nat)[0] == Eight16((n as bv16) << 4)
  {
    if n == 0 {} else if n == 1 {} else if n == 2 {} else if n == 3 {} else if n == 4 {} else if n == 5 {}
    else if n == 6 {} else if n == 7 {} else if n == 8 {} else if n == 9 {} else if n == 10 {} else if n == 11 {}
    else if n == 12 {} else if n == 13 {} else if n == 14 {} else {}
  }

  lemma ModbusRow0(n: bv8)
    requires n < 16
    ensures ModbusTableRow(0)[n as nat] == Eight16(n as bv16)
  {
    if n == 0 {} else if n == 1 {} else if n == 2 {} else if n == 3 {} else if n == 4 {} else if n == 5 {}
    else if n == 6 {} else if n == 7 {} else if n == 8 {} else if n == 9 {} else if n == 10 {} else if n == 11 {}
    else if n == 12 {} else if n == 13 {} else if n == 14 {} else {}
  }

  lemma ModbusEntry(hi: bv8, lo: bv8, u: bv16, v: bv16)
    requires hi < 16 && lo < 16 && u == (hi as bv16) << 4 && v == lo as bv16
    ensures ModbusTableRow(hi as nat)[lo as nat] == Eight16(Sum16(u, v))
  {
    hide ModbusTableRow, Eight16, Sum16;
    ModbusRows(hi, lo);
    ModbusColumn(hi);
    ModbusRow0(lo);
    Eight16Linear(u, v);
  }

  /** Every entry of the Modbus table is eight steps of its index. */
  lemma ModbusTableIsSteps(x: bv8)
    ensures ModbusTable(x) == Eight16(x as bv16)
  {
    hide ModbusTableRow, Eight16, Sum16, Sum8;
    Nibbles(x);
    ModbusEntry(x >> 4, x & 0xF, ((x >> 4) as bv16) << 4, (x & 0xF) as bv16);
  }

  lemma KthRows(hi: bv8, lo: bv8)
    requires hi < 16 && lo < 16
    ensures KthTableRow(hi as nat)[lo as nat] == Sum8(KthTableRow(hi as nat)[0], KthTableRow(0)[lo as nat])
  {
    hide KthTableRow, Sum8;
    if hi < 4 {
      KthRows0To3(hi, lo);
    } else if hi < 8 {
      KthRows4To7(hi, lo);
    } else if hi < 12 {
      KthRows8To11(hi, lo);
    } else {
      KthRows12To15(hi, lo);
    }
  }

  lemma KthRows0To3(hi: bv8, lo: bv8)
    requires hi < 4 && lo < 16
    ensures KthTableRow(hi as nat)[lo as nat] == Sum8(KthTableRow(hi as nat)[0], KthTableRow(0)[lo as nat])
  {
    if hi == 0 {} else if hi == 1 {} else if hi == 2 {} else {}
    if lo == 0 {} else if lo == 1 {} else if lo == 2 {} else if lo == 3 {} else if lo == 4 {} else if lo == 5 {}
    else if lo == 6 {} else if lo == 7 {} else if lo == 8 {} else if lo == 9 {} else if lo == 10 {} else if lo == 11 {}
    else if lo == 12 {} else if lo == 13 {} else if lo == 14 {} else {}
  }

  lemma KthRows4To7(hi: bv8, lo: bv8)
    requires 4 <= hi < 8 && lo < 16
    ensures KthTableRow(hi as nat)[lo as nat] == Sum8(KthTableRow(hi as nat)[0], KthTableRow(0)[lo as nat])
  {
    if hi == 4 {} else if hi == 5 {} else if hi == 6 {} else {}
    if lo == 0 {} else if lo == 1 {} else if lo == 2 {} else if lo == 3 {} else if lo == 4 {} else if lo == 5 {}
    else if lo == 6 {} else if lo == 7 {} else if lo == 8 {} else if lo == 9 {} else if lo == 10 {} else if lo == 11 {}
    else if lo == 12 {} else if lo == 13 {} else if lo == 14 {} else {}
  }

  lemma KthRows8To11(hi: bv8, lo: bv8)
    requires 8 <= hi < 12 && lo < 16
    ensures KthTableRow(hi as nat)[lo as nat] == Sum8(KthTableRow(hi as nat)[0], KthTableRow(0)[lo as nat])
  {
    if hi == 8 {} else if hi == 9 {} else if hi == 10 {} else {}
    if lo == 0 {} else if lo == 1 {} else if lo == 2 {} else if lo == 3 {} else if lo == 4 {} else if lo == 5 {}
    else if lo == 6 {} else if lo == 7 {} else if lo == 8 {} else if lo == 9 {} else if lo == 10 {} else if lo == 11 {}
    else if lo == 12 {} else if lo == 13 {} else if lo == 14 {} else {}
  }

  lemma KthRows12To15(hi: bv8, lo: bv8)
    requires 12 <= hi < 16 && lo < 16
    ensures KthTableRow(hi as nat)[lo as nat] == Sum8(KthTableRow(hi as nat)[0], KthTableRow(0)[lo as nat])
  {
    if hi == 12 {} else if hi == 13 {} else if hi == 14 {} else {}
    if lo == 0 {} else if lo == 1 {} else if lo == 2 {} else if lo == 3 {} else if lo == 4 {} else if lo == 5 {}
    else if lo == 6 {} else if lo == 7 {} else if lo == 8 {} else if lo == 9 {} else if lo == 10 {} else if lo == 11 {}
    else if lo == 12 {} else if lo == 13 {} else if lo == 14 {} else {}
  }

  lemma KthColumn(n: bv8)
    requires n < 16
    ensures KthTableRow(n as nat)[0] == Eight8(n << 4)
  {
    if n == 0 {} else if n == 1 {} else if n == 2 {} else if n == 3 {} else if n == 4 {} else if n == 5 {}
    else if n == 6 {} else if n == 7 {} else if n == 8 {} else if n == 9 {} else if n == 10 {} else if n == 11 {}
    else if n == 12 {} else if n == 13 {} else if n == 14 {} else {}
  }

  lemma KthRow0(n: bv8)
    requires n < 16
    ensures KthTableRow(0)[n as nat] == Eight8(n)
  {
    if n == 0 {} else if n == 1 {} else if n == 2 {} else if n == 3 {} else if n == 4 {} else if n == 5 {}
    else if n == 6 {} else if n == 7 {} else if n == 8 {} else if n == 9 {} else if n == 10 {} else if n == 11 {}
    else if n == 12 {} else if n == 13 {} else if n == 14 {} else {}
  }

  /** Every entry of the KTH7112 table is eight steps of its index. */
  lemma KthTableIsSteps(x: bv8)
    ensures KthTable(x) == Eight8(x)
  {
    hide KthTableRow, Eight8, Sum8;
    Nibbles(x);
    KthRows(x >> 4, x & 0xF);
    KthColumn(x >> 4);
    KthRow0(x & 0xF);
    Eight8Linear((x >> 4) << 4, x & 0xF);
  }

  lemma KtmEntries(n: bv8)
    requires n < 16
    ensures KTM_NIBBLE[n as nat] == Four8(n << 4)
    ensures Four8(n) == n << 4
  {}

  /** One lookup of the KTM5220 form is four steps. */
  lemma KtmLookupIsSteps(c: bv8)
    ensures c >> 4 < 16
    ensures (c << 4) ^ KTM_NIBBLE[(c >> 4) as nat] == Four8(c)
  {
    hide Four8;
    Nibbles(c);
    KtmEntries(c >> 4);
    KtmEntries(c & 0xF);
    Four8Linear((c >> 4) << 4, c & 0xF);
    assert (c & 0xF) << 4 == c << 4;
  }
}
