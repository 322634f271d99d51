/** Geometry and meaning of Modbus RTU frames on both sides of the wire. */
module ModbusFrames {
  import opened ModbusCrc
  import Words

  type word = x: int | 0 <= x < 0x10000

  const ADDR_BROADCAST: bv8 := 0
  const ADDR_MIN := 1
  const ADDR_MAX := 247
  const MAX_ADU := 256
  const EXCEPTION_FLAG: bv8 := 0x80

  const READ_COILS: bv8 := 0x01
  const READ_DISCRETE_INPUTS: bv8 := 0x02
  const READ_HOLDING_REGS: bv8 := 0x03
  const READ_INPUT_REGS: bv8 := 0x04
  const WRITE_SINGLE_COIL: bv8 := 0x05
  const WRITE_SINGLE_REG: bv8 := 0x06
  const WRITE_MULTIPLE_COILS: bv8 := 0x0F
  const WRITE_MULTIPLE_REGS: bv8 := 0x10
  const READ_WRITE_REGS: bv8 := 0x17

  const ILLEGAL_FUNCTION: bv8 := 1
  const ILLEGAL_DATA_ADDR: bv8 := 2
  const ILLEGAL_DATA_VALUE: bv8 := 3
  const DEVICE_FAILURE: bv8 := 4
  const DEVICE_BUSY: bv8 := 6

  // ---------------------------------------------------------------- bytes and 16-bit fields

  function Val(b: bv8): (n: nat)
    ensures n < 256
  {
    b as nat
  }

  function Byte(n: nat): bv8
    requires n < 256
  {
    n as bv8
  }

  lemma ByteVal(n: nat)
    requires n < 256
    ensures Val(Byte(n)) == n
  {
    Words.ThereAndBack(n);
  }

  /** A 16-bit field, high byte first. */
  function Word(hi: bv8, lo: bv8): word {
    Val(hi) * 256 + Val(lo)
  }

  function Field(x: word): seq<bv8> {
    [Byte(x / 256), Byte(x % 256)]
  }

  lemma FieldReads(x: word)
    ensures Word(Field(x)[0], Field(x)[1]) == x
  {
    hide Val, Byte;
    ByteVal(x / 256);
    ByteVal(x % 256);
  }

  // ---------------------------------------------------------------- slicing

  /** What a parser makes of the bytes in front of it: not the start of a frame, not enough
      of one yet, or a checked frame of n bytes. */
  datatype Verdict = Skip | Wait | Slice(n: nat)

  predicate IsFixedRequest(cmd: bv8) {
    cmd in {READ_COILS, READ_DISCRETE_INPUTS, READ_HOLDING_REGS, READ_INPUT_REGS, WRITE_SINGLE_COIL, WRITE_SINGLE_REG}
  }

  predicate IsVariableRequest(cmd: bv8) {
    cmd in {WRITE_MULTIPLE_COILS, WRITE_MULTIPLE_REGS}
  }

  predicate IsRead(cmd: bv8) {
    cmd in {READ_COILS, READ_DISCRETE_INPUTS, READ_HOLDING_REGS, READ_INPUT_REGS, READ_WRITE_REGS}
  }

  predicate IsWrite(cmd: bv8) {
    cmd in {WRITE_SINGLE_COIL, WRITE_SINGLE_REG, WRITE_MULTIPLE_COILS, WRITE_MULTIPLE_REGS}
  }

  /** A frame's length as its own bytes tell it. */
  datatype Length = Unsupported | Undecided | Bytes(n: nat)

  const REQUEST_MIN := 8
  const RESPONSE_MIN := 5

  function RequestLen(p: seq<bv8>): Length
    requires |p| >= REQUEST_MIN
  {
    if IsFixedRequest(p[1]) then Bytes(REQUEST_MIN)
    else if IsVariableRequest(p[1]) then Bytes(Val(p[6]) + 9)
    else if p[1] == READ_WRITE_REGS then
      if |p| < 11 then Undecided else Bytes(Val(p[10]) + 13)
    else Unsupported
  }

  function ResponseLen(p: seq<bv8>): Length
    requires |p| >= RESPONSE_MIN
  {
    if p[1] & EXCEPTION_FLAG != 0 then Bytes(RESPONSE_MIN)
    else if IsRead(p[1]) then Bytes(Val(p[2]) + 5)
    else if IsWrite(p[1]) then Bytes(8)
    else Unsupported
  }

  /** What a length means to a parser with a buffer of `size` bytes. */
  function Judge(len: Length, p: seq<bv8>, size: nat): Verdict {
    match len
    case Unsupported => Skip
    case Undecided => Wait
    case Bytes(n) =>
      if n > size then Skip
      else if |p| < n then Wait
      else if CrcOk(p[..n]) then Slice(n)
      else Skip
  }

  /** Which side's frames a parser slices. */
  datatype Side = Slave(addr: bv8, broadcast: bool) | Master

  function MinLen(side: Side): nat {
    if side.Slave? then REQUEST_MIN else RESPONSE_MIN
  }

  predicate ListensTo(side: Side, addr: bv8) {
    side.Slave? ==> addr == side.addr || (addr == ADDR_BROADCAST && side.broadcast)
  }

  predicate ForUs(side: Side, p: seq<bv8>)
    requires |p| > 0
  {
    ListensTo(side, p[0])
  }

  function FrameLen(side: Side, p: seq<bv8>): Length
    requires |p| >= MinLen(side)
  {
    if side.Slave? then RequestLen(p) else ResponseLen(p)
  }

  /** What the slicing loop does with the bytes in front of it. */
  function Decide(side: Side, p: seq<bv8>, size: nat): (v: Verdict)
    requires |p| >= MinLen(side)
    ensures v.Slice? ==> MinLen(side) <= v.n <= |p| && v.n <= size
  {
    if !ForUs(side, p) then Skip else Judge(FrameLen(side, p), p, size)
  }

  /** A read-write header whose frame could never fit the buffer, seen before its length can
      be told: the loop waits for more of it, and the overflow guard drops it when the
      buffer is full of it. */
  predicate HopelessHeader(side: Side, p: seq<bv8>, size: nat)
    requires |p| >= MinLen(side)
  {
    side.Slave? && ForUs(side, p) && p[1] == READ_WRITE_REGS && size < 11
  }

  /** The same decision with no buffer to fill: on the bytes alone. */
  function Ideal(side: Side, p: seq<bv8>, size: nat): (v: Verdict)
    requires |p| >= MinLen(side)
    ensures v.Slice? ==> MinLen(side) <= v.n <= |p|
  {
    if HopelessHeader(side, p, size) then Skip else Decide(side, p, size)
  }

  /** The frames of a byte stream and the undecided rest, as a parser that sees all of it. */
  function Settle(side: Side, s: seq<bv8>, size: nat): (r: (seq<seq<bv8>>, seq<bv8>))
    decreases |s|
  {
    if |s| < MinLen(side) then ([], s)
    else
      match Ideal(side, s, size)
      case Skip => Settle(side, s[1..], size)
      case Wait => ([], s)
      case Slice(n) =>
        var (fs, rest) := Settle(side, s[n..], size);
        ([s[..n]] + fs, rest)
  }

  /** More bytes never change a decision once it is taken. */
  lemma DecisionIsFinal(side: Side, s: seq<bv8>, t: seq<bv8>, size: nat)
    requires |s| >= MinLen(side) && Ideal(side, s, size) != Wait
    ensures Ideal(side, s + t, size) == Ideal(side, s, size)
  {
    hide CrcOk, Val;
    var l := FrameLen(side, s);
    if l.Bytes? && l.n <= |s| {
      assert (s + t)[..l.n] == s[..l.n];
    }
  }

  /** A stream may be settled in pieces: settle what there is, and go on from the rest. */
  lemma {:induction false} SettleInPieces(side: Side, s: seq<bv8>, t: seq<bv8>, size: nat)
    ensures var (fs, rest) := Settle(side, s, size);
            var (gs, rest1) := Settle(side, rest + t, size);
            Settle(side, s + t, size) == (fs + gs, rest1)
    decreases |s|
  {
    hide Ideal;
    if |s| >= MinLen(side) && Ideal(side, s, size) != Wait {
      DecisionIsFinal(side, s, t, size);
      match Ideal(side, s, size) {
        case Skip =>
          assert (s + t)[1..] == s[1..] + t;
          SettleInPieces(side, s[1..], t, size);
        case Slice(n) =>
          assert (s + t)[n..] == s[n..] + t && (s + t)[..n] == s[..n];
          SettleInPieces(side, s[n..], t, size);
          var (fs, rest) := Settle(side, s[n..], size);
          var (gs, rest1) := Settle(side, rest + t, size);
          assert [s[..n]] + (fs + gs) == ([s[..n]] + fs) + gs;
        case Wait =>
      }
    } else {
      var (gs, rest1) := Settle(side, s + t, size);
      assert [] + gs == gs;
    }
  }

  /** What is left undecided stays undecided. */
  lemma {:induction false} RestIsSettled(side: Side, s: seq<bv8>, size: nat)
    ensures var (_, rest) := Settle(side, s, size); Settle(side, rest, size) == ([], rest)
    decreases |s|
  {
    hide Ideal;
    if |s| >= MinLen(side) {
      match Ideal(side, s, size) {
        case Skip => RestIsSettled(side, s[1..], size);
        case Slice(n) => RestIsSettled(side, s[n..], size);
        case Wait =>
      }
    }
  }
}
