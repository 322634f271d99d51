/** Requests and replies as the builders lay them out, and as the other side reads them. */
module ModbusMessages {
  import opened Options
  import opened ModbusCrc
  import opened ModbusFrames

  // ---------------------------------------------------------------- requests

  /** The requests of the nine builders, by the three layouts they share. */
  datatype Request =
    | Fixed(addr: bv8, cmd: bv8, start: word, value: word)
    | Variable(addr: bv8, cmd: bv8, start: word, qty: word, data: seq<bv8>)
    | ReadWrite(addr: bv8, rdStart: word, rdQty: word, wrStart: word, wrQty: word, data: seq<bv8>)

  /** What the builders let through: reads are never broadcast, quantities are the
      protocol's, and a byte count is what its quantity implies. */
  predicate Buildable(r: Request) {
    && Val(r.addr) <= ADDR_MAX
    && match r
       case Fixed(addr, cmd, _, value) =>
         if cmd in {READ_COILS, READ_DISCRETE_INPUTS} then Val(addr) >= ADDR_MIN && 1 <= value <= 2000
         else if cmd in {READ_HOLDING_REGS, READ_INPUT_REGS} then Val(addr) >= ADDR_MIN && 1 <= value <= 125
         else if cmd == WRITE_SINGLE_COIL then value == 0xFF00 || value == 0
         else cmd == WRITE_SINGLE_REG
       case Variable(_, cmd, _, qty, data) =>
         if cmd == WRITE_MULTIPLE_COILS then 1 <= qty <= 1968 && |data| == (qty + 7) / 8
         else cmd == WRITE_MULTIPLE_REGS && 1 <= qty <= 123 && |data| == qty * 2
       case ReadWrite(addr, _, rdQty, _, wrQty, data) =>
         Val(addr) >= ADDR_MIN && 1 <= rdQty <= 125 && 1 <= wrQty <= 121 && |data| == wrQty * 2
  }

  /** A request that would be let through if addressed to one slave. */
  predicate Lawful(r: Request) {
    Buildable(r.(addr := Byte(ADDR_MIN)))
  }

  function RequestBody(r: Request): (body: seq<bv8>)
    requires Buildable(r)
    ensures |body| >= REQUEST_MIN - 2
  {
    match r
    case Fixed(addr, cmd, start, value) => [addr, cmd] + Field(start) + Field(value)
    case Variable(addr, cmd, start, qty, data) =>
      [addr, cmd] + Field(start) + Field(qty) + [Byte(|data|)] + data
    case ReadWrite(addr, rdStart, rdQty, wrStart, wrQty, data) =>
      [addr, READ_WRITE_REGS] + Field(rdStart) + Field(rdQty) + Field(wrStart) + Field(wrQty) + [Byte(|data|)] + data
  }

  function RequestAdu(r: Request): seq<bv8>
    requires Buildable(r)
  {
    Stamped(RequestBody(r))
  }

  /** Write two bytes of a field, high byte first. */
  method PutField(f: array<bv8>, at: nat, x: word)
    requires at + 2 <= f.Length
    modifies f
    ensures f[..] == old(f[..at]) + Field(x) + old(f[at + 2..])
  {
    hide Byte;
    f[at] := Byte(x / 256);
    f[at + 1] := Byte(x % 256);
  }

  /** request_fixed: address, code and two fields. */
  method BuildFixed(r: Request) returns (f: array<bv8>)
    requires r.Fixed? && Buildable(r)
    ensures fresh(f) && f[..] == RequestAdu(r)
  {
    hide Stamped, Field, Byte, Buildable;
    FieldLen(r.start);
    FieldLen(r.value);
    f := new bv8[8];
    f[0], f[1] := r.addr, r.cmd;
    assert f[..2] == [r.addr, r.cmd];
    PutTwo(f, r.start, r.value);
    Stamp(f, RequestBody(r));
  }

  /** request_var: two fields, a byte count and that many bytes. */
  method BuildVariable(r: Request) returns (f: array<bv8>)
    requires r.Variable? && Buildable(r) && |r.data| < 247
    ensures fresh(f) && f[..] == RequestAdu(r)
  {
    hide Stamped, Field, Byte, Buildable;
    FieldLen(r.start);
    FieldLen(r.qty);
    f := new bv8[7 + |r.data| + 2];
    f[0], f[1] := r.addr, r.cmd;
    assert f[..2] == [r.addr, r.cmd];
    PutTwo(f, r.start, r.qty);
    PutData(f, 6, r.data);
    Stamp(f, RequestBody(r));
  }

  /** The read/write builder: four fields, a byte count and that many bytes. */
  method BuildReadWrite(r: Request) returns (f: array<bv8>)
    requires r.ReadWrite? && Buildable(r) && |r.data| < 243
    ensures fresh(f) && f[..] == RequestAdu(r)
  {
    hide Stamped, Field, Byte, Buildable;
    FieldLen(r.rdStart);
    FieldLen(r.rdQty);
    FieldLen(r.wrStart);
    FieldLen(r.wrQty);
    f := new bv8[11 + |r.data| + 2];
    f[0], f[1] := r.addr, READ_WRITE_REGS;
    assert f[..2] == [r.addr, READ_WRITE_REGS];
    PutTwo(f, r.rdStart, r.rdQty);
    ghost var six := f[..6];
    PutField(f, 6, r.wrStart);
    PutField(f, 8, r.wrQty);
    assert f[..10] == six + Field(r.wrStart) + Field(r.wrQty);
    PutData(f, 10, r.data);
    Stamp(f, RequestBody(r));
  }

  /** Put the CRC behind a body already laid out. */
  method Stamp(f: array<bv8>, ghost body: seq<bv8>)
    requires |body| + 2 >= ADU_SMALLEST && f.Length == |body| + 2 && f[..|body|] == body
    modifies f
    ensures f[..] == Stamped(body)
  {
    var _ := SetCrc(f);
  }

  /** The nine builders: lay the frame out and stamp its CRC, or refuse. */
  method Build(r: Request) returns (ok: bool, f: array<bv8>)
    ensures ok == Buildable(r)
    ensures fresh(f) && (ok ==> f[..] == RequestAdu(r))
  {
    hide Stamped, RequestBody, RequestAdu;
    ok := Buildable(r);
    if !ok {
      f := new bv8[0];
      return;
    }
    match r {
      case Fixed(_, _, _, _) => f := BuildFixed(r);
      case Variable(_, _, _, _, _) => f := BuildVariable(r);
      case ReadWrite(_, _, _, _, _, _) => f := BuildReadWrite(r);
    }
  }

  lemma FieldLen(x: word)
    ensures |Field(x)| == 2
  {}

  /** The two fields behind address and code. */
  method PutTwo(f: array<bv8>, a: word, b: word)
    requires f.Length >= 6
    modifies f
    ensures f[..6] == old(f[..2]) + Field(a) + Field(b)
  {
    hide Field;
    FieldLen(a);
    FieldLen(b);
    PutField(f, 2, a);
    PutField(f, 4, b);
  }

  /** A byte count and that many data bytes. */
  method PutData(f: array<bv8>, at: nat, data: seq<bv8>)
    requires |data| < 256 && at + 1 + |data| <= f.Length
    modifies f
    ensures f[..at + 1 + |data|] == old(f[..at]) + [Byte(|data|)] + data
  {
    hide Byte;
    f[at] := Byte(|data|);
    for i := 0 to |data|
      invariant f[..at] == old(f[..at]) && f[at] == Byte(|data|)
      invariant f[at + 1..at + 1 + i] == data[..i]
    {
      f[at + 1 + i] := data[i];
    }
    assert data[..|data|] == data;
  }

  // ---------------------------------------------------------------- what a slave checks and reads

  /** Quantity rules internal to a frame; 0 when they hold, ILLEGAL_DATA_VALUE otherwise. */
  function ValueExc(f: seq<bv8>): bv8
    requires |f| >= REQUEST_MIN && RequestLen(f) == Bytes(|f|)
  {
    var cmd, qty := f[1], Word(f[4], f[5]);
    if cmd in {READ_COILS, READ_DISCRETE_INPUTS} then (if qty < 1 || qty > 2000 then ILLEGAL_DATA_VALUE else 0)
    else if cmd in {READ_HOLDING_REGS, READ_INPUT_REGS} then (if qty < 1 || qty > 125 then ILLEGAL_DATA_VALUE else 0)
    else if cmd == WRITE_MULTIPLE_COILS then
      (if qty < 1 || qty > 1968 || Val(f[6]) != (qty + 7) / 8 % 256 then ILLEGAL_DATA_VALUE else 0)
    else if cmd == WRITE_MULTIPLE_REGS then
      (if qty < 1 || qty > 123 || Val(f[6]) != qty * 2 % 256 then ILLEGAL_DATA_VALUE else 0)
    else if cmd == WRITE_SINGLE_COIL then (if qty != 0 && qty != 0xFF00 then ILLEGAL_DATA_VALUE else 0)
    else if cmd == READ_WRITE_REGS then
      var wrQty := Word(f[8], f[9]);
      if qty < 1 || qty > 125 || wrQty < 1 || wrQty > 121 || Val(f[10]) != wrQty * 2 % 256 then ILLEGAL_DATA_VALUE else 0
    else 0
  }

  /** The request a sliced frame carries, field by field. */
  function ReadRequest(f: seq<bv8>): Request
    requires |f| >= REQUEST_MIN && RequestLen(f) == Bytes(|f|)
  {
    if IsFixedRequest(f[1]) then Fixed(f[0], f[1], Word(f[2], f[3]), Word(f[4], f[5]))
    else if IsVariableRequest(f[1]) then
      Variable(f[0], f[1], Word(f[2], f[3]), Word(f[4], f[5]), f[7..7 + Val(f[6])])
    else
      ReadWrite(f[0], Word(f[2], f[3]), Word(f[4], f[5]), Word(f[6], f[7]), Word(f[8], f[9]), f[11..11 + Val(f[10])])
  }

  /** The value rules of a slave are those of the builders, whomever the frame is addressed to. */
  lemma ValueRulesAreTheBuilders(f: seq<bv8>)
    requires |f| >= REQUEST_MIN && RequestLen(f) == Bytes(|f|)
    ensures ValueExc(f) == 0 || ValueExc(f) == ILLEGAL_DATA_VALUE
    ensures ValueExc(f) == 0 <==> Lawful(ReadRequest(f))
    ensures Val(f[0]) <= ADDR_MAX && !(IsRead(f[1]) && f[0] == ADDR_BROADCAST) ==>
              (ValueExc(f) == 0 <==> Buildable(ReadRequest(f)))
  {
    hide Word, Val;
    ByteVal(ADDR_MIN);
    AddressZero(f[0]);
  }

  lemma AddressZero(a: bv8)
    ensures Val(a) == 0 <==> a == ADDR_BROADCAST
  {}

  /** The greatest register counts are those whose request, and whose reply, fill one ADU: one
      register more does not fit. And coils are asked for in no more bits than such registers have. */
  lemma LimitsFillTheAdu(r: Request)
    requires Val(r.addr) <= ADDR_MAX && Val(r.addr) >= ADDR_MIN
    ensures r.Fixed? && r.cmd in {READ_HOLDING_REGS, READ_INPUT_REGS} ==>
              (Buildable(r) <==> 1 <= r.value && 5 + 2 * r.value <= MAX_ADU)
    ensures r.Variable? && r.cmd == WRITE_MULTIPLE_REGS && |r.data| == 2 * r.qty ==>
              (Buildable(r) <==> 1 <= r.qty && 9 + |r.data| <= MAX_ADU)
    ensures r.ReadWrite? && |r.data| == 2 * r.wrQty ==>
              (Buildable(r) <==> 1 <= r.rdQty && 5 + 2 * r.rdQty <= MAX_ADU && 1 <= r.wrQty && 13 + |r.data| <= MAX_ADU)
    ensures r.Fixed? && r.cmd in {READ_COILS, READ_DISCRETE_INPUTS} ==>
              (Buildable(r) <==> 1 <= r.value && exists n: word :: r.value <= 16 * n && Buildable(RegisterRead(n)))
    ensures r.Variable? && r.cmd == WRITE_MULTIPLE_COILS && |r.data| == (r.qty + 7) / 8 ==>
              (Buildable(r) <==> 1 <= r.qty && exists n: word :: r.qty <= 16 * n && Buildable(RegisterWrite(n)))
  {
    hide Val;
    ByteVal(ADDR_MIN);
    assert Buildable(RegisterRead(125)) && Buildable(RegisterWrite(123));
  }

  function RegisterRead(n: word): Request {
    Fixed(Byte(ADDR_MIN), READ_HOLDING_REGS, 0, n)
  }

  function RegisterWrite(n: word): Request {
    Variable(Byte(ADDR_MIN), WRITE_MULTIPLE_REGS, 0, n, seq(2 * n, _ => 0))
  }

  /** Every request a builder lets through is within one ADU. */
  lemma RequestFits(r: Request)
    requires Buildable(r)
    ensures |RequestAdu(r)| <= MAX_ADU
  {
    hide Byte, Val;
  }

  lemma FieldAt(f: seq<bv8>, at: nat, x: word)
    requires at + 2 <= |f| && f[at] == Field(x)[0] && f[at + 1] == Field(x)[1]
    ensures Word(f[at], f[at + 1]) == x
  {
    FieldReads(x);
  }

  /** A frame whose body starts like this tells its own length, passes the value rules, and
      reads back as the request it was built from, whatever follows the body. */
  lemma RequestReads(r: Request, f: seq<bv8>)
    requires Buildable(r) && RequestBody(r) <= f && |f| == |RequestBody(r)| + 2
    ensures |f| >= REQUEST_MIN && f[0] == r.addr && RequestLen(f) == Bytes(|f|)
    ensures ValueExc(f) == 0 && ReadRequest(f) == r
  {
    hide Field, Byte, Val, Word;
    var body := RequestBody(r);
    match r {
      case Fixed(addr, cmd, start, value) =>
        FieldLen(start);
        FieldLen(value);
        assert body[2] == Field(start)[0] && body[3] == Field(start)[1];
        assert body[4] == Field(value)[0] && body[5] == Field(value)[1];
        FieldAt(f, 2, start);
        FieldAt(f, 4, value);
      case Variable(addr, cmd, start, qty, data) =>
        FieldLen(start);
        FieldLen(qty);
        assert body[2] == Field(start)[0] && body[3] == Field(start)[1];
        assert body[4] == Field(qty)[0] && body[5] == Field(qty)[1];
        FieldAt(f, 2, start);
        FieldAt(f, 4, qty);
        assert body[6] == Byte(|data|) && body[7..] == data;
        ByteVal(|data|);
        assert f[7..7 + |data|] == data;
      case ReadWrite(addr, rdStart, rdQty, wrStart, wrQty, data) =>
        ReadWriteReads(r, f);
    }
  }

  lemma ReadWriteReads(r: Request, f: seq<bv8>)
    requires r.ReadWrite? && Buildable(r) && RequestBody(r) <= f && |f| == |RequestBody(r)| + 2
    ensures |f| >= REQUEST_MIN && f[0] == r.addr && RequestLen(f) == Bytes(|f|)
    ensures ValueExc(f) == 0 && ReadRequest(f) == r
  {
    hide Field, Byte, Val, Word;
    var body := RequestBody(r);
    FieldLen(r.rdStart);
    FieldLen(r.rdQty);
    FieldLen(r.wrStart);
    FieldLen(r.wrQty);
    assert body[2] == Field(r.rdStart)[0] && body[3] == Field(r.rdStart)[1];
    assert body[4] == Field(r.rdQty)[0] && body[5] == Field(r.rdQty)[1];
    assert body[6] == Field(r.wrStart)[0] && body[7] == Field(r.wrStart)[1];
    assert body[8] == Field(r.wrQty)[0] && body[9] == Field(r.wrQty)[1];
    FieldAt(f, 2, r.rdStart);
    FieldAt(f, 4, r.rdQty);
    FieldAt(f, 6, r.wrStart);
    FieldAt(f, 8, r.wrQty);
    assert body[10] == Byte(|r.data|) && body[11..] == r.data;
    ByteVal(|r.data|);
    assert f[11..11 + |r.data|] == r.data;
  }

  // ---------------------------------------------------------------- a stream of frames

  function Concat(fs: seq<seq<bv8>>): seq<bv8> {
    if fs == [] then [] else fs[0] + Concat(fs[1..])
  }

  /** A frame a parser in step with the stream slices whole, whatever follows it. */
  predicate Sliceable(side: Side, f: seq<bv8>, size: nat) {
    && MinLen(side) <= |f| <= size
    && ForUs(side, f) && FrameLen(side, f) == Bytes(|f|) && CrcOk(f)
  }

  lemma SlicedWhole(side: Side, f: seq<bv8>, rest: seq<bv8>, size: nat)
    requires Sliceable(side, f, size)
    ensures Ideal(side, f + rest, size) == Slice(|f|)
  {
    hide CrcOk, Val;
    assert Ideal(side, f, size) == Slice(|f|) by {
      assert f[..|f|] == f;
    }
    DecisionIsFinal(side, f, rest, size);
  }

  /** Frames one behind the other are sliced exactly at their boundaries. */
  lemma {:induction false} FramesAreSliced(side: Side, fs: seq<seq<bv8>>, size: nat)
    requires forall f :: f in fs ==> Sliceable(side, f, size)
    ensures Settle(side, Concat(fs), size) == (fs, [])
    decreases |fs|
  {
    hide Sliceable, Ideal;
    if fs != [] {
      var rest := Concat(fs[1..]);
      SlicedWhole(side, fs[0], rest, size);
      assert MinLen(side) <= |fs[0]| by { LongEnough(side, fs[0], size); }
      assert (fs[0] + rest)[|fs[0]|..] == rest && (fs[0] + rest)[..|fs[0]|] == fs[0];
      FramesAreSliced(side, fs[1..], size);
      assert [fs[0]] + fs[1..] == fs;
    }
  }

  /** And nothing is sliced that is not a checked frame for this side that fits the buffer. */
  lemma {:induction false} SlicesAreFrames(side: Side, s: seq<bv8>, size: nat)
    ensures forall f :: f in Settle(side, s, size).0 ==> Sliceable(side, f, size)
    decreases |s|
  {
    hide Sliceable, Ideal;
    if |s| >= MinLen(side) {
      match Ideal(side, s, size) {
        case Skip => SlicesAreFrames(side, s[1..], size);
        case Wait =>
        case Slice(n) =>
          SliceIsFrame(side, s, size);
          SlicesAreFrames(side, s[n..], size);
      }
    }
  }

  lemma SliceIsFrame(side: Side, s: seq<bv8>, size: nat)
    requires |s| >= MinLen(side) && Ideal(side, s, size).Slice?
    ensures Sliceable(side, s[..Ideal(side, s, size).n], size)
  {
    hide CrcOk, Val;
    var n := Ideal(side, s, size).n;
    assert s[..n][..n] == s[..n];
    if side.Slave? && s[1] == READ_WRITE_REGS {
      assert |s| >= 11;
    }
  }

  // ---------------------------------------------------------------- frames among noise

  predicate KnownCode(side: Side, cmd: bv8) {
    if side.Slave? then IsFixedRequest(cmd) || IsVariableRequest(cmd) || cmd == READ_WRITE_REGS
    else cmd & EXCEPTION_FLAG != 0 || IsRead(cmd) || IsWrite(cmd)
  }

  /** No byte of this can be the first of a frame for this side, whatever follows: it is no address
      the side listens to, or the byte behind it no code the side knows. */
  predicate Noise(side: Side, a: seq<bv8>, next: bv8) {
    forall i :: 0 <= i < |a| ==> Foreign(side, a[i], Following(a, i, next))
  }

  predicate Foreign(side: Side, addr: bv8, cmd: bv8) {
    !ListensTo(side, addr) || !KnownCode(side, cmd)
  }

  function Following(a: seq<bv8>, i: nat, next: bv8): bv8 {
    if i + 1 < |a| then a[i + 1] else next
  }

  /** The parser passes over a when t follows. */
  predicate Passed(side: Side, a: seq<bv8>, t: seq<bv8>, size: nat) {
    |t| >= MinLen(side) && forall i :: 0 <= i < |a| ==> Ideal(side, a[i..] + t, size) == Skip
  }

  lemma NoiseIsPassed(side: Side, a: seq<bv8>, t: seq<bv8>, size: nat)
    requires |t| >= MinLen(side) && Noise(side, a, t[0])
    ensures Passed(side, a, t, size)
  {
    hide CrcOk, Val;
    forall i | 0 <= i < |a|
      ensures Ideal(side, a[i..] + t, size) == Skip
    {
      var p := a[i..] + t;
      assert p[0] == a[i] && p[1] == Following(a, i, t[0]);
      UnknownCodeIsSkipped(side, p, size);
    }
  }

  lemma UnknownCodeIsSkipped(side: Side, p: seq<bv8>, size: nat)
    requires |p| >= MinLen(side) && Foreign(side, p[0], p[1])
    ensures Ideal(side, p, size) == Skip
  {
    hide CrcOk, Val;
  }

  lemma {:induction false} PassedIsSkipped(side: Side, a: seq<bv8>, t: seq<bv8>, size: nat)
    requires Passed(side, a, t, size)
    ensures Settle(side, a + t, size) == Settle(side, t, size)
    decreases |a|
  {
    hide Ideal;
    if a == [] {
      assert a + t == t;
    } else {
      assert a[0..] + t == a + t && (a + t)[1..] == a[1..] + t;
      assert forall i :: 0 <= i < |a| - 1 ==> a[1..][i..] == a[i + 1..];
      PassedIsSkipped(side, a[1..], t, size);
    }
  }

  /** Frames, each with something in front of it, and what comes behind them. */
  function Woven(noise: seq<seq<bv8>>, fs: seq<seq<bv8>>, tail: seq<bv8>): seq<bv8>
    requires |noise| == |fs|
  {
    if fs == [] then tail else noise[0] + (fs[0] + Woven(noise[1..], fs[1..], tail))
  }

  /** What is in front of each frame is passed over, and the frame is one this side slices. */
  predicate Findable(side: Side, noise: seq<seq<bv8>>, fs: seq<seq<bv8>>, tail: seq<bv8>, size: nat)
    requires |noise| == |fs|
  {
    fs != [] ==>
      && Sliceable(side, fs[0], size)
      && Passed(side, noise[0], fs[0] + Woven(noise[1..], fs[1..], tail), size)
      && Findable(side, noise[1..], fs[1..], tail, size)
  }

  /** Frames among bytes the parser passes over are found, each of them, and nothing else is. */
  lemma {:induction false} FramesAreFound(side: Side, noise: seq<seq<bv8>>, fs: seq<seq<bv8>>, tail: seq<bv8>, size: nat)
    requires |noise| == |fs| && Findable(side, noise, fs, tail, size)
    ensures Settle(side, Woven(noise, fs, tail), size) == (fs + Settle(side, tail, size).0, Settle(side, tail, size).1)
    decreases |fs|
  {
    hide Sliceable, Passed, Ideal;
    if fs == [] {
      assert fs + Settle(side, tail, size).0 == Settle(side, tail, size).0;
    } else {
      var rest := Woven(noise[1..], fs[1..], tail);
      FramesAreFound(side, noise[1..], fs[1..], tail, size);
      PassedIsSkipped(side, noise[0], fs[0] + rest, size);
      FirstIsSliced(side, fs[0], rest, size);
      assert [fs[0]] + (fs[1..] + Settle(side, tail, size).0) == fs + Settle(side, tail, size).0;
    }
  }

  lemma FirstIsSliced(side: Side, f: seq<bv8>, rest: seq<bv8>, size: nat)
    requires Sliceable(side, f, size)
    ensures Settle(side, f + rest, size) == ([f] + Settle(side, rest, size).0, Settle(side, rest, size).1)
  {
    hide Sliceable, Ideal;
    SlicedWhole(side, f, rest, size);
    LongEnough(side, f, size);
    assert (f + rest)[|f|..] == rest && (f + rest)[..|f|] == f;
  }

  /** Conversely, whatever the bytes are, this is all that is ever found: what a parser slices of
      them stands in them in that order, with bytes it passed over in between and no frame behind. */
  lemma {:induction false} FoundIsWoven(side: Side, s: seq<bv8>, size: nat) returns (noise: seq<seq<bv8>>, tail: seq<bv8>)
    ensures var fs := Settle(side, s, size).0;
            |noise| == |fs| && s == Woven(noise, fs, tail) && Findable(side, noise, fs, tail, size)
    ensures Settle(side, tail, size).0 == []
    decreases |s|
  {
    hide Sliceable, Ideal;
    noise, tail := [], s;
    if |s| >= MinLen(side) {
      match Ideal(side, s, size) {
        case Skip =>
          noise, tail := FoundIsWoven(side, s[1..], size);
          noise, tail := OneMorePassed(side, s, noise, tail, size);
        case Wait =>
        case Slice(n) =>
          var gaps, end := FoundIsWoven(side, s[n..], size);
          noise, tail := [[]] + gaps, end;
          SliceIsFrame(side, s, size);
          var fs := Settle(side, s, size).0;
          assert fs[1..] == Settle(side, s[n..], size).0 && noise[1..] == gaps;
          assert s == [] + (fs[0] + s[n..]);
      }
    }
  }

  /** The byte in front was skipped: it belongs to what is in front of the next frame, if there is one. */
  lemma OneMorePassed(side: Side, s: seq<bv8>, gaps: seq<seq<bv8>>, end: seq<bv8>, size: nat)
    returns (noise: seq<seq<bv8>>, tail: seq<bv8>)
    requires |s| >= MinLen(side) && Ideal(side, s, size) == Skip
    requires var fs := Settle(side, s, size).0;
             |gaps| == |fs| && s[1..] == Woven(gaps, fs, end) && Findable(side, gaps, fs, end, size)
    requires Settle(side, end, size).0 == []
    ensures var fs := Settle(side, s, size).0;
            |noise| == |fs| && s == Woven(noise, fs, tail) && Findable(side, noise, fs, tail, size)
    ensures Settle(side, tail, size).0 == []
  {
    hide Sliceable, Ideal;
    var fs := Settle(side, s, size).0;
    if fs == [] {
      noise, tail := [], s;
    } else {
      noise, tail := [[s[0]] + gaps[0]] + gaps[1..], end;
      var rest := fs[0] + Woven(gaps[1..], fs[1..], end);
      assert noise[1..] == gaps[1..];
      assert s == [s[0]] + s[1..] && s == noise[0] + rest;
      forall i | 0 <= i < |noise[0]|
        ensures Ideal(side, noise[0][i..] + rest, size) == Skip
      {
        if i == 0 {
          assert noise[0][i..] + rest == s;
        } else {
          assert noise[0][i..] == gaps[0][i - 1..];
        }
      }
    }
  }

  /** Behind noise no byte of which can start a frame for this side, frames are found as if it
      were not there. */
  lemma {:induction false} FramesAmongNoise(side: Side, noise: seq<seq<bv8>>, fs: seq<seq<bv8>>, size: nat)
    requires |noise| == |fs|
    requires forall i :: 0 <= i < |fs| ==> Sliceable(side, fs[i], size) && |fs[i]| > 0 && Noise(side, noise[i], fs[i][0])
    ensures Findable(side, noise, fs, [], size)
    ensures Settle(side, Woven(noise, fs, []), size) == (fs, [])
    decreases |fs|
  {
    hide Sliceable, Passed, Ideal, Noise;
    if fs != [] {
      assert forall i :: 0 <= i < |fs| - 1 ==> fs[1..][i] == fs[i + 1] && noise[1..][i] == noise[i + 1];
      FramesAmongNoise(side, noise[1..], fs[1..], size);
      LongEnough(side, fs[0], size);
      NoiseIsPassed(side, noise[0], fs[0] + Woven(noise[1..], fs[1..], []), size);
    }
    FramesAreFound(side, noise, fs, [], size);
    assert Settle(side, [], size) == ([], []) && fs + [] == fs;
  }

  /** One stretch of noise, and then frames one behind the other. */
  lemma FramesBehindNoise(side: Side, noise: seq<bv8>, fs: seq<seq<bv8>>, size: nat)
    requires fs != [] && forall f :: f in fs ==> Sliceable(side, f, size)
    requires |fs[0]| > 0 && Noise(side, noise, fs[0][0])
    ensures Settle(side, noise + Concat(fs), size) == (fs, [])
  {
    hide Sliceable, Ideal, Noise;
    LongEnough(side, fs[0], size);
    NoiseIsPassed(side, noise, Concat(fs), size);
    PassedIsSkipped(side, noise, Concat(fs), size);
    FramesAreSliced(side, fs, size);
  }

  lemma LongEnough(side: Side, f: seq<bv8>, size: nat)
    requires Sliceable(side, f, size)
    ensures MinLen(side) <= |f| <= size
  {}

  function Adus(rs: seq<Request>): seq<seq<bv8>>
    requires forall r :: r in rs ==> Buildable(r)
  {
    seq(|rs|, i requires 0 <= i < |rs| => RequestAdu(rs[i]))
  }

  lemma AduReads(r: Request)
    requires Buildable(r)
    ensures var f := RequestAdu(r);
            && |f| >= REQUEST_MIN && f[0] == r.addr && RequestLen(f) == Bytes(|f|) && CrcOk(f)
            && ValueExc(f) == 0 && ReadRequest(f) == r
  {
    hide CrcOk, RequestBody, RequestLen, ValueExc, ReadRequest, Crc16, Low, Down;
    RequestReads(r, RequestAdu(r));
    StampedChecks(RequestBody(r));
  }

  /** Requests built by a master and addressed to one slave whose buffer holds them are
      sliced by it frame for frame, pass its value rules, and read back field for field, noise or
      other stations' bytes in front of any of them notwithstanding. */
  lemma RequestsArrive(addr: bv8, broadcast: bool, noise: seq<seq<bv8>>, rs: seq<Request>, size: nat)
    requires forall r :: r in rs ==> Buildable(r) && |RequestAdu(r)| <= size
    requires forall r :: r in rs ==> r.addr == addr || (r.addr == ADDR_BROADCAST && broadcast)
    requires |noise| == |rs| && forall i :: 0 <= i < |rs| ==> Noise(Slave(addr, broadcast), noise[i], rs[i].addr)
    ensures Settle(Slave(addr, broadcast), Woven(noise, Adus(rs), []), size) == (Adus(rs), [])
    ensures forall i :: 0 <= i < |rs| ==>
              var f := Adus(rs)[i];
              |f| >= REQUEST_MIN && RequestLen(f) == Bytes(|f|) && ValueExc(f) == 0 && ReadRequest(f) == rs[i]
  {
    hide Buildable, RequestAdu, RequestLen, ValueExc, ReadRequest, CrcOk, Noise, Woven;
    var fs := Adus(rs);
    forall i | 0 <= i < |rs|
      ensures Sliceable(Slave(addr, broadcast), fs[i], size) && fs[i][0] == rs[i].addr
      ensures |fs[i]| >= REQUEST_MIN && RequestLen(fs[i]) == Bytes(|fs[i]|) && ValueExc(fs[i]) == 0 && ReadRequest(fs[i]) == rs[i]
    {
      assert rs[i] in rs;
      AduReads(rs[i]);
    }
    FramesAmongNoise(Slave(addr, broadcast), noise, fs, size);
  }

  // ---------------------------------------------------------------- replies

  datatype Reply =
    | ReadReply(addr: bv8, cmd: bv8, data: seq<bv8>)
    | WriteReply(addr: bv8, cmd: bv8, start: word, value: word)
    | ExceptionReply(addr: bv8, cmd: bv8, code: bv8)

  /** What the reply builders let through: never to a broadcast, and within one ADU. */
  predicate ReplyBuildable(r: Reply) {
    r.addr != ADDR_BROADCAST && (r.ReadReply? ==> 0 < |r.data| <= MAX_ADU - 5)
  }

  /** The builder is used for a code of its kind. */
  predicate Matching(r: Reply) {
    match r
    case ReadReply(_, cmd, _) => IsRead(cmd)
    case WriteReply(_, cmd, _, _) => IsWrite(cmd)
    case ExceptionReply(_, _, _) => true
  }

  function ReplyBody(r: Reply): (body: seq<bv8>)
    requires ReplyBuildable(r)
    ensures |body| >= RESPONSE_MIN - 2
  {
    match r
    case ReadReply(addr, cmd, data) => [addr, cmd, Byte(|data|)] + data
    case WriteReply(addr, cmd, start, value) => [addr, cmd] + Field(start) + Field(value)
    case ExceptionReply(addr, cmd, code) => [addr, cmd | EXCEPTION_FLAG, code]
  }

  function ReplyAdu(r: Reply): seq<bv8>
    requires ReplyBuildable(r)
  {
    Stamped(ReplyBody(r))
  }

  method BuildReply(r: Reply) returns (ok: bool, f: array<bv8>)
    ensures ok == ReplyBuildable(r)
    ensures fresh(f) && (ok ==> f[..] == ReplyAdu(r))
  {
    hide Stamped, Field, Byte;
    ok := ReplyBuildable(r);
    if !ok {
      f := new bv8[0];
      return;
    }
    ghost var body;
    match r {
      case ReadReply(addr, cmd, data) =>
        f := new bv8[3 + |data| + 2];
        f[0], f[1] := addr, cmd;
        assert f[..2] == [addr, cmd];
        PutData(f, 2, data);
        body := f[..3 + |data|];
      case WriteReply(addr, cmd, start, value) =>
        f := new bv8[8];
        f[0], f[1] := addr, cmd;
        assert f[..2] == [addr, cmd];
        PutTwo(f, start, value);
        body := f[..6];
      case ExceptionReply(addr, cmd, code) =>
        f := new bv8[5];
        f[0], f[1], f[2] := addr, cmd | EXCEPTION_FLAG, code;
        body := f[..3];
    }
    assert body == ReplyBody(r);
    var _ := SetCrc(f);
  }

  /** nx_modbus_rtu_master_rsp_is_exception. */
  function ExceptionOf(f: seq<bv8>): Option<bv8> {
    if |f| < RESPONSE_MIN || f[1] & EXCEPTION_FLAG == 0 then None else Some(f[2])
  }

  /** nx_modbus_rtu_master_rsp_data. */
  function DataOf(f: seq<bv8>): Option<seq<bv8>> {
    if |f| < RESPONSE_MIN || !IsRead(f[1]) || Val(f[2]) == 0 || Val(f[2]) + 5 != |f| then None
    else Some(f[3..3 + Val(f[2])])
  }


  lemma FlagSet(cmd: bv8)
    ensures (cmd | EXCEPTION_FLAG) & EXCEPTION_FLAG != 0
    ensures (cmd | EXCEPTION_FLAG) & 0x7F == cmd & 0x7F
    ensures IsRead(cmd) || IsWrite(cmd) ==> cmd & EXCEPTION_FLAG == 0
    ensures !IsRead(cmd | EXCEPTION_FLAG)
  {}

  lemma ReplyReads(r: Reply, f: seq<bv8>)
    requires ReplyBuildable(r) && Matching(r) && ReplyBody(r) <= f && |f| == |ReplyBody(r)| + 2
    ensures |f| >= RESPONSE_MIN && f[0] == r.addr && ResponseLen(f) == Bytes(|f|)
    ensures DataOf(f) == if r.ReadReply? then Some(r.data) else None
    ensures ExceptionOf(f) == if r.ExceptionReply? then Some(r.code) else None
  {
    hide Byte, Val, Field;
    var body := ReplyBody(r);
    FlagSet(r.cmd);
    assert f[0] == body[0] && f[1] == body[1] && f[2] == body[2];
    match r {
      case ReadReply(addr, cmd, data) =>
        ByteVal(|data|);
        assert body[3..] == data;
        assert f[3..3 + |data|] == data;
      case WriteReply(addr, cmd, start, value) =>
        FieldLen(start);
        FieldLen(value);
        WritesAreNotReads(cmd);
      case ExceptionReply(addr, cmd, code) =>
    }
  }

  lemma WritesAreNotReads(cmd: bv8)
    ensures IsWrite(cmd) ==> !IsRead(cmd)
  {}

  function ReplyAdus(rs: seq<Reply>): seq<seq<bv8>>
    requires forall r :: r in rs ==> ReplyBuildable(r)
  {
    seq(|rs|, i requires 0 <= i < |rs| => ReplyAdu(rs[i]))
  }

  lemma ReplyAduReads(r: Reply)
    requires ReplyBuildable(r) && Matching(r)
    ensures var f := ReplyAdu(r);
            && |f| >= RESPONSE_MIN && f[0] == r.addr && ResponseLen(f) == Bytes(|f|) && CrcOk(f)
            && DataOf(f) == (if r.ReadReply? then Some(r.data) else None)
            && ExceptionOf(f) == (if r.ExceptionReply? then Some(r.code) else None)
  {
    hide CrcOk, ReplyBody, ResponseLen, DataOf, ExceptionOf, Crc16, Low, Down;
    ReplyReads(r, ReplyAdu(r));
    StampedChecks(ReplyBody(r));
  }

  /** Replies built by slaves for codes of their kind are sliced by a master exactly at their
      boundaries, noise in front of any of them notwithstanding, and it reads back the data, and
      the exception codes, that went in. */
  lemma RepliesArrive(noise: seq<seq<bv8>>, rs: seq<Reply>, size: nat)
    requires forall r :: r in rs ==> ReplyBuildable(r) && Matching(r) && |ReplyAdu(r)| <= size
    requires |noise| == |rs| && forall i :: 0 <= i < |rs| ==> Noise(Master, noise[i], rs[i].addr)
    ensures Settle(Master, Woven(noise, ReplyAdus(rs), []), size) == (ReplyAdus(rs), [])
    ensures forall i :: 0 <= i < |rs| ==>
              && DataOf(ReplyAdus(rs)[i]) == (if rs[i].ReadReply? then Some(rs[i].data) else None)
              && ExceptionOf(ReplyAdus(rs)[i]) == (if rs[i].ExceptionReply? then Some(rs[i].code) else None)
  {
    hide ReplyBuildable, Matching, ReplyAdu, ResponseLen, DataOf, ExceptionOf, CrcOk, Noise, Woven;
    var fs := ReplyAdus(rs);
    forall i | 0 <= i < |rs|
      ensures Sliceable(Master, fs[i], size) && |fs[i]| > 0 && fs[i][0] == rs[i].addr
      ensures DataOf(fs[i]) == (if rs[i].ReadReply? then Some(rs[i].data) else None)
      ensures ExceptionOf(fs[i]) == (if rs[i].ExceptionReply? then Some(rs[i].code) else None)
    {
      assert rs[i] in rs;
      ReplyAduReads(rs[i]);
    }
    FramesAmongNoise(Master, noise, fs, size);
  }
}
