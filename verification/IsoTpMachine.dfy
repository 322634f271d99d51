/** The two state machines of an ISO-TP instance as functions of their inputs.

    Everything an instance cannot decide for itself is an oracle: the i-th reading of the
    clock is `clock(i)`, an unbounded time the code only ever sees modulo 2^32, and
    `grant(j)` answers the j-th request for a pool block, a queue slot, or both. A theorem
    about every World is a theorem about every clock, refusal and exhaustion.

    Times kept in the state are unbounded; every comparison goes through the wrapped
    arithmetic of the code. */
module IsoTpMachine {
  import opened Options
  import opened Words
  import opened CanBus
  import opened IsoTpTypes
  import opened IsoTpCodec

  // ---------------------------------------------------------------- the world

  /** Why a frame is on the link: flow control, or bytes [from, to) of the n-th message
      this instance took from its send queue. */
  datatype Tag = Control | Data(n: nat, from: nat, to: nat, sn: nat)
  /** `at` counts the clock readings taken before the frame was offered. */
  datatype Sent = Sent(frame: Frame, tag: Tag, at: nat)

  /** The frames of a log, as the driver's queue sees them. */
  function Frames(log: seq<Sent>): (fs: seq<Frame>)
    ensures |fs| == |log|
  {
    seq(|log|, i requires 0 <= i < |log| => log[i].frame)
  }

  /** What pacing is judged by: accepted permissions and waits, and the clock reading
      each multi-frame data frame is stamped with. */
  datatype Pace = PaceCts(bs: nat, stmin: nat) | PaceWait | PaceHead(at: nat) | PaceCf(at: nat)

  datatype World = World(
    clock: nat -> nat, grant: nat -> bool, ticks: nat, offers: nat,
    log: seq<Sent>, up: seq<Sdu>, done: seq<(Sdu, Outcome)>, trace: seq<Pace>)

  ghost function Read(w: World): (nat, World) {
    (w.clock(w.ticks), w.(ticks := w.ticks + 1))
  }

  ghost function Ask(w: World): (bool, World) {
    (w.grant(w.offers), w.(offers := w.offers + 1))
  }

  /** Hand a frame to the link: refused frames leave no trace. */
  ghost function Offer(w: World, frame: Frame, tag: Tag): (bool, World) {
    var (ok, w1) := Ask(w);
    (ok, if ok then w1.(log := w.log + [Sent(frame, tag, w.ticks)]) else w1)
  }

  /** Hand an SDU to the upper layer; one it has no room for is dropped. */
  ghost function Publish(w: World, s: Sdu): World {
    var (ok, w1) := Ask(w);
    if ok then w1.(up := w.up + [s]) else w1
  }

  ghost function Report(cfg: Config, kind: SduKind, result: Outcome): Sdu {
    RawSdu(cfg.link, kind, Physical, result, [])
  }

  // ---------------------------------------------------------------- reception

  datatype RxState = RxIdle | RxAssem | RxFcWait

  /** `acc` holds the bytes filled so far; empty when idle. */
  datatype Rx = Rx(state: RxState, sn: nat, blockLeft: nat, total: nat, acc: seq<byte>, deadline: nat)

  ghost predicate RxOk(rx: Rx) {
    && rx.sn < 16 && rx.blockLeft < 256
    && (rx.state == RxIdle ==> rx.total == 0 && rx.acc == [] && rx.sn == 0 && rx.blockLeft == 0)
    && (rx.state != RxIdle ==> |rx.acc| < rx.total < TWO_32)
  }

  ghost function RxReset(rx: Rx): Rx {
    Rx(RxIdle, 0, 0, 0, [], rx.deadline)
  }

  ghost function RxAbort(cfg: Config, rx: Rx, w: World, result: Outcome): (Rx, World) {
    (RxReset(rx),
     if rx.state != RxIdle && cfg.confirmTx then Publish(w, Report(cfg, Indication, result)) else w)
  }

  ghost function EmitFc(cfg: Config, w: World, fs: byte, bs: byte, stmin: byte): (bool, World) {
    Offer(w, FcFrame(cfg, fs, bs, stmin), Control)
  }

  /** Permit the peer to go on, or hold that permission under N_Ar. */
  ghost function EmitCts(cfg: Config, rx: Rx, w: World): (Rx, World) {
    var (ok, w1) := EmitFc(cfg, w, FS_CTS, cfg.rxBlockSize, cfg.rxStmin);
    if ok then
      var (t, w2) := Read(w1);
      (rx.(blockLeft := cfg.rxBlockSize, state := RxAssem, deadline := t + cfg.nCr), w2)
    else if rx.state != RxFcWait then
      var (t, w2) := Read(w1);
      (rx.(state := RxFcWait, deadline := t + cfg.nAr), w2)
    else (rx, w1)
  }

  ghost function Received(cfg: Config, ta: Addressing, data: seq<byte>): Sdu
    requires |data| < TWO_32
  {
    RawSdu(cfg.link, Indication, ta, N_OK, data)
  }

  ghost function RxFinish(cfg: Config, rx: Rx, w: World): (Rx, World)
    requires |rx.acc| < TWO_32
  {
    (RxReset(rx), Publish(w, Received(cfg, Physical, rx.acc)))
  }

  ghost function RxSingle(cfg: Config, w: World, ta: Addressing, d: seq<byte>): World
    requires 0 < |d| <= MAX_FD_LEN
  {
    match SfLen(d)
    case Some((len, hdr)) => Publish(w, Received(cfg, ta, d[hdr..hdr + len]))
    case None => w
  }

  ghost predicate TooLong(cfg: Config, total: uint32) {
    total > MAX_MSG_LEN || (cfg.rxMaxLen != 0 && total > cfg.rxMaxLen)
  }

  ghost function RxFirst(cfg: Config, rx: Rx, w: World, d: seq<byte>): (r: (Rx, World))
    requires 0 < |d| <= MAX_FD_LEN && rx.state == RxIdle && RxOk(rx)
    ensures RxOk(r.0)
  {
    match FfLen(d)
    case None => (rx, w)
    case Some((total, hdr)) =>
      if TooLong(cfg, total) then (rx, EmitFc(cfg, w, FS_OVFLW, 0, 0).1)
      else
        var (ok, w1) := Ask(w);
        if !ok then (rx, EmitFc(cfg, w1, FS_OVFLW, 0, 0).1)
        else
          var (t, w2) := Read(w1);
          var rx1 := Rx(RxAssem, 1, 0, total, FfTake(d, total, hdr), t + cfg.nCr);
          if |rx1.acc| >= total then RxFinish(cfg, rx1, w2) else EmitCts(cfg, rx1, w2)
  }

  ghost function RxConsecutive(cfg: Config, rx: Rx, w: World, d: seq<byte>): (r: (Rx, World))
    requires 0 < |d| <= MAX_FD_LEN && RxOk(rx)
    ensures RxOk(r.0)
  {
    if rx.state != RxAssem then (rx, w)
    else if d[0] % 16 != rx.sn then RxAbort(cfg, rx, w, N_WRONG_SN)
    else
      var (t, w1) := Read(w);
      var rx1 := rx.(acc := rx.acc + CfTake(d, rx.total - |rx.acc|),
                     sn := (rx.sn + 1) % 16, deadline := t + cfg.nCr);
      if |rx1.acc| >= rx.total then RxFinish(cfg, rx1, w1)
      else if rx.blockLeft == 1 then EmitCts(cfg, rx1.(blockLeft := 0), w1)
      else (rx1.(blockLeft := if rx.blockLeft > 0 then rx.blockLeft - 1 else 0), w1)
  }

  /** What reception makes of a frame: a new message, the next bytes of one, or the end of one. */
  ghost function RxFrame(cfg: Config, rx: Rx, w: World, d: seq<byte>): (r: (Rx, World))
    requires 0 < |d| <= MAX_FD_LEN && RxOk(rx)
    ensures RxOk(r.0)
  {
    if Kind(d) == 0 then
      var (rx1, w1) := RxAbort(cfg, rx, w, N_UNEXP_PDU);
      (rx1, RxSingle(cfg, w1, Physical, d))
    else if Kind(d) == 1 then
      var (rx1, w1) := RxAbort(cfg, rx, w, N_UNEXP_PDU);
      RxFirst(cfg, rx1, w1, d)
    else if Kind(d) == 2 then RxConsecutive(cfg, rx, w, d)
    else (rx, w)
  }

  // ---------------------------------------------------------------- transmission

  datatype TxState = TxIdle | TxWaitFc | TxSend | TxWaitLink

  datatype Tx = Tx(state: TxState, sn: nat, bs: nat, wft: nat, sent: nat, stmin: nat,
                   last: nat, deadline: nat, id: nat, sdu: Option<Sdu>)

  ghost predicate TxOk(cfg: Config, tx: Tx) {
    && tx.sn < 16 && tx.bs < 256 && tx.wft < 256
    && (tx.state == TxIdle <==> tx.sdu == None)
    && (tx.sdu.Some? ==>
          && tx.id == TxId(cfg, tx.sdu.value)
          && (tx.sent == 0 ==> tx.state == TxWaitLink && tx.sn == 1)
          && (tx.sent > 0 ==> HeadLoad(cfg, tx.sdu.value.data) <= tx.sent < |tx.sdu.value.data|))
  }

  ghost function TxId(cfg: Config, s: Sdu): nat {
    if s.ta == Functional then cfg.funcTxId else cfg.physTxId
  }

  /** End the transmission in flight, if any, and report how it went. */
  ghost function TxEnd(cfg: Config, tx: Tx, w: World, result: Outcome): (Tx, World) {
    (tx.(state := TxIdle, wft := 0, sdu := None),
     if tx.sdu == None then w
     else
       var w1 := w.(done := w.done + [(tx.sdu.value, result)]);
       if cfg.confirmTx then Publish(w1, Report(cfg, Confirm, result)) else w1)
  }

  ghost function ApplyFc(cfg: Config, tx: Tx, w: World, d: seq<byte>): (r: (Tx, World))
    requires TxOk(cfg, tx)
    ensures TxOk(cfg, r.0)
  {
    if tx.state != TxWaitFc || |d| < 3 then (tx, w)
    else
      var fs := d[0] % 16;
      if fs == FS_OVFLW then TxEnd(cfg, tx, w, N_BUFFER_OVFLW)
      else if fs == FS_WAIT then
        var wft := (tx.wft + 1) % 256;
        if wft > cfg.nWftMax then TxEnd(cfg, tx, w, N_WFT_OVRN)
        else
          var (t, w1) := Read(w);
          (tx.(wft := wft, deadline := t + cfg.nBs), w1.(trace := w.trace + [PaceWait]))
      else if fs != FS_CTS then TxEnd(cfg, tx, w, N_INVALID_FS)
      else
        (tx.(wft := 0, bs := d[1], stmin := StminToUs(d[2]), state := TxSend),
         w.(trace := w.trace + [PaceCts(d[1], StminToUs(d[2]))]))
  }

  /** The same frame will be offered again; only the first refusal starts N_As. */
  ghost function TxHold(cfg: Config, tx: Tx, w: World): (Tx, World) {
    if tx.state == TxWaitLink then (tx, w)
    else
      var (t, w1) := Read(w);
      (tx.(state := TxWaitLink, deadline := t + cfg.nAs), w1)
  }

  ghost function Pulled(cfg: Config, tx: Tx, s: Sdu): Tx {
    tx.(sdu := Some(s), sent := 0, sn := 1, wft := 0, id := TxId(cfg, s))
  }

  /** Offer the frame the message starts with. */
  ghost function OfferHead(cfg: Config, tx: Tx, w: World): (r: (Tx, World, nat))
    requires tx.sdu.Some? && tx.sent == 0 && tx.sn == 1 && tx.bs < 256 && tx.wft < 256
    requires tx.id == TxId(cfg, tx.sdu.value)
    ensures TxOk(cfg, r.0)
  {
    var m := tx.sdu.value.data;
    var (ok, w1) := Offer(w, HeadFrame(cfg, tx.id, m), Data(|w.done|, 0, HeadLoad(cfg, m), 0));
    if !ok then
      var (tx1, w2) := TxHold(cfg, tx, w1);
      (tx1, w2, 0)
    else if IsSingle(cfg, m) then
      var (tx1, w2) := TxEnd(cfg, tx, w1, N_OK);
      (tx1, w2, 1)
    else
      var (t, w2) := Read(w1);
      (tx.(sent := HeadLoad(cfg, m), last := t, deadline := t + cfg.nBs, state := TxWaitFc),
       w2.(trace := w2.trace + [PaceHead(t)]), 1)
  }

  ghost function OfferCf(cfg: Config, tx: Tx, w: World): (bool, World)
    requires TxOk(cfg, tx) && tx.sdu.Some? && tx.sent > 0
  {
    var m := tx.sdu.value.data;
    Offer(w, CfFrame(cfg, tx.id, m, tx.sent, tx.sn),
          Data(|w.done|, tx.sent, NextLoad(cfg, m, tx.sent), tx.sn))
  }

  /** The state once a consecutive frame stamped `at` is on the link. */
  ghost function Advanced(cfg: Config, tx: Tx, at: nat): Tx
    requires TxOk(cfg, tx) && tx.sdu.Some? && tx.sent > 0
  {
    tx.(sent := NextLoad(cfg, tx.sdu.value.data, tx.sent), sn := (tx.sn + 1) % 16, last := at)
  }

  ghost predicate AllSent(tx: Tx)
    requires tx.sdu.Some?
  {
    tx.sent >= |tx.sdu.value.data|
  }

  /** Emit consecutive frames up to the budget, the block and the separation time. */
  ghost function SendLoop(cfg: Config, tx: Tx, w: World, now: nat, emitted: nat, budget: nat): (r: (Tx, World, nat))
    requires TxOk(cfg, tx) && tx.state == TxSend
    ensures TxOk(cfg, r.0) && emitted <= r.2 && (emitted <= budget ==> r.2 <= budget)
    decreases |tx.sdu.value.data| - tx.sent
  {
    if emitted >= budget || (tx.stmin > 0 && Diff32(now, tx.last) < tx.stmin) then (tx, w, emitted)
    else
      var (ok, w1) := OfferCf(cfg, tx, w);
      if !ok then
        var (tx1, w2) := TxHold(cfg, tx, w1);
        (tx1, w2, emitted)
      else
        var tx1 := Advanced(cfg, tx, now);
        var (now1, w2) := Read(w1.(trace := w1.trace + [PaceCf(now)]));
        var tx2 := tx1.(bs := if tx.bs > 0 then tx.bs - 1 else 0);
        if AllSent(tx2) then
          var (tx3, w3) := TxEnd(cfg, tx2, w2, N_OK);
          (tx3, w3, emitted + 1)
        else if tx.bs == 1 then
          (tx2.(state := TxWaitFc, deadline := now1 + cfg.nBs), w2, emitted + 1)
        else
          SendLoop(cfg, tx2, w2, now1, emitted + 1, budget)
  }

  ghost function Sending(cfg: Config, tx: Tx, w: World, emitted: nat, budget: nat): (r: (Tx, World, nat))
    requires TxOk(cfg, tx)
    ensures TxOk(cfg, r.0) && emitted <= r.2 && (emitted <= budget ==> r.2 <= budget)
  {
    if tx.state != TxSend then (tx, w, emitted)
    else
      var (now, w1) := Read(w);
      SendLoop(cfg, tx, w1, now, emitted, budget)
  }

  /** Offer the held consecutive frame again, and carry on if the link takes it. */
  ghost function RetryCf(cfg: Config, tx: Tx, w: World, budget: nat): (r: (Tx, World, nat))
    requires TxOk(cfg, tx) && tx.state == TxWaitLink && tx.sent > 0
    ensures TxOk(cfg, r.0) && (1 <= budget ==> r.2 <= budget)
  {
    var (ok, w1) := OfferCf(cfg, tx, w);
    if !ok then (tx, w1, 0)
    else
      var (t, w2) := Read(w1);
      var w3 := w2.(trace := w2.trace + [PaceCf(t)]);
      var tx1 := Advanced(cfg, tx, t).(state := TxSend);
      if AllSent(tx1) then
        var (tx2, w4) := TxEnd(cfg, tx1, w3, N_OK);
        (tx2, w4, 1)
      else if tx.bs == 1 then
        (tx1.(bs := 0, state := TxWaitFc, deadline := t + cfg.nBs), w3, 1)
      else
        Sending(cfg, tx1.(bs := if tx.bs > 0 then tx.bs - 1 else 0), w3, 1, budget)
  }

  /** Take the next message when idle and drive the transmission on, emitting at most
      `budget` data frames. */
  ghost function RequestTx(cfg: Config, tx: Tx, w: World, q: seq<Sdu>, budget: nat): (r: (Tx, World, seq<Sdu>, nat))
    requires TxOk(cfg, tx)
    ensures TxOk(cfg, r.0) && (1 <= budget ==> r.3 <= budget)
  {
    if tx.state == TxIdle then
      if q == [] then (tx, w, q, 0)
      else
        var (tx1, w1, k) := OfferHead(cfg, Pulled(cfg, tx, q[0]), w);
        (tx1, w1, q[1..], k)
    else if tx.state == TxWaitLink then
      var (tx1, w1, k) := if tx.sent == 0 then OfferHead(cfg, tx, w) else RetryCf(cfg, tx, w, budget);
      (tx1, w1, q, k)
    else
      var (tx1, w1, k) := Sending(cfg, tx, w, 0, budget);
      (tx1, w1, q, k)
  }

  // ---------------------------------------------------------------- an instance

  datatype Inst = Inst(rx: Rx, tx: Tx, w: World, sduQ: seq<Sdu>, canQ: seq<Frame>)

  ghost predicate InstOk(cfg: Config, s: Inst) {
    RxOk(s.rx) && TxOk(cfg, s.tx)
  }

  ghost function Start(clock: nat -> nat, grant: nat -> bool): Inst {
    Inst(Rx(RxIdle, 0, 0, 0, [], 0), Tx(TxIdle, 0, 0, 0, 0, 0, 0, 0, 0, None),
         World(clock, grant, 0, 0, [], [], [], []), [], [])
  }

  /** Whom a received frame concerns: reception, transmission, or neither. */
  ghost function Intake(cfg: Config, rx: Rx, tx: Tx, w: World, f: Frame): (r: (Rx, Tx, World))
    requires RxOk(rx) && TxOk(cfg, tx)
    ensures RxOk(r.0) && TxOk(cfg, r.1)
  {
    var d := f.data;
    if |d| == 0 || f.ch != cfg.ch || f.isExt != cfg.extId then (rx, tx, w)
    else if f.id == cfg.physRxId then
      if Kind(d) == 3 then
        var (tx1, w1) := ApplyFc(cfg, tx, w, d);
        (rx, tx1, w1)
      else
        var (rx1, w1) := RxFrame(cfg, rx, w, d);
        (rx1, tx, w1)
    else if cfg.funcRxId != 0 && f.id == cfg.funcRxId && Kind(d) == 0 then
      (rx, tx, RxSingle(cfg, w, Functional, d))
    else (rx, tx, w)
  }

  ghost function Drain(cfg: Config, rx: Rx, tx: Tx, w: World, fs: seq<Frame>): (r: (Rx, Tx, World))
    requires RxOk(rx) && TxOk(cfg, tx)
    ensures RxOk(r.0) && TxOk(cfg, r.1)
    decreases |fs|
  {
    if fs == [] then (rx, tx, w)
    else
      var (rx1, tx1, w1) := Intake(cfg, rx, tx, w, fs[0]);
      Drain(cfg, rx1, tx1, w1, fs[1..])
  }

  /** Expire a reception whose peer went quiet or whose flow control never left, and
      offer a held flow control again. */
  ghost function RxGuards(cfg: Config, rx: Rx, w: World, now: nat): (r: (Rx, World))
    requires RxOk(rx)
    ensures RxOk(r.0)
  {
    if rx.state == RxAssem && Expired(now, rx.deadline) then RxAbort(cfg, rx, w, N_TIMEOUT_CR)
    else if rx.state == RxFcWait && Expired(now, rx.deadline) then RxAbort(cfg, rx, w, N_TIMEOUT_A)
    else if rx.state == RxFcWait then EmitCts(cfg, rx, w)
    else (rx, w)
  }

  ghost function TxGuards(cfg: Config, tx: Tx, w: World, now: nat): (r: (Tx, World))
    requires TxOk(cfg, tx)
    ensures TxOk(cfg, r.0)
  {
    if tx.state == TxWaitFc && Expired(now, tx.deadline) then TxEnd(cfg, tx, w, N_TIMEOUT_BS)
    else if tx.state == TxWaitLink && Expired(now, tx.deadline) then TxEnd(cfg, tx, w, N_TIMEOUT_A)
    else (tx, w)
  }

  function Budget(cfg: Config): nat {
    if cfg.txFramesPerProcess == 0 then 255 else cfg.txFramesPerProcess
  }

  /** One call of nx_can_isotp_process. */
  ghost function Process(cfg: Config, s: Inst): (r: Inst)
    requires InstOk(cfg, s)
    ensures InstOk(cfg, r)
  {
    var (rx1, tx1, w1) := Drain(cfg, s.rx, s.tx, s.w, s.canQ);
    var (now, w2) := Read(w1);
    var (rx2, w3) := RxGuards(cfg, rx1, w2, now);
    var (tx2, w4) := TxGuards(cfg, tx1, w3, now);
    var (tx3, w5, q, _) := RequestTx(cfg, tx2, w4, s.sduQ, Budget(cfg));
    Inst(rx2, tx3, w5, q, [])
  }

  // ---------------------------------------------------------------- runs

  /** What can happen to an instance: a frame reaches its receive queue, the upper layer
      queues a message, or the main loop calls process. */
  datatype Event = Arrive(f: Frame) | Give(s: Sdu) | Tick

  ghost function Step(cfg: Config, s: Inst, e: Event): (r: Inst)
    requires InstOk(cfg, s)
    ensures InstOk(cfg, r)
  {
    match e
    case Arrive(f) => s.(canQ := s.canQ + [f])
    case Give(m) => s.(sduQ := s.sduQ + [m])
    case Tick => Process(cfg, s)
  }

  ghost function Run(cfg: Config, s: Inst, es: seq<Event>): (r: Inst)
    requires InstOk(cfg, s)
    ensures InstOk(cfg, r)
    decreases |es|
  {
    if es == [] then s else Step(cfg, Run(cfg, s, es[..|es| - 1]), es[|es| - 1])
  }
}
