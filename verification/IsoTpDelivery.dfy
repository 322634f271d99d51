/** Bounded delivery: two instances that take turns over a link that loses nothing complete
    every message in as many turns as it has frames, once queues and pools have room and the
    clock neither stalls nor outruns the timeouts. */
module IsoTpDelivery {
  import opened Options
  import opened Words
  import opened CanBus
  import opened IsoTpTypes
  import opened IsoTpCodec
  import opened IsoTpMachine

  datatype Duo = Duo(a: Inst, b: Inst)

  /** One turn: a side calls process, the link carries over all it put on it, then the
      other side does the same. */
  ghost function Turn(cfgA: Config, cfgB: Config, d: Duo): (r: Duo)
    requires InstOk(cfgA, d.a) && InstOk(cfgB, d.b)
    ensures InstOk(cfgA, r.a) && InstOk(cfgB, r.b)
  {
    var a1 := Process(cfgA, d.a);
    var b1 := Process(cfgB, d.b.(canQ := d.b.canQ + Frames(New(d.a.w, a1.w))));
    Duo(a1.(canQ := a1.canQ + Frames(New(d.b.w, b1.w))), b1)
  }

  /** What the log gained. */
  ghost function New(w: World, w1: World): seq<Sent> {
    if |w.log| <= |w1.log| then w1.log[|w.log|..] else []
  }

  /** A permission to go on is all that went out. */
  ghost predicate Permits(cfgB: Config, w: World, w1: World) {
    && |w1.log| == |w.log| + 1 && w.log <= w1.log
    && w1.log[|w.log|].frame == Cts(cfgB) && w1.log[|w.log|].tag == Control
  }

  ghost function Turns(cfgA: Config, cfgB: Config, d: Duo, k: nat): (r: Duo)
    requires InstOk(cfgA, d.a) && InstOk(cfgB, d.b)
    ensures InstOk(cfgA, r.a) && InstOk(cfgB, r.b)
    decreases k
  {
    hide Process, Turn;
    if k == 0 then d else Turns(cfgA, cfgB, Turn(cfgA, cfgB, d), k - 1)
  }

  /** The link and the pools have room from now on. */
  ghost predicate Open(w: World) {
    forall j :: w.offers <= j ==> w.grant(j)
  }

  /** Consecutive readings are at least lo and at most hi apart. */
  ghost predicate Steady(clock: nat -> nat, lo: nat, hi: nat) {
    forall i: nat, j: nat :: j == i + 1 ==> clock(i) + lo <= clock(j) <= clock(i) + hi
  }

  /** The two configurations face each other, the receiver waits longer than a reading takes,
      and a few readings stay within half the counter. */
  ghost predicate Facing(cfgA: Config, cfgB: Config, hi: nat) {
    && cfgA.physTxId == cfgB.physRxId && cfgB.physTxId == cfgA.physRxId
    && cfgA.ch == cfgB.ch && cfgA.extId == cfgB.extId
    && hi < cfgB.nCr <= TWO_31 && 8 * hi < TWO_31
  }

  ghost predicate Acceptable(cfgB: Config, s: Sdu) {
    s.ta == Physical && 0 < |s.data| && !TooLong(cfgB, |s.data|)
  }

  // ---------------------------------------------------------------- one frame

  /** Sender and receiver agree on how far message m has got. */
  ghost predicate Matched(tx: Tx, s: Sdu, rx: Rx) {
    && tx.sdu == Some(s) && 0 < tx.sent < |s.data|
    && rx.state == RxAssem && rx.total == |s.data| && rx.acc == s.data[..tx.sent]
    && rx.sn == tx.sn
  }

  /** The receiver's guard against a silent peer was armed at its latest reading. */
  ghost predicate Armed(cfgB: Config, rx: Rx, w: World) {
    w.ticks > 0 && rx.deadline == w.clock(w.ticks - 1) + cfgB.nCr
  }

  ghost function Cts(cfgB: Config): Frame {
    FcFrame(cfgB, FS_CTS, cfgB.rxBlockSize, cfgB.rxStmin)
  }

  /** What taking the next consecutive frame does to the receiver. */
  ghost predicate Took(cfgA: Config, cfgB: Config, tx: Tx, s: Sdu, rx: Rx, w: World, rx1: Rx, w1: World)
    requires tx.sent <= |s.data|
  {
    var next := NextLoad(cfgA, s.data, tx.sent);
    && Open(w1) && w1.clock == w.clock
    && if next == |s.data| then
         && rx1.state == RxIdle && w1.up == w.up + [Received(cfgB, Physical, s.data)] && w1.log == w.log
       else
         && rx1.state == RxAssem && rx1.total == |s.data| && rx1.acc == s.data[..next]
         && rx1.sn == (tx.sn + 1) % 16 && Armed(cfgB, rx1, w1) && w1.up == w.up
         && if rx.blockLeft == 1
            then rx1.blockLeft == cfgB.rxBlockSize && Permits(cfgB, w, w1)
            else rx1.blockLeft == (if rx.blockLeft > 0 then rx.blockLeft - 1 else 0) && w1.log == w.log
  }

  lemma TakesBytes(cfgA: Config, cfgB: Config, tx: Tx, s: Sdu, rx: Rx, w: World, d: seq<byte>)
    requires TxOk(cfgA, tx) && Matched(tx, s, rx) && RxOk(rx) && Open(w)
    requires 1 < |d| <= MAX_FD_LEN && d[0] % 16 == tx.sn
    requires CfTake(d, |s.data| - tx.sent) == s.data[tx.sent..NextLoad(cfgA, s.data, tx.sent)]
    ensures var (rx1, w1) := RxConsecutive(cfgB, rx, w, d); Took(cfgA, cfgB, tx, s, rx, w, rx1, w1)
  {
    hide FcFrame, HeadLoad;
    var m := s.data;
    var next := NextLoad(cfgA, m, tx.sent);
    assert m[..tx.sent] + m[tx.sent..next] == m[..next];
    assert next == |m| ==> m[..next] == m;
    assert w.grant(w.offers);
  }

  /** The receiver takes the consecutive frame the sender puts on the link. */
  lemma TakesCf(cfgA: Config, cfgB: Config, tx: Tx, s: Sdu, rx: Rx, txB: Tx, w: World)
    requires cfgA.physTxId == cfgB.physRxId && cfgA.ch == cfgB.ch && cfgA.extId == cfgB.extId
    requires TxOk(cfgA, tx) && Matched(tx, s, rx) && s.ta == Physical && RxOk(rx) && TxOk(cfgB, txB)
    requires Open(w)
    ensures var (rx1, txB1, w1) := Intake(cfgB, rx, txB, w, CfFrame(cfgA, tx.id, s.data, tx.sent, tx.sn));
            txB1 == txB && Took(cfgA, cfgB, tx, s, rx, w, rx1, w1)
  {
    hide FcFrame, HeadLoad, RxConsecutive, Took;
    CfReads(cfgA, tx.id, s.data, tx.sent, tx.sn);
    CfAddress(cfgA, tx.id, s.data, tx.sent, tx.sn);
    hide CfFrame;
    TakesBytes(cfgA, cfgB, tx, s, rx, w, CfFrame(cfgA, tx.id, s.data, tx.sent, tx.sn).data);
  }

  lemma CfAddress(cfg: Config, id: nat, m: seq<byte>, sent: nat, sn: nat)
    requires sent < |m|
    ensures var f := CfFrame(cfg, id, m, sent, sn);
            f.id == id && f.ch == cfg.ch && f.isExt == cfg.extId && |f.data| <= MAX_FD_LEN
  {}

  // ---------------------------------------------------------------- a run of frames

  /** The stamp of the last frame is at most n readings' worth behind the clock. */
  ghost predicate Recent(tx: Tx, w: World, n: nat, hi: nat) {
    w.ticks > 0 && tx.last <= w.clock(w.ticks - 1) <= tx.last + n * hi
  }

  /** Where both sides stand after the sender's run of frames reached the receiver: the
      message delivered and confirmed, or more of it in place, with a fresh permission on
      its way when the block is used up. */
  ghost predicate HandedOver(cfgA: Config, cfgB: Config, s: Sdu, hi: nat,
                             w: World, tx1: Tx, w1: World, wB: World, rx1: Rx, wB1: World)
  {
    && Open(w1) && Open(wB1) && w1.clock == w.clock && wB1.clock == wB.clock
    && if tx1.sdu == None then
         && tx1.state == TxIdle && w1.done == w.done + [(s, N_OK)]
         && rx1.state == RxIdle && wB1.up == wB.up + [Received(cfgB, Physical, s.data)] && wB1.log == wB.log
       else
         && w1.done == w.done && wB1.up == wB.up
         && Matched(tx1, s, rx1) && Armed(cfgB, rx1, wB1) && Recent(tx1, w1, 2, hi)
         && (|| (tx1.state == TxSend && rx1.blockLeft == tx1.bs && tx1.stmin == StminToUs(cfgB.rxStmin)
                && wB1.log == wB.log)
            || (tx1.state == TxWaitFc && rx1.blockLeft == cfgB.rxBlockSize
                && w1.ticks > 0 && tx1.deadline == w1.clock(w1.ticks - 1) + cfgA.nBs
                && Permits(cfgB, wB, wB1)))
  }

  /** The next pass of the send loop is sure to emit. */
  ghost predicate WillSend(tx: Tx, now: nat, emitted: nat, budget: nat) {
    emitted < budget && (tx.stmin == 0 || Diff32(now, tx.last) >= tx.stmin)
  }

  /** The sender once the link took the next frame of its run. */
  ghost function Next(cfgA: Config, tx: Tx, now: nat): Tx
    requires TxOk(cfgA, tx) && tx.sdu.Some? && tx.sent > 0
  {
    Advanced(cfgA, tx, now).(bs := if tx.bs > 0 then tx.bs - 1 else 0)
  }

  ghost function Logged(cfgA: Config, tx: Tx, w: World): Sent
    requires TxOk(cfgA, tx) && tx.sdu.Some? && tx.sent > 0
  {
    var m := tx.sdu.value.data;
    Sent(CfFrame(cfgA, tx.id, m, tx.sent, tx.sn), Data(|w.done|, tx.sent, NextLoad(cfgA, m, tx.sent), tx.sn), w.ticks)
  }

  ghost function LoggedWorld(cfgA: Config, tx: Tx, w: World, now: nat): World
    requires TxOk(cfgA, tx) && tx.sdu.Some? && tx.sent > 0
  {
    w.(offers := w.offers + 1, ticks := w.ticks + 1,
       log := w.log + [Logged(cfgA, tx, w)], trace := w.trace + [PaceCf(now)])
  }

  /** One pass of the send loop on an open link. */
  lemma LoopUnrolls(cfgA: Config, tx: Tx, w: World, now: nat, emitted: nat, budget: nat)
    requires TxOk(cfgA, tx) && tx.state == TxSend && Open(w) && WillSend(tx, now, emitted, budget)
    ensures var tx2, w2 := Next(cfgA, tx, now), LoggedWorld(cfgA, tx, w, now);
            var now1 := w.clock(w.ticks);
            SendLoop(cfgA, tx, w, now, emitted, budget) ==
              if AllSent(tx2) then (TxEnd(cfgA, tx2, w2, N_OK).0, TxEnd(cfgA, tx2, w2, N_OK).1, emitted + 1)
              else if tx.bs == 1 then (tx2.(state := TxWaitFc, deadline := now1 + cfgA.nBs), w2, emitted + 1)
              else SendLoop(cfgA, tx2, w2, now1, emitted + 1, budget)
  {
    hide CfFrame, HeadLoad, Diff32;
    assert w.grant(w.offers);
  }

  /** What the receiver makes of what the log gained. */
  ghost function Drained(cfgB: Config, rx: Rx, txB: Tx, wB: World, w: World, w1: World): (Rx, Tx, World)
    requires RxOk(rx) && TxOk(cfgB, txB)
  {
    Drain(cfgB, rx, txB, wB, Frames(New(w, w1)))
  }

  lemma DrainUnrolls(cfgB: Config, rx: Rx, txB: Tx, wB: World, w: World, e: Sent, w1: World)
    requires RxOk(rx) && TxOk(cfgB, txB) && w.log + [e] <= w1.log
    ensures var (rx1, txB1, wB1) := Intake(cfgB, rx, txB, wB, e.frame);
            Drained(cfgB, rx, txB, wB, w, w1) == Drained(cfgB, rx1, txB1, wB1, w.(log := w.log + [e]), w1)
  {
    hide Intake;
    var es := New(w, w1);
    assert es == [e] + New(w.(log := w.log + [e]), w1);
    assert Frames(es) == [e.frame] + Frames(es[1..]);
    assert Frames(es)[1..] == Frames(New(w.(log := w.log + [e]), w1));
  }

  lemma NothingDrained(cfgB: Config, rx: Rx, txB: Tx, wB: World, w: World, w1: World)
    requires RxOk(rx) && TxOk(cfgB, txB) && w.log == w1.log
    ensures Drained(cfgB, rx, txB, wB, w, w1) == (rx, txB, wB)
  {
    assert New(w, w1) == [];
  }

  lemma TxEndLog(cfg: Config, tx: Tx, w: World, result: Outcome)
    requires tx.sdu.Some? && Open(w)
    ensures var (tx1, w1) := TxEnd(cfg, tx, w, result);
            && w1.log == w.log && w1.done == w.done + [(tx.sdu.value, result)]
            && tx1.sdu == None && tx1.state == TxIdle && Open(w1) && w1.clock == w.clock && w1.ticks == w.ticks
  {}

  /** The last frame of a run: the message is complete, or its block is. */
  lemma RunEnds(cfgA: Config, cfgB: Config, s: Sdu, hi: nat, tx: Tx, w: World, now: nat,
                rx: Rx, wB: World, rx1: Rx, wB1: World)
    requires TxOk(cfgA, tx) && tx.state == TxSend && Matched(tx, s, rx) && rx.blockLeft == tx.bs && tx.stmin == StminToUs(cfgB.rxStmin)
    requires Open(w) && Steady(w.clock, 0, hi) && w.ticks > 0 && now == w.clock(w.ticks - 1)
    requires Took(cfgA, cfgB, tx, s, rx, wB, rx1, wB1)
    ensures var tx2, w2 := Next(cfgA, tx, now), LoggedWorld(cfgA, tx, w, now);
            && Open(w2)
            && (AllSent(tx2) ==>
                  var (tx3, w3) := TxEnd(cfgA, tx2, w2, N_OK);
                  HandedOver(cfgA, cfgB, s, hi, w, tx3, w3, wB, rx1, wB1))
            && (!AllSent(tx2) && tx.bs == 1 ==>
                  HandedOver(cfgA, cfgB, s, hi, w, tx2.(state := TxWaitFc, deadline := w.clock(w.ticks) + cfgA.nBs), w2,
                             wB, rx1, wB1))
            && (!AllSent(tx2) && tx.bs != 1 ==>
                  && Matched(tx2, s, rx1) && rx1.blockLeft == tx2.bs && Armed(cfgB, rx1, wB1) && Recent(tx2, w2, 2, hi)
                  && wB1.up == wB.up && wB1.log == wB.log)
  {
    hide CfFrame, HeadLoad, StminToUs, FcFrame, Received;
    var tx2, w2 := Next(cfgA, tx, now), LoggedWorld(cfgA, tx, w, now);
    assert w.clock(w.ticks - 1) <= w.clock(w.ticks) <= w.clock(w.ticks - 1) + hi by {
      assert w.clock(w.ticks - 1 + 1) == w.clock(w.ticks);
    }
    TxEndLog(cfgA, tx2, w2, N_OK);
    hide TxEnd;
  }

  lemma HandOverFrom(cfgA: Config, cfgB: Config, s: Sdu, hi: nat, w: World, w2: World, tx1: Tx, w1: World,
                     wB: World, wB2: World, rx1: Rx, wB1: World)
    requires HandedOver(cfgA, cfgB, s, hi, w2, tx1, w1, wB2, rx1, wB1)
    requires w2.clock == w.clock && w2.done == w.done && wB2.clock == wB.clock && wB2.up == wB.up && wB2.log == wB.log
    ensures HandedOver(cfgA, cfgB, s, hi, w, tx1, w1, wB, rx1, wB1)
  {
    hide FcFrame, StminToUs;
  }

  /** The sender went from tx, w to tx1, w1 and the receiver drained what that put on the link. */
  ghost predicate Handed(cfgA: Config, cfgB: Config, s: Sdu, hi: nat, tx: Tx, w: World, tx1: Tx, w1: World,
                         rx: Rx, txB: Tx, wB: World, progress: bool)
    requires RxOk(rx) && TxOk(cfgB, txB)
  {
    && w.log <= w1.log
    && tx.sent <= |s.data|
    && (tx1.sdu.Some? ==> tx.sent <= tx1.sent && (progress ==> NextLoad(cfgA, s.data, tx.sent) <= tx1.sent))
    && var (rx1, txB1, wB1) := Drained(cfgB, rx, txB, wB, w, w1);
       txB1 == txB && HandedOver(cfgA, cfgB, s, hi, w, tx1, w1, wB, rx1, wB1)
  }

  ghost predicate InStep(cfgA: Config, cfgB: Config, s: Sdu, hi: nat, tx: Tx, w: World, rx: Rx, txB: Tx, wB: World) {
    && cfgA.physTxId == cfgB.physRxId && cfgA.ch == cfgB.ch && cfgA.extId == cfgB.extId
    && TxOk(cfgA, tx) && RxOk(rx) && TxOk(cfgB, txB) && s.ta == Physical
    && tx.state == TxSend && Matched(tx, s, rx) && rx.blockLeft == tx.bs
    && tx.stmin == StminToUs(cfgB.rxStmin)
    && Open(w) && Open(wB) && Steady(w.clock, 0, hi) && w.ticks > 0
  }

  lemma {:induction false} LoopHandsOver(cfgA: Config, cfgB: Config, s: Sdu, hi: nat, tx: Tx, w: World,
                                         now: nat, emitted: nat, budget: nat, rx: Rx, txB: Tx, wB: World)
    requires InStep(cfgA, cfgB, s, hi, tx, w, rx, txB, wB) && now == w.clock(w.ticks - 1)
    requires (Armed(cfgB, rx, wB) && Recent(tx, w, 2, hi)) || WillSend(tx, now, emitted, budget)
    ensures var (tx1, w1, _) := SendLoop(cfgA, tx, w, now, emitted, budget);
            Handed(cfgA, cfgB, s, hi, tx, w, tx1, w1, rx, txB, wB, WillSend(tx, now, emitted, budget))
    decreases |s.data| - tx.sent
  {
    hide CfFrame, HeadLoad, FcFrame, Intake, StminToUs, Diff32, Drained, HandedOver, Took, TxEnd, Received, RxOk;
    if WillSend(tx, now, emitted, budget) {
      LoopUnrolls(cfgA, tx, w, now, emitted, budget);
      TakesCf(cfgA, cfgB, tx, s, rx, txB, wB);
      var (rx1, _, wB1) := Intake(cfgB, rx, txB, wB, Logged(cfgA, tx, w).frame);
      var tx2, w2 := Next(cfgA, tx, now), LoggedWorld(cfgA, tx, w, now);
      RunEnds(cfgA, cfgB, s, hi, tx, w, now, rx, wB, rx1, wB1);
      if AllSent(tx2) || tx.bs == 1 {
        LoopStops(cfgA, cfgB, s, hi, tx, w, now, emitted, budget, rx, txB, wB, rx1, wB1);
      } else {
        TookOpens(cfgA, cfgB, tx, s, rx, wB, rx1, wB1);
        LoopHandsOver(cfgA, cfgB, s, hi, tx2, w2, w.clock(w.ticks), emitted + 1, budget, rx1, txB, wB1);
        var (tx1, w1, _) := SendLoop(cfgA, tx2, w2, w.clock(w.ticks), emitted + 1, budget);
        OneMore(cfgA, cfgB, s, hi, tx, w, now, tx1, w1, rx, txB, wB);
      }
    } else {
      NothingDrained(cfgB, rx, txB, wB, w, w);
      Stays(cfgA, cfgB, s, hi, tx, w, rx, wB);
    }
  }

  /** A frame ahead of a run already accounted for. */
  lemma OneMore(cfgA: Config, cfgB: Config, s: Sdu, hi: nat, tx: Tx, w: World, now: nat, tx1: Tx, w1: World,
                rx: Rx, txB: Tx, wB: World)
    requires InStep(cfgA, cfgB, s, hi, tx, w, rx, txB, wB)
    requires var tx2, w2 := Next(cfgA, tx, now), LoggedWorld(cfgA, tx, w, now);
             var (rx1, txB1, wB1) := Intake(cfgB, rx, txB, wB, Logged(cfgA, tx, w).frame);
             && txB1 == txB && wB1.clock == wB.clock && wB1.up == wB.up && wB1.log == wB.log
             && Handed(cfgA, cfgB, s, hi, tx2, w2, tx1, w1, rx1, txB, wB1, false)
    ensures Handed(cfgA, cfgB, s, hi, tx, w, tx1, w1, rx, txB, wB, true)
  {
    hide CfFrame, HeadLoad, FcFrame, Intake, StminToUs, Drained, HandedOver;
    var e, w2 := Logged(cfgA, tx, w), LoggedWorld(cfgA, tx, w, now);
    var (rx1, _, wB1) := Intake(cfgB, rx, txB, wB, e.frame);
    DrainUnrolls(cfgB, rx, txB, wB, w, e, w1);
    SameLog(cfgB, rx1, txB, wB1, w.(log := w.log + [e]), w2, w1);
    var (rxE, _, wBE) := Drained(cfgB, rx1, txB, wB1, w2, w1);
    HandOverFrom(cfgA, cfgB, s, hi, w, w2, tx1, w1, wB, wB1, rxE, wBE);
  }

  lemma LoopStops(cfgA: Config, cfgB: Config, s: Sdu, hi: nat, tx: Tx, w: World, now: nat, emitted: nat, budget: nat,
                  rx: Rx, txB: Tx, wB: World, rx1: Rx, wB1: World)
    requires InStep(cfgA, cfgB, s, hi, tx, w, rx, txB, wB) && now == w.clock(w.ticks - 1)
    requires WillSend(tx, now, emitted, budget)
    requires AllSent(Next(cfgA, tx, now)) || tx.bs == 1
    requires Intake(cfgB, rx, txB, wB, Logged(cfgA, tx, w).frame) == (rx1, txB, wB1)
    requires Took(cfgA, cfgB, tx, s, rx, wB, rx1, wB1)
    ensures var (tx1, w1, _) := SendLoop(cfgA, tx, w, now, emitted, budget);
            Handed(cfgA, cfgB, s, hi, tx, w, tx1, w1, rx, txB, wB, true)
  {
    hide CfFrame, HeadLoad, FcFrame, Intake, StminToUs, Diff32, Drained, HandedOver, Took, TxEnd, Received, RxOk;
    var e, tx2, w2 := Logged(cfgA, tx, w), Next(cfgA, tx, now), LoggedWorld(cfgA, tx, w, now);
    LoopUnrolls(cfgA, tx, w, now, emitted, budget);
    RunEnds(cfgA, cfgB, s, hi, tx, w, now, rx, wB, rx1, wB1);
    TxEndLog(cfgA, tx2, w2, N_OK);
    var (_, w1, _) := SendLoop(cfgA, tx, w, now, emitted, budget);
    DrainUnrolls(cfgB, rx, txB, wB, w, e, w1);
    NothingDrained(cfgB, rx1, txB, wB1, w.(log := w.log + [e]), w1);
  }

  lemma TookOpens(cfgA: Config, cfgB: Config, tx: Tx, s: Sdu, rx: Rx, w: World, rx1: Rx, w1: World)
    requires tx.sent <= |s.data| && Took(cfgA, cfgB, tx, s, rx, w, rx1, w1)
    ensures Open(w1) && w1.clock == w.clock
  {}

  lemma SameLog(cfgB: Config, rx: Rx, txB: Tx, wB: World, w: World, w2: World, w1: World)
    requires RxOk(rx) && TxOk(cfgB, txB) && w.log == w2.log
    ensures Drained(cfgB, rx, txB, wB, w, w1) == Drained(cfgB, rx, txB, wB, w2, w1)
  {}

  lemma Stays(cfgA: Config, cfgB: Config, s: Sdu, hi: nat, tx: Tx, w: World, rx: Rx, wB: World)
    requires tx.state == TxSend && Matched(tx, s, rx) && rx.blockLeft == tx.bs && tx.stmin == StminToUs(cfgB.rxStmin)
    requires Open(w) && Open(wB) && Armed(cfgB, rx, wB) && Recent(tx, w, 2, hi)
    ensures HandedOver(cfgA, cfgB, s, hi, w, tx, w, wB, rx, wB)
  {
    hide FcFrame, StminToUs;
  }

  // ---------------------------------------------------------------- what a request puts on the link

  lemma SendingHandsOver(cfgA: Config, cfgB: Config, s: Sdu, hi: nat, tx: Tx, w: World, budget: nat,
                         rx: Rx, txB: Tx, wB: World)
    requires InStep(cfgA, cfgB, s, hi, tx, w, rx, txB, wB)
    requires 8 * hi < TWO_31 && Recent(tx, w, 5, hi) && w.clock(w.ticks) >= tx.last + tx.stmin && 0 < budget
    ensures var (tx1, w1, _) := Sending(cfgA, tx, w, 0, budget);
            Handed(cfgA, cfgB, s, hi, tx, w, tx1, w1, rx, txB, wB, true)
  {
    hide CfFrame, HeadLoad, StminToUs, Drained, HandedOver, SendLoop;
    var (now, w1) := Read(w);
    assert now <= w.clock(w.ticks - 1) + hi;
    Diff32Exact(now, tx.last);
    hide Diff32;
    LoopHandsOver(cfgA, cfgB, s, hi, tx, w1, now, 0, budget, rx, txB, wB);
    var (tx2, w2, _) := SendLoop(cfgA, tx, w1, now, 0, budget);
    StartEarlier(cfgA, cfgB, s, hi, tx, w, w1, tx2, w2, rx, txB, wB, true);
  }

  /** A reading before the run changes nothing about it. */
  lemma StartEarlier(cfgA: Config, cfgB: Config, s: Sdu, hi: nat, tx: Tx, w: World, w1: World, tx2: Tx, w2: World,
                     rx: Rx, txB: Tx, wB: World, progress: bool)
    requires RxOk(rx) && TxOk(cfgB, txB)
    requires Handed(cfgA, cfgB, s, hi, tx, w1, tx2, w2, rx, txB, wB, progress)
    requires w1.log == w.log && w1.done == w.done && w1.clock == w.clock
    ensures Handed(cfgA, cfgB, s, hi, tx, w, tx2, w2, rx, txB, wB, progress)
  {
    hide StminToUs, FcFrame, Drained;
    SameLog(cfgB, rx, txB, wB, w, w1, w2);
  }

  /** The frame a refusal held back goes out first, and the run carries on behind it. */
  lemma RetryHandsOver(cfgA: Config, cfgB: Config, s: Sdu, hi: nat, tx: Tx, w: World, budget: nat,
                       rx: Rx, txB: Tx, wB: World)
    requires InStep(cfgA, cfgB, s, hi, tx.(state := TxSend), w, rx, txB, wB) && tx.state == TxWaitLink
    requires 0 < budget
    ensures var (tx1, w1, _) := RetryCf(cfgA, tx, w, budget);
            Handed(cfgA, cfgB, s, hi, tx, w, tx1, w1, rx, txB, wB, true)
  {
    hide CfFrame, HeadLoad, FcFrame, Intake, StminToUs, Drained, HandedOver, Took, TxEnd, Received, SendLoop;
    var txS := tx.(state := TxSend);
    var t := w.clock(w.ticks);
    RetryUnrolls(cfgA, tx, w, budget);
    TakesCf(cfgA, cfgB, txS, s, rx, txB, wB);
    var (rx1, _, wB1) := Intake(cfgB, rx, txB, wB, Logged(cfgA, tx, w).frame);
    var tx2, w2 := Next(cfgA, txS, t), LoggedWorld(cfgA, tx, w, t);
    RetryEnds(cfgA, cfgB, s, hi, tx, w, rx, wB, rx1, wB1);
    TxEndLog(cfgA, Advanced(cfgA, txS, t), w2, N_OK);
    var e := Logged(cfgA, tx, w);
    var (tx1, w1, _) := RetryCf(cfgA, tx, w, budget);
    if AllSent(tx2) || tx.bs == 1 {
      DrainUnrolls(cfgB, rx, txB, wB, w, e, w1);
      NothingDrained(cfgB, rx1, txB, wB1, w.(log := w.log + [e]), w1);
    } else {
      TookOpens(cfgA, cfgB, txS, s, rx, wB, rx1, wB1);
      LoopHandsOver(cfgA, cfgB, s, hi, tx2, Read(w2).1, Read(w2).0, 1, budget, rx1, txB, wB1);
      StartEarlier(cfgA, cfgB, s, hi, tx2, w2, Read(w2).1, tx1, w1, rx1, txB, wB1, WillSend(tx2, Read(w2).0, 1, budget));
      OneMore(cfgA, cfgB, s, hi, txS, w, t, tx1, w1, rx, txB, wB);
    }
  }

  lemma RetryUnrolls(cfgA: Config, tx: Tx, w: World, budget: nat)
    requires TxOk(cfgA, tx) && tx.state == TxWaitLink && tx.sent > 0 && Open(w)
    ensures var t := w.clock(w.ticks);
            var tx1, w2 := Advanced(cfgA, tx, t).(state := TxSend), LoggedWorld(cfgA, tx, w, t);
            RetryCf(cfgA, tx, w, budget) ==
              if AllSent(tx1) then (TxEnd(cfgA, tx1, w2, N_OK).0, TxEnd(cfgA, tx1, w2, N_OK).1, 1)
              else if tx.bs == 1 then (tx1.(bs := 0, state := TxWaitFc, deadline := t + cfgA.nBs), w2, 1)
              else SendLoop(cfgA, tx1.(bs := if tx.bs > 0 then tx.bs - 1 else 0), Read(w2).1, Read(w2).0, 1, budget)
  {
    hide CfFrame, HeadLoad, SendLoop, TxEnd;
    assert w.grant(w.offers);
  }

  lemma RetryEnds(cfgA: Config, cfgB: Config, s: Sdu, hi: nat, tx: Tx, w: World, rx: Rx, wB: World, rx1: Rx, wB1: World)
    requires TxOk(cfgA, tx) && tx.state == TxWaitLink && Matched(tx, s, rx) && rx.blockLeft == tx.bs
    requires tx.stmin == StminToUs(cfgB.rxStmin)
    requires Open(w) && Steady(w.clock, 0, hi)
    requires Took(cfgA, cfgB, tx.(state := TxSend), s, rx, wB, rx1, wB1)
    ensures var t := w.clock(w.ticks);
            var tx1, w2 := Advanced(cfgA, tx, t).(state := TxSend), LoggedWorld(cfgA, tx, w, t);
            var tx2 := tx1.(bs := if tx.bs > 0 then tx.bs - 1 else 0);
            && Open(w2)
            && (AllSent(tx1) ==>
                  var (tx3, w3) := TxEnd(cfgA, tx1, w2, N_OK);
                  HandedOver(cfgA, cfgB, s, hi, w, tx3, w3, wB, rx1, wB1))
            && (!AllSent(tx1) && tx.bs == 1 ==>
                  HandedOver(cfgA, cfgB, s, hi, w, tx1.(bs := 0, state := TxWaitFc, deadline := t + cfgA.nBs), w2, wB, rx1, wB1))
            && (!AllSent(tx1) && tx.bs != 1 ==>
                  && Matched(tx2, s, rx1) && rx1.blockLeft == tx2.bs && Armed(cfgB, rx1, wB1) && Recent(tx2, Read(w2).1, 2, hi)
                  && wB1.up == wB.up && wB1.log == wB.log)
  {
    hide CfFrame, HeadLoad, StminToUs, FcFrame, Received;
    var t := w.clock(w.ticks);
    assert t <= w.clock(w.ticks + 1) <= t + hi;
    TxEndLog(cfgA, Advanced(cfgA, tx, t).(state := TxSend), LoggedWorld(cfgA, tx, w, t), N_OK);
    hide TxEnd;
  }

  // ---------------------------------------------------------------- the head frame

  /** The frame that opens a message reaches an idle receiver. */
  lemma HeadHandsOver(cfgA: Config, cfgB: Config, s: Sdu, hi: nat, tx: Tx, w: World, rx: Rx, txB: Tx, wB: World)
    requires cfgA.physTxId == cfgB.physRxId && cfgA.ch == cfgB.ch && cfgA.extId == cfgB.extId
    requires tx.sdu == Some(s) && tx.sent == 0 && tx.sn == 1 && tx.bs < 256 && tx.wft < 256 && tx.id == TxId(cfgA, s)
    requires RxOk(rx) && rx.state == RxIdle && TxOk(cfgB, txB)
    requires Acceptable(cfgB, s) && Open(w) && Open(wB)
    ensures var (tx1, w1, _) := OfferHead(cfgA, tx, w);
            && Handed(cfgA, cfgB, s, hi, tx, w, tx1, w1, rx, txB, wB, false)
            && (tx1.sdu.Some? ==> HeadLoad(cfgA, s.data) <= tx1.sent)
  {
    hide HeadFrame, HeadLoad, StminToUs, Drained, Intake, Received, TxEnd;
    var m := s.data;
    var e := Sent(HeadFrame(cfgA, tx.id, m), Data(|w.done|, 0, HeadLoad(cfgA, m), 0), w.ticks);
    assert w.grant(w.offers);
    var w0 := w.(offers := w.offers + 1, log := w.log + [e]);
    TxEndLog(cfgA, tx, w0, N_OK);
    var (tx1, w1, _) := OfferHead(cfgA, tx, w);
    DrainUnrolls(cfgB, rx, txB, wB, w, e, w1);
    var (rx1, txB1, wB1) := Intake(cfgB, rx, txB, wB, e.frame);
    NothingDrained(cfgB, rx1, txB1, wB1, w.(log := w.log + [e]), w1);
    if IsSingle(cfgA, m) {
      TakesSingle(cfgA, cfgB, s, rx, txB, wB);
    } else {
      TakesFirst(cfgA, cfgB, s, rx, txB, wB);
    }
  }

  lemma HeadAddress(cfg: Config, id: nat, m: seq<byte>)
    requires |m| < TWO_32
    ensures var f := HeadFrame(cfg, id, m);
            f.id == id && f.ch == cfg.ch && f.isExt == cfg.extId && |f.data| <= MAX_FD_LEN
  {}

  lemma TakesSingle(cfgA: Config, cfgB: Config, s: Sdu, rx: Rx, txB: Tx, w: World)
    requires cfgA.physTxId == cfgB.physRxId && cfgA.ch == cfgB.ch && cfgA.extId == cfgB.extId
    requires RxOk(rx) && rx.state == RxIdle && TxOk(cfgB, txB)
    requires Acceptable(cfgB, s) && IsSingle(cfgA, s.data) && Open(w)
    ensures var (rx1, txB1, w1) := Intake(cfgB, rx, txB, w, HeadFrame(cfgA, TxId(cfgA, s), s.data));
            && txB1 == txB && rx1.state == RxIdle && Open(w1) && w1.clock == w.clock
            && w1.up == w.up + [Received(cfgB, Physical, s.data)] && w1.log == w.log
  {
    hide SfLen, Received;
    SfReads(cfgA, TxId(cfgA, s), s.data);
    HeadAddress(cfgA, TxId(cfgA, s), s.data);
    var d := HeadFrame(cfgA, TxId(cfgA, s), s.data).data;
    hide HeadFrame;
    var (len, hdr) := SfLen(d).value;
    assert d[hdr..hdr + len] == d[hdr..][..len];
    assert w.grant(w.offers);
  }

  lemma TakesFirst(cfgA: Config, cfgB: Config, s: Sdu, rx: Rx, txB: Tx, w: World)
    requires cfgA.physTxId == cfgB.physRxId && cfgA.ch == cfgB.ch && cfgA.extId == cfgB.extId
    requires RxOk(rx) && rx.state == RxIdle && TxOk(cfgB, txB)
    requires Acceptable(cfgB, s) && !IsSingle(cfgA, s.data) && Open(w)
    ensures var (rx1, txB1, w1) := Intake(cfgB, rx, txB, w, HeadFrame(cfgA, TxId(cfgA, s), s.data));
            && txB1 == txB && Open(w1) && w1.clock == w.clock && w1.up == w.up
            && rx1.state == RxAssem && rx1.total == |s.data| && rx1.acc == s.data[..HeadLoad(cfgA, s.data)]
            && rx1.sn == 1 && rx1.blockLeft == cfgB.rxBlockSize && Armed(cfgB, rx1, w1)
            && Permits(cfgB, w, w1)
  {
    hide FfLen, FcFrame;
    FfReads(cfgA, TxId(cfgA, s), s.data);
    HeadAddress(cfgA, TxId(cfgA, s), s.data);
    var d := HeadFrame(cfgA, TxId(cfgA, s), s.data).data;
    hide HeadFrame, HeadLoad, SfLen, SfPci;
    assert w.grant(w.offers) && w.grant(w.offers + 1);
    assert RxFrame(cfgB, rx, w, d) == RxFirst(cfgB, rx.(deadline := rx.deadline), w, d);
  }

  // ---------------------------------------------------------------- whole calls

  /** What process amounts to on the sending side: guards quiet, then the request. */
  lemma SenderCall(cfgA: Config, a: Inst)
    requires InstOk(cfgA, a) && a.rx.state == RxIdle && a.canQ == []
    requires a.tx.state in {TxWaitFc, TxWaitLink} ==> !Expired(a.w.clock(a.w.ticks), a.tx.deadline)
    ensures var (tx1, w1, q, _) := RequestTx(cfgA, a.tx, Read(a.w).1, a.sduQ, Budget(cfgA));
            Process(cfgA, a) == Inst(a.rx, tx1, w1, q, [])
  {
    hide RequestTx, Expired;
  }

  /** The same when the permission the sender waits for has arrived. */
  lemma PermittedCall(cfgA: Config, cfgB: Config, a: Inst)
    requires InstOk(cfgA, a) && a.rx.state == RxIdle && a.canQ == [Cts(cfgB)] && a.tx.state == TxWaitFc
    requires cfgB.physTxId == cfgA.physRxId && cfgA.ch == cfgB.ch && cfgA.extId == cfgB.extId
    ensures var tx0 := a.tx.(wft := 0, bs := cfgB.rxBlockSize, stmin := StminToUs(cfgB.rxStmin), state := TxSend);
            var w0 := a.w.(trace := a.w.trace + [PaceCts(cfgB.rxBlockSize, StminToUs(cfgB.rxStmin))]);
            var (tx1, w1, q, _) := RequestTx(cfgA, tx0, Read(w0).1, a.sduQ, Budget(cfgA));
            Process(cfgA, a) == Inst(a.rx, tx1, w1, q, [])
  {
    hide RequestTx, StminToUs;
    FcReads(cfgB, FS_CTS, cfgB.rxBlockSize, cfgB.rxStmin);
    FcAddress(cfgB);
    hide FcFrame;
    var tx0 := a.tx.(wft := 0, bs := cfgB.rxBlockSize, stmin := StminToUs(cfgB.rxStmin), state := TxSend);
    var w0 := a.w.(trace := a.w.trace + [PaceCts(cfgB.rxBlockSize, StminToUs(cfgB.rxStmin))]);
    assert Intake(cfgA, a.rx, a.tx, a.w, Cts(cfgB)) == (a.rx, tx0, w0);
    assert Drain(cfgA, a.rx, a.tx, a.w, a.canQ) == (a.rx, tx0, w0) by {
      assert a.canQ[1..] == [];
    }
  }

  lemma FcAddress(cfg: Config)
    ensures Cts(cfg).id == cfg.physTxId && Cts(cfg).ch == cfg.ch && Cts(cfg).isExt == cfg.extId
  {}

  /** What process amounts to on the receiving side: drain, and a guard that stays quiet. */
  lemma ReceiverCall(cfgB: Config, b: Inst, fs: seq<Frame>)
    requires InstOk(cfgB, b) && b.tx.state == TxIdle && b.sduQ == []
    requires var (rx1, tx1, w1) := Drain(cfgB, b.rx, b.tx, b.w, fs);
             tx1 == b.tx && rx1.state != RxFcWait
             && (rx1.state == RxAssem ==> !Expired(w1.clock(w1.ticks), rx1.deadline))
    ensures var (rx1, tx1, w1) := Drain(cfgB, b.rx, b.tx, b.w, fs);
            Process(cfgB, b.(canQ := fs)) == Inst(rx1, b.tx, Read(w1).1, [], [])
  {
    hide Drain, Expired;
  }

  // ---------------------------------------------------------------- turns

  /** Every call of the sender opens at least the separation time after the last reading of the
      call before; within a call readings may be as close as they like. */
  ghost predicate Spaced(cfgA: Config, cfgB: Config, d: Duo)
    requires InstOk(cfgA, d.a) && InstOk(cfgB, d.b)
  {
    forall j: nat :: OpensLate(cfgB, Turns(cfgA, cfgB, d, j).a.w)
  }

  ghost predicate OpensLate(cfgB: Config, w: World) {
    w.ticks > 0 ==> w.clock(w.ticks) >= w.clock(w.ticks - 1) + StminToUs(cfgB.rxStmin)
  }

  lemma SpacedOn(cfgA: Config, cfgB: Config, d: Duo)
    requires InstOk(cfgA, d.a) && InstOk(cfgB, d.b) && Spaced(cfgA, cfgB, d)
    ensures OpensLate(cfgB, d.a.w) && Spaced(cfgA, cfgB, Turn(cfgA, cfgB, d))
  {
    hide OpensLate, Turn, InstOk;
    assert Turns(cfgA, cfgB, d, 0) == d;
    forall j: nat
      ensures OpensLate(cfgB, Turns(cfgA, cfgB, Turn(cfgA, cfgB, d), j).a.w)
    {
      assert Turns(cfgA, cfgB, d, j + 1) == Turns(cfgA, cfgB, Turn(cfgA, cfgB, d), j);
    }
  }

  /** The sender is free to send once a call has opened. */
  lemma FreeToSend(cfgA: Config, cfgB: Config, hi: nat, d: Duo)
    requires Surroundings(cfgA, cfgB, hi, d) && Recent(d.a.tx, d.a.w, 4, hi)
    ensures var w := d.a.w;
            && Recent(d.a.tx, Read(w).1, 5, hi)
            && w.clock(w.ticks + 1) >= d.a.tx.last + StminToUs(cfgB.rxStmin)
  {
    hide InstOk, Facing, StminToUs;
    SpacedOn(cfgA, cfgB, d);
    hide Spaced;
    var w := d.a.w;
    assert w.clock(w.ticks - 1) <= w.clock(w.ticks) <= w.clock(w.ticks - 1) + hi;
  }

  /** Everything around the transfer of one message: two instances facing each other on an
      open link, the reverse direction quiet. */
  ghost predicate Surroundings(cfgA: Config, cfgB: Config, hi: nat, d: Duo) {
    && Facing(cfgA, cfgB, hi)
    && InstOk(cfgA, d.a) && InstOk(cfgB, d.b)
    && Open(d.a.w) && Open(d.b.w)
    && Steady(d.a.w.clock, 0, hi) && Steady(d.b.w.clock, 0, hi) && Spaced(cfgA, cfgB, d)
    && d.a.rx.state == RxIdle && d.b.tx.state == TxIdle
    && d.b.canQ == [] && d.b.sduQ == []
  }

  /** Between turns: s waits in the send queue, or its head frame was refused and is held. */
  ghost predicate Waiting(cfgB: Config, d: Duo, s: Sdu) {
    && Acceptable(cfgB, s) && d.a.canQ == [] && d.b.rx.state == RxIdle
    && (|| (d.a.tx.state == TxIdle && d.a.sduQ != [] && d.a.sduQ[0] == s)
       || (d.a.tx.state == TxWaitLink && d.a.tx.sdu == Some(s) && d.a.tx.sent == 0
           && !Expired(d.a.w.clock(d.a.w.ticks), d.a.tx.deadline)))
  }

  /** Between turns: the message is under way, in one of the ways the two machines can hold
      it - within a block, at its end with the permission arrived, or (after a refusal) with
      a consecutive frame or the permission held back. */
  datatype Stage = InBlock | AtPermission | FrameHeld | PermissionHeld

  ghost predicate UnderWay(cfgB: Config, hi: nat, d: Duo, s: Sdu, stage: Stage) {
    var tx, rx := d.a.tx, d.b.rx;
    && Acceptable(cfgB, s)
    && Matched(tx, s, rx.(state := RxAssem)) && Recent(tx, d.a.w, 4, hi)
    && match stage
       case InBlock =>
         && tx.state == TxSend && rx.state == RxAssem && d.a.canQ == []
         && rx.blockLeft == tx.bs && tx.stmin == StminToUs(cfgB.rxStmin)
       case FrameHeld =>
         && tx.state == TxWaitLink && rx.state == RxAssem && d.a.canQ == []
         && rx.blockLeft == tx.bs && tx.stmin == StminToUs(cfgB.rxStmin)
         && !Expired(d.a.w.clock(d.a.w.ticks), tx.deadline)
       case AtPermission =>
         && tx.state == TxWaitFc && rx.state == RxAssem && d.a.canQ == [Cts(cfgB)]
         && rx.blockLeft == cfgB.rxBlockSize
       case PermissionHeld =>
         && tx.state == TxWaitFc && rx.state == RxFcWait && d.a.canQ == []
         && Recent(tx, d.a.w, 3, hi)
         && !Expired(d.a.w.clock(d.a.w.ticks), tx.deadline)
         && !Expired(d.b.w.clock(d.b.w.ticks), rx.deadline)
  }

  /** The message is delivered, once and byte for byte, and confirmed; both sides are idle. */
  ghost predicate Completed(cfgB: Config, d: Duo, r: Duo, s: Sdu) {
    && r.a.tx.state == TxIdle && r.b.rx.state == RxIdle && r.a.canQ == []
    && r.a.w.done == d.a.w.done + [(s, N_OK)]
    && r.b.w.up == d.b.w.up + [Received(cfgB, Physical, s.data)]
  }

  ghost predicate Unfinished(d: Duo, r: Duo) {
    r.a.w.done == d.a.w.done && r.b.w.up == d.b.w.up && r.a.sduQ == d.a.sduQ
  }

  /** Consecutive frames still owed after `sent` bytes. */
  ghost function Owed(cfg: Config, m: seq<byte>, sent: nat): nat
    requires sent <= |m|
    decreases |m| - sent
  {
    if sent == |m| then 0 else 1 + Owed(cfg, m, NextLoad(cfg, m, sent))
  }

  lemma {:induction false} OwedFalls(cfg: Config, m: seq<byte>, a: nat, b: nat)
    requires a <= b <= |m|
    ensures Owed(cfg, m, b) <= Owed(cfg, m, a)
    decreases |m| - a
  {
    if a < b {
      var next := NextLoad(cfg, m, a);
      if next <= b {
        OwedFalls(cfg, m, next, b);
      } else {
        OwedFalls(cfg, m, next, NextLoad(cfg, m, b));
      }
    }
  }

  lemma {:induction false} OwedIsCount(cfg: Config, id: nat, m: seq<byte>, sent: nat, sn: nat)
    requires sent <= |m|
    ensures |ConsecutiveFrames(cfg, id, m, sent, sn)| == Owed(cfg, m, sent)
    decreases |m| - sent
  {
    hide CfFrame;
    if sent < |m| {
      OwedIsCount(cfg, id, m, NextLoad(cfg, m, sent), (sn + 1) % 16);
    }
  }

  lemma ArmedHolds(cfgB: Config, hi: nat, rx: Rx, w: World)
    requires Armed(cfgB, rx, w) && Steady(w.clock, 0, hi) && hi < cfgB.nCr <= TWO_31
    ensures !Expired(w.clock(w.ticks), rx.deadline)
  {
    assert w.clock(w.ticks - 1) <= w.clock(w.ticks) <= w.clock(w.ticks - 1) + hi;
  }

  /** Where a turn ends, given what the sender's call put on the link. */
  lemma TurnLands(cfgA: Config, cfgB: Config, hi: nat, d: Duo, s: Sdu, tx0: Tx, w0: World, tx1: Tx, w1: World, q: seq<Sdu>, progress: bool)
    requires Surroundings(cfgA, cfgB, hi, d) && Acceptable(cfgB, s)
    requires w0.log == d.a.w.log && w0.done == d.a.w.done && w0.clock == d.a.w.clock
    requires Process(cfgA, d.a) == Inst(d.a.rx, tx1, w1, q, []) && TxOk(cfgA, tx1)
    requires Handed(cfgA, cfgB, s, hi, tx0, w0, tx1, w1, d.b.rx, d.b.tx, d.b.w, progress)
    ensures var r := Turn(cfgA, cfgB, d);
            && Surroundings(cfgA, cfgB, hi, r) && r.a.sduQ == q && r.a.tx == tx1
            && if tx1.sdu == None then Completed(cfgB, d, r, s)
               else
                 && r.a.w.done == d.a.w.done && r.b.w.up == d.b.w.up
                 && (UnderWay(cfgB, hi, r, s, InBlock) || UnderWay(cfgB, hi, r, s, AtPermission))
  {
    hide FcFrame, StminToUs, Process, Drain, Received, Expired, Facing, RxOk, TxOk, Spaced;
    SpacedOn(cfgA, cfgB, d);
    var (rx1, txB1, wB1) := Drained(cfgB, d.b.rx, d.b.tx, d.b.w, w0, w1);
    SameLog(cfgB, d.b.rx, d.b.tx, d.b.w, w0, d.a.w, w1);
    var fs := Frames(New(d.a.w, w1));
    assert [] + fs == fs;
    FacingTimes(cfgA, cfgB, hi);
    if rx1.state == RxAssem {
      ArmedHolds(cfgB, hi, rx1, wB1);
    }
    ReceiverCall(cfgB, d.b, fs);
    var b1 := Process(cfgB, d.b.(canQ := fs));
    var r := Turn(cfgA, cfgB, d);
    assert r.b == b1 && r.a == Inst(d.a.rx, tx1, w1, q, Frames(New(d.b.w, b1.w)));
    if wB1.log == d.b.w.log {
      assert New(d.b.w, b1.w) == [] && Frames([]) == [];
    } else {
      assert Frames(New(d.b.w, b1.w)) == [Cts(cfgB)];
    }
  }

  lemma FacingTimes(cfgA: Config, cfgB: Config, hi: nat)
    requires Facing(cfgA, cfgB, hi)
    ensures hi < cfgB.nCr <= TWO_31 && 8 * hi < TWO_31
  {}

  /** The head frame's turn. */
  lemma TurnFromWaiting(cfgA: Config, cfgB: Config, hi: nat, d: Duo, s: Sdu)
    requires Surroundings(cfgA, cfgB, hi, d) && Waiting(cfgB, d, s)
    ensures var r := Turn(cfgA, cfgB, d);
            && Surroundings(cfgA, cfgB, hi, r)
            && r.a.sduQ == (if d.a.tx.state == TxIdle then d.a.sduQ[1..] else d.a.sduQ)
            && if r.a.tx.sdu == None then Completed(cfgB, d, r, s)
               else
                 && r.a.w.done == d.a.w.done && r.b.w.up == d.b.w.up
                 && HeadLoad(cfgA, s.data) <= r.a.tx.sent
                 && (UnderWay(cfgB, hi, r, s, InBlock) || UnderWay(cfgB, hi, r, s, AtPermission))
  {
    hide Process, Turn, OfferHead, Handed, HeadLoad, Expired, UnderWay, StminToUs, Open, Spaced;
    SenderCall(cfgA, d.a);
    var w0 := Read(d.a.w).1;
    var tx0 := if d.a.tx.state == TxIdle then Pulled(cfgA, d.a.tx, s) else d.a.tx;
    StillOpen(d.a.w, w0);
    HeadHandsOver(cfgA, cfgB, s, hi, tx0, w0, d.b.rx, d.b.tx, d.b.w);
    var (tx1, w1, _) := OfferHead(cfgA, tx0, w0);
    TurnLands(cfgA, cfgB, hi, d, s, tx0, w0, tx1, w1, if d.a.tx.state == TxIdle then d.a.sduQ[1..] else d.a.sduQ, false);
  }

  lemma StillOpen(w: World, w1: World)
    requires Open(w) && w1.grant == w.grant && w.offers <= w1.offers
    ensures Open(w1)
  {}

  /** A turn in the middle of a message: at least one more consecutive frame arrives. */
  ghost predicate Moved(cfgA: Config, cfgB: Config, hi: nat, d: Duo, r: Duo, s: Sdu) {
    && Surroundings(cfgA, cfgB, hi, r) && r.a.sduQ == d.a.sduQ
    && d.a.tx.sent <= |s.data|
    && if r.a.tx.sdu == None then Completed(cfgB, d, r, s)
       else
         && Unfinished(d, r)
         && NextLoad(cfgA, s.data, d.a.tx.sent) <= r.a.tx.sent
         && (UnderWay(cfgB, hi, r, s, InBlock) || UnderWay(cfgB, hi, r, s, AtPermission))
  }

  lemma TurnInBlock(cfgA: Config, cfgB: Config, hi: nat, d: Duo, s: Sdu)
    requires Surroundings(cfgA, cfgB, hi, d) && UnderWay(cfgB, hi, d, s, InBlock)
    ensures Moved(cfgA, cfgB, hi, d, Turn(cfgA, cfgB, d), s)
  {
    hide Process, Turn, Sending, Handed, Expired, StminToUs, NextLoad, Spaced;
    SenderCall(cfgA, d.a);
    var w0 := Read(d.a.w).1;
    FreeToSend(cfgA, cfgB, hi, d);
    SendingHandsOver(cfgA, cfgB, s, hi, d.a.tx, w0, Budget(cfgA), d.b.rx, d.b.tx, d.b.w);
    var (tx1, w1, _) := Sending(cfgA, d.a.tx, w0, 0, Budget(cfgA));
    HandedFar(cfgA, cfgB, s, hi, d.a.tx, w0, tx1, w1, d.b.rx, d.b.tx, d.b.w);
    TurnLands(cfgA, cfgB, hi, d, s, d.a.tx, w0, tx1, w1, d.a.sduQ, true);
  }

  lemma HandedFar(cfgA: Config, cfgB: Config, s: Sdu, hi: nat, tx: Tx, w: World, tx1: Tx, w1: World, rx: Rx, txB: Tx, wB: World)
    requires RxOk(rx) && TxOk(cfgB, txB)
    requires Handed(cfgA, cfgB, s, hi, tx, w, tx1, w1, rx, txB, wB, true)
    ensures tx.sent <= |s.data| && (tx1.sdu.Some? ==> NextLoad(cfgA, s.data, tx.sent) <= tx1.sent)
  {}

  lemma TurnFrameHeld(cfgA: Config, cfgB: Config, hi: nat, d: Duo, s: Sdu)
    requires Surroundings(cfgA, cfgB, hi, d) && UnderWay(cfgB, hi, d, s, FrameHeld)
    ensures Moved(cfgA, cfgB, hi, d, Turn(cfgA, cfgB, d), s)
  {
    hide Process, Turn, RetryCf, Handed, Expired, StminToUs, NextLoad, Spaced;
    SenderCall(cfgA, d.a);
    var w0 := Read(d.a.w).1;
    RetryHandsOver(cfgA, cfgB, s, hi, d.a.tx, w0, Budget(cfgA), d.b.rx, d.b.tx, d.b.w);
    var (tx1, w1, _) := RetryCf(cfgA, d.a.tx, w0, Budget(cfgA));
    HandedFar(cfgA, cfgB, s, hi, d.a.tx, w0, tx1, w1, d.b.rx, d.b.tx, d.b.w);
    TurnLands(cfgA, cfgB, hi, d, s, d.a.tx, w0, tx1, w1, d.a.sduQ, true);
  }

  lemma TurnAtPermission(cfgA: Config, cfgB: Config, hi: nat, d: Duo, s: Sdu)
    requires Surroundings(cfgA, cfgB, hi, d) && UnderWay(cfgB, hi, d, s, AtPermission)
    ensures Moved(cfgA, cfgB, hi, d, Turn(cfgA, cfgB, d), s)
  {
    hide Process, Turn, Sending, Handed, Expired, StminToUs, NextLoad, FcFrame, Spaced;
    PermittedCall(cfgA, cfgB, d.a);
    var tx0 := d.a.tx.(wft := 0, bs := cfgB.rxBlockSize, stmin := StminToUs(cfgB.rxStmin), state := TxSend);
    var w0 := Read(d.a.w.(trace := d.a.w.trace + [PaceCts(cfgB.rxBlockSize, StminToUs(cfgB.rxStmin))])).1;
    FreeToSend(cfgA, cfgB, hi, d);
    SendingHandsOver(cfgA, cfgB, s, hi, tx0, w0, Budget(cfgA), d.b.rx, d.b.tx, d.b.w);
    var (tx1, w1, _) := Sending(cfgA, tx0, w0, 0, Budget(cfgA));
    HandedFar(cfgA, cfgB, s, hi, tx0, w0, tx1, w1, d.b.rx, d.b.tx, d.b.w);
    TurnLands(cfgA, cfgB, hi, d, s, tx0, w0, tx1, w1, d.a.sduQ, true);
  }

  /** A held permission costs a turn of its own and no progress. */
  lemma TurnPermissionHeld(cfgA: Config, cfgB: Config, hi: nat, d: Duo, s: Sdu)
    requires Surroundings(cfgA, cfgB, hi, d) && UnderWay(cfgB, hi, d, s, PermissionHeld)
    ensures var r := Turn(cfgA, cfgB, d);
            && Surroundings(cfgA, cfgB, hi, r) && UnderWay(cfgB, hi, r, s, AtPermission)
            && Unfinished(d, r) && r.a.tx.sent == d.a.tx.sent
  {
    hide StminToUs, Expired, FcFrame, Facing, Spaced;
    SpacedOn(cfgA, cfgB, d);
    SenderCall(cfgA, d.a);
    var a1 := Process(cfgA, d.a);
    assert a1 == d.a.(w := Read(d.a.w).1);
    assert d.a.w.clock(d.a.w.ticks - 1) <= d.a.w.clock(d.a.w.ticks) <= d.a.w.clock(d.a.w.ticks - 1) + hi;
    assert New(d.a.w, a1.w) == [] && d.b.canQ + Frames([]) == [];
    ReissuedCts(cfgB, d.b);
    var b1 := Process(cfgB, d.b);
    assert Frames(New(d.b.w, b1.w)) == [Cts(cfgB)];
    assert d.b.(canQ := d.b.canQ + Frames(New(d.a.w, a1.w))) == d.b;
    hide Process;
    StillOpen(d.a.w, a1.w);
  }

  lemma ReissuedCts(cfgB: Config, b: Inst)
    requires InstOk(cfgB, b) && b.rx.state == RxFcWait && b.tx.state == TxIdle && b.sduQ == [] && b.canQ == []
    requires Open(b.w) && !Expired(b.w.clock(b.w.ticks), b.rx.deadline)
    ensures var b1 := Process(cfgB, b);
            && b1.rx.state == RxAssem && b1.rx.acc == b.rx.acc && b1.rx.total == b.rx.total && b1.rx.sn == b.rx.sn
            && b1.rx.blockLeft == cfgB.rxBlockSize
            && b1.tx == b.tx && b1.sduQ == [] && b1.canQ == [] && Open(b1.w) && b1.w.clock == b.w.clock
            && Permits(cfgB, b.w, b1.w) && b1.w.up == b.w.up
  {
    hide Expired, FcFrame;
    assert b.w.grant(b.w.offers);
  }

  // ---------------------------------------------------------------- bounded delivery

  lemma AnyTurn(cfgA: Config, cfgB: Config, hi: nat, d: Duo, s: Sdu, stage: Stage)
    requires Surroundings(cfgA, cfgB, hi, d) && UnderWay(cfgB, hi, d, s, stage) && stage != PermissionHeld
    ensures Moved(cfgA, cfgB, hi, d, Turn(cfgA, cfgB, d), s)
  {
    hide Surroundings, UnderWay, Moved, Turn;
    match stage
    case InBlock => TurnInBlock(cfgA, cfgB, hi, d, s);
    case FrameHeld => TurnFrameHeld(cfgA, cfgB, hi, d, s);
    case AtPermission => TurnAtPermission(cfgA, cfgB, hi, d, s);
  }

  /** From any point of a transfer - inside a block, between blocks, or with a frame or a
      permission held back by a refusal - the message completes within as many turns as
      consecutive frames are owed, one more when it is the permission that was held. */
  lemma {:induction false} TransferCompletes(cfgA: Config, cfgB: Config, hi: nat, d: Duo, s: Sdu, stage: Stage) returns (k: nat)
    requires Surroundings(cfgA, cfgB, hi, d) && UnderWay(cfgB, hi, d, s, stage)
    ensures d.a.tx.sent <= |s.data|
    ensures k <= Owed(cfgA, s.data, d.a.tx.sent) + if stage == PermissionHeld then 1 else 0
    ensures var r := Turns(cfgA, cfgB, d, k);
            Surroundings(cfgA, cfgB, hi, r) && Completed(cfgB, d, r, s) && r.a.sduQ == d.a.sduQ
    decreases |s.data| - d.a.tx.sent, stage == PermissionHeld
  {
    hide Surroundings, Turn, Process, StminToUs, Expired, Received, FcFrame, InstOk;
    assert InstOk(cfgA, d.a) && InstOk(cfgB, d.b) by { SurroundedOk(cfgA, cfgB, hi, d); }
    var r := Turn(cfgA, cfgB, d);
    if stage == PermissionHeld {
      TurnPermissionHeld(cfgA, cfgB, hi, d, s);
      k := TransferCompletes(cfgA, cfgB, hi, r, s, AtPermission);
      k := k + 1;
    } else {
      AnyTurn(cfgA, cfgB, hi, d, s, stage);
      if r.a.tx.sdu == None {
        k := 1;
        assert Turns(cfgA, cfgB, r, 0) == r;
      } else {
        k := TransferCompletes(cfgA, cfgB, hi, r, s, if r.a.tx.state == TxSend then InBlock else AtPermission);
        OwedFalls(cfgA, s.data, NextLoad(cfgA, s.data, d.a.tx.sent), r.a.tx.sent);
        k := k + 1;
      }
    }
  }

  lemma SurroundedOk(cfgA: Config, cfgB: Config, hi: nat, d: Duo)
    requires Surroundings(cfgA, cfgB, hi, d)
    ensures InstOk(cfgA, d.a) && InstOk(cfgB, d.b)
  {}

  /** A message at the front of the send queue, or held at its head frame, completes within
      as many turns as it has frames. */
  lemma MessageCompletes(cfgA: Config, cfgB: Config, hi: nat, d: Duo, s: Sdu) returns (k: nat)
    requires Surroundings(cfgA, cfgB, hi, d) && Waiting(cfgB, d, s)
    ensures 1 <= k <= |Segment(cfgA, TxId(cfgA, s), s.data)|
    ensures var r := Turns(cfgA, cfgB, d, k);
            && Surroundings(cfgA, cfgB, hi, r) && Completed(cfgB, d, r, s)
            && r.a.sduQ == (if d.a.tx.state == TxIdle then d.a.sduQ[1..] else d.a.sduQ)
  {
    hide Surroundings, Turn, Process, StminToUs, Expired, Received, FcFrame, InstOk, HeadLoad, CfFrame, HeadFrame;
    assert InstOk(cfgA, d.a) && InstOk(cfgB, d.b) by { SurroundedOk(cfgA, cfgB, hi, d); }
    TurnFromWaiting(cfgA, cfgB, hi, d, s);
    var r := Turn(cfgA, cfgB, d);
    OwedIsCount(cfgA, TxId(cfgA, s), s.data, HeadLoad(cfgA, s.data), 1);
    if r.a.tx.sdu == None {
      k := 1;
      assert Turns(cfgA, cfgB, r, 0) == r;
    } else {
      k := TransferCompletes(cfgA, cfgB, hi, r, s, if r.a.tx.state == TxSend then InBlock else AtPermission);
      OwedFalls(cfgA, s.data, HeadLoad(cfgA, s.data), r.a.tx.sent);
      k := k + 1;
    }
  }

  ghost function TotalFrames(cfg: Config, q: seq<Sdu>): nat {
    if q == [] then 0 else |Segment(cfg, TxId(cfg, q[0]), q[0].data)| + TotalFrames(cfg, q[1..])
  }

  ghost function AllReceived(cfgB: Config, q: seq<Sdu>): seq<Sdu> {
    if q == [] then [] else [Received(cfgB, Physical, q[0].data)] + AllReceived(cfgB, q[1..])
  }

  lemma {:induction false} TurnsAdd(cfgA: Config, cfgB: Config, d: Duo, j: nat, k: nat)
    requires InstOk(cfgA, d.a) && InstOk(cfgB, d.b)
    ensures Turns(cfgA, cfgB, Turns(cfgA, cfgB, d, j), k) == Turns(cfgA, cfgB, d, j + k)
    decreases j
  {
    hide Turn, Process, InstOk;
    if j > 0 {
      TurnsAdd(cfgA, cfgB, Turn(cfgA, cfgB, d), j - 1, k);
    }
  }

  /** A whole queue of messages is delivered, in order, byte for byte and once each, within
      as many turns as the messages have frames. */
  lemma {:induction false} QueueCompletes(cfgA: Config, cfgB: Config, hi: nat, d: Duo) returns (k: nat)
    requires Surroundings(cfgA, cfgB, hi, d)
    requires d.a.tx.state == TxIdle && d.b.rx.state == RxIdle && d.a.canQ == []
    requires forall s :: s in d.a.sduQ ==> Acceptable(cfgB, s)
    ensures k <= TotalFrames(cfgA, d.a.sduQ)
    ensures var r := Turns(cfgA, cfgB, d, k);
            && r.a.sduQ == [] && r.a.tx.state == TxIdle && r.b.rx.state == RxIdle
            && r.b.w.up == d.b.w.up + AllReceived(cfgB, d.a.sduQ)
    decreases |d.a.sduQ|
  {
    hide Surroundings, Turn, Process, Expired, Received, InstOk, Segment, Acceptable;
    assert InstOk(cfgA, d.a) && InstOk(cfgB, d.b) by { SurroundedOk(cfgA, cfgB, hi, d); }
    if d.a.sduQ == [] {
      k := 0;
    } else {
      var s := d.a.sduQ[0];
      var j := MessageCompletes(cfgA, cfgB, hi, d, s);
      var r := Turns(cfgA, cfgB, d, j);
      var i := QueueCompletes(cfgA, cfgB, hi, r);
      TurnsAdd(cfgA, cfgB, d, j, i);
      k := j + i;
    }
  }
}
