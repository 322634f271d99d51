/** Pacing of the transmit side over whole runs, in true time: blocks never overrun,
    consecutive frames keep the separation the peer asked for although the code only sees
    a 32-bit clock, waits are tolerated only so often, and no call exceeds its budget. */
module IsoTpPacing {
  import opened Options
  import opened Words
  import opened CanBus
  import opened IsoTpTypes
  import opened IsoTpCodec
  import opened IsoTpMachine
  import opened IsoTpSender

  /** What has happened since the last accepted permission (None before the first one). */
  datatype Window = Window(cts: Option<(nat, nat)>, cfs: nat, waits: nat, last: nat)

  ghost function Since(trace: seq<Pace>): Window {
    if trace == [] then Window(None, 0, 0, 0)
    else
      var win := Since(trace[..|trace| - 1]);
      match trace[|trace| - 1]
      case PaceHead(at) => Window(None, 0, 0, at)
      case PaceCts(bs, stmin) => Window(Some((bs, stmin)), 0, 0, win.last)
      case PaceWait => win.(waits := win.waits + 1)
      case PaceCf(at) => win.(cfs := win.cfs + 1, last := at)
  }

  /** A consecutive frame needs a permission whose block is not used up, and must be at
      least the permitted separation after the frame before it; a wait must be within the
      tolerated number. (An 8-bit counter cannot exceed 255, so that setting tolerates all.) */
  ghost predicate Legal(cfg: Config, win: Window, p: Pace) {
    match p
    case PaceHead(_) => true
    case PaceCts(_, _) => true
    case PaceWait => cfg.nWftMax <= 254 ==> win.waits < cfg.nWftMax
    case PaceCf(at) =>
      && win.cts.Some?
      && (win.cts.value.0 > 0 ==> win.cfs < win.cts.value.0)
      && at >= win.last + win.cts.value.1
  }

  ghost predicate Paced(cfg: Config, trace: seq<Pace>) {
    trace == [] ||
    (Paced(cfg, trace[..|trace| - 1]) && Legal(cfg, Since(trace[..|trace| - 1]), trace[|trace| - 1]))
  }

  ghost predicate Monotone(clock: nat -> nat) {
    forall i, j :: i <= j ==> clock(i) <= clock(j)
  }

  /** Block left and separation, as the window implies them. */
  ghost predicate Permitted(bs: nat, stmin: nat, win: Window) {
    && win.cts.Some? && stmin == win.cts.value.1
    && (if win.cts.value.0 == 0 then bs == 0
        else bs > 0 && bs + win.cfs == win.cts.value.0)
  }

  /** The block after one more frame; 0 stands for no limit. */
  function BlockAfter(bs: nat): nat {
    if bs > 0 then bs - 1 else 0
  }

  /** How the fields of the transmit state encode the window. */
  ghost predicate PaceInv(cfg: Config, tx: Tx, w: World) {
    && Monotone(w.clock)
    && Paced(cfg, w.trace)
    && (tx.sdu.Some? && tx.sent == 0 ==> tx.wft == 0)
    && (tx.sdu.Some? && tx.sent > 0 ==>
          var win := Since(w.trace);
          && win.last == tx.last && w.ticks > 0 && tx.last <= w.clock(w.ticks - 1)
          && (cfg.nWftMax <= 254 ==> win.waits == tx.wft <= cfg.nWftMax)
          && (tx.state in {TxSend, TxWaitLink} ==> Permitted(tx.bs, tx.stmin, win))
          && (tx.state == TxWaitLink ==> w.clock(w.ticks - 1) >= tx.last + tx.stmin))
  }

  lemma TraceGrows(cfg: Config, trace: seq<Pace>, p: Pace)
    requires Paced(cfg, trace) && Legal(cfg, Since(trace), p)
    ensures Paced(cfg, trace + [p])
  {}

  lemma WindowGrows(trace: seq<Pace>, p: Pace)
    ensures Since(trace + [p]) ==
      match p
      case PaceHead(at) => Window(None, 0, 0, at)
      case PaceCts(bs, stmin) => Window(Some((bs, stmin)), 0, 0, Since(trace).last)
      case PaceWait => Since(trace).(waits := Since(trace).waits + 1)
      case PaceCf(at) => Since(trace).(cfs := Since(trace).cfs + 1, last := at)
  {}

  /** Time passing breaks nothing. */
  lemma Later(cfg: Config, tx: Tx, w: World, w1: World)
    requires PaceInv(cfg, tx, w)
    requires w1.clock == w.clock && w1.trace == w.trace && w.ticks <= w1.ticks
    ensures PaceInv(cfg, tx, w1)
  {}

  lemma EndPaced(cfg: Config, tx: Tx, w: World, result: Outcome)
    requires Monotone(w.clock) && Paced(cfg, w.trace)
    ensures var (tx1, w1) := TxEnd(cfg, tx, w, result); PaceInv(cfg, tx1, w1)
  {}

  lemma HoldPaced(cfg: Config, tx: Tx, w: World)
    requires PaceInv(cfg, tx, w) && TxOk(cfg, tx)
    requires tx.state == TxSend ==> w.ticks > 0 && w.clock(w.ticks - 1) >= tx.last + tx.stmin
    requires tx.state == TxSend || tx.sent == 0
    ensures var (tx1, w1) := TxHold(cfg, tx, w); PaceInv(cfg, tx1, w1)
  {}

  /** The frame just taken was within its permission, and the state remembers what is left. */
  lemma CfPaced(cfg: Config, tx: Tx, w: World, at: nat)
    requires Monotone(w.clock) && Paced(cfg, w.trace)
    requires Permitted(tx.bs, tx.stmin, Since(w.trace)) && Since(w.trace).last == tx.last
    requires at >= tx.last + tx.stmin
    ensures var trace := w.trace + [PaceCf(at)];
            && Paced(cfg, trace) && Since(trace).last == at
            && (tx.bs != 1 ==> Permitted(BlockAfter(tx.bs), tx.stmin, Since(trace)))
            && Since(trace).waits == Since(w.trace).waits
  {}

  // ---------------------------------------------------------------- the data frames of a call

  ghost function DataCount(log: seq<Sent>): nat {
    if log == [] then 0
    else DataCount(log[..|log| - 1]) + if log[|log| - 1].tag.Data? then 1 else 0
  }

  ghost predicate IsCf(e: Sent) {
    e.tag.Data? && e.tag.from > 0
  }

  /** When the consecutive frames on the link were offered, and their stamps in the trace. */
  ghost function CfTimes(log: seq<Sent>): seq<nat> {
    if log == [] then []
    else CfTimes(log[..|log| - 1]) + if IsCf(log[|log| - 1]) then [log[|log| - 1].at] else []
  }

  ghost function CfStamps(trace: seq<Pace>): seq<nat> {
    if trace == [] then []
    else CfStamps(trace[..|trace| - 1]) + if trace[|trace| - 1].PaceCf? then [trace[|trace| - 1].at] else []
  }

  /** A reading next to the moment: the last one before it, or the first one after. */
  ghost predicate Nearest(clock: nat -> nat, moment: nat, stamp: nat) {
    (moment > 0 && stamp == clock(moment - 1)) || stamp == clock(moment)
  }

  /** The n-th stamp is a reading next to the moment the n-th consecutive frame was offered. */
  ghost predicate StampsFit(w: World) {
    var times, stamps := CfTimes(w.log), CfStamps(w.trace);
    && |times| == |stamps|
    && forall n :: 0 <= n < |times| ==> Nearest(w.clock, times[n], stamps[n])
  }

  lemma OneMoreData(log: seq<Sent>, e: Sent)
    ensures DataCount(log + [e]) == DataCount(log) + if e.tag.Data? then 1 else 0
    ensures CfTimes(log + [e]) == CfTimes(log) + if IsCf(e) then [e.at] else []
  {}

  lemma OneMoreStamp(trace: seq<Pace>, p: Pace)
    ensures CfStamps(trace + [p]) == CfStamps(trace) + if p.PaceCf? then [p.at] else []
  {}

  /** One more frame, one more stamp. */
  lemma StampFits(w: World, w2: World, stamp: nat)
    requires w2.clock == w.clock && w2.trace == w.trace + [PaceCf(stamp)]
    requires CfTimes(w2.log) == CfTimes(w.log) + [w.ticks] && Nearest(w.clock, w.ticks, stamp)
    ensures StampsFit(w) ==> StampsFit(w2)
  {
    hide CfTimes, CfStamps, Nearest;
    OneMoreStamp(w.trace, PaceCf(stamp));
  }

  lemma NoMoreCfs(w: World, w1: World)
    requires w1.clock == w.clock && CfTimes(w1.log) == CfTimes(w.log) && CfStamps(w1.trace) == CfStamps(w.trace)
    ensures StampsFit(w1) == StampsFit(w)
  {}

  /** A step of the transmit side that keeps the pace, logged k data frames, and stamped each
      consecutive frame it logged. */
  ghost predicate Pacing(cfg: Config, w: World, tx1: Tx, w1: World, k: int) {
    && PaceInv(cfg, tx1, w1) && w1.clock == w.clock && w.ticks <= w1.ticks
    && DataCount(w1.log) == DataCount(w.log) + k
    && (StampsFit(w) ==> StampsFit(w1))
  }

  lemma OfferHeadPaced(cfg: Config, tx: Tx, w: World)
    requires PaceInv(cfg, tx, w)
    requires tx.sdu.Some? && tx.sent == 0 && tx.sn == 1 && tx.bs < 256 && tx.wft < 256
    requires tx.id == TxId(cfg, tx.sdu.value) && tx.state in {TxIdle, TxWaitLink}
    ensures var (tx1, w1, k) := OfferHead(cfg, tx, w); Pacing(cfg, w, tx1, w1, k)
  {
    hide HeadFrame, Paced, Since, DataCount, CfTimes, CfStamps, StampsFit;
    var m := tx.sdu.value.data;
    var tag := Data(|w.done|, 0, HeadLoad(cfg, m), 0);
    OneMoreData(w.log, Sent(HeadFrame(cfg, tx.id, m), tag, w.ticks));
    var (ok, w1) := Offer(w, HeadFrame(cfg, tx.id, m), tag);
    var (_, w2, _) := OfferHead(cfg, tx, w);
    if !ok {
      HeldHead(cfg, tx, w1);
    } else if IsSingle(cfg, m) {
      EndPaced(cfg, tx, w1, N_OK);
    } else {
      var (t, _) := Read(w1);
      TraceGrows(cfg, w.trace, PaceHead(t));
      OneMoreStamp(w.trace, PaceHead(t));
      WindowGrows(w.trace, PaceHead(t));
    }
    NoMoreCfs(w, w2);
  }

  lemma HeldHead(cfg: Config, tx: Tx, w: World)
    requires PaceInv(cfg, tx, w) && tx.sdu.Some? && tx.sent == 0
    ensures var (tx1, w1) := TxHold(cfg, tx, w); PaceInv(cfg, tx1, w1)
  {}

  /** The state after a consecutive frame stamped `at`, within the block or at its end. */
  lemma CfStepPaced(cfg: Config, tx: Tx, w: World, at: nat, i: nat, tx2: Tx, w2: World)
    requires PaceInv(cfg, tx, w) && tx.sdu.Some? && tx.sent > 0 && tx.state in {TxSend, TxWaitLink}
    requires at == w.clock(i) && i < w2.ticks && at >= tx.last + tx.stmin
    requires w2.clock == w.clock && w2.trace == w.trace + [PaceCf(at)]
    requires tx2.last == at && tx2.stmin == tx.stmin && tx2.wft == tx.wft && tx2.sent > 0
    requires || (tx2.state == TxSend && tx.bs != 1 && tx2.bs == BlockAfter(tx.bs))
             || tx2.state == TxWaitFc
    ensures PaceInv(cfg, tx2, w2)
  {}

  lemma LastBehind(cfg: Config, tx: Tx, w: World)
    requires PaceInv(cfg, tx, w) && tx.sdu.Some? && tx.sent > 0
    ensures w.ticks > 0 && tx.last <= w.clock(w.ticks - 1)
  {}

  lemma {:induction false} SendLoopPaced(cfg: Config, tx: Tx, w: World, now: nat, emitted: nat, budget: nat)
    requires PaceInv(cfg, tx, w) && TxOk(cfg, tx) && tx.state == TxSend
    requires w.ticks > 0 && now == w.clock(w.ticks - 1)
    ensures var (tx1, w1, k) := SendLoop(cfg, tx, w, now, emitted, budget);
            Pacing(cfg, w, tx1, w1, k - emitted)
    decreases |tx.sdu.value.data| - tx.sent
  {
    hide PaceInv, HeadLoad, DataCount, CfTimes, StampsFit, Diff32, OfferCf;
    if !(emitted >= budget || (tx.stmin > 0 && Diff32(now, tx.last) < tx.stmin)) {
      LastBehind(cfg, tx, w);
      Diff32NeverOverstates(now, tx.last);
      var (ok, w1) := OfferCf(cfg, tx, w);
      CfCounted(cfg, tx, w);
      if !ok {
        LoopHeldPaced(cfg, tx, w);
      } else {
        var (now1, w2) := Read(w1.(trace := w1.trace + [PaceCf(now)]));
        StampFits(w, w2, now);
        var tx2 := Advanced(cfg, tx, now).(bs := BlockAfter(tx.bs));
        var tx3 := if tx.bs == 1 then tx2.(state := TxWaitFc, deadline := now1 + cfg.nBs) else tx2;
        CfStepPaced(cfg, tx, w, now, w.ticks - 1, tx3, w2);
        if AllSent(tx2) {
          AfterCfEnds(cfg, tx, w, now, tx2, w2);
        } else if tx.bs != 1 {
          SendLoopPaced(cfg, tx2, w2, now1, emitted + 1, budget);
        }
      }
    }
  }

  lemma LoopHeldPaced(cfg: Config, tx: Tx, w: World)
    requires PaceInv(cfg, tx, w) && TxOk(cfg, tx) && tx.state == TxSend && !OfferCf(cfg, tx, w).0
    requires w.ticks > 0 && w.clock(w.ticks - 1) >= tx.last + tx.stmin
    ensures var (tx1, w1) := TxHold(cfg, tx, OfferCf(cfg, tx, w).1); Pacing(cfg, w, tx1, w1, 0)
  {
    hide PaceInv, CfFrame, HeadLoad, DataCount, CfTimes, CfStamps;
    var w1 := OfferCf(cfg, tx, w).1;
    CfCounted(cfg, tx, w);
    Later(cfg, tx, w, w1);
    HoldPaced(cfg, tx, w1);
  }

  lemma CfCounted(cfg: Config, tx: Tx, w: World)
    requires TxOk(cfg, tx) && tx.sdu.Some? && tx.sent > 0
    ensures var (ok, w1) := OfferCf(cfg, tx, w);
            && DataCount(w1.log) == DataCount(w.log) + (if ok then 1 else 0)
            && CfTimes(w1.log) == CfTimes(w.log) + (if ok then [w.ticks] else [])
            && w1 == w.(offers := w1.offers, log := w1.log)
  {
    hide CfFrame, HeadLoad;
    OneMoreData(w.log, Sent(CfFrame(cfg, tx.id, tx.sdu.value.data, tx.sent, tx.sn),
                            Data(|w.done|, tx.sent, NextLoad(cfg, tx.sdu.value.data, tx.sent), tx.sn), w.ticks));
  }

  lemma AfterCfEnds(cfg: Config, tx: Tx, w: World, at: nat, tx2: Tx, w2: World)
    requires PaceInv(cfg, tx, w) && tx.sdu.Some? && tx.sent > 0 && tx.state in {TxSend, TxWaitLink}
    requires at >= tx.last + tx.stmin && w2.clock == w.clock && w2.trace == w.trace + [PaceCf(at)]
    ensures var (tx3, w3) := TxEnd(cfg, tx2, w2, N_OK); PaceInv(cfg, tx3, w3) && StampsFit(w3) == StampsFit(w2)
  {
    hide Paced, Since, CfTimes, CfStamps, Nearest;
    CfPaced(cfg, tx, w, at);
    EndPaced(cfg, tx2, w2, N_OK);
  }

  lemma SendingPaced(cfg: Config, tx: Tx, w: World, emitted: nat, budget: nat)
    requires PaceInv(cfg, tx, w) && TxOk(cfg, tx)
    ensures var (tx1, w1, k) := Sending(cfg, tx, w, emitted, budget);
            Pacing(cfg, w, tx1, w1, k - emitted)
  {
    hide PaceInv, DataCount, CfTimes, CfStamps;
    if tx.state == TxSend {
      var (now, w1) := Read(w);
      Later(cfg, tx, w, w1);
      SendLoopPaced(cfg, tx, w1, now, emitted, budget);
    }
  }

  lemma RetryCfPaced(cfg: Config, tx: Tx, w: World, budget: nat)
    requires PaceInv(cfg, tx, w) && TxOk(cfg, tx) && tx.state == TxWaitLink && tx.sent > 0
    ensures var (tx1, w1, k) := RetryCf(cfg, tx, w, budget); Pacing(cfg, w, tx1, w1, k)
  {
    hide CfFrame, HeadLoad, Paced, Since, Permitted, DataCount, CfTimes, StampsFit, Sending;
    CfCounted(cfg, tx, w);
    var (ok, w1) := OfferCf(cfg, tx, w);
    if !ok {
      NoMoreCfs(w, w1);
    } else {
      var (t, w2) := Read(w1);
      assert w.clock(w.ticks - 1) <= w.clock(w.ticks);
      var w3 := w2.(trace := w2.trace + [PaceCf(t)]);
      StampFits(w, w3, t);
      var tx1 := Advanced(cfg, tx, t).(state := TxSend);
      var tx2 := if tx.bs == 1 then tx1.(bs := 0, state := TxWaitFc, deadline := t + cfg.nBs)
                 else tx1.(bs := BlockAfter(tx.bs));
      CfStepPaced(cfg, tx, w, t, w.ticks, tx2, w3);
      hide PaceInv;
      if AllSent(tx1) {
        AfterCfEnds(cfg, tx, w, t, tx1, w3);
      } else if tx.bs != 1 {
        SendingPaced(cfg, tx2, w3, 1, budget);
      }
    }
  }

  lemma RequestTxPaced(cfg: Config, tx: Tx, w: World, q: seq<Sdu>, budget: nat)
    requires PaceInv(cfg, tx, w) && TxOk(cfg, tx)
    ensures var (tx1, w1, _, k) := RequestTx(cfg, tx, w, q, budget); Pacing(cfg, w, tx1, w1, k)
  {
    hide OfferHead, RetryCf, Sending, DataCount, CfTimes, CfStamps, Paced, Since;
    if tx.state == TxIdle {
      if q != [] {
        OfferHeadPaced(cfg, Pulled(cfg, tx, q[0]), w);
      }
    } else if tx.state == TxWaitLink {
      if tx.sent == 0 {
        OfferHeadPaced(cfg, tx, w);
      } else {
        RetryCfPaced(cfg, tx, w, budget);
      }
    } else {
      SendingPaced(cfg, tx, w, 0, budget);
    }
  }

  // ---------------------------------------------------------------- whole calls

  lemma ApplyFcPaced(cfg: Config, tx: Tx, w: World, d: seq<byte>)
    requires PaceInv(cfg, tx, w) && TxOk(cfg, tx)
    ensures var (tx1, w1) := ApplyFc(cfg, tx, w, d); Pacing(cfg, w, tx1, w1, 0)
  {
    hide PaceInv, DataCount, CfTimes, CfStamps, HeadLoad;
    var (tx1, w1) := ApplyFc(cfg, tx, w, d);
    if tx.state == TxWaitFc && |d| >= 3 {
      if tx1.sdu == None {
        RunEnds(cfg, tx, w, if d[0] % 16 == FS_OVFLW then N_BUFFER_OVFLW
                            else if d[0] % 16 == FS_WAIT then N_WFT_OVRN else N_INVALID_FS);
      } else if d[0] % 16 == FS_WAIT {
        OneMoreStamp(w.trace, PaceWait);
        WaitPaced(cfg, tx, w);
      } else {
        OneMoreStamp(w.trace, PaceCts(d[1], StminToUs(d[2])));
        CtsPaced(cfg, tx, w, d[1], StminToUs(d[2]));
      }
    }
  }

  lemma RunEnds(cfg: Config, tx: Tx, w: World, result: Outcome)
    requires PaceInv(cfg, tx, w)
    ensures var (tx1, w1) := TxEnd(cfg, tx, w, result); PaceInv(cfg, tx1, w1)
  {}

  lemma WaitPaced(cfg: Config, tx: Tx, w: World)
    requires PaceInv(cfg, tx, w) && tx.state == TxWaitFc && tx.sent > 0 && tx.sdu.Some? && tx.wft < 256
    requires (tx.wft + 1) % 256 <= cfg.nWftMax
    ensures PaceInv(cfg, tx.(wft := (tx.wft + 1) % 256, deadline := w.clock(w.ticks) + cfg.nBs),
                    w.(ticks := w.ticks + 1, trace := w.trace + [PaceWait]))
  {}

  lemma CtsPaced(cfg: Config, tx: Tx, w: World, bs: nat, stmin: nat)
    requires PaceInv(cfg, tx, w) && tx.state == TxWaitFc && tx.sent > 0 && tx.sdu.Some?
    ensures PaceInv(cfg, tx.(wft := 0, bs := bs, stmin := stmin, state := TxSend),
                    w.(trace := w.trace + [PaceCts(bs, stmin)]))
  {}

  lemma {:induction false} ControlIsNoData(log: seq<Sent>, log1: seq<Sent>)
    requires log <= log1
    requires forall i :: |log| <= i < |log1| ==> log1[i].tag.Control?
    ensures DataCount(log1) == DataCount(log) && CfTimes(log1) == CfTimes(log)
    decreases |log1|
  {
    if |log1| == |log| {
      assert log1 == log;
    } else {
      ControlIsNoData(log, log1[..|log1| - 1]);
    }
  }

  lemma ControlPaced(cfg: Config, tx: Tx, w: World, w1: World)
    requires PaceInv(cfg, tx, w) && OnlyControl(w, w1)
    ensures Pacing(cfg, w, tx, w1, 0)
  {
    Later(cfg, tx, w, w1);
    ControlIsNoData(w.log, w1.log);
    hide PaceInv, DataCount, CfTimes, CfStamps;
  }

  lemma IntakePaced(cfg: Config, rx: Rx, tx: Tx, w: World, f: Frame)
    requires PaceInv(cfg, tx, w) && TxOk(cfg, tx) && RxOk(rx)
    ensures var (_, tx1, w1) := Intake(cfg, rx, tx, w, f); Pacing(cfg, w, tx1, w1, 0)
  {
    hide PaceInv, RxSingle, RxFrame, ApplyFc;
    var d := f.data;
    if |d| > 0 {
      ApplyFcPaced(cfg, tx, w, d);
      RxFrameControl(cfg, rx, w, d);
      ControlPaced(cfg, tx, w, RxFrame(cfg, rx, w, d).1);
      RxSingleControl(cfg, w, Functional, d);
      ControlPaced(cfg, tx, w, RxSingle(cfg, w, Functional, d));
    }
  }

  lemma {:induction false} DrainPaced(cfg: Config, rx: Rx, tx: Tx, w: World, fs: seq<Frame>)
    requires PaceInv(cfg, tx, w) && TxOk(cfg, tx) && RxOk(rx)
    ensures var (_, tx1, w1) := Drain(cfg, rx, tx, w, fs); Pacing(cfg, w, tx1, w1, 0)
    decreases |fs|
  {
    hide PaceInv, Intake, DataCount, CfTimes, CfStamps;
    if fs != [] {
      IntakePaced(cfg, rx, tx, w, fs[0]);
      var (rx1, tx1, w1) := Intake(cfg, rx, tx, w, fs[0]);
      DrainPaced(cfg, rx1, tx1, w1, fs[1..]);
    }
  }

  /** One call of process keeps the pace and puts at most its budget of data frames on the link. */
  lemma ProcessPaced(cfg: Config, s: Inst)
    requires InstOk(cfg, s) && PaceInv(cfg, s.tx, s.w)
    ensures var s1 := Process(cfg, s);
            && PaceInv(cfg, s1.tx, s1.w)
            && DataCount(s.w.log) <= DataCount(s1.w.log) <= DataCount(s.w.log) + Budget(cfg)
            && (StampsFit(s.w) ==> StampsFit(s1.w))
  {
    hide PaceInv, Drain, RxGuards, TxGuards, RequestTx, DataCount, CfTimes, CfStamps;
    DrainPaced(cfg, s.rx, s.tx, s.w, s.canQ);
    var (rx1, tx1, w1) := Drain(cfg, s.rx, s.tx, s.w, s.canQ);
    var (now, w2) := Read(w1);
    Later(cfg, tx1, w1, w2);
    RxGuardsControl(cfg, rx1, w2, now);
    var (rx2, w3) := RxGuards(cfg, rx1, w2, now);
    ControlPaced(cfg, tx1, w2, w3);
    TxGuardsPaced(cfg, tx1, w3, now);
    var (tx2, w4) := TxGuards(cfg, tx1, w3, now);
    RequestTxPaced(cfg, tx2, w4, s.sduQ, Budget(cfg));
  }

  lemma TxGuardsPaced(cfg: Config, tx: Tx, w: World, now: nat)
    requires PaceInv(cfg, tx, w) && TxOk(cfg, tx)
    ensures var (tx1, w1) := TxGuards(cfg, tx, w, now); Pacing(cfg, w, tx1, w1, 0)
  {
    hide Paced, Since, DataCount, CfTimes, CfStamps, Expired;
    EndPaced(cfg, tx, w, N_TIMEOUT_BS);
    EndPaced(cfg, tx, w, N_TIMEOUT_A);
  }

  /** Over every run on a clock that never goes back: between two accepted permissions at
      most the permitted block of consecutive frames goes out, each at least the permitted
      separation (in true time) after the frame before it; at most n_wft_max waits are
      tolerated between two permissions, for any n_wft_max up to 254; and no call of process
      puts more than its budget of data frames on the link. The stamps are true: the n-th of
      them is the clock reading next to the moment the n-th consecutive frame was offered. */
  lemma {:induction false} RunsArePaced(cfg: Config, clock: nat -> nat, grant: nat -> bool, es: seq<Event>)
    requires Monotone(clock)
    ensures var s := Run(cfg, Start(clock, grant), es);
            && PaceInv(cfg, s.tx, s.w)
            && Paced(cfg, s.w.trace)
            && DataCount(s.w.log) <= DataCount(Process(cfg, s).w.log) <= DataCount(s.w.log) + Budget(cfg)
            && StampsFit(s.w)
    decreases |es|
  {
    hide Process, Paced, Since, DataCount, CfTimes, CfStamps;
    var s0 := Start(clock, grant);
    if es == [] {
      NothingPaced(cfg);
    } else {
      var k := |es| - 1;
      RunsArePaced(cfg, clock, grant, es[..k]);
      ProcessPaced(cfg, Run(cfg, s0, es[..k]));
    }
    ProcessPaced(cfg, Run(cfg, s0, es));
  }

  lemma NothingPaced(cfg: Config)
    ensures Paced(cfg, []) && CfStamps([]) == CfTimes([]) == []
  {}

  // ---------------------------------------------------------------- a peer that only answers WAIT

  /** A flow control frame for this instance that asks it to wait. */
  ghost predicate AsksToWait(cfg: Config, f: Frame) {
    && f.ch == cfg.ch && f.isExt == cfg.extId && f.id == cfg.physRxId
    && |f.data| >= 3 && Kind(f.data) == 3 && f.data[0] % 16 == FS_WAIT
  }

  /** Where a transmission stands after frames that only ask it to wait. */
  ghost predicate Waited(tx: Tx, w: World, tx1: Tx, w1: World, over: bool) {
    if over then
      tx.sdu.Some? && tx1.state == TxIdle && w1.done == w.done + [(tx.sdu.value, N_WFT_OVRN)]
    else
      tx1.state == TxWaitFc && tx1.sdu == tx.sdu && tx1.sent == tx.sent && w1.done == w.done
  }

  /** Waits add up until one goes over the limit, unless the limit is all the 8-bit counter
      can show. */
  lemma {:induction false} WaitsAddUp(cfg: Config, rx: Rx, tx: Tx, w: World, fs: seq<Frame>)
    requires RxOk(rx) && TxOk(cfg, tx) && tx.state == TxWaitFc && tx.wft <= cfg.nWftMax
    requires forall f :: f in fs ==> AsksToWait(cfg, f)
    ensures var (rx1, tx1, w1) := Drain(cfg, rx, tx, w, fs);
            rx1 == rx && Waited(tx, w, tx1, w1, cfg.nWftMax < 255 && tx.wft + |fs| > cfg.nWftMax)
    decreases |fs|
  {
    hide TxOk, RxOk;
    if fs != [] {
      assert AsksToWait(cfg, fs[0]);
      OneWait(cfg, rx, tx, w, fs[0]);
      var (_, tx1, w1) := Intake(cfg, rx, tx, w, fs[0]);
      hide Intake;
      if tx1.state == TxIdle {
        IdleIgnoresWaits(cfg, rx, tx1, w1, fs[1..]);
      } else {
        WaitsAddUp(cfg, rx, tx1, w1, fs[1..]);
      }
    }
  }

  lemma OneWait(cfg: Config, rx: Rx, tx: Tx, w: World, f: Frame)
    requires RxOk(rx) && TxOk(cfg, tx) && tx.state == TxWaitFc && tx.wft <= cfg.nWftMax && AsksToWait(cfg, f)
    ensures var (rx1, tx1, w1) := Intake(cfg, rx, tx, w, f);
            var over := cfg.nWftMax < 255 && tx.wft == cfg.nWftMax;
            && rx1 == rx && Waited(tx, w, tx1, w1, over)
            && (!over ==> tx1.wft == (tx.wft + 1) % 256 <= cfg.nWftMax)
  {
    hide HeadLoad;
  }

  lemma {:induction false} IdleIgnoresWaits(cfg: Config, rx: Rx, tx: Tx, w: World, fs: seq<Frame>)
    requires RxOk(rx) && TxOk(cfg, tx) && tx.state == TxIdle && forall f :: f in fs ==> AsksToWait(cfg, f)
    ensures Drain(cfg, rx, tx, w, fs) == (rx, tx, w)
    decreases |fs|
  {
    hide TxOk, RxOk;
    if fs != [] {
      assert AsksToWait(cfg, fs[0]);
      assert Intake(cfg, rx, tx, w, fs[0]) == (rx, tx, w);
      IdleIgnoresWaits(cfg, rx, tx, w, fs[1..]);
    }
  }

  /** A peer that answers a fresh transmission with any number of WAITs sees it end, as
      N_WFT_OVRN, if and only if they are more than the limit and the limit is not 255; until
      then nothing of the transmission has moved. */
  lemma WaitLimitEnforcedIff(cfg: Config, rx: Rx, tx: Tx, w: World, waits: seq<Frame>)
    requires RxOk(rx) && TxOk(cfg, tx) && tx.state == TxWaitFc && tx.wft == 0
    requires forall f :: f in waits ==> AsksToWait(cfg, f)
    ensures var (_, tx1, w1) := Drain(cfg, rx, tx, w, waits);
            && (tx1.state == TxIdle <==> cfg.nWftMax < 255 && |waits| > cfg.nWftMax)
            && Waited(tx, w, tx1, w1, tx1.state == TxIdle)
  {
    WaitsAddUp(cfg, rx, tx, w, waits);
  }

  /** With the limit at 255 the counter comes round to 0 first: however often the peer asks,
      256 times and more, the transmission goes on waiting. */
  lemma LimitOf255NeverEnds(cfg: Config, rx: Rx, tx: Tx, w: World, n: nat)
    requires RxOk(rx) && TxOk(cfg, tx) && tx.state == TxWaitFc && tx.wft == 0 && cfg.nWftMax == 255
    ensures var wait := RawFrame(cfg.physRxId, cfg.ch, cfg.extId, false, false, 3, [PCI_FC + FS_WAIT, 0, 0]);
            Drain(cfg, rx, tx, w, seq(256 + n, _ => wait)).1.state == TxWaitFc
  {
    var wait := RawFrame(cfg.physRxId, cfg.ch, cfg.extId, false, false, 3, [PCI_FC + FS_WAIT, 0, 0]);
    WaitLimitEnforcedIff(cfg, rx, tx, w, seq(256 + n, _ => wait));
  }
}
