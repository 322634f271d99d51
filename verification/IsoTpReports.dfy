/** What the upper layer is told, and when the clock ends what the peer or the link does not:
    every confirmation is the outcome of a transmission, every timeout fires exactly at its
    deadline, and every deadline is the reading it was armed at plus its parameter. */
module IsoTpReports {
  import opened Options
  import opened Words
  import opened CanBus
  import opened IsoTpTypes
  import opened IsoTpCodec
  import opened IsoTpMachine
  import opened IsoTpSender
  import opened Subsequences

  // ---------------------------------------------------------------- what is told

  /** The results confirmed, in order. */
  ghost function Confirms(up: seq<Sdu>): seq<Outcome> {
    if up == [] then []
    else
      var s := up[|up| - 1];
      Confirms(up[..|up| - 1]) + if s.kind == Confirm then [s.result] else []
  }

  /** What is not a confirmation, in order: messages received, and receptions that failed. */
  ghost function Indicated(up: seq<Sdu>): seq<Sdu> {
    if up == [] then []
    else
      var s := up[|up| - 1];
      Indicated(up[..|up| - 1]) + if s.kind == Indication then [s] else []
  }

  /** How the transmissions that are over ended, in order. */
  ghost function Ended(done: seq<(Sdu, Outcome)>): seq<Outcome> {
    seq(|done|, i requires 0 <= i < |done| => done[i].1)
  }

  lemma OneMoreTold(up: seq<Sdu>, s: Sdu)
    ensures Confirms(up + [s]) == Confirms(up) + if s.kind == Confirm then [s.result] else []
    ensures Indicated(up + [s]) == Indicated(up) + if s.kind == Indication then [s] else []
  {
    assert (up + [s])[..|up|] == up;
  }

  ghost predicate AllGranted(w: World) {
    forall j: nat :: w.grant(j)
  }

  /** The confirmations are outcomes of transmissions, in order and none twice; all of them when
      nothing is refused, and none when confirmation is off. Each names its outcome and no more. */
  ghost predicate Reported(cfg: Config, w: World) {
    && Subsequence(Confirms(w.up), Ended(w.done))
    && (cfg.confirmTx && AllGranted(w) ==> Confirms(w.up) == Ended(w.done))
    && (!cfg.confirmTx ==> Confirms(w.up) == [])
    && forall s :: s in w.up && s.kind == Confirm ==> s == Report(cfg, Confirm, s.result)
  }

  lemma EndReported(cfg: Config, tx: Tx, w: World, result: Outcome)
    requires Reported(cfg, w)
    ensures var (_, w1) := TxEnd(cfg, tx, w, result);
            Reported(cfg, w1) && Indicated(w1.up) == Indicated(w.up)
  {
    hide Subsequence, Indicated, Confirms;
    if tx.sdu.Some? {
      var told := Report(cfg, Confirm, result);
      OneMoreTold(w.up, told);
      var done1 := w.done + [(tx.sdu.value, result)];
      assert Ended(done1) == Ended(w.done) + [result];
      SubsequenceBoth(Confirms(w.up), Ended(w.done), result);
      SubsequenceGrows(Confirms(w.up), Ended(w.done), Ended(done1));
    }
  }

  // ---------------------------------------------------------------- when it was armed

  /** Readings of the clock taken before the last data frame on the link was offered. */
  ghost function LastAt(log: seq<Sent>): nat {
    if log == [] then 0
    else if log[|log| - 1].tag.Data? then log[|log| - 1].at
    else LastAt(log[..|log| - 1])
  }

  /** The deadline lies `wait` after a reading taken since the last data frame left. */
  ghost predicate ArmedSince(w: World, deadline: nat, wait: nat) {
    exists i :: LastAt(w.log) <= i < w.ticks && deadline == w.clock(i) + wait
  }

  /** Awaiting flow control, the deadline is N_Bs after the first reading behind the last data frame,
      or, if the peer asked to wait, after a later one; holding a frame back, it is N_As after
      a reading behind the frame before. */
  ghost predicate TxArmed(cfg: Config, tx: Tx, w: World) {
    && LastAt(w.log) <= w.ticks
    && tx.wft <= cfg.nWftMax && (tx.state != TxWaitFc ==> tx.wft == 0)
    && (tx.state == TxWaitFc ==> ArmedSince(w, tx.deadline, cfg.nBs))
    && (tx.state == TxWaitFc && tx.wft == 0 && cfg.nWftMax < 255 ==>
          tx.deadline == w.clock(LastAt(w.log)) + cfg.nBs)
    && (tx.state == TxWaitLink ==> ArmedSince(w, tx.deadline, cfg.nAs))
    && (tx.sdu.Some? && tx.sent > 0 ==>
          var at := LastAt(w.log);
          tx.last == w.clock(at) || (at > 0 && tx.last == w.clock(at - 1)))
  }

  /** A frame held behind a step was held before it, and nothing has moved; or the step's last
      reading started its N_As. */
  ghost predicate Held(cfg: Config, tx: Tx, w: World, tx1: Tx, w1: World) {
    tx1.state == TxWaitLink ==>
      || (tx1 == tx && w1.done == w.done)
      || (w.ticks < w1.ticks && tx1.deadline == w1.clock(w1.ticks - 1) + cfg.nAs)
  }

  /** What driving the send side does: it ends transmissions well or not at all. */
  ghost predicate Driven(cfg: Config, w: World, tx1: Tx, w1: World) {
    && Reported(cfg, w1) && TxArmed(cfg, tx1, w1)
    && w1.clock == w.clock && w1.grant == w.grant && w.ticks <= w1.ticks && w.log <= w1.log
    && Indicated(w1.up) == Indicated(w.up)
    && w.done <= w1.done && forall i :: |w.done| <= i < |w1.done| ==> w1.done[i].1 == N_OK
  }

  lemma DataLogged(log: seq<Sent>, e: Sent)
    requires e.tag.Data?
    ensures LastAt(log + [e]) == e.at
  {}

  lemma EndDriven(cfg: Config, tx: Tx, w: World)
    requires Reported(cfg, w) && LastAt(w.log) <= w.ticks
    ensures var (tx1, w1) := TxEnd(cfg, tx, w, N_OK); Driven(cfg, w, tx1, w1)
  {
    EndReported(cfg, tx, w, N_OK);
    hide Reported, LastAt, Indicated;
  }

  lemma HoldDriven(cfg: Config, tx: Tx, w: World)
    requires Reported(cfg, w) && TxArmed(cfg, tx, w) && tx.state != TxWaitFc
    ensures var (tx1, w1) := TxHold(cfg, tx, w); Driven(cfg, w, tx1, w1) && Held(cfg, tx, w, tx1, w1)
  {
    hide Reported, LastAt, Indicated;
    if tx.state != TxWaitLink {
      var (tx1, w1) := TxHold(cfg, tx, w);
      SameReports(cfg, w, w1);
      assert LastAt(w1.log) <= w.ticks < w1.ticks && tx1.deadline == w1.clock(w.ticks) + cfg.nAs;
    }
  }

  lemma OfferHeadDriven(cfg: Config, tx: Tx, w: World)
    requires Reported(cfg, w) && TxArmed(cfg, tx, w) && tx.state != TxWaitFc
    requires tx.sdu.Some? && tx.sent == 0 && tx.sn == 1 && tx.bs < 256 && tx.wft < 256
    requires tx.id == TxId(cfg, tx.sdu.value)
    ensures var (tx1, w1, _) := OfferHead(cfg, tx, w); Driven(cfg, w, tx1, w1) && Held(cfg, tx, w, tx1, w1)
  {
    hide Reported, LastAt, Indicated, HeadFrame, HeadLoad, SfCapacity, TxEnd, TxHold;
    var m := tx.sdu.value.data;
    var tag := Data(|w.done|, 0, HeadLoad(cfg, m), 0);
    var (ok, w1) := Offer(w, HeadFrame(cfg, tx.id, m), tag);
    DataLogged(w.log, Sent(HeadFrame(cfg, tx.id, m), tag, w.ticks));
    SameReports(cfg, w, w1);
    if !ok {
      HoldDriven(cfg, tx, w1);
      StillHeld(cfg, tx, w1);
    } else if IsSingle(cfg, m) {
      EndDriven(cfg, tx, w1);
      EndIsIdle(cfg, tx, w1, N_OK);
    } else {
      var (tx1, w2, _) := OfferHead(cfg, tx, w);
      SameReports(cfg, w, w2);
      assert LastAt(w2.log) == w.ticks < w2.ticks && tx1.deadline == w2.clock(w.ticks) + cfg.nBs;
    }
  }

  lemma SameReports(cfg: Config, w: World, w1: World)
    requires w1.up == w.up && w1.done == w.done && w1.grant == w.grant
    ensures Reported(cfg, w) <==> Reported(cfg, w1)
  {
    hide Subsequence, Confirms;
  }

  lemma EndIsIdle(cfg: Config, tx: Tx, w: World, result: Outcome)
    ensures var (tx1, w1) := TxEnd(cfg, tx, w, result);
            && tx1.state == TxIdle && tx1.sdu == None && w1.log == w.log && w1.ticks == w.ticks
            && (tx.sdu.Some? ==> w1.done == w.done + [(tx.sdu.value, result)])
  {}

  lemma StillHeld(cfg: Config, tx: Tx, w: World)
    ensures var (tx1, w1) := TxHold(cfg, tx, w);
            && w1.done == w.done && (tx.state == TxWaitLink ==> tx1 == tx && w1 == w)
            && (tx.state != TxWaitLink ==> w1.ticks == w.ticks + 1)
  {}

  lemma {:induction false} SendLoopDriven(cfg: Config, tx: Tx, w: World, now: nat, emitted: nat, budget: nat)
    requires Reported(cfg, w) && TxArmed(cfg, tx, w) && TxOk(cfg, tx) && tx.state == TxSend
    requires w.ticks > 0 && now == w.clock(w.ticks - 1)
    ensures var (tx1, w1, _) := SendLoop(cfg, tx, w, now, emitted, budget);
            Driven(cfg, w, tx1, w1) && Held(cfg, tx, w, tx1, w1)
    decreases |tx.sdu.value.data| - tx.sent
  {
    hide Reported, LastAt, Indicated, HeadLoad, CfFrame, TxEnd, TxHold, NextLoad;
    if !(emitted >= budget || (tx.stmin > 0 && Diff32(now, tx.last) < tx.stmin)) {
      var (ok, w1) := OfferCf(cfg, tx, w);
      SameReports(cfg, w, w1);
      CfLoggedAt(cfg, tx, w);
      if !ok {
        HoldDriven(cfg, tx, w1);
        StillHeld(cfg, tx, w1);
      } else {
        var tx1 := Advanced(cfg, tx, now);
        var (now1, w2) := Read(w1.(trace := w1.trace + [PaceCf(now)]));
        var tx2 := tx1.(bs := if tx.bs > 0 then tx.bs - 1 else 0);
        SameReports(cfg, w, w2);
        assert LastAt(w2.log) == w.ticks < w2.ticks && now1 == w2.clock(w.ticks);
        if AllSent(tx2) {
          EndDriven(cfg, tx2, w2);
          EndIsIdle(cfg, tx2, w2, N_OK);
        } else if tx.bs != 1 {
          SendLoopDriven(cfg, tx2, w2, now1, emitted + 1, budget);
          HeldLater(cfg, tx, w, tx2, w2, SendLoop(cfg, tx2, w2, now1, emitted + 1, budget));
        }
      }
    }
  }

  lemma CfLoggedAt(cfg: Config, tx: Tx, w: World)
    requires TxOk(cfg, tx) && tx.sdu.Some? && tx.sent > 0
    ensures var (ok, w1) := OfferCf(cfg, tx, w);
            && w1.up == w.up && w1.done == w.done && w1.grant == w.grant && w1.clock == w.clock && w1.ticks == w.ticks
            && LastAt(w1.log) == if ok then w.ticks else LastAt(w.log)
  {
    hide CfFrame, NextLoad, HeadLoad;
    var m := tx.sdu.value.data;
    DataLogged(w.log, Sent(CfFrame(cfg, tx.id, m, tx.sent, tx.sn), Data(|w.done|, tx.sent, NextLoad(cfg, m, tx.sent), tx.sn), w.ticks));
  }

  /** What is held in the end of a step was not held in the middle of it. */
  lemma HeldLater(cfg: Config, tx: Tx, w: World, tx1: Tx, w1: World, r: (Tx, World, nat))
    requires Held(cfg, tx1, w1, r.0, r.1) && tx1.state != TxWaitLink && w.ticks <= w1.ticks
    ensures Held(cfg, tx, w, r.0, r.1)
  {}

  lemma SendingDriven(cfg: Config, tx: Tx, w: World, emitted: nat, budget: nat)
    requires Reported(cfg, w) && TxArmed(cfg, tx, w) && TxOk(cfg, tx)
    ensures var (tx1, w1, _) := Sending(cfg, tx, w, emitted, budget);
            Driven(cfg, w, tx1, w1) && Held(cfg, tx, w, tx1, w1)
  {
    hide Reported, LastAt, Indicated, HeadLoad, SendLoop;
    if tx.state == TxSend {
      var (now, w1) := Read(w);
      SameReports(cfg, w, w1);
      SendLoopDriven(cfg, tx, w1, now, emitted, budget);
    }
  }

  lemma RetryCfDriven(cfg: Config, tx: Tx, w: World, budget: nat)
    requires Reported(cfg, w) && TxArmed(cfg, tx, w) && TxOk(cfg, tx) && tx.state == TxWaitLink && tx.sent > 0
    ensures var (tx1, w1, _) := RetryCf(cfg, tx, w, budget);
            Driven(cfg, w, tx1, w1) && Held(cfg, tx, w, tx1, w1)
  {
    hide Reported, LastAt, Indicated, HeadLoad, CfFrame, NextLoad, TxEnd, Sending;
    var (ok, w1) := OfferCf(cfg, tx, w);
    SameReports(cfg, w, w1);
    CfLoggedAt(cfg, tx, w);
    if ok {
      var (t, w2) := Read(w1);
      var w3 := w2.(trace := w2.trace + [PaceCf(t)]);
      SameReports(cfg, w, w3);
      var tx1 := Advanced(cfg, tx, t).(state := TxSend);
      assert LastAt(w3.log) == w.ticks < w3.ticks && t == w3.clock(w.ticks);
      if AllSent(tx1) {
        EndDriven(cfg, tx1, w3);
        EndIsIdle(cfg, tx1, w3, N_OK);
      } else if tx.bs != 1 {
        var tx2 := tx1.(bs := if tx.bs > 0 then tx.bs - 1 else 0);
        SendingDriven(cfg, tx2, w3, 1, budget);
        HeldLater(cfg, tx, w, tx2, w3, Sending(cfg, tx2, w3, 1, budget));
      }
    }
  }

  lemma RequestTxDriven(cfg: Config, tx: Tx, w: World, q: seq<Sdu>, budget: nat)
    requires Reported(cfg, w) && TxArmed(cfg, tx, w) && TxOk(cfg, tx)
    ensures var (tx1, w1, _, _) := RequestTx(cfg, tx, w, q, budget);
            Driven(cfg, w, tx1, w1) && Held(cfg, tx, w, tx1, w1)
  {
    hide Reported, LastAt, Indicated, HeadLoad, OfferHead, RetryCf, Sending;
    if tx.state == TxIdle {
      if q != [] {
        OfferHeadDriven(cfg, Pulled(cfg, tx, q[0]), w);
        var (tx1, w1, _) := OfferHead(cfg, Pulled(cfg, tx, q[0]), w);
        HeldLater(cfg, tx, w, Pulled(cfg, tx, q[0]), w, (tx1, w1, 0));
      }
    } else if tx.state == TxWaitLink {
      if tx.sent == 0 {
        OfferHeadDriven(cfg, tx, w);
      } else {
        RetryCfDriven(cfg, tx, w, budget);
      }
    } else {
      SendingDriven(cfg, tx, w, 0, budget);
    }
  }

  // ---------------------------------------------------------------- the reception's side

  /** The two answers an instance ever gives its peer: go on, by its own configuration, or do not. */
  ghost function Permission(cfg: Config): Frame {
    FcFrame(cfg, FS_CTS, cfg.rxBlockSize, cfg.rxStmin)
  }

  ghost function Refusal(cfg: Config): Frame {
    FcFrame(cfg, FS_OVFLW, 0, 0)
  }

  /** What reception does: it answers with these, and indicates. */
  ghost predicate Answered(cfg: Config, w: World, w1: World) {
    && w1.done == w.done && w1.trace == w.trace && w1.clock == w.clock && w1.grant == w.grant
    && w.ticks <= w1.ticks && w.offers <= w1.offers
    && w.log <= w1.log && w.up <= w1.up
    && (forall i :: |w.log| <= i < |w1.log| ==>
          w1.log[i].tag.Control? && w1.log[i].frame in {Permission(cfg), Refusal(cfg)})
    && (forall i :: |w.up| <= i < |w1.up| ==> w1.up[i].kind == Indication)
  }

  /** How long the next event of a reception is awaited. */
  ghost function Patience(cfg: Config, state: RxState): nat {
    if state == RxAssem then cfg.nCr else cfg.nAr
  }

  /** A reception under way that a step changed is armed by the last reading of the step. */
  ghost predicate Rearmed(cfg: Config, rx: Rx, w: World, rx1: Rx, w1: World) {
    || rx1 == rx || rx1.state == RxIdle
    || (w.ticks < w1.ticks && rx1.deadline == w1.clock(w1.ticks - 1) + Patience(cfg, rx1.state))
  }

  /** The deadline of a reception lies N_Cr, or N_Ar while its permission is held, after a reading. */
  ghost predicate RxArmed(cfg: Config, rx: Rx, w: World) {
    rx.state != RxIdle ==> exists i :: 0 <= i < w.ticks && rx.deadline == w.clock(i) + Patience(cfg, rx.state)
  }

  lemma StaysArmed(cfg: Config, rx: Rx, w: World, rx1: Rx, w1: World)
    requires RxArmed(cfg, rx, w) && Rearmed(cfg, rx, w, rx1, w1) && w1.clock == w.clock && w.ticks <= w1.ticks
    ensures RxArmed(cfg, rx1, w1)
  {
    if rx1 != rx && rx1.state != RxIdle {
      assert rx1.deadline == w1.clock(w1.ticks - 1) + Patience(cfg, rx1.state);
    }
  }

  lemma EmitCtsAnswers(cfg: Config, rx: Rx, w: World)
    requires rx.state != RxIdle
    ensures var (rx1, w1) := EmitCts(cfg, rx, w);
            && Answered(cfg, w, w1) && rx1.state != RxIdle
            && (rx.state != RxFcWait ==> w.ticks < w1.ticks)
            && (w.ticks < w1.ticks ==> rx1.deadline == w1.clock(w1.ticks - 1) + Patience(cfg, rx1.state))
            && (w.ticks == w1.ticks ==> rx1 == rx)
  {
    hide FcFrame;
  }

  lemma RxFirstAnswers(cfg: Config, rx: Rx, w: World, d: seq<byte>)
    requires 0 < |d| <= MAX_FD_LEN && rx.state == RxIdle && RxOk(rx)
    ensures var (rx1, w1) := RxFirst(cfg, rx, w, d); Answered(cfg, w, w1) && Rearmed(cfg, rx, w, rx1, w1)
  {
    hide FcFrame, EmitCts, FfLen, FfTake;
    match FfLen(d)
    case None =>
    case Some((total, hdr)) =>
      if !TooLong(cfg, total) && Ask(w).0 {
        var (t, w2) := Read(Ask(w).1);
        EmitCtsAnswers(cfg, Rx(RxAssem, 1, 0, total, FfTake(d, total, hdr), t + cfg.nCr), w2);
      }
  }

  lemma RxConsecutiveAnswers(cfg: Config, rx: Rx, w: World, d: seq<byte>)
    requires 0 < |d| <= MAX_FD_LEN && RxOk(rx)
    ensures var (rx1, w1) := RxConsecutive(cfg, rx, w, d); Answered(cfg, w, w1) && Rearmed(cfg, rx, w, rx1, w1)
  {
    hide FcFrame, EmitCts, CfTake;
    if rx.state == RxAssem && d[0] % 16 == rx.sn {
      var (t, w1) := Read(w);
      var rx1 := rx.(acc := rx.acc + CfTake(d, rx.total - |rx.acc|),
                     sn := (rx.sn + 1) % 16, deadline := t + cfg.nCr);
      if |rx1.acc| < rx.total && rx.blockLeft == 1 {
        EmitCtsAnswers(cfg, rx1.(blockLeft := 0), w1);
      }
    }
  }

  lemma RxFrameAnswers(cfg: Config, rx: Rx, w: World, d: seq<byte>)
    requires 0 < |d| <= MAX_FD_LEN && RxOk(rx)
    ensures var (rx1, w1) := RxFrame(cfg, rx, w, d); Answered(cfg, w, w1) && Rearmed(cfg, rx, w, rx1, w1)
  {
    hide RxFirst, RxConsecutive, SfLen, FcFrame;
    if Kind(d) == 1 {
      var (rx1, w1) := RxAbort(cfg, rx, w, N_UNEXP_PDU);
      RxFirstAnswers(cfg, rx1, w1, d);
    } else if Kind(d) == 2 {
      RxConsecutiveAnswers(cfg, rx, w, d);
    }
  }

  lemma RxGuardsAnswers(cfg: Config, rx: Rx, w: World, now: nat)
    requires RxOk(rx)
    ensures var (rx1, w1) := RxGuards(cfg, rx, w, now); Answered(cfg, w, w1) && Rearmed(cfg, rx, w, rx1, w1)
  {
    hide EmitCts, FcFrame, Expired;
    if rx.state == RxFcWait && !Expired(now, rx.deadline) {
      EmitCtsAnswers(cfg, rx, w);
    }
  }

  lemma {:induction false} AnswersKeepTold(cfg: Config, up: seq<Sdu>, up1: seq<Sdu>)
    requires up <= up1 && forall i :: |up| <= i < |up1| ==> up1[i].kind == Indication
    ensures Confirms(up1) == Confirms(up)
    decreases |up1|
  {
    if |up| == |up1| {
      assert up == up1;
    } else {
      AnswersKeepTold(cfg, up, up1[..|up1| - 1]);
    }
  }

  lemma {:induction false} AnswersAreNoData(log: seq<Sent>, log1: seq<Sent>)
    requires log <= log1 && forall i :: |log| <= i < |log1| ==> log1[i].tag.Control?
    ensures LastAt(log1) == LastAt(log)
    decreases |log1|
  {
    if |log| == |log1| {
      assert log == log1;
    } else {
      AnswersAreNoData(log, log1[..|log1| - 1]);
    }
  }

  /** Both sides' accounts, as they stand between frames. */
  ghost predicate InOrder(cfg: Config, rx: Rx, tx: Tx, w: World) {
    Reported(cfg, w) && TxArmed(cfg, tx, w) && RxArmed(cfg, rx, w)
  }

  lemma AnswersInOrder(cfg: Config, rx: Rx, tx: Tx, w: World, rx1: Rx, w1: World)
    requires InOrder(cfg, rx, tx, w) && Answered(cfg, w, w1) && Rearmed(cfg, rx, w, rx1, w1)
    ensures InOrder(cfg, rx1, tx, w1)
  {
    AnswersKeepTold(cfg, w.up, w1.up);
    AnswersAreNoData(w.log, w1.log);
    StaysArmed(cfg, rx, w, rx1, w1);
    hide LastAt, Confirms, Subsequence, FcFrame;
    forall s | s in w1.up && s.kind == Confirm
      ensures s in w.up
    {
      var i :| 0 <= i < |w1.up| && w1.up[i] == s;
    }
    if tx.state == TxWaitFc {
      StillArmed(w, w1, tx.deadline, cfg.nBs);
    }
    if tx.state == TxWaitLink {
      StillArmed(w, w1, tx.deadline, cfg.nAs);
    }
  }

  lemma StillArmed(w: World, w1: World, deadline: nat, wait: nat)
    requires ArmedSince(w, deadline, wait) && LastAt(w1.log) == LastAt(w.log) && w1.clock == w.clock && w.ticks <= w1.ticks
    ensures ArmedSince(w1, deadline, wait)
  {}

  // ---------------------------------------------------------------- flow control

  /** Flow control changes when the deadline is, and may end the transmission. */
  ghost predicate Steered(cfg: Config, w: World, tx1: Tx, w1: World) {
    && Reported(cfg, w1) && TxArmed(cfg, tx1, w1)
    && w1.clock == w.clock && w1.grant == w.grant && w.ticks <= w1.ticks && w1.log == w.log
    && Indicated(w1.up) == Indicated(w.up)
  }

  lemma EndSteers(cfg: Config, tx: Tx, w: World, result: Outcome)
    requires Reported(cfg, w) && LastAt(w.log) <= w.ticks
    ensures var (tx1, w1) := TxEnd(cfg, tx, w, result); Steered(cfg, w, tx1, w1)
  {
    EndReported(cfg, tx, w, result);
    hide Reported, LastAt, Indicated;
  }

  lemma ApplyFcSteers(cfg: Config, tx: Tx, w: World, d: seq<byte>)
    requires Reported(cfg, w) && TxArmed(cfg, tx, w) && TxOk(cfg, tx)
    ensures var (tx1, w1) := ApplyFc(cfg, tx, w, d); Steered(cfg, w, tx1, w1)
  {
    hide Reported, LastAt, Indicated, HeadLoad, TxEnd;
    EndSteers(cfg, tx, w, N_BUFFER_OVFLW);
    EndSteers(cfg, tx, w, N_WFT_OVRN);
    EndSteers(cfg, tx, w, N_INVALID_FS);
    if tx.state == TxWaitFc && |d| >= 3 {
      var (tx1, w1) := ApplyFc(cfg, tx, w, d);
      if w1.up == w.up && w1.done == w.done && w1.grant == w.grant {
        SameReports(cfg, w, w1);
      }
      if d[0] % 16 == FS_WAIT && (tx.wft + 1) % 256 <= cfg.nWftMax {
        assert LastAt(w1.log) <= w.ticks < w1.ticks && tx1.deadline == w1.clock(w.ticks) + cfg.nBs;
      }
    }
  }

  lemma TxGuardsSteer(cfg: Config, tx: Tx, w: World, now: nat)
    requires Reported(cfg, w) && TxArmed(cfg, tx, w) && TxOk(cfg, tx)
    ensures var (tx1, w1) := TxGuards(cfg, tx, w, now); Steered(cfg, w, tx1, w1)
  {
    hide Reported, LastAt, Indicated, HeadLoad, TxEnd, Expired;
    EndSteers(cfg, tx, w, N_TIMEOUT_BS);
    EndSteers(cfg, tx, w, N_TIMEOUT_A);
  }

  // ---------------------------------------------------------------- whole calls and runs

  lemma IntakeInOrder(cfg: Config, rx: Rx, tx: Tx, w: World, f: Frame)
    requires InOrder(cfg, rx, tx, w) && TxOk(cfg, tx) && RxOk(rx)
    ensures var (rx1, tx1, w1) := Intake(cfg, rx, tx, w, f);
            InOrder(cfg, rx1, tx1, w1) && w1.clock == w.clock && w1.grant == w.grant
  {
    hide RxFrame, ApplyFc, SfLen, Reported, TxArmed;
    var d := f.data;
    if |d| > 0 {
      ApplyFcSteers(cfg, tx, w, d);
      RxFrameAnswers(cfg, rx, w, d);
      AnswersInOrder(cfg, rx, tx, w, RxFrame(cfg, rx, w, d).0, RxFrame(cfg, rx, w, d).1);
      AnswersInOrder(cfg, rx, tx, w, rx, RxSingle(cfg, w, Functional, d));
    }
  }

  lemma {:induction false} DrainInOrder(cfg: Config, rx: Rx, tx: Tx, w: World, fs: seq<Frame>)
    requires InOrder(cfg, rx, tx, w) && TxOk(cfg, tx) && RxOk(rx)
    ensures var (rx1, tx1, w1) := Drain(cfg, rx, tx, w, fs);
            InOrder(cfg, rx1, tx1, w1) && w1.clock == w.clock && w1.grant == w.grant
    decreases |fs|
  {
    hide InOrder, Intake;
    if fs != [] {
      IntakeInOrder(cfg, rx, tx, w, fs[0]);
      var (rx1, tx1, w1) := Intake(cfg, rx, tx, w, fs[0]);
      DrainInOrder(cfg, rx1, tx1, w1, fs[1..]);
    }
  }

  lemma ProcessInOrder(cfg: Config, s: Inst)
    requires InstOk(cfg, s) && InOrder(cfg, s.rx, s.tx, s.w)
    ensures var s1 := Process(cfg, s);
            InOrder(cfg, s1.rx, s1.tx, s1.w) && s1.w.clock == s.w.clock && s1.w.grant == s.w.grant
  {
    hide Drain, RxGuards, TxGuards, RequestTx, Reported, TxArmed, RxArmed;
    DrainInOrder(cfg, s.rx, s.tx, s.w, s.canQ);
    var (rx1, tx1, w1) := Drain(cfg, s.rx, s.tx, s.w, s.canQ);
    var (now, w2) := Read(w1);
    AnswersInOrder(cfg, rx1, tx1, w1, rx1, w2);
    RxGuardsAnswers(cfg, rx1, w2, now);
    var (rx2, w3) := RxGuards(cfg, rx1, w2, now);
    AnswersInOrder(cfg, rx1, tx1, w2, rx2, w3);
    TxGuardsSteer(cfg, tx1, w3, now);
    var (tx2, w4) := TxGuards(cfg, tx1, w3, now);
    RequestTxDriven(cfg, tx2, w4, s.sduQ, Budget(cfg));
    var s1 := Process(cfg, s);
    StaysArmed(cfg, rx2, w3, rx2, s1.w);
  }

  lemma {:induction false} RunsInOrder(cfg: Config, clock: nat -> nat, grant: nat -> bool, es: seq<Event>)
    ensures var s := Run(cfg, Start(clock, grant), es);
            InOrder(cfg, s.rx, s.tx, s.w) && s.w.clock == clock && s.w.grant == grant
    decreases |es|
  {
    hide Process;
    if es != [] {
      var k := |es| - 1;
      RunsInOrder(cfg, clock, grant, es[..k]);
      ProcessInOrder(cfg, Run(cfg, Start(clock, grant), es[..k]));
    }
  }

  // ---------------------------------------------------------------- confirmations

  /** Over every run, whatever is refused and whenever: what is confirmed are outcomes of
      transmissions, in their order and none twice - all of them if nothing is refused, none if
      confirmation is off. `at` tells which; a transmission confirmed as N_OK has all the frames of
      its message on the link, and one confirmed otherwise a strict prefix of them. */
  lemma ConfirmationsAreTrue(cfg: Config, clock: nat -> nat, grant: nat -> bool, es: seq<Event>) returns (at: seq<nat>)
    ensures var w := Run(cfg, Start(clock, grant), es).w;
            var told := Confirms(w.up);
            && |at| == |told| && (forall j, k :: 0 <= j < k < |at| ==> at[j] < at[k])
            && (forall k :: 0 <= k < |at| ==>
                  && at[k] < |w.done| && w.done[at[k]].1 == told[k]
                  && var fs, seg := FramesOf(w.log, at[k]), SegmentOf(cfg, w.done[at[k]].0);
                     if told[k] == N_OK then fs == seg else fs < seg)
            && (cfg.confirmTx && (forall j: nat :: grant(j)) ==> told == Ended(w.done))
            && (!cfg.confirmTx ==> told == [])
            && (forall s :: s in w.up && s.kind == Confirm ==> s == RawSdu(cfg.link, Confirm, Physical, s.result, []))
  {
    hide Run, Confirms, Subsequence, FramesOf, SegmentOf, SenderInv, TxArmed, RxArmed, Remaining;
    var w := Run(cfg, Start(clock, grant), es).w;
    RunsInOrder(cfg, clock, grant, es);
    SenderRefinesSegment(cfg, clock, grant, es);
    at := SelectedFrom(Confirms(w.up), Ended(w.done));
    assert forall k :: 0 <= k < |at| ==> Ended(w.done)[at[k]] == w.done[at[k]].1;
  }

  // ---------------------------------------------------------------- timeouts

  /** Close enough for the 32-bit difference to tell which is earlier. */
  predicate Near(now: nat, deadline: nat) {
    -TWO_31 <= now - deadline < TWO_31
  }

  /** The transmission in flight ended in the call, and so. */
  ghost predicate EndsAs(s: Inst, s1: Inst, result: Outcome) {
    s.tx.sdu.Some? && s.w.done + [(s.tx.sdu.value, result)] <= s1.w.done
  }

  /** What the call indicated is this failure, if failures are reported and there is room for it. */
  ghost predicate Indicates(cfg: Config, s: Inst, s1: Inst, result: Outcome) {
    Indicated(s1.w.up) ==
      Indicated(s.w.up) + if cfg.confirmTx && s.w.grant(s.w.offers) then [Report(cfg, Indication, result)] else []
  }

  /** What a call that finds no frame makes of a transmission whose time may be up. */
  ghost predicate TxTimes(cfg: Config, s: Inst, s1: Inst) {
    var now, deadline := s.w.clock(s.w.ticks), s.tx.deadline;
    Near(now, deadline) ==>
      && (s.tx.state == TxWaitFc ==> (EndsAs(s, s1, N_TIMEOUT_BS) <==> now >= deadline))
      && (s.tx.state == TxWaitFc && now < deadline ==> s1.tx == s.tx && s1.w.done == s.w.done)
      && (s.tx.state == TxWaitLink ==> (EndsAs(s, s1, N_TIMEOUT_A) <==> now >= deadline))
  }

  /** And of a reception. A permission still held is offered again: taken, it arms the wait for the
      peer; refused, it waits on under the deadline it had. */
  ghost predicate RxTimes(cfg: Config, s: Inst, s1: Inst) {
    var now, deadline := s.w.clock(s.w.ticks), s.rx.deadline;
    Near(now, deadline) ==>
      && (s.rx.state != RxIdle ==> (s1.rx.state == RxIdle <==> now >= deadline))
      && (s.rx.state == RxAssem && now >= deadline ==> Indicates(cfg, s, s1, N_TIMEOUT_CR))
      && (s.rx.state == RxFcWait && now >= deadline ==> Indicates(cfg, s, s1, N_TIMEOUT_A))
      && (s.rx.state != RxIdle && now < deadline ==> Indicated(s1.w.up) == Indicated(s.w.up))
      && (s.rx.state == RxAssem && now < deadline ==> s1.rx == s.rx)
      && (s.rx.state == RxFcWait && now < deadline ==>
            if s.w.grant(s.w.offers) then
              && s1.rx == s.rx.(state := RxAssem, blockLeft := cfg.rxBlockSize, deadline := s.w.clock(s.w.ticks + 1) + cfg.nCr)
              && s.w.log + [Sent(Permission(cfg), Control, s.w.ticks + 1)] <= s1.w.log
            else s1.rx == s.rx)
  }

  lemma ReceptionTimes(cfg: Config, s: Inst, rx1: Rx, w1: World)
    requires RxOk(s.rx)
    requires var (now, w) := Read(s.w); (rx1, w1) == RxGuards(cfg, s.rx, w, now)
    ensures RxTimes(cfg, s, Inst(rx1, s.tx, w1, s.sduQ, []))
    ensures s.w.log <= w1.log && w1.done == s.w.done
  {
    hide FcFrame, Indicated, RxAbort, EmitCts;
    var (now, w) := Read(s.w);
    if s.rx.state == RxFcWait {
      OfferedAgain(cfg, s.rx, w);
    }
    Abandoned(cfg, s.rx, w, N_TIMEOUT_CR);
    Abandoned(cfg, s.rx, w, N_TIMEOUT_A);
    if Near(now, s.rx.deadline) {
      Diff32Exact(now, s.rx.deadline);
    }
    hide Diff32;
  }

  lemma Abandoned(cfg: Config, rx: Rx, w: World, result: Outcome)
    ensures var (rx1, w1) := RxAbort(cfg, rx, w, result);
            && rx1.state == RxIdle && w1.log == w.log && w1.done == w.done
            && (rx.state != RxIdle ==>
                  Indicated(w1.up) == Indicated(w.up)
                    + if cfg.confirmTx && w.grant(w.offers) then [Report(cfg, Indication, result)] else [])
  {
    hide Indicated;
    OneMoreTold(w.up, Report(cfg, Indication, result));
  }

  lemma OfferedAgain(cfg: Config, rx: Rx, w: World)
    requires rx.state == RxFcWait
    ensures var (rx1, w1) := EmitCts(cfg, rx, w);
            && rx1.state != RxIdle && w1.up == w.up && w1.done == w.done
            && if w.grant(w.offers) then
                 && rx1 == rx.(state := RxAssem, blockLeft := cfg.rxBlockSize, deadline := w.clock(w.ticks) + cfg.nCr)
                 && w1.log == w.log + [Sent(Permission(cfg), Control, w.ticks)]
               else rx1 == rx && w1.log == w.log
  {
    hide FcFrame;
  }

  lemma TransmissionTimes(cfg: Config, s: Inst, w: World, tx1: Tx, w1: World, tx2: Tx, w2: World)
    requires TxOk(cfg, s.tx) && w.done == s.w.done
    requires var now := s.w.clock(s.w.ticks); (tx1, w1) == TxGuards(cfg, s.tx, w, now)
    requires Driven(cfg, w1, tx2, w2)
    requires tx1.state == TxWaitFc ==> tx2 == tx1 && w2.done == w1.done
    ensures TxTimes(cfg, s, s.(tx := tx2, w := w2))
  {
    hide Reported, TxArmed, Indicated, HeadLoad;
    if Near(s.w.clock(s.w.ticks), s.tx.deadline) {
      Diff32Exact(s.w.clock(s.w.ticks), s.tx.deadline);
      assert |w2.done| > |w1.done| ==> w2.done[|w1.done|].1 == N_OK;
      assert forall i :: 0 <= i < |w1.done| ==> w2.done[i] == w1.done[i];
    }
  }

  lemma WaitsOn(cfg: Config, tx: Tx, w: World, q: seq<Sdu>, budget: nat)
    requires TxOk(cfg, tx) && tx.state == TxWaitFc
    ensures RequestTx(cfg, tx, w, q, budget) == (tx, w, q, 0)
  {
    hide OfferHead, RetryCf, SendLoop;
  }

  lemma GuardsHoldOn(cfg: Config, tx: Tx, w: World, now: nat)
    requires TxOk(cfg, tx)
    ensures var (tx1, w1) := TxGuards(cfg, tx, w, now); tx1.state == TxWaitLink ==> tx1 == tx && w1 == w
  {}

  lemma TimesUp(cfg: Config, s: Inst)
    requires InstOk(cfg, s) && InOrder(cfg, s.rx, s.tx, s.w) && s.canQ == []
    ensures TxTimes(cfg, s, Process(cfg, s)) && RxTimes(cfg, s, Process(cfg, s))
    ensures Held(cfg, s.tx, s.w, Process(cfg, s).tx, Process(cfg, s).w)
  {
    hide RxGuards, TxGuards, RequestTx, Reported, TxArmed, RxArmed, Indicated, TxTimes, RxTimes, FcFrame;
    var (now, w2) := Read(s.w);
    AnswersInOrder(cfg, s.rx, s.tx, s.w, s.rx, w2);
    RxGuardsAnswers(cfg, s.rx, w2, now);
    var (rx2, w3) := RxGuards(cfg, s.rx, w2, now);
    AnswersInOrder(cfg, s.rx, s.tx, w2, rx2, w3);
    TxGuardsSteer(cfg, s.tx, w3, now);
    var (tx2, w4) := TxGuards(cfg, s.tx, w3, now);
    RequestTxDriven(cfg, tx2, w4, s.sduQ, Budget(cfg));
    var (tx3, w5, q, k) := RequestTx(cfg, tx2, w4, s.sduQ, Budget(cfg));
    if tx2.state == TxWaitFc {
      WaitsOn(cfg, tx2, w4, s.sduQ, Budget(cfg));
    }
    GuardsHoldOn(cfg, s.tx, w3, now);
    ReceptionTimes(cfg, s, rx2, w3);
    TransmissionTimes(cfg, s, w3, tx2, w4, tx3, w5);
    assert Process(cfg, s) == Inst(rx2, tx3, w5, q, []);
    SameTimes(cfg, s, rx2, w3, Process(cfg, s));
    SameTxTimes(cfg, s, s.(tx := tx3, w := w5), Process(cfg, s));
  }

  lemma SameTimes(cfg: Config, s: Inst, rx1: Rx, w1: World, s1: Inst)
    requires RxTimes(cfg, s, Inst(rx1, s.tx, w1, s.sduQ, []))
    requires s1.rx == rx1 && Indicated(s1.w.up) == Indicated(w1.up) && w1.log <= s1.w.log
    ensures RxTimes(cfg, s, s1)
  {
    hide FcFrame, Indicated;
  }

  lemma SameTxTimes(cfg: Config, s: Inst, r: Inst, s1: Inst)
    requires TxTimes(cfg, s, r) && s1.tx == r.tx && s1.w == r.w
    ensures TxTimes(cfg, s, s1)
  {}

  /** Over every run: each deadline is the reading that armed it plus its parameter, and a call that
      finds no frame ends what is waiting exactly when it is due - a transmission that awaits flow
      control with N_TIMEOUT_BS, one whose frame is held with N_TIMEOUT_A, a reception that
      awaits its peer with N_TIMEOUT_CR, one whose permission is held with N_TIMEOUT_A - for
      distances within half the counter. */
  lemma TimeoutsFire(cfg: Config, clock: nat -> nat, grant: nat -> bool, es: seq<Event>)
    ensures var s := Run(cfg, Start(clock, grant), es);
            && TxArmed(cfg, s.tx, s.w) && RxArmed(cfg, s.rx, s.w)
            && (s.canQ == [] ==>
                  var s1 := Process(cfg, s);
                  TxTimes(cfg, s, s1) && RxTimes(cfg, s, s1) && Held(cfg, s.tx, s.w, s1.tx, s1.w))
  {
    hide Run, Process, TxArmed, RxArmed, TxTimes, RxTimes, Reported;
    RunsInOrder(cfg, clock, grant, es);
    var s := Run(cfg, Start(clock, grant), es);
    if s.canQ == [] {
      TimesUp(cfg, s);
    }
  }
}
