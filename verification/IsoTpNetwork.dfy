/** Two instances facing each other over a link that keeps order but may lose any frame
    that is not a head frame (first or single): what one side delivers is, message for
    message and byte for byte, an ordered selection of what the other side was given. */
module IsoTpNetwork {
  import opened Options
  import opened Words
  import opened CanBus
  import opened IsoTpTypes
  import opened IsoTpCodec
  import opened IsoTpMachine
  import opened IsoTpSender
  import opened Subsequences

  // ---------------------------------------------------------------- the lossy link

  /** The link may lose consecutive frames and flow control, never a head frame. */
  predicate Droppable(t: Tag) {
    t.Control? || t.from > 0
  }

  /** fs is what is left of es after the link lost some droppable frames. */
  ghost predicate Lossy(fs: seq<Frame>, es: seq<Sent>)
    decreases |es|
  {
    if es == [] then fs == []
    else
      || (Droppable(es[0].tag) && Lossy(fs, es[1..]))
      || (fs != [] && fs[0] == es[0].frame && Lossy(fs[1..], es[1..]))
  }

  lemma {:induction false} LossyCarries(fs: seq<Frame>, es: seq<Sent>, e: Sent)
    requires Lossy(fs, es)
    ensures Lossy(fs + [e.frame], es + [e])
    ensures Droppable(e.tag) ==> Lossy(fs, es + [e])
    decreases |es|
  {
    if es == [] {
      assert [e][1..] == [] && ([] + [e.frame])[1..] == [];
      assert es + [e] == [e] && fs + [e.frame] == [e.frame];
    } else {
      assert (es + [e])[1..] == es[1..] + [e];
      if Droppable(es[0].tag) && Lossy(fs, es[1..]) {
        LossyCarries(fs, es[1..], e);
      } else {
        assert (fs + [e.frame])[1..] == fs[1..] + [e.frame];
        LossyCarries(fs[1..], es[1..], e);
      }
    }
  }

  // ---------------------------------------------------------------- what a receiver knows

  ghost function Cores(msgs: seq<Sdu>): seq<(Addressing, seq<byte>)> {
    seq(|msgs|, i requires 0 <= i < |msgs| => (msgs[i].ta, msgs[i].data))
  }

  ghost predicate Assembling(msgs: seq<Sdu>, lt: Tag, rx: Rx) {
    rx.state != RxIdle && lt.Data? && lt.n < |msgs| && msgs[lt.n].ta == Physical
  }

  /** How many messages may have been delivered once the data frame tagged lt has passed. */
  ghost function Passed(msgs: seq<Sdu>, lt: Tag, rx: Rx): nat {
    if lt.Control? then 0 else if Assembling(msgs, lt, rx) then lt.n else lt.n + 1
  }

  /** The receiver's bytes against the last data frame that passed: they are the sender's
      up to there, or a whole frame's share is already missing, or the message is over. */
  ghost predicate Assembled(src: Config, m: seq<byte>, to: nat, rx: Rx) {
    && rx.total == |m| && to <= |m|
    && (|| rx.acc == m[..to]
        || |rx.acc| + src.maxFrameLen - 1 <= to
        || to == |m|)
  }

  ghost predicate Heard(src: Config, msgs: seq<Sdu>, lt: Tag, rx: Rx, up: seq<Sdu>) {
    && (lt.Data? ==> lt.n < |msgs|)
    && (rx.state != RxIdle ==> lt.Data?)
    && (Assembling(msgs, lt, rx) ==> Assembled(src, msgs[lt.n].data, lt.to, rx))
    && Subsequence(Delivered(up), Cores(msgs[..Passed(msgs, lt, rx)]))
  }

  /** The receiving side accepts what the sending side transmits under. */
  ghost predicate Paired(src: Config, dst: Config) {
    src.physTxId == dst.physRxId && src.ch == dst.ch && src.extId == dst.extId
  }

  lemma CoresGrow(msgs: seq<Sdu>, a: nat, b: nat)
    requires a <= b <= |msgs|
    ensures Cores(msgs[..a]) <= Cores(msgs[..b])
  {}

  lemma CoresNext(msgs: seq<Sdu>, n: nat)
    requires n < |msgs|
    ensures Cores(msgs[..n + 1]) == Cores(msgs[..n]) + [(msgs[n].ta, msgs[n].data)]
  {}

  /** A bound that only grows keeps the selection. */
  lemma StillSelected(msgs: seq<Sdu>, up: seq<Sdu>, a: nat, b: nat)
    requires a <= b <= |msgs| && Subsequence(Delivered(up), Cores(msgs[..a]))
    ensures Subsequence(Delivered(up), Cores(msgs[..b]))
  {
    CoresGrow(msgs, a, b);
    SubsequenceGrows(Delivered(up), Cores(msgs[..a]), Cores(msgs[..b]));
  }

  /** Delivering the n-th message after a selection of the earlier ones. */
  lemma NowSelected(cfg: Config, msgs: seq<Sdu>, w: World, a: nat, n: nat)
    requires a <= n < |msgs| && Subsequence(Delivered(w.up), Cores(msgs[..a]))
    ensures var w1 := Publish(w, Received(cfg, msgs[n].ta, msgs[n].data));
            Subsequence(Delivered(w1.up), Cores(msgs[..n + 1]))
  {
    hide Cores;
    StillSelected(msgs, w.up, a, n);
    StillSelected(msgs, w.up, a, n + 1);
    CoresNext(msgs, n);
    SubsequenceBoth(Delivered(w.up), Cores(msgs[..n]), (msgs[n].ta, msgs[n].data));
    DeliveredGrows(w.up, Received(cfg, msgs[n].ta, msgs[n].data));
  }

  // ---------------------------------------------------------------- quiet steps

  ghost predicate Quiet(w: World, w1: World) {
    Delivered(w1.up) == Delivered(w.up)
  }

  lemma RxAbortQuiet(cfg: Config, rx: Rx, w: World, result: Outcome)
    requires result != N_OK
    ensures Quiet(w, RxAbort(cfg, rx, w, result).1)
  {}

  lemma TxEndQuiet(cfg: Config, tx: Tx, w: World, result: Outcome)
    ensures Quiet(w, TxEnd(cfg, tx, w, result).1)
  {}

  lemma ApplyFcQuiet(cfg: Config, tx: Tx, w: World, d: seq<byte>)
    requires TxOk(cfg, tx)
    ensures Quiet(w, ApplyFc(cfg, tx, w, d).1)
  {
    hide Quiet, TxEnd, Delivered;
    TxEndQuiet(cfg, tx, w, N_BUFFER_OVFLW);
    TxEndQuiet(cfg, tx, w, N_WFT_OVRN);
    TxEndQuiet(cfg, tx, w, N_INVALID_FS);
    SameUp(w, ApplyFc(cfg, tx, w, d).1);
  }

  lemma SameUp(w: World, w1: World)
    ensures w1.up == w.up ==> Quiet(w, w1)
  {}

  // ---------------------------------------------------------------- losing a frame

  /** The receiver does not see the next frame, or sees it and ignores it. */
  lemma Unheard(src: Config, msgs: seq<Sdu>, lt: Tag, e: Sent, rx: Rx, up: seq<Sdu>)
    requires Heard(src, msgs, lt, rx, up) && RxOk(rx)
    requires TagTrue(src, msgs, e) && Continues(lt, e.tag) && e.tag.Data? && e.tag.from > 0
    ensures Heard(src, msgs, e.tag, rx, up)
  {}

  // ---------------------------------------------------------------- hearing a frame

  lemma HearsFirst(src: Config, dst: Config, msgs: seq<Sdu>, n: nat, a: nat, rx: Rx, w: World)
    requires n < |msgs| && a <= n && msgs[n].ta == Physical && !IsSingle(src, msgs[n].data)
    requires RxOk(rx) && rx.state == RxIdle
    requires Subsequence(Delivered(w.up), Cores(msgs[..a]))
    ensures var m := msgs[n].data;
            var d := HeadFrame(src, TxId(src, msgs[n]), m).data;
            && 0 < |d| <= MAX_FD_LEN
            && var (rx1, w1) := RxFirst(dst, rx, w, d);
               Heard(src, msgs, Data(n, 0, HeadLoad(src, m), 0), rx1, w1.up)
  {
    hide HeadFrame, HeadLoad, Subsequence, Delivered, Cores, EmitFc;
    var m := msgs[n].data;
    FfReads(src, TxId(src, msgs[n]), m);
    var d := HeadFrame(src, TxId(src, msgs[n]), m).data;
    HeadFits(src, TxId(src, msgs[n]), m);
    StillSelected(msgs, w.up, a, n);
    StillSelected(msgs, w.up, a, n + 1);
    EmitFcUp(dst, w, FS_OVFLW, 0, 0);
    EmitFcUp(dst, Ask(w).1, FS_OVFLW, 0, 0);
    var rx1 := Rx(RxAssem, 1, 0, |m|, m[..HeadLoad(src, m)], Read(Ask(w).1).0 + dst.nCr);
    EmitCtsUp(dst, rx1, Read(Ask(w).1).1);
  }

  lemma HeadFits(cfg: Config, id: nat, m: seq<byte>)
    requires |m| < TWO_32
    ensures |HeadFrame(cfg, id, m).data| <= MAX_FD_LEN
  {}

  lemma EmitFcUp(cfg: Config, w: World, fs: byte, bs: byte, stmin: byte)
    ensures EmitFc(cfg, w, fs, bs, stmin).1.up == w.up
  {}

  lemma EmitCtsUp(cfg: Config, rx: Rx, w: World)
    ensures var (rx1, w1) := EmitCts(cfg, rx, w);
            w1.up == w.up && rx1.acc == rx.acc && rx1.total == rx.total && rx1.state != RxIdle
  {}

  lemma HearsConsecutive(src: Config, dst: Config, msgs: seq<Sdu>, lt: Tag, e: Sent, rx: Rx, w: World)
    requires Heard(src, msgs, lt, rx, w.up) && RxOk(rx)
    requires TagTrue(src, msgs, e) && Continues(lt, e.tag)
    requires e.tag.Data? && e.tag.from > 0 && msgs[e.tag.n].ta == Physical
    ensures 0 < |e.frame.data| <= MAX_FD_LEN && Kind(e.frame.data) == 2
    ensures var (rx1, w1) := RxConsecutive(dst, rx, w, e.frame.data);
            Heard(src, msgs, e.tag, rx1, w1.up)
  {
    hide CfFrame, HeadFrame, HeadLoad, Subsequence, Delivered, Cores, EmitFc;
    var n, m, from, to := e.tag.n, msgs[e.tag.n].data, e.tag.from, e.tag.to;
    CfReads(src, TxId(src, msgs[n]), m, from, e.tag.sn);
    var d := e.frame.data;
    if rx.state != RxAssem {
      Unheard(src, msgs, lt, e, rx, w.up);
    } else if d[0] % 16 != rx.sn {
      RxAbortQuiet(dst, rx, w, N_WRONG_SN);
      StillSelected(msgs, w.up, n, n + 1);
    } else {
      HearsNext(src, dst, msgs, lt, e, rx, w);
    }
  }

  /** The frame has the number the reception expects. */
  lemma HearsNext(src: Config, dst: Config, msgs: seq<Sdu>, lt: Tag, e: Sent, rx: Rx, w: World)
    requires Heard(src, msgs, lt, rx, w.up) && RxOk(rx) && rx.state == RxAssem
    requires TagTrue(src, msgs, e) && Continues(lt, e.tag)
    requires e.tag.Data? && e.tag.from > 0 && msgs[e.tag.n].ta == Physical
    requires 1 < |e.frame.data| <= MAX_FD_LEN && e.frame.data[0] % 16 == rx.sn == e.tag.sn % 16
    requires |e.frame.data| <= src.maxFrameLen
    requires CfTake(e.frame.data, |msgs[e.tag.n].data| - e.tag.from) == msgs[e.tag.n].data[e.tag.from..e.tag.to]
    ensures var (rx1, w1) := RxConsecutive(dst, rx, w, e.frame.data);
            Heard(src, msgs, e.tag, rx1, w1.up)
  {
    hide CfFrame, HeadFrame, HeadLoad, Subsequence, Delivered, Cores, EmitFc;
    var n, m, from, to := e.tag.n, msgs[e.tag.n].data, e.tag.from, e.tag.to;
    var d := e.frame.data;
    var (t, w1) := Read(w);
    var rx1 := rx.(acc := rx.acc + CfTake(d, rx.total - |rx.acc|), sn := (rx.sn + 1) % 16, deadline := t + dst.nCr);
    TakesBytes(src, m, from, to, d, rx, rx1);
    hide CfTake;
    if |rx1.acc| >= rx.total {
      assert rx1.acc == m;
      NowSelected(dst, msgs, w1, n, n);
    } else {
      EmitCtsUp(dst, rx1.(blockLeft := 0), w1);
    }
  }

  /** Taking a consecutive frame keeps the account of the bytes; the message fills up only
      when nothing was lost on the way. */
  lemma TakesBytes(src: Config, m: seq<byte>, from: nat, to: nat, d: seq<byte>, rx: Rx, rx1: Rx)
    requires Assembled(src, m, from, rx) && |rx.acc| < rx.total
    requires from < |m| && to == NextLoad(src, m, from)
    requires 1 < |d| <= src.maxFrameLen && CfTake(d, |m| - from) == m[from..to]
    requires rx1.total == rx.total && rx1.acc == rx.acc + CfTake(d, rx.total - |rx.acc|)
    ensures Assembled(src, m, to, rx1)
    ensures |rx1.acc| >= rx.total ==> rx1.acc == m
  {}

  /** The receiver hears the next frame of the sender's log. */
  lemma IntakeHears(src: Config, dst: Config, msgs: seq<Sdu>, lt: Tag, e: Sent, rx: Rx, tx: Tx, w: World)
    requires Paired(src, dst) && RxOk(rx) && TxOk(dst, tx)
    requires Heard(src, msgs, lt, rx, w.up)
    requires TagTrue(src, msgs, e) && Continues(lt, e.tag)
    ensures var (rx1, _, w1) := Intake(dst, rx, tx, w, e.frame);
            Heard(src, msgs, if e.tag.Data? then e.tag else lt, rx1, w1.up)
  {
    hide Heard, CfFrame, HeadFrame, HeadLoad, RxFrame, ApplyFc, RxSingle, Quiet;
    if e.tag.Control? {
      ApplyFcQuiet(dst, tx, w, e.frame.data);
      QuietHeard(src, msgs, lt, rx, w, ApplyFc(dst, tx, w, e.frame.data).1);
    } else {
      FrameAddress(src, msgs, e);
      if e.tag.from == 0 {
        if msgs[e.tag.n].ta == Physical {
          HearsHead(src, dst, msgs, lt, e, rx, w);
        } else {
          HearsFunctional(src, dst, msgs, lt, e, rx, tx, w);
        }
      } else if msgs[e.tag.n].ta == Physical {
        HearsConsecutive(src, dst, msgs, lt, e, rx, w);
        assert RxFrame(dst, rx, w, e.frame.data) == RxConsecutive(dst, rx, w, e.frame.data) by {
          KindTwo(dst, rx, w, e.frame.data);
        }
      } else {
        CfKind(src, msgs, e);
        Unheard(src, msgs, lt, e, rx, w.up);
      }
    }
  }

  lemma KindTwo(cfg: Config, rx: Rx, w: World, d: seq<byte>)
    requires 0 < |d| <= MAX_FD_LEN && RxOk(rx) && Kind(d) == 2
    ensures RxFrame(cfg, rx, w, d) == RxConsecutive(cfg, rx, w, d)
  {}

  lemma CfKind(src: Config, msgs: seq<Sdu>, e: Sent)
    requires TagTrue(src, msgs, e) && e.tag.Data? && e.tag.from > 0
    ensures |e.frame.data| > 0 && Kind(e.frame.data) == 2
  {}

  lemma QuietHeard(src: Config, msgs: seq<Sdu>, lt: Tag, rx: Rx, w: World, w1: World)
    requires Heard(src, msgs, lt, rx, w.up) && Quiet(w, w1)
    ensures Heard(src, msgs, lt, rx, w1.up)
  {}

  lemma FrameAddress(src: Config, msgs: seq<Sdu>, e: Sent)
    requires TagTrue(src, msgs, e) && e.tag.Data?
    ensures e.frame.id == TxId(src, msgs[e.tag.n]) && e.frame.ch == src.ch && e.frame.isExt == src.extId
  {}

  lemma HearsHead(src: Config, dst: Config, msgs: seq<Sdu>, lt: Tag, e: Sent, rx: Rx, w: World)
    requires Heard(src, msgs, lt, rx, w.up) && RxOk(rx)
    requires TagTrue(src, msgs, e) && Continues(lt, e.tag)
    requires e.tag.Data? && e.tag.from == 0 && msgs[e.tag.n].ta == Physical
    ensures 0 < |e.frame.data| <= MAX_FD_LEN && Kind(e.frame.data) < 2
    ensures var (rx1, w1) := RxFrame(dst, rx, w, e.frame.data);
            Heard(src, msgs, e.tag, rx1, w1.up)
  {
    hide HeadFrame, HeadLoad, Subsequence, Delivered, Cores, RxFirst, RxSingle, SfLen;
    var n, m, d := e.tag.n, msgs[e.tag.n].data, e.frame.data;
    var a := Passed(msgs, lt, rx);
    RxAbortQuiet(dst, rx, w, N_UNEXP_PDU);
    var (rx1, w1) := RxAbort(dst, rx, w, N_UNEXP_PDU);
    HeadFits(src, TxId(src, msgs[n]), m);
    if IsSingle(src, m) {
      SfReads(src, TxId(src, msgs[n]), m);
      HearsSingle(src, dst, msgs, n, a, w1);
    } else {
      FfReads(src, TxId(src, msgs[n]), m);
      HearsFirst(src, dst, msgs, n, a, rx1, w1);
    }
  }

  lemma HearsSingle(src: Config, dst: Config, msgs: seq<Sdu>, n: nat, a: nat, w: World)
    requires n < |msgs| && a <= n && IsSingle(src, msgs[n].data)
    requires Subsequence(Delivered(w.up), Cores(msgs[..a]))
    ensures var d := HeadFrame(src, TxId(src, msgs[n]), msgs[n].data).data;
            && 0 < |d| <= MAX_FD_LEN
            && Subsequence(Delivered(RxSingle(dst, w, msgs[n].ta, d).up), Cores(msgs[..n + 1]))
  {
    hide HeadFrame, SfLen, Subsequence, Cores, Delivered, Publish;
    var m := msgs[n].data;
    SfReads(src, TxId(src, msgs[n]), m);
    var d := HeadFrame(src, TxId(src, msgs[n]), m).data;
    HeadFits(src, TxId(src, msgs[n]), m);
    StillSelected(msgs, w.up, a, n + 1);
    if SfLen(d).Some? {
      var (len, hdr) := SfLen(d).value;
      assert d[hdr..hdr + len] == d[hdr..][..len];
      NowSelected(dst, msgs, w, a, n);
    }
  }

  /** A functional head frame is delivered when single and ignored otherwise; either way
      it leaves the physical reception alone. */
  lemma HearsFunctional(src: Config, dst: Config, msgs: seq<Sdu>, lt: Tag, e: Sent, rx: Rx, tx: Tx, w: World)
    requires Paired(src, dst) && RxOk(rx) && TxOk(dst, tx)
    requires Heard(src, msgs, lt, rx, w.up)
    requires TagTrue(src, msgs, e) && Continues(lt, e.tag)
    requires e.tag.Data? && e.tag.from == 0 && msgs[e.tag.n].ta == Functional
    requires e.frame.id == TxId(src, msgs[e.tag.n])
    ensures var (rx1, _, w1) := Intake(dst, rx, tx, w, e.frame);
            Heard(src, msgs, e.tag, rx1, w1.up)
  {
    hide HeadFrame, HeadLoad, Subsequence, Delivered, Cores, SfLen, RxSingle, RxFrame, ApplyFc;
    var n, m, d := e.tag.n, msgs[e.tag.n].data, e.frame.data;
    var a := Passed(msgs, lt, rx);
    StillSelected(msgs, w.up, a, n + 1);
    if IsSingle(src, m) {
      SfReads(src, TxId(src, msgs[n]), m);
      HearsSingle(src, dst, msgs, n, a, w);
    } else {
      FfReads(src, TxId(src, msgs[n]), m);
    }
  }

  // ---------------------------------------------------------------- draining the queue

  lemma {:induction false} DrainHears(src: Config, dst: Config, msgs: seq<Sdu>, log: seq<Sent>, seen: nat, upto: nat,
                                      rx: Rx, tx: Tx, w: World, fs: seq<Frame>)
    requires Paired(src, dst) && RxOk(rx) && TxOk(dst, tx)
    requires seen <= upto <= |log| && LogTrue(src, msgs, log)
    requires Lossy(fs, log[seen..upto])
    requires Heard(src, msgs, LastTag(log[..seen]), rx, w.up)
    ensures var (rx1, _, w1) := Drain(dst, rx, tx, w, fs);
            Heard(src, msgs, LastTag(log[..upto]), rx1, w1.up)
    decreases upto - seen
  {
    hide Heard, TagTrue, Continues, Intake;
    var es := log[seen..upto];
    if seen < upto {
      var e := log[seen];
      assert es[0] == e && es[1..] == log[seen + 1..upto];
      assert log[..seen + 1][..seen] == log[..seen];
      var lt, lt1 := LastTag(log[..seen]), LastTag(log[..seen + 1]);
      assert lt1 == if e.tag.Data? then e.tag else lt;
      if Droppable(e.tag) && Lossy(fs, es[1..]) {
        if e.tag.Data? {
          Unheard(src, msgs, lt, e, rx, w.up);
        }
        DrainHears(src, dst, msgs, log, seen + 1, upto, rx, tx, w, fs);
      } else {
        IntakeHears(src, dst, msgs, lt, e, rx, tx, w);
        var (rx1, tx1, w1) := Intake(dst, rx, tx, w, fs[0]);
        DrainHears(src, dst, msgs, log, seen + 1, upto, rx1, tx1, w1, fs[1..]);
      }
    }
  }

  // ---------------------------------------------------------------- one direction of the network

  /** The link from one instance to the other: how many of the sender's frames it has
      moved (or lost), and how many of those the receiver has drained. */
  datatype Wire = Wire(seen: nat, moved: nat)

  ghost predicate Linked(src: Config, a: Inst, dst: Config, b: Inst, wire: Wire) {
    && InstOk(src, a) && InstOk(dst, b)
    && SenderInv(src, a.tx, a.w)
    && wire.seen <= wire.moved <= |a.w.log|
    && Lossy(b.canQ, a.w.log[wire.seen..wire.moved])
    && Heard(src, Taken(a.tx, a.w), LastTag(a.w.log[..wire.seen]), b.rx, b.w.up)
  }

  lemma HeardGrows(src: Config, msgs: seq<Sdu>, msgs1: seq<Sdu>, lt: Tag, rx: Rx, up: seq<Sdu>)
    requires Heard(src, msgs, lt, rx, up) && msgs <= msgs1
    ensures Heard(src, msgs1, lt, rx, up)
  {
    hide Subsequence, Delivered, Cores;
    assert Passed(msgs1, lt, rx) == Passed(msgs, lt, rx);
    assert msgs1[..Passed(msgs, lt, rx)] == msgs[..Passed(msgs, lt, rx)];
  }

  lemma SenderProcesses(src: Config, a: Inst, dst: Config, b: Inst, wire: Wire)
    requires Linked(src, a, dst, b, wire)
    ensures Linked(src, Process(src, a), dst, b, wire)
  {
    hide Process, SenderInv, Heard, Lossy, Taken, LastTag, InstOk;
    ProcessKeeps(src, a);
    var a1 := Process(src, a);
    assert a1.w.log[wire.seen..wire.moved] == a.w.log[wire.seen..wire.moved];
    assert a1.w.log[..wire.seen] == a.w.log[..wire.seen];
    HeardGrows(src, Taken(a.tx, a.w), Taken(a1.tx, a1.w), LastTag(a.w.log[..wire.seen]), b.rx, b.w.up);
  }

  /** What the receiving instance does outside its receive queue delivers nothing. */
  lemma GuardsHear(src: Config, dst: Config, msgs: seq<Sdu>, lt: Tag, rx: Rx, w: World, now: nat)
    requires Heard(src, msgs, lt, rx, w.up) && RxOk(rx)
    ensures var (rx1, w1) := RxGuards(dst, rx, w, now);
            Heard(src, msgs, lt, rx1, w1.up)
  {
    hide Subsequence, Delivered, Cores, EmitCts;
    RxAbortQuiet(dst, rx, w, N_TIMEOUT_CR);
    RxAbortQuiet(dst, rx, w, N_TIMEOUT_A);
    EmitCtsUp(dst, rx, w);
    if Assembling(msgs, lt, rx) {
      StillSelected(msgs, w.up, lt.n, lt.n + 1);
    }
  }

  lemma ReceiverProcesses(src: Config, a: Inst, dst: Config, b: Inst, wire: Wire)
    requires Paired(src, dst) && Linked(src, a, dst, b, wire) && SenderInv(dst, b.tx, b.w)
    ensures Linked(src, a, dst, Process(dst, b), wire.(seen := wire.moved))
  {
    hide SenderInv, Heard, LastTag, Drain, RxGuards, TxGuards, RequestTx, Delivered, Taken, LogTrue;
    var msgs, log := Taken(a.tx, a.w), a.w.log;
    assert LogTrue(src, msgs, log) by { LogIsTrue(src, a.tx, a.w); }
    var lt := LastTag(log[..wire.moved]);
    DrainHears(src, dst, msgs, log, wire.seen, wire.moved, b.rx, b.tx, b.w, b.canQ);
    DrainKeeps(dst, b.rx, b.tx, b.w, b.canQ);
    var (rx1, tx1, w1) := Drain(dst, b.rx, b.tx, b.w, b.canQ);
    var (now, w2) := Read(w1);
    SameProgress(dst, tx1, w1, tx1, w2);
    GuardsHear(src, dst, msgs, lt, rx1, w2, now);
    RxGuardsControl(dst, rx1, w2, now);
    var (rx2, w3) := RxGuards(dst, rx1, w2, now);
    ControlKeeps(dst, tx1, w2, w3);
    TxGuardsKeeps(dst, tx1, w3, now);
    var (tx2, w4) := TxGuards(dst, tx1, w3, now);
    RequestTxKeeps(dst, tx2, w4, b.sduQ, Budget(dst));
    var (_, w5, _, _) := RequestTx(dst, tx2, w4, b.sduQ, Budget(dst));
    assert Quiet(w3, w5);
    QuietHeard(src, msgs, lt, rx2, w3, w5);
    assert log[wire.moved..wire.moved] == [];
  }

  lemma LogIsTrue(cfg: Config, tx: Tx, w: World)
    requires SenderInv(cfg, tx, w)
    ensures LogTrue(cfg, Taken(tx, w), w.log)
  {}

  // ---------------------------------------------------------------- the whole network

  datatype Net = Net(a: Inst, b: Inst, ab: Wire, ba: Wire)

  /** What can happen next: a side calls process, is given a message to send, or the link
      moves (or loses) one frame in one direction. */
  datatype Move = ProcessA | ProcessB | GiveA(s: Sdu) | GiveB(s: Sdu) | CarryAB(lose: bool) | CarryBA(lose: bool)

  /** The link moves the sender's next frame into the receiver's queue, or loses it. */
  ghost function Carry(a: Inst, b: Inst, wire: Wire, lose: bool): (Inst, Wire) {
    if wire.moved >= |a.w.log| then (b, wire)
    else
      var e := a.w.log[wire.moved];
      if !lose then (b.(canQ := b.canQ + [e.frame]), wire.(moved := wire.moved + 1))
      else if Droppable(e.tag) then (b, wire.(moved := wire.moved + 1))
      else (b, wire)
  }

  lemma CarryKeeps(src: Config, a: Inst, dst: Config, b: Inst, wire: Wire, lose: bool)
    requires Linked(src, a, dst, b, wire)
    ensures var (b1, wire1) := Carry(a, b, wire, lose); Linked(src, a, dst, b1, wire1)
  {
    hide SenderInv, Heard, LastTag, Taken, RxOk, TxOk;
    if wire.moved < |a.w.log| {
      var e := a.w.log[wire.moved];
      LossyCarries(b.canQ, a.w.log[wire.seen..wire.moved], e);
      assert a.w.log[wire.seen..wire.moved + 1] == a.w.log[wire.seen..wire.moved] + [e];
    }
  }

  ghost predicate NetOk(cfgA: Config, cfgB: Config, n: Net) {
    Linked(cfgA, n.a, cfgB, n.b, n.ab) && Linked(cfgB, n.b, cfgA, n.a, n.ba)
  }

  ghost function NetStep(cfgA: Config, cfgB: Config, n: Net, m: Move): (r: Net)
    requires InstOk(cfgA, n.a) && InstOk(cfgB, n.b)
    ensures InstOk(cfgA, r.a) && InstOk(cfgB, r.b)
  {
    match m
    case ProcessA => n.(a := Process(cfgA, n.a), ba := n.ba.(seen := n.ba.moved))
    case ProcessB => n.(b := Process(cfgB, n.b), ab := n.ab.(seen := n.ab.moved))
    case GiveA(s) => n.(a := n.a.(sduQ := n.a.sduQ + [s]))
    case GiveB(s) => n.(b := n.b.(sduQ := n.b.sduQ + [s]))
    case CarryAB(lose) => var (b1, wire) := Carry(n.a, n.b, n.ab, lose); n.(b := b1, ab := wire)
    case CarryBA(lose) => var (a1, wire) := Carry(n.b, n.a, n.ba, lose); n.(a := a1, ba := wire)
  }

  lemma Irrelevant(src: Config, a: Inst, dst: Config, b: Inst, wire: Wire, a1: Inst, b1: Inst)
    requires Linked(src, a, dst, b, wire)
    requires a1.rx == a.rx && a1.tx == a.tx && a1.w == a.w
    requires b1.rx == b.rx && b1.tx == b.tx && b1.w == b.w && b1.canQ == b.canQ
    ensures Linked(src, a1, dst, b1, wire)
  {
    hide SenderInv, Heard, RxOk, TxOk;
  }

  lemma NetStepKeeps(cfgA: Config, cfgB: Config, n: Net, m: Move)
    requires Paired(cfgA, cfgB) && Paired(cfgB, cfgA) && NetOk(cfgA, cfgB, n)
    ensures NetOk(cfgA, cfgB, NetStep(cfgA, cfgB, n, m))
    ensures var n1 := NetStep(cfgA, cfgB, n, m);
            && Taken(n1.a.tx, n1.a.w) + n1.a.sduQ
               == Taken(n.a.tx, n.a.w) + n.a.sduQ + (if m.GiveA? then [m.s] else [])
            && Taken(n1.b.tx, n1.b.w) + n1.b.sduQ
               == Taken(n.b.tx, n.b.w) + n.b.sduQ + (if m.GiveB? then [m.s] else [])
  {
    hide Process, SenderInv, Taken, Heard, Lossy, LastTag, InstOk;
    var n1 := NetStep(cfgA, cfgB, n, m);
    match m
    case ProcessA =>
      ProcessKeeps(cfgA, n.a);
      SenderProcesses(cfgA, n.a, cfgB, n.b, n.ab);
      ReceiverProcesses(cfgB, n.b, cfgA, n.a, n.ba);
    case ProcessB =>
      ProcessKeeps(cfgB, n.b);
      SenderProcesses(cfgB, n.b, cfgA, n.a, n.ba);
      ReceiverProcesses(cfgA, n.a, cfgB, n.b, n.ab);
    case GiveA(_) =>
      Irrelevant(cfgA, n.a, cfgB, n.b, n.ab, n1.a, n.b);
      Irrelevant(cfgB, n.b, cfgA, n.a, n.ba, n.b, n1.a);
    case GiveB(_) =>
      Irrelevant(cfgA, n.a, cfgB, n.b, n.ab, n.a, n1.b);
      Irrelevant(cfgB, n.b, cfgA, n.a, n.ba, n1.b, n.a);
    case CarryAB(lose) =>
      CarryKeeps(cfgA, n.a, cfgB, n.b, n.ab, lose);
      Irrelevant(cfgB, n.b, cfgA, n.a, n.ba, n1.b, n.a);
    case CarryBA(lose) =>
      CarryKeeps(cfgB, n.b, cfgA, n.a, n.ba, lose);
      Irrelevant(cfgA, n.a, cfgB, n.b, n.ab, n1.a, n.b);
  }

  ghost function NetRun(cfgA: Config, cfgB: Config, n: Net, ms: seq<Move>): (r: Net)
    requires InstOk(cfgA, n.a) && InstOk(cfgB, n.b)
    ensures InstOk(cfgA, r.a) && InstOk(cfgB, r.b)
    decreases |ms|
  {
    if ms == [] then n
    else NetStep(cfgA, cfgB, NetRun(cfgA, cfgB, n, ms[..|ms| - 1]), ms[|ms| - 1])
  }

  ghost function GivenTo(ms: seq<Move>, a: bool): seq<Sdu> {
    if ms == [] then []
    else
      var m := ms[|ms| - 1];
      GivenTo(ms[..|ms| - 1], a)
      + if a && m.GiveA? then [m.s] else if !a && m.GiveB? then [m.s] else []
  }

  ghost function Fresh(clockA: nat -> nat, grantA: nat -> bool, clockB: nat -> nat, grantB: nat -> bool): Net {
    Net(Start(clockA, grantA), Start(clockB, grantB), Wire(0, 0), Wire(0, 0))
  }

  lemma {:induction false} NetRunKeeps(cfgA: Config, cfgB: Config, clockA: nat -> nat, grantA: nat -> bool,
                                       clockB: nat -> nat, grantB: nat -> bool, ms: seq<Move>)
    requires Paired(cfgA, cfgB) && Paired(cfgB, cfgA)
    ensures var n := NetRun(cfgA, cfgB, Fresh(clockA, grantA, clockB, grantB), ms);
            && NetOk(cfgA, cfgB, n)
            && Taken(n.a.tx, n.a.w) + n.a.sduQ == GivenTo(ms, true)
            && Taken(n.b.tx, n.b.w) + n.b.sduQ == GivenTo(ms, false)
    decreases |ms|
  {
    hide NetStep, NetOk, Taken;
    var n0 := Fresh(clockA, grantA, clockB, grantB);
    if ms == [] {
      FreshOk(cfgA, cfgB, n0);
    } else {
      NetRunKeeps(cfgA, cfgB, clockA, grantA, clockB, grantB, ms[..|ms| - 1]);
      NetStepKeeps(cfgA, cfgB, NetRun(cfgA, cfgB, n0, ms[..|ms| - 1]), ms[|ms| - 1]);
    }
  }

  lemma FreshOk(cfgA: Config, cfgB: Config, n: Net)
    requires n == Fresh(n.a.w.clock, n.a.w.grant, n.b.w.clock, n.b.w.grant)
    ensures NetOk(cfgA, cfgB, n) && Taken(n.a.tx, n.a.w) == [] && Taken(n.b.tx, n.b.w) == []
  {
    hide HeadLoad, SegmentOf;
    EmptyLog(cfgA);
    EmptyLog(cfgB);
    assert Taken(n.a.tx, n.a.w) == [] && Taken(n.b.tx, n.b.w) == [];
  }

  /** Over every interleaving of calls, readings, refusals, exhausted pools, timeouts and
      lost consecutive or flow control frames, each side's complete indications are an
      ordered selection of the messages the other side was given: same addressing, same
      bytes, none invented, none repeated, none reordered. Losing any number of consecutive
      frames - sixteen included, which the sequence number cannot notice - never completes
      a message. */
  lemma DeliveryIsFaithful(cfgA: Config, cfgB: Config, clockA: nat -> nat, grantA: nat -> bool,
                           clockB: nat -> nat, grantB: nat -> bool, ms: seq<Move>)
    requires Paired(cfgA, cfgB) && Paired(cfgB, cfgA)
    ensures var n := NetRun(cfgA, cfgB, Fresh(clockA, grantA, clockB, grantB), ms);
            && Subsequence(Delivered(n.b.w.up), Cores(GivenTo(ms, true)))
            && Subsequence(Delivered(n.a.w.up), Cores(GivenTo(ms, false)))
  {
    hide NetRun, SenderInv, Lossy;
    NetRunKeeps(cfgA, cfgB, clockA, grantA, clockB, grantB, ms);
    var n := NetRun(cfgA, cfgB, Fresh(clockA, grantA, clockB, grantB), ms);
    SelectedOfGiven(cfgA, Taken(n.a.tx, n.a.w), n.a.sduQ, LastTag(n.a.w.log[..n.ab.seen]), n.b.rx, n.b.w.up);
    SelectedOfGiven(cfgB, Taken(n.b.tx, n.b.w), n.b.sduQ, LastTag(n.b.w.log[..n.ba.seen]), n.a.rx, n.a.w.up);
  }

  lemma SelectedOfGiven(src: Config, msgs: seq<Sdu>, q: seq<Sdu>, lt: Tag, rx: Rx, up: seq<Sdu>)
    requires Heard(src, msgs, lt, rx, up)
    ensures Subsequence(Delivered(up), Cores(msgs + q))
  {
    hide Subsequence, Delivered;
    var k := Passed(msgs, lt, rx);
    assert (msgs + q)[..k] == msgs[..k];
    assert (msgs + q)[..|msgs + q|] == msgs + q;
    StillSelected(msgs + q, up, k, |msgs + q|);
  }
}
