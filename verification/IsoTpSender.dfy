/** What the transmit side puts on the link, over every run: for each message it takes, the
    frames of Segment in order, all of them when it reports N_OK and a strict prefix of
    them otherwise. */
module IsoTpSender {
  import opened Options
  import opened Words
  import opened CanBus
  import opened IsoTpTypes
  import opened IsoTpCodec
  import opened IsoTpMachine

  /** Every message taken from the send queue so far, the one in flight last. */
  ghost function Taken(tx: Tx, w: World): seq<Sdu> {
    seq(|w.done|, i requires 0 <= i < |w.done| => w.done[i].0)
    + if tx.sdu.Some? then [tx.sdu.value] else []
  }

  /** The frames of the n-th message, in the order the link took them. */
  ghost function FramesOf(log: seq<Sent>, n: nat): seq<Frame> {
    if log == [] then []
    else
      var e := log[|log| - 1];
      FramesOf(log[..|log| - 1], n) + if e.tag.Data? && e.tag.n == n then [e.frame] else []
  }

  /** The tag of the last data frame on the link; Control when there is none. */
  ghost function LastTag(log: seq<Sent>): Tag {
    if log == [] then Control
    else if log[|log| - 1].tag.Data? then log[|log| - 1].tag
    else LastTag(log[..|log| - 1])
  }

  /** The frames still owed for the message in flight. */
  ghost function Remaining(cfg: Config, tx: Tx): seq<Frame>
    requires tx.sdu.Some? && tx.sent <= |tx.sdu.value.data|
  {
    if tx.sent == 0 then Segment(cfg, tx.id, tx.sdu.value.data)
    else ConsecutiveFrames(cfg, tx.id, tx.sdu.value.data, tx.sent, tx.sn)
  }

  ghost function SegmentOf(cfg: Config, s: Sdu): seq<Frame> {
    Segment(cfg, TxId(cfg, s), s.data)
  }

  /** Finished transmissions: complete when reported N_OK, cut short otherwise. */
  ghost predicate Settled(cfg: Config, w: World) {
    forall n :: 0 <= n < |w.done| ==>
      var fs, seg := FramesOf(w.log, n), SegmentOf(cfg, w.done[n].0);
      if w.done[n].1 == N_OK then fs == seg else fs < seg
  }

  /** A log entry is the frame its tag says it is. */
  ghost predicate TagTrue(cfg: Config, msgs: seq<Sdu>, e: Sent) {
    match e.tag
    case Control => |e.frame.data| > 0 && Kind(e.frame.data) == 3
    case Data(n, from, to, sn) =>
      n < |msgs| &&
      var m, id := msgs[n].data, TxId(cfg, msgs[n]);
      if from == 0 then e.frame == HeadFrame(cfg, id, m) && to == HeadLoad(cfg, m)
      else
        && !IsSingle(cfg, m) && HeadLoad(cfg, m) <= from < |m|
        && e.frame == CfFrame(cfg, id, m, from, sn) && to == NextLoad(cfg, m, from)
  }

  /** A head frame starts a later message; any other continues the last data frame. */
  ghost predicate Continues(prev: Tag, t: Tag) {
    t.Data? ==>
      if t.from == 0 then prev.Control? || prev.n < t.n
      else prev.Data? && prev.n == t.n && prev.to == t.from
  }

  ghost predicate LogTrue(cfg: Config, msgs: seq<Sdu>, log: seq<Sent>) {
    forall i :: 0 <= i < |log| ==> TagTrue(cfg, msgs, log[i]) && Continues(LastTag(log[..i]), log[i].tag)
  }

  /** Payload of k full consecutive frames. */
  function Shares(k: nat, share: nat): nat {
    k * share
  }

  /** Where the message in flight stands, and how its fields encode it. */
  ghost predicate InFlight(cfg: Config, tx: Tx, w: World) {
    var fs := FramesOf(w.log, |w.done|);
    var lt := LastTag(w.log);
    if tx.sdu == None || tx.sent == 0 then fs == [] && (lt.Data? ==> lt.n < |w.done|)
    else
      var m := tx.sdu.value.data;
      && 0 < tx.sent <= |m|
      && fs != []
      && fs + Remaining(cfg, tx) == SegmentOf(cfg, tx.sdu.value)
      && tx.sn == |fs| % 16
      && (tx.sent < |m| ==> tx.sent == HeadLoad(cfg, m) + Shares(|fs| - 1, cfg.maxFrameLen - 1))
      && lt.Data? && lt.n == |w.done| && lt.to == tx.sent
  }

  ghost predicate SenderInv(cfg: Config, tx: Tx, w: World) {
    && LogTrue(cfg, Taken(tx, w), w.log)
    && Settled(cfg, w)
    && (tx.sdu.Some? ==> tx.id == TxId(cfg, tx.sdu.value))
    && (forall n :: |w.done| < n ==> FramesOf(w.log, n) == [])
    && InFlight(cfg, tx, w)
  }

  // ---------------------------------------------------------------- growing the log

  /** w1 is w after things only this side's receiver does. */
  ghost predicate OnlyControl(w: World, w1: World) {
    && w1.done == w.done && w1.trace == w.trace && w1.clock == w.clock && w1.grant == w.grant
    && w.ticks <= w1.ticks && w.offers <= w1.offers
    && w.log <= w1.log
    && w.up <= w1.up
    && (forall i :: |w.log| <= i < |w1.log| ==>
          w1.log[i].tag.Control? && |w1.log[i].frame.data| > 0 && Kind(w1.log[i].frame.data) == 3)
  }

  lemma {:induction false} ControlIsInvisible(log: seq<Sent>, log1: seq<Sent>)
    requires log <= log1
    requires forall i :: |log| <= i < |log1| ==> log1[i].tag.Control?
    ensures LastTag(log1) == LastTag(log)
    ensures forall n :: FramesOf(log1, n) == FramesOf(log, n)
    decreases |log1|
  {
    if |log1| == |log| {
      assert log1 == log;
    } else {
      ControlIsInvisible(log, log1[..|log1| - 1]);
    }
  }

  lemma TagStaysTrue(cfg: Config, msgs: seq<Sdu>, msgs1: seq<Sdu>, e: Sent)
    requires TagTrue(cfg, msgs, e) && msgs <= msgs1
    ensures TagTrue(cfg, msgs1, e)
  {
    hide BuildFrame, HeadLoad, NextLoad, SfCapacity;
  }

  lemma LogTrueExtends(cfg: Config, msgs: seq<Sdu>, msgs1: seq<Sdu>, log: seq<Sent>, e: Sent)
    requires LogTrue(cfg, msgs, log) && msgs <= msgs1
    requires TagTrue(cfg, msgs1, e) && Continues(LastTag(log), e.tag)
    ensures LogTrue(cfg, msgs1, log + [e])
  {
    hide TagTrue, Continues;
    var log1 := log + [e];
    forall i | 0 <= i < |log1|
      ensures TagTrue(cfg, msgs1, log1[i]) && Continues(LastTag(log1[..i]), log1[i].tag)
    {
      if i < |log| {
        TagStaysTrue(cfg, msgs, msgs1, log[i]);
        assert log1[i] == log[i] && log1[..i] == log[..i];
      } else {
        assert log1[..i] == log;
      }
    }
  }

  lemma {:induction false} LogTrueUnderControl(cfg: Config, msgs: seq<Sdu>, w: World, w1: World)
    requires LogTrue(cfg, msgs, w.log) && OnlyControl(w, w1)
    ensures LogTrue(cfg, msgs, w1.log)
    decreases |w1.log|
  {
    if |w1.log| == |w.log| {
      assert w1.log == w.log;
    } else {
      var k := |w1.log| - 1;
      LogTrueUnderControl(cfg, msgs, w, w1.(log := w1.log[..k]));
      LogTrueExtends(cfg, msgs, msgs, w1.log[..k], w1.log[k]);
      assert w1.log == w1.log[..k] + [w1.log[k]];
    }
  }

  lemma ControlKeeps(cfg: Config, tx: Tx, w: World, w1: World)
    requires SenderInv(cfg, tx, w) && OnlyControl(w, w1)
    ensures SenderInv(cfg, tx, w1) && Taken(tx, w1) == Taken(tx, w)
  {
    ControlIsInvisible(w.log, w1.log);
    LogTrueUnderControl(cfg, Taken(tx, w), w, w1);
  }

  // ---------------------------------------------------------------- the receiver's side

  lemma OfferControl(cfg: Config, w: World, fs: byte, bs: byte, stmin: byte)
    requires fs < 16
    ensures OnlyControl(w, EmitFc(cfg, w, fs, bs, stmin).1)
  {
    FcReads(cfg, fs, bs, stmin);
  }

  lemma EmitCtsControl(cfg: Config, rx: Rx, w: World)
    ensures OnlyControl(w, EmitCts(cfg, rx, w).1)
  {
    OfferControl(cfg, w, FS_CTS, cfg.rxBlockSize, cfg.rxStmin);
  }

  lemma RxFrameControl(cfg: Config, rx: Rx, w: World, d: seq<byte>)
    requires 0 < |d| <= MAX_FD_LEN && RxOk(rx)
    ensures OnlyControl(w, RxFrame(cfg, rx, w, d).1)
  {
    hide RxFirst, RxConsecutive, SfLen;
    if Kind(d) == 1 {
      var (rx1, w1) := RxAbort(cfg, rx, w, N_UNEXP_PDU);
      assert OnlyControl(w, w1);
      RxFirstControl(cfg, rx1, w1, d);
    } else if Kind(d) == 2 {
      RxConsecutiveControl(cfg, rx, w, d);
    }
  }

  lemma RxFirstControl(cfg: Config, rx: Rx, w: World, d: seq<byte>)
    requires 0 < |d| <= MAX_FD_LEN && rx.state == RxIdle && RxOk(rx)
    ensures OnlyControl(w, RxFirst(cfg, rx, w, d).1)
  {
    if FfLen(d).Some? {
      var (total, hdr) := FfLen(d).value;
      if TooLong(cfg, total) {
        OfferControl(cfg, w, FS_OVFLW, 0, 0);
      } else {
        var (ok, w1) := Ask(w);
        if !ok {
          OfferControl(cfg, w1, FS_OVFLW, 0, 0);
        } else {
          var (t, w2) := Read(w1);
          EmitCtsControl(cfg, Rx(RxAssem, 1, 0, total, FfTake(d, total, hdr), t + cfg.nCr), w2);
        }
      }
    }
  }

  lemma RxConsecutiveControl(cfg: Config, rx: Rx, w: World, d: seq<byte>)
    requires 0 < |d| <= MAX_FD_LEN && RxOk(rx)
    ensures OnlyControl(w, RxConsecutive(cfg, rx, w, d).1)
  {
    var (t, w1) := Read(w);
    var rx1 := rx.(acc := rx.acc + CfTake(d, rx.total - |rx.acc|),
                   sn := (rx.sn + 1) % 16, deadline := t + cfg.nCr);
    if |rx1.acc| < rx.total && rx.blockLeft == 1 {
      EmitCtsControl(cfg, rx1.(blockLeft := 0), w1);
    }
  }

  lemma RxGuardsControl(cfg: Config, rx: Rx, w: World, now: nat)
    requires RxOk(rx)
    ensures OnlyControl(w, RxGuards(cfg, rx, w, now).1)
  {
    EmitCtsControl(cfg, rx, w);
  }

  // ---------------------------------------------------------------- the sender's side

  /** The complete messages handed to the upper layer: how addressed, and the payload. */
  ghost function Delivered(up: seq<Sdu>): seq<(Addressing, seq<byte>)> {
    if up == [] then []
    else
      var s := up[|up| - 1];
      Delivered(up[..|up| - 1])
      + if s.kind == Indication && s.result == N_OK then [(s.ta, s.data)] else []
  }

  lemma DeliveredGrows(up: seq<Sdu>, s: Sdu)
    ensures Delivered(up + [s]) == Delivered(up)
              + if s.kind == Indication && s.result == N_OK then [(s.ta, s.data)] else []
  {
    assert (up + [s])[..|up|] == up;
  }

  /** The transmit side moved on: what it extends, and nothing delivered on the way. */
  ghost predicate TxExtends(tx: Tx, w: World, tx1: Tx, w1: World) {
    Extends(tx, w, tx1, w1) && Delivered(w1.up) == Delivered(w.up)
  }

  /** w1 and tx1 extend w and tx: the same messages taken, and nothing logged is lost. */
  ghost predicate Extends(tx: Tx, w: World, tx1: Tx, w1: World) {
    && Taken(tx1, w1) == Taken(tx, w)
    && w.log <= w1.log
    && w.done <= w1.done
    && w1.clock == w.clock && w1.grant == w.grant && w.ticks <= w1.ticks
  }

  lemma TxEndKeeps(cfg: Config, tx: Tx, w: World, result: Outcome)
    requires SenderInv(cfg, tx, w)
    requires tx.sdu.Some? ==> (result == N_OK <==> tx.sent == |tx.sdu.value.data| && tx.sent > 0)
    ensures var (tx1, w1) := TxEnd(cfg, tx, w, result);
            SenderInv(cfg, tx1, w1) && TxExtends(tx, w, tx1, w1)
  {
    hide LogTrue, HeadFrame, CfFrame, HeadLoad, SegmentOf, Remaining, FramesOf, Delivered, LastTag;
    var (tx1, w1) := TxEnd(cfg, tx, w, result);
    if tx.sdu.Some? {
      DeliveredGrows(w.up, Report(cfg, Confirm, result));
      assert w1.log == w.log && w1.done == w.done + [(tx.sdu.value, result)];
      assert Taken(tx1, w1) == Taken(tx, w);
      Outcomes(cfg, tx, w, result);
    }
  }

  /** Nothing is owed exactly when the last byte is on the link. */
  lemma Outcomes(cfg: Config, tx: Tx, w: World, result: Outcome)
    requires InFlight(cfg, tx, w) && tx.sdu.Some? && tx.id == TxId(cfg, tx.sdu.value)
    requires result == N_OK <==> tx.sent == |tx.sdu.value.data| && tx.sent > 0
    ensures var fs, seg := FramesOf(w.log, |w.done|), SegmentOf(cfg, tx.sdu.value);
            if result == N_OK then fs == seg else fs < seg
  {
    hide HeadFrame, CfFrame, HeadLoad, NextLoad;
    var fs := FramesOf(w.log, |w.done|);
    assert fs + Remaining(cfg, tx) == SegmentOf(cfg, tx.sdu.value);
  }

  /** What a head frame the link took does to the log. */
  lemma HeadAccepted(cfg: Config, tx: Tx, w: World, w1: World)
    requires SenderInv(cfg, tx, w) && tx.sdu.Some? && tx.sent == 0
    requires var m := tx.sdu.value.data;
             w1.log == w.log + [Sent(HeadFrame(cfg, tx.id, m), Data(|w.done|, 0, HeadLoad(cfg, m), 0), w.ticks)]
    requires w1.done == w.done
    ensures LogTrue(cfg, Taken(tx, w), w1.log) && Settled(cfg, w1)
    ensures forall n :: |w1.done| < n ==> FramesOf(w1.log, n) == []
    ensures FramesOf(w1.log, |w.done|) == [HeadFrame(cfg, tx.id, tx.sdu.value.data)]
    ensures LastTag(w1.log).Data? && LastTag(w1.log).n == |w.done|
            && LastTag(w1.log).to == HeadLoad(cfg, tx.sdu.value.data)
  {
    hide LogTrue, HeadFrame, Remaining, CfFrame, HeadLoad;
    var m := tx.sdu.value.data;
    var e := Sent(HeadFrame(cfg, tx.id, m), Data(|w.done|, 0, HeadLoad(cfg, m), 0), w.ticks);
    assert Taken(tx, w)[|w.done|] == tx.sdu.value;
    LogTrueExtends(cfg, Taken(tx, w), Taken(tx, w), w.log, e);
    GrowsByOne(w.log, e);
    forall n | 0 <= n < |w1.done|
      ensures FramesOf(w1.log, n) == FramesOf(w.log, n)
    {}
  }

  lemma OfferHeadKeeps(cfg: Config, tx: Tx, w: World)
    requires SenderInv(cfg, tx, w)
    requires tx.sdu.Some? && tx.sent == 0 && tx.sn == 1 && tx.bs < 256 && tx.wft < 256
    ensures var (tx1, w1, _) := OfferHead(cfg, tx, w);
            SenderInv(cfg, tx1, w1) && TxExtends(tx, w, tx1, w1)
  {
    hide LogTrue, Settled, HeadFrame, HeadLoad, CfFrame;
    var m := tx.sdu.value.data;
    var (ok, w1) := Offer(w, HeadFrame(cfg, tx.id, m), Data(|w.done|, 0, HeadLoad(cfg, m), 0));
    if ok {
      HeadAccepted(cfg, tx, w, w1);
      if IsSingle(cfg, m) {
        SingleEnds(cfg, tx, w, w1);
      } else {
        var tx1 := tx.(sent := HeadLoad(cfg, m));
        assert 0 < HeadLoad(cfg, m) < |m|;
        assert Taken(tx1, w1) == Taken(tx, w);
        assert SenderInv(cfg, tx1, w1);
        var (tx2, w2, _) := OfferHead(cfg, tx, w);
        SameProgress(cfg, tx1, w1, tx2, w2);
      }
    } else {
      var (tx1, w2) := TxHold(cfg, tx, w1);
      SameProgress(cfg, tx, w, tx1, w2);
    }
  }

  lemma SingleEnds(cfg: Config, tx: Tx, w: World, w1: World)
    requires SenderInv(cfg, tx, w) && tx.sdu.Some? && tx.sent == 0 && IsSingle(cfg, tx.sdu.value.data)
    requires w1.up == w.up && w1.done == w.done && w.log <= w1.log && w1.ticks == w.ticks && w1.clock == w.clock && w1.grant == w.grant
    requires LogTrue(cfg, Taken(tx, w), w1.log) && Settled(cfg, w1)
    requires forall n :: |w1.done| < n ==> FramesOf(w1.log, n) == []
    requires FramesOf(w1.log, |w.done|) == [HeadFrame(cfg, tx.id, tx.sdu.value.data)]
    requires LastTag(w1.log).Data? && LastTag(w1.log).n == |w.done|
    ensures var (tx1, w2) := TxEnd(cfg, tx, w1, N_OK);
            SenderInv(cfg, tx1, w2) && Extends(tx, w, tx1, w2)
  {
    hide LogTrue, HeadFrame, CfFrame, Delivered;
    DeliveredGrows(w1.up, Report(cfg, Confirm, N_OK));
    var (tx1, w2) := TxEnd(cfg, tx, w1, N_OK);
    assert Taken(tx1, w2) == Taken(tx, w);
    assert FramesOf(w1.log, |w.done|) == SegmentOf(cfg, tx.sdu.value);
  }

  /** The log grown by one data frame. */
  lemma GrowsByOne(log: seq<Sent>, e: Sent)
    requires e.tag.Data?
    ensures LastTag(log + [e]) == e.tag
    ensures forall n :: FramesOf(log + [e], n) == FramesOf(log, n) + if n == e.tag.n then [e.frame] else []
  {
    assert (log + [e])[..|log|] == log;
  }

  /** A consecutive frame the link took moves one frame from owed to accepted. */
  lemma OfferCfKeeps(cfg: Config, tx: Tx, w: World, at: nat)
    requires SenderInv(cfg, tx, w) && TxOk(cfg, tx) && tx.sdu.Some? && tx.sent > 0
    requires OfferCf(cfg, tx, w).0
    ensures SenderInv(cfg, Advanced(cfg, tx, at), OfferCf(cfg, tx, w).1)
    ensures TxExtends(tx, w, Advanced(cfg, tx, at), OfferCf(cfg, tx, w).1)
  {
    hide LogTrue, InFlight, CfFrame, HeadFrame, HeadLoad, TagTrue, Continues, SegmentOf;
    var m := tx.sdu.value.data;
    var e := Sent(CfFrame(cfg, tx.id, m, tx.sent, tx.sn),
                  Data(|w.done|, tx.sent, NextLoad(cfg, m, tx.sent), tx.sn), w.ticks);
    var w1 := OfferCf(cfg, tx, w).1;
    assert w1.log == w.log + [e];
    CfLogged(cfg, tx, w);
    LogTrueExtends(cfg, Taken(tx, w), Taken(tx, w), w.log, e);
    GrowsByOne(w.log, e);
    assert Settled(cfg, w1) by {
      forall n | 0 <= n < |w1.done|
        ensures FramesOf(w1.log, n) == FramesOf(w.log, n)
      {}
    }
    CfProgress(cfg, tx, w, w1, at);
  }

  lemma CfLogged(cfg: Config, tx: Tx, w: World)
    requires SenderInv(cfg, tx, w) && TxOk(cfg, tx) && tx.sdu.Some? && tx.sent > 0
    ensures var m := tx.sdu.value.data;
            var e := Sent(CfFrame(cfg, tx.id, m, tx.sent, tx.sn),
                          Data(|w.done|, tx.sent, NextLoad(cfg, m, tx.sent), tx.sn), w.ticks);
            TagTrue(cfg, Taken(tx, w), e) && Continues(LastTag(w.log), e.tag)
  {
    hide LogTrue, Settled, CfFrame, HeadFrame, SegmentOf, Remaining;
    assert Taken(tx, w)[|w.done|] == tx.sdu.value;
  }

  lemma CfProgress(cfg: Config, tx: Tx, w: World, w1: World, at: nat)
    requires SenderInv(cfg, tx, w) && TxOk(cfg, tx) && tx.sdu.Some? && tx.sent > 0
    requires var m := tx.sdu.value.data;
             && FramesOf(w1.log, |w.done|) == FramesOf(w.log, |w.done|) + [CfFrame(cfg, tx.id, m, tx.sent, tx.sn)]
             && LastTag(w1.log) == Data(|w.done|, tx.sent, NextLoad(cfg, m, tx.sent), tx.sn)
    requires w1.done == w.done
    ensures InFlight(cfg, Advanced(cfg, tx, at), w1)
  {
    hide LogTrue, Settled, CfFrame, HeadFrame, HeadLoad, SegmentOf, FramesOf, Remaining, Shares;
    var m := tx.sdu.value.data;
    var fs, fs1 := FramesOf(w.log, |w.done|), FramesOf(w1.log, |w.done|);
    OwesOneLess(cfg, tx, at);
    assert fs1 + Remaining(cfg, Advanced(cfg, tx, at)) == fs + Remaining(cfg, tx);
    OneMoreShare(|fs| - 1, cfg.maxFrameLen - 1);
  }

  lemma OwesOneLess(cfg: Config, tx: Tx, at: nat)
    requires TxOk(cfg, tx) && tx.sdu.Some? && tx.sent > 0
    ensures Remaining(cfg, tx)
         == [CfFrame(cfg, tx.id, tx.sdu.value.data, tx.sent, tx.sn)] + Remaining(cfg, Advanced(cfg, tx, at))
  {
    hide CfFrame, HeadLoad;
  }

  lemma OneMoreShare(k: nat, share: nat)
    ensures Shares(k + 1, share) == Shares(k, share) + share
  {}

  /** Fields that neither the log nor the message depends on are free to change. */
  lemma SameProgress(cfg: Config, tx: Tx, w: World, tx1: Tx, w1: World)
    requires SenderInv(cfg, tx, w)
    requires tx1.sdu == tx.sdu && tx1.sent == tx.sent && tx1.sn == tx.sn && tx1.id == tx.id
    requires w1.log == w.log && w1.done == w.done
    ensures SenderInv(cfg, tx1, w1) && Taken(tx1, w1) == Taken(tx, w)
  {
    hide LogTrue, SegmentOf, FramesOf, HeadLoad;
    assert Taken(tx1, w1) == Taken(tx, w);
  }

  lemma {:induction false} SendLoopKeeps(cfg: Config, tx: Tx, w: World, now: nat, emitted: nat, budget: nat)
    requires SenderInv(cfg, tx, w) && TxOk(cfg, tx) && tx.state == TxSend
    ensures var (tx1, w1, _) := SendLoop(cfg, tx, w, now, emitted, budget);
            SenderInv(cfg, tx1, w1) && TxExtends(tx, w, tx1, w1)
    decreases |tx.sdu.value.data| - tx.sent
  {
    hide SenderInv, Delivered, Taken, HeadLoad, CfFrame;
    if !(emitted >= budget || (tx.stmin > 0 && Diff32(now, tx.last) < tx.stmin)) {
      var (ok, w1) := OfferCf(cfg, tx, w);
      if ok {
        OfferCfKeeps(cfg, tx, w, now);
        var tx1 := Advanced(cfg, tx, now);
        var (now1, w2) := Read(w1.(trace := w1.trace + [PaceCf(now)]));
        var tx2 := tx1.(bs := if tx.bs > 0 then tx.bs - 1 else 0);
        SameProgress(cfg, tx1, w1, tx2, w2);
        if AllSent(tx2) {
          TxEndKeeps(cfg, tx2, w2, N_OK);
        } else if tx.bs != 1 {
          SendLoopKeeps(cfg, tx2, w2, now1, emitted + 1, budget);
        } else {
          SameProgress(cfg, tx2, w2, tx2.(state := TxWaitFc, deadline := now1 + cfg.nBs), w2);
        }
      } else {
        var (tx1, w2) := TxHold(cfg, tx, w1);
        SameProgress(cfg, tx, w, tx1, w2);
      }
    }
  }

  lemma SendingKeeps(cfg: Config, tx: Tx, w: World, emitted: nat, budget: nat)
    requires SenderInv(cfg, tx, w) && TxOk(cfg, tx)
    ensures var (tx1, w1, _) := Sending(cfg, tx, w, emitted, budget);
            SenderInv(cfg, tx1, w1) && TxExtends(tx, w, tx1, w1)
  {
    if tx.state == TxSend {
      var (now, w1) := Read(w);
      SameProgress(cfg, tx, w, tx, w1);
      SendLoopKeeps(cfg, tx, w1, now, emitted, budget);
    }
  }

  lemma RetryCfKeeps(cfg: Config, tx: Tx, w: World, budget: nat)
    requires SenderInv(cfg, tx, w) && TxOk(cfg, tx) && tx.state == TxWaitLink && tx.sent > 0
    ensures var (tx1, w1, _) := RetryCf(cfg, tx, w, budget);
            SenderInv(cfg, tx1, w1) && TxExtends(tx, w, tx1, w1)
  {
    hide SenderInv, Delivered, Taken, HeadLoad;
    var (ok, w1) := OfferCf(cfg, tx, w);
    if ok {
      var (t, w2) := Read(w1);
      var w3 := w2.(trace := w2.trace + [PaceCf(t)]);
      OfferCfKeeps(cfg, tx, w, t);
      var tx1 := Advanced(cfg, tx, t).(state := TxSend);
      SameProgress(cfg, Advanced(cfg, tx, t), w1, tx1, w3);
      if AllSent(tx1) {
        TxEndKeeps(cfg, tx1, w3, N_OK);
      } else if tx.bs != 1 {
        var tx2 := tx1.(bs := if tx.bs > 0 then tx.bs - 1 else 0);
        SameProgress(cfg, tx1, w3, tx2, w3);
        SendingKeeps(cfg, tx2, w3, 1, budget);
      } else {
        SameProgress(cfg, tx1, w3, tx1.(bs := 0, state := TxWaitFc, deadline := t + cfg.nBs), w3);
      }
    } else {
      SameProgress(cfg, tx, w, tx, w1);
    }
  }

  lemma PulledKeeps(cfg: Config, tx: Tx, w: World, s: Sdu)
    requires SenderInv(cfg, tx, w) && tx.sdu == None
    ensures var tx1 := Pulled(cfg, tx, s);
            SenderInv(cfg, tx1, w) && Taken(tx1, w) == Taken(tx, w) + [s]
  {
    hide TagTrue, SegmentOf, FramesOf;
    var tx1 := Pulled(cfg, tx, s);
    assert Taken(tx1, w) == Taken(tx, w) + [s];
    forall i | 0 <= i < |w.log|
      ensures TagTrue(cfg, Taken(tx1, w), w.log[i])
    {
      TagStaysTrue(cfg, Taken(tx, w), Taken(tx1, w), w.log[i]);
    }
  }

  lemma RequestTxKeeps(cfg: Config, tx: Tx, w: World, q: seq<Sdu>, budget: nat)
    requires SenderInv(cfg, tx, w) && TxOk(cfg, tx)
    ensures var (tx1, w1, q1, _) := RequestTx(cfg, tx, w, q, budget);
            && SenderInv(cfg, tx1, w1)
            && Taken(tx1, w1) + q1 == Taken(tx, w) + q && Taken(tx, w) <= Taken(tx1, w1)
            && w.log <= w1.log && w.done <= w1.done && Delivered(w1.up) == Delivered(w.up)
            && w1.clock == w.clock && w1.grant == w.grant && w.ticks <= w1.ticks
  {
    hide SenderInv, Taken, OfferHead, RetryCf, Sending;
    if tx.state == TxIdle {
      if q != [] {
        PulledKeeps(cfg, tx, w, q[0]);
        OfferHeadKeeps(cfg, Pulled(cfg, tx, q[0]), w);
        assert q == [q[0]] + q[1..];
      }
    } else if tx.state == TxWaitLink {
      if tx.sent == 0 {
        OfferHeadKeeps(cfg, tx, w);
      } else {
        RetryCfKeeps(cfg, tx, w, budget);
      }
    } else {
      SendingKeeps(cfg, tx, w, 0, budget);
    }
  }

  // ---------------------------------------------------------------- whole calls

  lemma ApplyFcKeeps(cfg: Config, tx: Tx, w: World, d: seq<byte>)
    requires SenderInv(cfg, tx, w) && TxOk(cfg, tx)
    ensures var (tx1, w1) := ApplyFc(cfg, tx, w, d);
            SenderInv(cfg, tx1, w1) && TxExtends(tx, w, tx1, w1)
  {
    hide SenderInv;
    var (tx1, w1) := ApplyFc(cfg, tx, w, d);
    if tx.state == TxWaitFc && |d| >= 3 {
      assert tx.sent < |tx.sdu.value.data|;
      if tx1.sdu == None {
        TxEndKeeps(cfg, tx, w, if d[0] % 16 == FS_OVFLW then N_BUFFER_OVFLW
                               else if d[0] % 16 == FS_WAIT then N_WFT_OVRN else N_INVALID_FS);
      } else {
        SameProgress(cfg, tx, w, tx1, w1);
      }
    }
  }

  lemma TxGuardsKeeps(cfg: Config, tx: Tx, w: World, now: nat)
    requires SenderInv(cfg, tx, w) && TxOk(cfg, tx)
    ensures var (tx1, w1) := TxGuards(cfg, tx, w, now);
            SenderInv(cfg, tx1, w1) && TxExtends(tx, w, tx1, w1)
  {
    hide SenderInv;
    if tx.state == TxWaitFc && Expired(now, tx.deadline) {
      TxEndKeeps(cfg, tx, w, N_TIMEOUT_BS);
    } else if tx.state == TxWaitLink && Expired(now, tx.deadline) {
      TxEndKeeps(cfg, tx, w, N_TIMEOUT_A);
    }
  }

  lemma RxSingleControl(cfg: Config, w: World, ta: Addressing, d: seq<byte>)
    requires 0 < |d| <= MAX_FD_LEN
    ensures OnlyControl(w, RxSingle(cfg, w, ta, d))
  {}

  lemma IntakeKeeps(cfg: Config, rx: Rx, tx: Tx, w: World, f: Frame)
    requires SenderInv(cfg, tx, w) && TxOk(cfg, tx) && RxOk(rx)
    ensures var (_, tx1, w1) := Intake(cfg, rx, tx, w, f);
            SenderInv(cfg, tx1, w1) && Extends(tx, w, tx1, w1)
  {
    hide SenderInv, RxSingle, RxFrame, ApplyFc;
    var d := f.data;
    if |d| > 0 {
      ApplyFcKeeps(cfg, tx, w, d);
      RxFrameControl(cfg, rx, w, d);
      ControlKeeps(cfg, tx, w, RxFrame(cfg, rx, w, d).1);
      RxSingleControl(cfg, w, Functional, d);
      ControlKeeps(cfg, tx, w, RxSingle(cfg, w, Functional, d));
    }
  }

  lemma {:induction false} DrainKeeps(cfg: Config, rx: Rx, tx: Tx, w: World, fs: seq<Frame>)
    requires SenderInv(cfg, tx, w) && TxOk(cfg, tx) && RxOk(rx)
    ensures var (_, tx1, w1) := Drain(cfg, rx, tx, w, fs);
            SenderInv(cfg, tx1, w1) && Extends(tx, w, tx1, w1)
    decreases |fs|
  {
    hide SenderInv, Intake, Taken;
    if fs != [] {
      IntakeKeeps(cfg, rx, tx, w, fs[0]);
      var (rx1, tx1, w1) := Intake(cfg, rx, tx, w, fs[0]);
      DrainKeeps(cfg, rx1, tx1, w1, fs[1..]);
    }
  }

  /** What one call of process leaves behind, seen from the send side. */
  lemma ProcessKeeps(cfg: Config, s: Inst)
    requires InstOk(cfg, s) && SenderInv(cfg, s.tx, s.w)
    ensures var s1 := Process(cfg, s);
            && SenderInv(cfg, s1.tx, s1.w)
            && Taken(s1.tx, s1.w) + s1.sduQ == Taken(s.tx, s.w) + s.sduQ
            && Taken(s.tx, s.w) <= Taken(s1.tx, s1.w)
            && s.w.log <= s1.w.log
  {
    hide SenderInv, Taken, Drain, RxGuards, TxGuards, RequestTx;
    DrainKeeps(cfg, s.rx, s.tx, s.w, s.canQ);
    var (rx1, tx1, w1) := Drain(cfg, s.rx, s.tx, s.w, s.canQ);
    var (now, w2) := Read(w1);
    SameProgress(cfg, tx1, w1, tx1, w2);
    RxGuardsControl(cfg, rx1, w2, now);
    var (rx2, w3) := RxGuards(cfg, rx1, w2, now);
    ControlKeeps(cfg, tx1, w2, w3);
    TxGuardsKeeps(cfg, tx1, w3, now);
    var (tx2, w4) := TxGuards(cfg, tx1, w3, now);
    RequestTxKeeps(cfg, tx2, w4, s.sduQ, Budget(cfg));
  }

  /** The messages the upper layer queued during a run, in order. */
  ghost function Given(es: seq<Event>): seq<Sdu> {
    if es == [] then []
    else
      var e := es[|es| - 1];
      Given(es[..|es| - 1]) + if e.Give? then [e.s] else []
  }

  /** Over every run, whatever the clock, the refusals, the flow controls and the frames
      that arrive: messages are taken in the order they were queued, the frames each put on
      the link are all of Segment when it is reported N_OK and a strict prefix of it
      otherwise, and the frames of the one in flight together with those it still owes are
      Segment - so a frame offered again after a refusal is the same frame. */
  lemma {:induction false} SenderRefinesSegment(cfg: Config, clock: nat -> nat, grant: nat -> bool, es: seq<Event>)
    ensures var s := Run(cfg, Start(clock, grant), es);
            && SenderInv(cfg, s.tx, s.w)
            && Settled(cfg, s.w)
            && (s.tx.sdu.Some? ==>
                  FramesOf(s.w.log, |s.w.done|) + Remaining(cfg, s.tx) == SegmentOf(cfg, s.tx.sdu.value))
            && Taken(s.tx, s.w) + s.sduQ == Given(es)
    decreases |es|
  {
    hide Process, SegmentOf, SenderInv, Taken, Remaining, Step;
    var s0 := Start(clock, grant);
    if es == [] {
      NothingSent(cfg, clock, grant);
    } else {
      var k := |es| - 1;
      SenderRefinesSegment(cfg, clock, grant, es[..k]);
      StepKeepsSender(cfg, Run(cfg, s0, es[..k]), es[k], Given(es[..k]));
    }
    SenderFacts(cfg, Run(cfg, s0, es));
  }

  lemma NothingSent(cfg: Config, clock: nat -> nat, grant: nat -> bool)
    ensures var s := Start(clock, grant); SenderInv(cfg, s.tx, s.w) && Taken(s.tx, s.w) + s.sduQ == []
  {
    hide LogTrue;
    EmptyLog(cfg);
    var s := Start(clock, grant);
    assert Taken(s.tx, s.w) == [];
  }

  lemma StepKeepsSender(cfg: Config, s: Inst, e: Event, given: seq<Sdu>)
    requires InstOk(cfg, s) && SenderInv(cfg, s.tx, s.w) && Taken(s.tx, s.w) + s.sduQ == given
    ensures var s1 := Step(cfg, s, e);
            SenderInv(cfg, s1.tx, s1.w) && Taken(s1.tx, s1.w) + s1.sduQ == given + if e.Give? then [e.s] else []
  {
    hide Process, SenderInv, Taken;
    if e.Tick? {
      ProcessKeeps(cfg, s);
    }
  }

  lemma SenderFacts(cfg: Config, s: Inst)
    requires InstOk(cfg, s) && SenderInv(cfg, s.tx, s.w)
    ensures Settled(cfg, s.w)
    ensures s.tx.sdu.Some? ==>
              && s.tx.sent <= |s.tx.sdu.value.data|
              && FramesOf(s.w.log, |s.w.done|) + Remaining(cfg, s.tx) == SegmentOf(cfg, s.tx.sdu.value)
  {
    hide SegmentOf, LogTrue, HeadLoad, Remaining, FramesOf;
    if s.tx.sdu.Some? {
      OwedAndAccepted(cfg, s.tx, s.w);
    }
  }

  lemma EmptyLog(cfg: Config)
    ensures LogTrue(cfg, [], [])
  {}

  lemma OwedAndAccepted(cfg: Config, tx: Tx, w: World)
    requires InFlight(cfg, tx, w) && tx.sdu.Some? && tx.id == TxId(cfg, tx.sdu.value)
    ensures tx.sent <= |tx.sdu.value.data|
    ensures FramesOf(w.log, |w.done|) + Remaining(cfg, tx) == SegmentOf(cfg, tx.sdu.value)
  {
    hide HeadFrame, CfFrame, HeadLoad;
  }
}
