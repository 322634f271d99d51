/** What one frame makes of the conversation it belongs to: which answer a first frame draws and
    what that answer does to the sender, why a transmission ends, why a reception fails. */
module IsoTpAnswers {
  import opened Options
  import opened Words
  import opened CanBus
  import opened IsoTpTypes
  import opened IsoTpCodec
  import opened IsoTpMachine
  import opened IsoTpReports
  import opened IsoTpNetwork

  /** The frame comes from the instance's own peer. */
  ghost predicate FromPeer(cfg: Config, f: Frame) {
    f.ch == cfg.ch && f.isExt == cfg.extId && f.id == cfg.physRxId && |f.data| > 0
  }

  // ---------------------------------------------------------------- answering a first frame

  /** A first frame the peer built for a message draws one answer: refusal, if and only if the message
      is longer than the instance accepts or there is no block for it, and permission otherwise;
      with permission goes a reception that holds what the frame brought. An answer the link
      refuses is lost, if it was a refusal, and held otherwise. */
  lemma FirstFrameIsAnswered(src: Config, dst: Config, m: seq<byte>, rx: Rx, tx: Tx, w: World)
    requires Paired(src, dst) && |m| < TWO_32 && !IsSingle(src, m)
    requires RxOk(rx) && TxOk(dst, tx) && rx.state == RxIdle
    ensures var (rx1, tx1, w1) := Intake(dst, rx, tx, w, HeadFrame(src, src.physTxId, m));
            var refused := TooLong(dst, |m|) || !w.grant(w.offers);
            && tx1 == tx && w1.done == w.done && w1.up == w.up && (rx1.state == RxIdle <==> refused)
            && (refused ==>
                  w1.log == w.log + if w.grant(w.offers + if TooLong(dst, |m|) then 0 else 1)
                                    then [Sent(Refusal(dst), Control, w.ticks)] else [])
            && (!refused ==>
                  && rx1.total == |m| && rx1.acc == m[..HeadLoad(src, m)] && rx1.sn == 1
                  && (rx1.state == RxAssem <==> w.grant(w.offers + 1))
                  && w1.log == w.log + if w.grant(w.offers + 1) then [Sent(Permission(dst), Control, w.ticks + 1)] else [])
  {
    hide FcFrame, HeadFrame, HeadLoad, FfLen, FfPci, FfTake;
    FfReads(src, src.physTxId, m);
    HeadComesFrom(src, dst, m);
    NotAllYet(src, m);
  }

  lemma HeadComesFrom(src: Config, dst: Config, m: seq<byte>)
    requires Paired(src, dst) && |m| < TWO_32
    ensures FromPeer(dst, HeadFrame(src, src.physTxId, m)) && |HeadFrame(src, src.physTxId, m).data| <= MAX_FD_LEN
  {}

  lemma NotAllYet(src: Config, m: seq<byte>)
    requires |m| < TWO_32 && !IsSingle(src, m)
    ensures 0 < HeadLoad(src, m) < |m|
  {}

  // ---------------------------------------------------------------- heeding the answer

  /** A sender that awaits flow control heeds the peer's answer: permission makes it send on, in
      blocks and with the separation of the peer's configuration; refusal ends the message with
      N_BUFFER_OVFLW. */
  lemma AnswerIsHeeded(cfg: Config, peer: Config, rx: Rx, tx: Tx, w: World)
    requires Paired(peer, cfg) && RxOk(rx) && TxOk(cfg, tx) && tx.state == TxWaitFc
    ensures var (rx1, tx1, w1) := Intake(cfg, rx, tx, w, Permission(peer));
            && rx1 == rx && tx1.state == TxSend && tx1.sdu == tx.sdu && tx1.sent == tx.sent && w1.done == w.done
            && tx1.bs == peer.rxBlockSize && tx1.stmin == StminToUs(peer.rxStmin)
            && w1.trace == w.trace + [PaceCts(peer.rxBlockSize, StminToUs(peer.rxStmin))]
    ensures tx.sdu.Some? &&
            var (rx1, tx1, w1) := Intake(cfg, rx, tx, w, Refusal(peer));
            && rx1 == rx && tx1.state == TxIdle && w1.done == w.done + [(tx.sdu.value, N_BUFFER_OVFLW)]
  {
    hide BuildFrame, HeadLoad;
    FcReads(peer, FS_CTS, peer.rxBlockSize, peer.rxStmin);
    FcReads(peer, FS_OVFLW, 0, 0);
    FcComesFrom(peer, cfg);
    hide FcFrame;
  }

  lemma FcComesFrom(src: Config, dst: Config)
    requires Paired(src, dst)
    ensures forall fs: byte, bs: byte, stmin: byte :: FromPeer(dst, FcFrame(src, fs, bs, stmin))
  {}

  /** What flow control ends a transmission with: refusal, one wait too many, or a status that
      means nothing. */
  ghost function Verdict(cfg: Config, tx: Tx, d: seq<byte>): Option<Outcome>
    requires |d| >= 3
  {
    if d[0] % 16 == FS_OVFLW then Some(N_BUFFER_OVFLW)
    else if d[0] % 16 == FS_WAIT && cfg.nWftMax < 255 && tx.wft == cfg.nWftMax then Some(N_WFT_OVRN)
    else if d[0] % 16 > FS_OVFLW then Some(N_INVALID_FS)
    else None
  }

  /** Whatever the status of a flow control frame: a waiting transmission ends by it if and only if
      the status, or the number of waits, says so, and with the result that says so; a wait that
      is tolerated gives the peer another N_Bs from then on; a frame too short is nothing. */
  lemma StatusDecides(cfg: Config, rx: Rx, tx: Tx, w: World, f: Frame)
    requires RxOk(rx) && TxOk(cfg, tx) && tx.state == TxWaitFc && tx.wft <= cfg.nWftMax
    requires FromPeer(cfg, f) && Kind(f.data) == 3
    ensures tx.sdu.Some?
    ensures var (rx1, tx1, w1) := Intake(cfg, rx, tx, w, f);
            && rx1 == rx
            && (|f.data| < 3 ==> tx1 == tx && w1 == w)
            && (|f.data| >= 3 ==>
                  var v := Verdict(cfg, tx, f.data);
                  && (tx1.state == TxIdle <==> v.Some?)
                  && w1.done == w.done + (if v.Some? then [(tx.sdu.value, v.value)] else [])
                  && (tx1.state == TxSend <==> f.data[0] % 16 == FS_CTS)
                  && (tx1.state == TxWaitFc ==>
                        tx1.sent == tx.sent && tx1.deadline == w.clock(w.ticks) + cfg.nBs && w1.trace == w.trace + [PaceWait]))
  {
    hide HeadLoad;
  }

  // ---------------------------------------------------------------- why a reception fails

  /** Why a frame ends the reception it finds under way, if it does: it starts another message, or is
      not the one expected next. */
  ghost function Breaks(rx: Rx, d: seq<byte>): Option<Outcome>
    requires |d| > 0
  {
    if rx.state != RxIdle && Kind(d) <= 1 then Some(N_UNEXP_PDU)
    else if rx.state == RxAssem && Kind(d) == 2 && d[0] % 16 != rx.sn then Some(N_WRONG_SN)
    else None
  }

  /** A failure is indicated if and only if the frame breaks a reception, reporting is on and there is
      room, and the reason given is the reason; everything else indicated is a message. */
  lemma FailureIsIndicatedIff(cfg: Config, rx: Rx, tx: Tx, w: World, f: Frame)
    requires RxOk(rx) && TxOk(cfg, tx) && FromPeer(cfg, f) && Kind(f.data) != 3
    ensures var (rx1, tx1, w1) := Intake(cfg, rx, tx, w, f);
            var why, n := Breaks(rx, f.data), |w.up|;
            var told := why.Some? && cfg.confirmTx && w.grant(w.offers);
            && tx1 == tx && w1.done == w.done && w.up <= w1.up
            && (told ==> |w1.up| > n && w1.up[n] == Report(cfg, Indication, why.value))
            && (forall i :: n <= i < |w1.up| && (told ==> i > n) ==> IsMessage(cfg, w1.up[i]))
            && (why == Some(N_WRONG_SN) ==> rx1.state == RxIdle && rx1.acc == [])
  {
    hide FcFrame, SfLen, FfLen, RxFirst, CfTake, EmitCts;
    var d := f.data;
    if Kind(d) == 1 {
      var (rx1, w1) := RxAbort(cfg, rx, w, N_UNEXP_PDU);
      FirstTellsNothingBad(cfg, rx1, w1, d);
    } else if Kind(d) == 2 && rx.state == RxAssem && d[0] % 16 == rx.sn {
      NextTellsNothingBad(cfg, rx, w, d);
    }
  }

  /** A message from the peer, under this instance's link. */
  ghost predicate IsMessage(cfg: Config, s: Sdu) {
    s.kind == Indication && s.result == N_OK && s.ta == Physical && s.link == cfg.link
  }

  /** Only whole messages are handed up. */
  ghost predicate OnlyMessages(cfg: Config, w: World, w1: World) {
    && w1.done == w.done && w.up <= w1.up
    && forall i :: |w.up| <= i < |w1.up| ==> IsMessage(cfg, w1.up[i])
  }

  lemma FirstTellsNothingBad(cfg: Config, rx: Rx, w: World, d: seq<byte>)
    requires 0 < |d| <= MAX_FD_LEN && rx.state == RxIdle && RxOk(rx)
    ensures OnlyMessages(cfg, w, RxFirst(cfg, rx, w, d).1)
  {
    hide FcFrame, FfLen, FfTake;
  }

  lemma NextTellsNothingBad(cfg: Config, rx: Rx, w: World, d: seq<byte>)
    requires 0 < |d| <= MAX_FD_LEN && RxOk(rx) && rx.state == RxAssem && d[0] % 16 == rx.sn
    ensures OnlyMessages(cfg, w, RxConsecutive(cfg, rx, w, d).1)
  {
    hide FcFrame, CfTake;
  }

  // ---------------------------------------------------------------- whose frames count

  /** The frame is one of those sent to everybody this instance listens to. */
  ghost predicate ToEverybody(cfg: Config, f: Frame) {
    cfg.funcRxId != 0 && f.ch == cfg.ch && f.isExt == cfg.extId && f.id == cfg.funcRxId && |f.data| > 0
  }

  /** Nothing but a frame of the peer's, or a single frame to everybody, has any effect. */
  lemma StrangersAreIgnored(cfg: Config, rx: Rx, tx: Tx, w: World, f: Frame)
    requires RxOk(rx) && TxOk(cfg, tx) && !FromPeer(cfg, f)
    requires ToEverybody(cfg, f) ==> Kind(f.data) != 0
    ensures Intake(cfg, rx, tx, w, f) == (rx, tx, w)
  {
    hide TxOk, SfLen;
  }

  /** The frames an instance itself may put on the link are nothing to it: the identifiers of an
      accepted configuration tell the two directions apart. */
  lemma OwnFramesAreIgnored(cfg: Config, rx: Rx, tx: Tx, w: World, f: Frame)
    requires RxOk(rx) && TxOk(cfg, tx)
    requires f.id == cfg.physTxId || (cfg.funcTxId != 0 && f.id == cfg.funcTxId)
    ensures Intake(cfg, rx, tx, w, f) == (rx, tx, w)
  {
    StrangersAreIgnored(cfg, rx, tx, w, f);
  }

  /** A frame to everybody leaves both conversations as they are, draws no answer, and brings at most
      one message: the one its sender put into it, handed up as functional. */
  lemma EverybodyHearsSingles(src: Config, cfg: Config, m: seq<byte>, rx: Rx, tx: Tx, w: World)
    requires RxOk(rx) && TxOk(cfg, tx) && IsSingle(src, m) && |m| < TWO_32
    requires ToEverybody(cfg, HeadFrame(src, src.funcTxId, m))
    ensures var (rx1, tx1, w1) := Intake(cfg, rx, tx, w, HeadFrame(src, src.funcTxId, m));
            && rx1 == rx && tx1 == tx && w1.log == w.log && w1.done == w.done
            && w1.up == w.up + if m != [] && w.grant(w.offers)
                               then [RawSdu(cfg.link, Indication, Functional, N_OK, m)] else []
  {
    hide HeadFrame, TxOk, SfLen;
    SfReads(src, src.funcTxId, m);
    var d := HeadFrame(src, src.funcTxId, m).data;
    if m != [] {
      var hdr := SfLen(d).value.1;
      assert d[hdr..hdr + |m|] == d[hdr..][..|m|];
    }
    ToEverybodyIsNoPeer(cfg);
  }

  lemma ToEverybodyIsNoPeer(cfg: Config)
    ensures cfg.funcRxId != 0 ==> cfg.funcRxId != cfg.physRxId
  {}
}
