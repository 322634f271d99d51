/** An ISO-TP instance as the code runs it: fields updated in place, frames and messages
    filled in place, 32-bit clock readings, and its blocks and queues on the shared pool.

    Every method computes what the machine of IsoTpMachine says. The machine asks an oracle
    whether a request for a block or a queue slot is granted; here the pool and the queues
    answer. `grant` is an arbitrary guess at all those answers, and `Foretold` says that it has
    been right so far: nothing the instance does depends on the guess, so for every run there
    are oracles that foretell it, and under each of them the instance and the machine agree.
    What is said of ownership does not depend on it. */
module IsoTp {
  import opened Options
  import opened Words
  import opened CanBus
  import opened IsoTpTypes
  import opened IsoTpCodec
  import opened IsoTpMachine
  import opened IsoTpPort
  import opened Memory
  import Pool
  import PoolLayout
  import opened RefMsg

  datatype SendResult = Queued | BadParameter | NoMemory | NoSlot | TooLongToSend

  /** The oracle gives these answers first. */
  ghost predicate Tells(grant: nat -> bool, answers: seq<bool>) {
    forall j :: 0 <= j < |answers| ==> grant(j) == answers[j]
  }

  lemma TellsMore(grant: nat -> bool, answers: seq<bool>, ok: bool)
    ensures Tells(grant, answers + [ok]) <==> Tells(grant, answers) && grant(|answers|) == ok
  {
    assert forall j :: 0 <= j < |answers| ==> (answers + [ok])[j] == answers[j];
    assert (answers + [ok])[|answers|] == ok;
  }

  lemma FramesGrow(log: seq<Sent>, e: Sent)
    ensures Frames(log + [e]) == Frames(log) + [e.frame]
  {}

  /** The machine's reaction to the payload of a first frame whose message has been given room. */
  ghost function Opened(cfg: Config, rx: Rx, w: World, d: seq<byte>, hdr: nat): (Rx, World)
    requires hdr <= |d| && rx.total < TWO_32
  {
    var rx1 := rx.(acc := FfTake(d, rx.total, hdr));
    if |rx1.acc| >= rx1.total then RxFinish(cfg, rx1, w) else EmitCts(cfg, rx1, w)
  }

  /** The machine's world after a block was asked for and, if granted, the clock read. */
  ghost function Begun(w: World): (bool, World) {
    var (ok, w1) := Ask(w);
    (ok, if ok then Read(w1).1 else w1)
  }

  /** nx_can_isotp_init's checks of a configuration, in its order. */
  method ConfigUsable(cfg: Cfg) returns (ok: bool)
    ensures ok <==> Accepted(cfg)
  {
    if cfg.maxFrameLen < MAX_CLASSIC_LEN || DlcToLen(LenToDlc(cfg.maxFrameLen)) != cfg.maxFrameLen {
      return false;
    }
    if cfg.maxFrameLen > MAX_CLASSIC_LEN && !cfg.fdFrames {
      return false;
    }
    if cfg.brs && !cfg.fdFrames {
      return false;
    }
    if cfg.ch > MAX_CH {
      return false;
    }
    if cfg.physRxId == 0 || cfg.physTxId == 0 || cfg.physRxId == cfg.physTxId {
      return false;
    }
    if cfg.funcRxId != 0 && (cfg.funcRxId == cfg.physRxId || cfg.funcRxId == cfg.physTxId) {
      return false;
    }
    if cfg.funcTxId != 0 && (cfg.funcTxId == cfg.physRxId || cfg.funcTxId == cfg.physTxId || cfg.funcTxId == cfg.funcRxId) {
      return false;
    }
    return true;
  }

  /** A consecutive frame is stamped with a reading of its own. */
  ghost function Stamped(w: World, at: nat): World {
    w.(ticks := w.ticks + 1, trace := w.trace + [PaceCf(at)])
  }

  /** A transmission that awaits flow control stays in order whatever it is told. */
  lemma WaitingOk(cfg: Config, tx: Tx)
    requires TxOk(cfg, tx) && tx.state == TxWaitFc
    ensures tx.sn < 16 && tx.sdu.Some?
    ensures forall wft: nat, deadline: nat :: wft < 256 ==> TxOk(cfg, tx.(wft := wft, deadline := deadline))
    ensures forall wft: nat, bs: nat, stmin: nat :: wft < 256 && bs < 256 ==>
              TxOk(cfg, tx.(wft := wft, bs := bs, stmin := stmin, state := TxSend))
  {}

  /** What accounting for one more consecutive frame leaves true. */
  lemma AdvancedFacts(cfg: Config, tx: Tx)
    requires TxOk(cfg, tx) && tx.sdu.Some? && tx.sent > 0
    ensures tx.sn < 16 && tx.state != TxIdle
    ensures forall at: nat :: Advanced(cfg, tx, at).sdu == tx.sdu && Advanced(cfg, tx, at).last == at
    ensures forall at: nat :: Advanced(cfg, tx, at).bs == tx.bs
    ensures forall at: nat :: Advanced(cfg, tx, at).sent > tx.sent && Advanced(cfg, tx, at).sn < 16
    ensures forall at: nat, state: TxState, bs: nat, deadline: nat ::
              state != TxIdle && bs < 256 && !AllSent(Advanced(cfg, tx, at)) ==>
              TxOk(cfg, Advanced(cfg, tx, at).(state := state, bs := bs, deadline := deadline))
  {}

  /** An offer takes no reading and ends nothing. */
  lemma OfferCfLeaves(cfg: Config, tx: Tx, w: World)
    requires TxOk(cfg, tx) && tx.sdu.Some? && tx.sent > 0
    ensures var w1 := OfferCf(cfg, tx, w).1;
            w1.clock == w.clock && w1.ticks == w.ticks && w1.trace == w.trace && w1.done == w.done
  {}

  /** The transmission after one frame of the send loop, stamped `at`, was offered. */
  ghost function Tried(cfg: Config, tx: Tx, ok: bool, at: nat, now: nat): Tx
    requires TxOk(cfg, tx) && tx.sdu.Some? && tx.sent > 0
  {
    if ok then Advanced(cfg, tx, at) else tx.(state := TxWaitLink, deadline := now + cfg.nAs)
  }

  /** One pass of the machine's send loop. */
  lemma LoopSplits(cfg: Config, tx: Tx, w: World, now: nat, emitted: nat, budget: nat)
    requires TxOk(cfg, tx) && tx.state == TxSend && emitted < budget
    ensures tx.sdu.Some? && tx.sent > 0
    ensures tx.stmin > 0 && Diff32(now, tx.last) < tx.stmin ==>
            SendLoop(cfg, tx, w, now, emitted, budget) == (tx, w, emitted)
    ensures !(tx.stmin > 0 && Diff32(now, tx.last) < tx.stmin) ==>
              var r := SendLoop(cfg, tx, w, now, emitted, budget);
              var (ok, w1) := Looped(cfg, tx, w, now);
              var at := w.clock(w.ticks);
              var tx1 := Tried(cfg, tx, ok, now, at);
              var tx2 := tx1.(bs := if tx1.bs > 0 then tx1.bs - 1 else 0);
              && tx2.sdu.Some?
              && (!ok ==> r == (tx1, w1, emitted))
              && (ok && AllSent(tx2) ==> r == (TxEnd(cfg, tx2, w1, N_OK).0, TxEnd(cfg, tx2, w1, N_OK).1, emitted + 1))
              && (ok && !AllSent(tx2) && tx1.bs == 1 ==>
              r == (tx2.(state := TxWaitFc, deadline := at + cfg.nBs), w1, emitted + 1))
              && (ok && !AllSent(tx2) && tx1.bs != 1 ==>
                    TxOk(cfg, tx2) && tx2.state == TxSend && r == SendLoop(cfg, tx2, w1, at, emitted + 1, budget))
  {
    hide CfFrame, HeadLoad, TxEnd, Diff32;
  }

  lemma HeldOk(cfg: Config, tx: Tx, at: nat, now: nat)
    requires TxOk(cfg, tx) && tx.sdu.Some? && tx.sent > 0
    ensures var tx0 := Tried(cfg, tx, false, at, now); TxOk(cfg, tx0) && tx0.sent == tx.sent && tx0.sdu == tx.sdu
    ensures var tx1 := Tried(cfg, tx, true, at, now); tx1 == Advanced(cfg, tx, at) && tx1.state == tx.state
  {}

  /** What follows a held frame that the link took: whether the run goes on, and from where. */
  ghost function Behind(cfg: Config, tx: Tx, w: World): (bool, Tx, World)
    requires tx.sdu.Some?
  {
    if AllSent(tx) then (false, TxEnd(cfg, tx, w, N_OK).0, TxEnd(cfg, tx, w, N_OK).1)
    else if tx.bs == 1 then (false, tx.(bs := 0, state := TxWaitFc, deadline := tx.last + cfg.nBs), w)
    else (true, tx.(bs := if tx.bs > 0 then tx.bs - 1 else 0), w)
  }

  lemma RetrySplits(cfg: Config, tx: Tx, w: World)
    requires TxOk(cfg, tx) && tx.state == TxWaitLink && tx.sdu.Some? && tx.sent > 0
    ensures var (ok, w1) := OfferCf(cfg, tx, w);
            var at := w1.clock(w1.ticks);
            var tx1 := Advanced(cfg, tx, at).(state := TxSend);
            var (more, tx2, w2) := Behind(cfg, tx1, Stamped(w1, at));
            && tx1.sdu.Some? && (more ==> TxOk(cfg, tx2))
            && forall budget: nat ::
                 RetryCf(cfg, tx, w, budget) ==
                   if !ok then (tx, w1, 0) else if more then Sending(cfg, tx2, w2, 1, budget) else (tx2, w2, 1)
  {
    hide OfferCf, TxEnd, HeadLoad, Sending;
  }

  /** The machine's world after one frame of the send loop was offered. */
  ghost function Looped(cfg: Config, tx: Tx, w: World, at: nat): (bool, World)
    requires TxOk(cfg, tx) && tx.sdu.Some? && tx.sent > 0
  {
    var (ok, w1) := OfferCf(cfg, tx, w);
    (ok, if ok then Stamped(w1, at) else Read(w1).1)
  }

  /** The machine's guards, on one reading. */
  ghost function Guarded(cfg: Config, rx: Rx, tx: Tx, w: World): (Rx, Tx, World)
    requires RxOk(rx) && TxOk(cfg, tx)
  {
    var (now, w1) := Read(w);
    var (rx1, w2) := RxGuards(cfg, rx, w1, now);
    var (tx1, w3) := TxGuards(cfg, tx, w2, now);
    (rx1, tx1, w3)
  }

  /** What can happen around an instance: the main loop calls process, the driver receives a
      frame, the upper layer asks for a message to be sent, or the driver or the upper layer takes
      what waits for it, and keeps it as long as it likes. Or others use pool and queues: one gives
      up a reference, gets a block, or uses a queue that is not the instance's. */
  datatype Act =
    | ProcessCalled | FrameComes(f: Frame) | SendAsked(data: seq<byte>, ta: Addressing) | Taken(above: bool)
    | LetGo(m: nat) | BlockAsked(len: nat) | PutElsewhere(m: nat, q: nat) | TakenElsewhere(q: nat)

  /** Something that happens to the instance itself, or at its own queues. */
  predicate Own(a: Act) {
    a.ProcessCalled? || a.FrameComes? || a.SendAsked? || a.Taken?
  }

  /** What the machine sees of it: a frame that found no room or a message that was refused is
      nothing to it, and so is what others do. */
  ghost predicate Fits(cfg: Config, a: Act, e: Option<Event>) {
    match a
    case ProcessCalled => e == Some(Tick)
    case FrameComes(f) => e == None || e == Some(Arrive(f))
    case SendAsked(data, ta) =>
      e == None || (|data| < TWO_32 && e == Some(Give(RawSdu(cfg.link, Indication, ta, N_OK, data))))
    case _ => e == None
  }

  /** What it does to others' references and queues. */
  datatype Deed = Nothing | Gains(m: nat) | Loses(m: nat) | Puts(m: nat, q: nat) | Takes(q: nat)

  ghost predicate Does(a: Act, d: Deed) {
    match a
    case Taken(_) => d == Nothing || d.Gains?
    case LetGo(m) => d == Nothing || d == Loses(m)
    case BlockAsked(_) => d == Nothing || d.Gains?
    case PutElsewhere(m, q) => d == Nothing || d == Puts(m, q)
    case TakenElsewhere(q) => d == Nothing || d == Takes(q)
    case _ => d == Nothing
  }

  ghost predicate Possible(w: Around, d: Deed) {
    match d
    case Loses(m) => w.refs[m] > 0
    case Puts(m, q) => w.refs[m] > 0 && q < |w.elsewhere|
    case Takes(q) => q < |w.elsewhere| && w.elsewhere[q] != []
    case _ => true
  }

  ghost function Done(w: Around, d: Deed): Around
    requires Possible(w, d)
  {
    match d
    case Nothing => w
    case Gains(m) => More(w, m)
    case Loses(m) => Less(w, m)
    case Puts(m, q) => w.(elsewhere := Enqueued(w.elsewhere, q, m))
    case Takes(q) => Around(w.refs + multiset{w.elsewhere[q][0]}, Dequeued(w.elsewhere, q))
  }

  /** The deeds of a run of acts lead from one state of the others to another. */
  ghost predicate Leads(w: Around, acts: seq<Act>, deeds: seq<Deed>, w1: Around) {
    |deeds| == |acts| &&
    if acts == [] then w1 == w
    else
      var n := |acts| - 1;
      Does(acts[n], deeds[n]) && exists w0 :: Leads(w, acts[..n], deeds[..n], w0) && Possible(w0, deeds[n]) && w1 == Done(w0, deeds[n])
  }

  lemma OneMoreDeed(w: Around, acts: seq<Act>, i: nat, deeds: seq<Deed>, d: Deed, w0: Around)
    requires i < |acts| && Leads(w, acts[..i], deeds, w0) && Does(acts[i], d) && Possible(w0, d)
    ensures Leads(w, acts[..i + 1], deeds + [d], Done(w0, d))
  {
    hide Does, Possible, Done;
    assert acts[..i + 1][..i] == acts[..i] && (deeds + [d])[..i] == deeds;
  }

  ghost predicate Happened(cfg: Config, acts: seq<Act>, es: seq<Event>) {
    if acts == [] then es == []
    else
      var front, a := acts[..|acts| - 1], acts[|acts| - 1];
      || (Fits(cfg, a, None) && Happened(cfg, front, es))
      || (es != [] && Fits(cfg, a, Some(es[|es| - 1])) && Happened(cfg, front, es[..|es| - 1]))
  }

  lemma OneMoreAct(cfg: Config, acts: seq<Act>, i: nat, es: seq<Event>, e: Option<Event>)
    requires i < |acts| && Happened(cfg, acts[..i], es) && Fits(cfg, acts[i], e)
    ensures Happened(cfg, acts[..i + 1], if e.Some? then es + [e.value] else es)
  {
    hide Fits;
    assert acts[..i + 1][..i] == acts[..i];
    if e.Some? {
      assert (es + [e.value])[..|es|] == es;
    }
  }

  /** What others hold, and what is in the queues that are not the instance's. */
  datatype Around = Around(refs: multiset<nat>, elsewhere: seq<seq<nat>>)

  function More(a: Around, m: nat): Around {
    a.(refs := a.refs + multiset{m})
  }

  function Less(a: Around, m: nat): Around {
    a.(refs := a.refs - multiset{m})
  }

  lemma MoreThenLess(a: Around, m: nat)
    ensures More(a, m).refs[m] > 0 && Less(More(a, m), m) == a
  {
    assert a.refs + multiset{m} - multiset{m} == a.refs;
  }

  class Instance {
    const cfg: Config
    const port: Port
    const clock: nat -> nat // true time at each reading; get_us shows it modulo 2^32
    var ticks: nat

    // reception; `acc` is the data of the block port.acc
    var rxState: RxState
    var rxSn: byte
    var rxBlockLeft: byte
    var rxTotal: uint32
    var rxFilled: uint32
    var acc: array?<byte>
    var rxDeadline: uint32

    // transmission; `sdu` is what the block port.sdu holds
    var txState: TxState
    var txSn: byte
    var txBs: byte
    var txWft: byte
    var sent: uint32
    var total: uint32
    var stminUs: nat
    var lastUs: uint32
    var txDeadline: uint32
    var txId: uint32
    var sdu: Option<Sdu>

    // what the pool and the queues answered, and the guess at it
    ghost const grant: nat -> bool
    ghost var answers: seq<bool>

    // history, and the true times behind the 32-bit stamps
    ghost var log: seq<Sent>
    ghost var up: seq<Sdu>
    ghost var done: seq<(Sdu, Outcome)>
    ghost var trace: seq<Pace>
    ghost var rxDeadlineTime: nat
    ghost var txDeadlineTime: nat
    ghost var lastTime: nat

    ghost predicate Foretold()
      reads this`answers
    {
      Tells(grant, answers)
    }

    ghost function RxView(): Rx
      reads this`rxState, this`rxSn, this`rxBlockLeft, this`rxTotal, this`rxFilled, this`rxDeadlineTime, this`acc, acc
    {
      Rx(rxState, rxSn, rxBlockLeft, rxTotal, Filled(), rxDeadlineTime)
    }

    ghost function Filled(): seq<byte>
      reads this`rxFilled, this`acc, acc
    {
      if acc == null then [] else acc[..Min(rxFilled, acc.Length)]
    }

    ghost function TxView(): Tx
      reads this`txState, this`txSn, this`txBs, this`txWft, this`sent, this`stminUs, this`lastTime, this`txDeadlineTime,
            this`txId, this`sdu
    {
      Tx(txState, txSn, txBs, txWft, sent, stminUs, lastTime, txDeadlineTime, txId, sdu)
    }

    ghost function WorldView(): World
      reads this`ticks, this`answers, this`log, this`up, this`done, this`trace
    {
      World(clock, grant, ticks, |answers|, log, up, done, trace)
    }

    /** The port is in order, it shares nothing with the instance's own memory, and its outgoing
        queues took what the history says. */
    ghost predicate Linked()
      reads this`log, this`up, this`acc
      reads port, port.ms.pool, port.parts
    {
      && port.Valid() && {this as object, port} !! port.parts && (acc != null ==> (acc as object) !in port.parts)
      && port.sent == Frames(log) && port.published == up
    }

    /** What the instance must leave alone: references and queues of others, and the messages
        waiting for it. */
    ghost function Outside(): (Around, (seq<Frame>, seq<Sdu>))
      requires port.Valid()
      reads port, port.ms.pool, port.parts
    {
      (Around(port.Others(), port.Elsewhere()), port.Inbox())
    }

    ghost function View(): Inst
      requires port.Valid()
      reads this, acc
      reads port, port.ms.pool, port.parts
    {
      Inst(RxView(), TxView(), WorldView(), port.Inbox().1, port.Inbox().0)
    }

    /** A block is held exactly while a reception is under way, and has the announced size. */
    ghost predicate RxShape()
      reads this`rxState, this`rxTotal, this`rxFilled, this`rxDeadline, this`rxDeadlineTime, this`acc, port`acc
    {
      && rxDeadline == Low32(rxDeadlineTime)
      && (acc == null <==> rxState == RxIdle) && (acc == null <==> port.acc == None)
      && (acc == null ==> rxFilled == 0)
      && (acc != null ==> acc.Length == rxTotal && rxFilled <= rxTotal <= MAX_MSG_LEN)
    }

    ghost predicate TxShape()
      reads this`sent, this`total, this`lastUs, this`lastTime, this`txDeadline, this`txDeadlineTime, this`sdu, port`sdu
    {
      && txDeadline == Low32(txDeadlineTime) && lastUs == Low32(lastTime)
      && (sdu == None <==> port.sdu == None)
      && (sdu.Some? ==> total == |sdu.value.data| && sent <= total)
    }

    /** Between calls. */
    ghost predicate Valid()
      reads this, acc
      reads port, port.ms.pool, port.parts
    {
      Linked() && RxShape() && TxShape() && RxOk(RxView()) && TxOk(cfg, TxView())
    }

    /** nx_can_isotp_init on a configuration it accepts. */
    constructor (raw: Config, port: Port, clock: nat -> nat, ghost grant: nat -> bool)
      requires port.Valid() && port.acc == None && port.sdu == None && port.sent == [] && port.published == []
      requires port.Inbox() == ([], []) && (port as object) !in port.parts
      ensures Valid() && acc == null && cfg == Resolved(raw) && this.port == port && this.grant == grant
              && answers == []
      ensures View() == Start(clock, grant)
    {
      cfg, this.port, this.clock, this.grant := Resolved(raw), port, clock, grant;
      ticks, answers := 0, [];
      rxState, rxSn, rxBlockLeft, rxTotal, rxFilled, acc, rxDeadline := RxIdle, 0, 0, 0, 0, null, 0;
      txState, txSn, txBs, txWft, sent, total := TxIdle, 0, 0, 0, 0, 0;
      stminUs, lastUs, txDeadline, txId, sdu := 0, 0, 0, 0, None;
      log, up, done, trace := [], [], [], [];
      rxDeadlineTime, txDeadlineTime, lastTime := 0, 0, 0;
      new;
      hide Port.Valid, Port.Inbox, Port.Elsewhere, Resolved, Valid, View, Start;
      assert {this as object, port} !! port.parts;
      NothingUnderWay();
    }

    lemma NothingUnderWay()
      requires port.Valid() && {this as object, port} !! port.parts && port.acc == None && port.sdu == None
      requires port.sent == [] && port.published == [] && log == [] && up == [] && acc == null && sdu == None
      requires rxState == RxIdle && rxSn == 0 && rxBlockLeft == 0 && rxTotal == 0 && rxFilled == 0
      requires rxDeadline == Low32(rxDeadlineTime) && txDeadline == Low32(txDeadlineTime) && lastUs == Low32(lastTime)
      requires txState == TxIdle && txSn == 0 && txBs == 0 && txWft == 0 && sent == 0 && stminUs == 0 && txId == 0
      requires rxDeadlineTime == 0 && txDeadlineTime == 0 && lastTime == 0
      requires ticks == 0 && answers == [] && done == [] && trace == [] && port.Inbox() == ([], [])
      ensures Valid() && View() == Start(clock, grant)
    {
      hide Port.Valid, Port.Inbox, Port.Elsewhere, HeadLoad;
    }

    method Now() returns (t: uint32, ghost time: nat)
      modifies `ticks
      ensures (time, WorldView()) == Read(old(WorldView())) && t == Low32(time)
    {
      time := clock(ticks);
      t := Low32(clock(ticks));
      ticks := ticks + 1;
    }

    /** The reading n ticks from now. */
    method After(n: uint32) returns (t: uint32, ghost time: nat)
      modifies `ticks
      ensures WorldView() == Read(old(WorldView())).1
      ensures time == Read(old(WorldView())).0 + n && t == Low32(time)
    {
      hide Low32;
      var now, nowTime := Now();
      Low32Sum(nowTime, n);
      t, time := Low32(now + n), nowTime + n;
    }

    // -------------------------------------------------------------- frame emission

    /** Write header, payload and filler into a block of exactly the wire length. */
    method FillBlock(wire: nat, pci: seq<byte>, payload: seq<byte>, pad: byte) returns (d: array<byte>)
      requires |pci| + |payload| <= wire
      ensures fresh(d) && d[..] == pci + payload + seq(wire - |pci| - |payload|, _ => pad)
    {
      d := new byte[wire];
      Copy(d, 0, pci);
      if |payload| > 0 {
        Copy(d, |pci|, payload);
      }
      assert d[..|pci| + |payload|] == pci + payload;
      if wire > |pci| + |payload| {
        Fill(d, |pci| + |payload|, pad);
      }
    }

    /** The codec's frame, its bytes written one after the other into a new buffer. */
    method MakeFrame(id: uint32, src: seq<byte>, pci: seq<byte>) returns (f: Frame)
      requires 1 <= |pci| <= 6
      ensures f == BuildFrame(cfg, id, src, pci)
    {
      hide DlcToLen, LenToDlc;
      ghost var built := BuildFrame(cfg, id, src, pci);
      ExactFrameLengths(cfg.maxFrameLen);
      var cap := cfg.maxFrameLen - |pci|;
      var chunk := if |src| < cap then |src| else cap;
      var used := |pci| + chunk;
      var want := used;
      if cfg.padFrames && want < MAX_CLASSIC_LEN {
        want := MAX_CLASSIC_LEN;
      }
      var dlc := LenToDlc(want);
      var wire := DlcToLen(dlc);
      CodeInRange(want);
      DlcAdjunction(want, dlc);
      var d := FillBlock(wire, pci, src[..chunk], cfg.padByte);
      f := RawFrame(id, cfg.ch, cfg.extId, cfg.fdFrames, cfg.brs, dlc, d[..]);
      assert f.data == built.data;
    }

    /** Put a finished frame on the link's queue. */
    method Enqueue(f: Frame, ghost tag: Tag) returns (ok: bool)
      requires Linked()
      modifies `answers, `log, port`frames, port`sent, port.parts
      ensures Linked() && Outside() == old(Outside())
      ensures Foretold() ==> old(Foretold()) && (ok, WorldView()) == Offer(old(WorldView()), f, tag)
    {
      hide Port.Valid, Port.Inbox, Port.Elsewhere, Port.Others, Port.Loose, Tells, Frames;
      ok := port.SendFrame(f);
      FramesGrow(log, Sent(f, tag, ticks));
      TellsMore(grant, answers, ok);
      if ok {
        log := log + [Sent(f, tag, ticks)];
      }
      answers := answers + [ok];
    }

    method EmitFrame(id: uint32, src: seq<byte>, pci: seq<byte>, ghost tag: Tag) returns (ok: bool)
      requires 1 <= |pci| <= 6 && Linked()
      modifies `answers, `log, port`frames, port`sent, port.parts
      ensures Linked() && Outside() == old(Outside())
      ensures Foretold() ==>
                && old(Foretold())
                && (ok, WorldView()) == Offer(old(WorldView()), BuildFrame(cfg, id, src, pci), tag)
    {
      hide BuildFrame, Linked, Outside, Foretold;
      var f := MakeFrame(id, src, pci);
      ok := Enqueue(f, tag);
    }

    method EmitSf(id: uint32, src: seq<byte>, ghost n: nat) returns (ok: bool)
      requires |src| < TWO_32 && IsSingle(cfg, src) && Linked()
      modifies `answers, `log, port`frames, port`sent, port.parts
      ensures Linked() && Outside() == old(Outside())
      ensures Foretold() ==>
                && old(Foretold())
                && (ok, WorldView()) == Offer(old(WorldView()), HeadFrame(cfg, id, src), Data(n, 0, |src|, 0))
    {
      hide BuildFrame, DlcToLen, LenToDlc, Linked, Outside, Foretold;
      assert |src| < 256 by { ExactFrameLengths(cfg.maxFrameLen); }
      if |src| <= SF_DL_4 {
        ok := EmitFrame(id, src, [PCI_SF + |src|], Data(n, 0, |src|, 0));
      } else {
        ok := EmitFrame(id, src, [PCI_SF, |src|], Data(n, 0, |src|, 0));
      }
    }

    /** Returns how many payload bytes the first frame carried; 0 when it was refused. */
    method EmitFf(id: uint32, src: seq<byte>, ghost n: nat) returns (loaded: nat)
      requires |src| < TWO_32 && !IsSingle(cfg, src) && Linked()
      modifies `answers, `log, port`frames, port`sent, port.parts
      ensures Linked() && Outside() == old(Outside()) && (loaded == 0 || loaded == HeadLoad(cfg, src))
      ensures Foretold() ==>
                && old(Foretold())
                && (loaded != 0, WorldView()) == Offer(old(WorldView()), HeadFrame(cfg, id, src),
                Data(n, 0, HeadLoad(cfg, src), 0))
    {
      hide BuildFrame, DlcToLen, LenToDlc, Linked, Outside, Foretold;
      ExactFrameLengths(cfg.maxFrameLen);
      var total := |src|;
      var ok, hdr;
      if total > FFDL_12 {
        hdr := 6;
        ok := EmitFrame(id, src, [PCI_FF, 0, total / 0x1000000, total / 0x10000 % 256, total / 0x100 % 256, total % 256],
                        Data(n, 0, HeadLoad(cfg, src), 0));
      } else {
        hdr := 2;
        ok := EmitFrame(id, src, [PCI_FF + total / 256, total % 256], Data(n, 0, HeadLoad(cfg, src), 0));
      }
      if !ok {
        return 0;
      }
      return Min(total, cfg.maxFrameLen - hdr);
    }

    method EmitCf(id: uint32, src: seq<byte>, sn: byte, ghost tag: Tag) returns (ok: bool)
      requires Linked()
      modifies `answers, `log, port`frames, port`sent, port.parts
      ensures Linked() && Outside() == old(Outside())
      ensures Foretold() ==>
                && old(Foretold())
                && (ok, WorldView()) == Offer(old(WorldView()), BuildFrame(cfg, id, src, CfPci(sn)), tag)
    {
      hide BuildFrame, Linked, Outside, Foretold;
      ok := EmitFrame(id, src, [PCI_CF + sn % 16], tag);
    }

    method EmitFlowControl(fs: byte, bs: byte, stmin: byte) returns (ok: bool)
      requires Linked()
      modifies `answers, `log, port`frames, port`sent, port.parts
      ensures Linked() && Outside() == old(Outside())
      ensures Foretold() ==> old(Foretold()) && (ok, WorldView()) == EmitFc(cfg, old(WorldView()), fs, bs, stmin)
    {
      hide BuildFrame, Linked, Outside, Foretold;
      ok := EmitFrame(cfg.physTxId, [], [PCI_FC + fs % 16, bs, stmin], Control);
    }

    method PublishSdu(s: Sdu)
      requires Linked() && |s.data| <= MAX_MSG_LEN
      modifies `answers, `up, port`sdus, port`published, port.parts
      ensures Linked() && Outside() == old(Outside())
      ensures Foretold() ==> old(Foretold()) && WorldView() == Publish(old(WorldView()), s)
    {
      hide Frames, Port.Valid, Port.Inbox, Port.Elsewhere, Port.Others, Port.Loose, Tells;
      var ok := port.PublishSdu(s);
      TellsMore(grant, answers, ok);
      if ok {
        up := up + [s];
      }
      answers := answers + [ok];
    }

    // -------------------------------------------------------------- reception

    /** Permit the peer to go on, or hold the permission under N_Ar. */
    method EmitClearToSend()
      requires RxShape() && Linked() && rxState != RxIdle && RxOk(RxView())
      modifies `answers, `log, port`frames, port`sent, port.parts
      modifies `ticks, `rxState, `rxDeadline, `rxDeadlineTime, `rxBlockLeft
      ensures RxShape() && Linked() && Outside() == old(Outside()) && RxOk(RxView())
      ensures Foretold() ==> old(Foretold()) && (RxView(), WorldView()) == EmitCts(cfg, old(RxView()), old(WorldView()))
    {
      hide FcFrame, EmitFc, Linked, Outside, Foretold, RxShape, Port.Valid, Port.Inbox, Port.Elsewhere, Port.Others, Port.Loose;
      BlockApart();
      var ok := EmitFlowControl(FS_CTS, cfg.rxBlockSize, cfg.rxStmin);
      if ok {
        Permitted();
      } else if rxState != RxFcWait {
        HoldPermission();
      }
    }

    /** The block being filled is nothing the port works on. */
    lemma BlockApart()
      requires Linked()
      ensures port.Valid() && (acc != null ==> (acc as object) !in port.parts)
      ensures {this as object, port} !! port.parts
    {}

    method HoldPermission()
      requires RxShape() && rxState != RxIdle
      modifies `ticks, `rxState, `rxDeadline, `rxDeadlineTime
      ensures RxShape() && WorldView() == Read(old(WorldView())).1
      ensures RxView() == old(RxView()).(state := RxFcWait, deadline := Read(old(WorldView())).0 + cfg.nAr)
    {
      hide Low32;
      rxState := RxFcWait;
      rxDeadline, rxDeadlineTime := After(cfg.nAr);
    }

    method Permitted()
      requires RxShape() && rxState != RxIdle
      modifies `ticks, `rxState, `rxDeadline, `rxDeadlineTime, `rxBlockLeft
      ensures RxShape() && WorldView() == Read(old(WorldView())).1
      ensures RxView() == old(RxView()).(state := RxAssem, blockLeft := cfg.rxBlockSize,
              deadline := Read(old(WorldView())).0 + cfg.nCr)
    {
      hide Low32;
      rxBlockLeft, rxState := cfg.rxBlockSize, RxAssem;
      ArmReception();
    }

    /** Await the next frame for N_Cr. */
    method ArmReception()
      requires RxShape()
      modifies `ticks, `rxDeadline, `rxDeadlineTime
      ensures RxShape() && WorldView() == Read(old(WorldView())).1
      ensures RxView() == old(RxView()).(deadline := Read(old(WorldView())).0 + cfg.nCr)
    {
      hide Low32;
      rxDeadline, rxDeadlineTime := After(cfg.nCr);
    }

    /** Get a block for a message of the announced length. */
    method Reserve(len: uint32) returns (room: bool)
      requires Linked() && port.acc == None && acc == null && len <= MAX_MSG_LEN
      modifies `acc, port`acc, `answers, port.parts
      ensures Linked() && Outside() == old(Outside())
      ensures room == port.acc.Some? && room == (acc != null) && (room ==> fresh(acc) && acc.Length == len)
      ensures Foretold() ==> old(Foretold()) && (room, WorldView()) == Ask(old(WorldView()))
    {
      hide Frames, Port.Valid, Port.Inbox, Port.Elsewhere, Port.Others, Port.Loose, Tells;
      room := port.OpenBlock(len);
      TellsMore(grant, answers, room);
      answers := answers + [room];
      if room {
        acc := new byte[len];
      }
    }

    /** Start a reception into a fresh block, if there is one. */
    method BeginReception(len: uint32) returns (room: bool)
      requires Linked() && RxShape() && rxState == RxIdle && RxOk(RxView()) && 0 < len <= MAX_MSG_LEN
      modifies `acc, `rxState, `rxSn, `rxTotal, `rxFilled, `rxDeadline, `rxDeadlineTime, `ticks, port`acc, `answers,
               port.parts
      ensures Linked() && Outside() == old(Outside()) && RxShape() && RxOk(RxView()) && (acc == null || fresh(acc))
      ensures RxView() == if room then Rx(RxAssem, 1, 0, len, [], clock(old(ticks)) + cfg.nCr) else old(RxView())
      ensures Foretold() ==> old(Foretold()) && (room, WorldView()) == Begun(old(WorldView()))
    {
      hide RxShape, Low32, Linked, Outside, Foretold, Port.Valid, Port.Inbox, Port.Elsewhere, Port.Others, Port.Loose;
      BlockApart();
      IdleHoldsNothing();
      room := Reserve(len);
      BlockApart();
      if room {
        StartFilling(len);
      } else {
        StillIdle();
      }
    }

    lemma StillIdle()
      requires acc == null && rxState == RxIdle && port.acc == None && rxFilled == 0
               && rxDeadline == Low32(rxDeadlineTime)
      ensures RxShape()
    {}

    lemma IdleHoldsNothing()
      requires RxShape() && rxState == RxIdle && RxOk(RxView())
      ensures acc == null && port.acc == None && rxFilled == 0 && rxBlockLeft == 0
              && rxDeadline == Low32(rxDeadlineTime)
    {}

    /** The state of a reception that has its block and nothing in it. */
    method StartFilling(len: uint32)
      requires acc != null && acc.Length == len <= MAX_MSG_LEN && port.acc.Some? && rxBlockLeft == 0
      requires rxDeadline == Low32(rxDeadlineTime)
      modifies `rxState, `rxSn, `rxTotal, `rxFilled, `rxDeadline, `rxDeadlineTime, `ticks
      ensures RxShape() && WorldView() == Read(old(WorldView())).1
      ensures RxView() == Rx(RxAssem, 1, 0, len, [], clock(old(ticks)) + cfg.nCr)
    {
      hide Low32;
      rxState, rxSn, rxTotal, rxFilled := RxAssem, 1, len, 0;
      ArmReception();
    }

    /** Write payload behind what the reassembly block already holds. */
    method Store(src: seq<byte>)
      requires Linked() && RxShape() && acc != null && rxFilled + |src| <= rxTotal
      modifies `rxFilled, acc
      ensures Linked() && Outside() == old(Outside())
      ensures RxShape() && RxView() == old(RxView()).(acc := old(Filled()) + src)
    {
      hide Low32, Frames, Port.Valid, Port.Inbox, Port.Elsewhere, Port.Others, Port.Loose;
      ghost var before := Filled();
      if |src| > 0 {
        Copy(acc, rxFilled, src);
      }
      assert acc[..rxFilled] == before;
      rxFilled := rxFilled + |src|;
      assert acc[..rxFilled] == before + src;
    }

    /** Give the block back, if one is held, and be idle. */
    method ResetReception()
      requires Linked() && rxDeadline == Low32(rxDeadlineTime)
      modifies `rxState, `rxSn, `rxTotal, `rxFilled, `rxBlockLeft, `acc, port`acc, port.parts
      ensures Linked() && Outside() == old(Outside())
      ensures RxShape() && acc == null && port.acc == None && RxView() == Rx(RxIdle, 0, 0, 0, [], rxDeadlineTime)
      ensures old(port.acc).None? ==> forall m: nat :: port.Loose(m) == old(port.Loose(m))
    {
      hide Low32, Frames, Port.Valid, Port.Inbox, Port.Elsewhere, Port.Others, Port.Loose;
      port.DropBlock();
      acc := null;
      rxState, rxSn, rxTotal, rxFilled, rxBlockLeft := RxIdle, 0, 0, 0, 0;
    }

    method AbortReception(result: Outcome)
      requires Linked() && RxShape()
      modifies `rxState, `rxSn, `rxTotal, `rxFilled, `rxBlockLeft, `acc, port`acc
      modifies `answers, `up, port`sdus, port`published, port.parts
      ensures Linked() && Outside() == old(Outside())
      ensures RxShape() && acc == null && RxOk(RxView()) && RxView() == RxReset(old(RxView()))
      ensures Foretold() ==>
                && old(Foretold())
                && (RxView(), WorldView()) == RxAbort(cfg, old(RxView()), old(WorldView()), result)
    {
      hide Low32, Linked, Outside, Foretold, Publish, Port.Valid, Port.Inbox, Port.Elsewhere, Port.Others, Port.Loose;
      var wasActive := rxState != RxIdle;
      ResetReception();
      BlockApart();
      if wasActive && cfg.confirmTx {
        PublishSdu(RawSdu(cfg.link, Indication, Physical, result, []));
      }
    }

    /** Take the block out of the instance's hands. */
    method DetachBlock() returns (m: nat)
      requires Linked() && port.acc.Some?
      modifies `acc, port`acc
      ensures Linked() && acc == null && port.acc == None
      ensures Outside() == (More(old(Outside()).0, m), old(Outside()).1) && port.Loose(m)
    {
      hide Frames, Port.Valid, Port.Inbox, Port.Elsewhere, Port.Others, Port.Loose;
      m := port.Detach();
      acc := null;
    }

    /** Hand a detached block up, filled. */
    method HandUp(m: nat, s: Sdu)
      requires Linked() && port.acc == None && Outside().0.refs[m] > 0 && port.Loose(m)
      modifies `answers, `up, port`sdus, port`published, port.parts
      ensures Linked() && Outside() == (Less(old(Outside()).0, m), old(Outside()).1)
      ensures Foretold() ==> old(Foretold()) && WorldView() == Publish(old(WorldView()), s)
    {
      hide Frames, Port.Valid, Port.Inbox, Port.Elsewhere, Port.Others, Port.Loose, Tells;
      var ok := port.HandUp(m, s);
      TellsMore(grant, answers, ok);
      if ok {
        up := up + [s];
      }
      answers := answers + [ok];
    }

    /** The message a full block holds. */
    method Completed() returns (s: Sdu)
      requires RxShape() && acc != null && rxFilled == rxTotal
      ensures s == Received(cfg, Physical, RxView().acc) && |s.data| <= MAX_MSG_LEN
      ensures port.acc.Some? && rxDeadline == Low32(rxDeadlineTime)
    {
      assert acc[..] == Filled();
      s := RawSdu(cfg.link, Indication, Physical, N_OK, acc[..]);
    }

    /** Detach the block before resetting, which would give it back, and hand it up instead. */
    method FinishReception()
      requires Linked() && RxShape() && acc != null && rxFilled == rxTotal
      modifies `rxState, `rxSn, `rxTotal, `rxFilled, `rxBlockLeft, `acc, port`acc
      modifies `answers, `up, port`sdus, port`published, port.parts
      ensures Linked() && Outside() == old(Outside())
      ensures RxShape() && acc == null && RxOk(RxView())
      ensures Foretold() ==>
                && old(Foretold())
                && (RxView(), WorldView()) == RxFinish(cfg, old(RxView()), old(WorldView()))
    {
      hide Low32, Linked, Outside, Foretold, RxShape, More, Less, Port.Valid, Port.Inbox, Port.Elsewhere, Port.Others;
      hide Port.Loose;
      BlockApart();
      var s := Completed();
      ghost var others := Outside().0;
      var m := CutLoose();
      MoreThenLess(others, m);
      HandUp(m, s);
      BlockApart();
    }

    /** Out of the instance's hands first, so that resetting does not give the block back. */
    method CutLoose() returns (m: nat)
      requires Linked() && port.acc.Some? && rxDeadline == Low32(rxDeadlineTime)
      modifies `rxState, `rxSn, `rxTotal, `rxFilled, `rxBlockLeft, `acc, port`acc, port.parts
      ensures Linked() && Outside() == (More(old(Outside()).0, m), old(Outside()).1) && port.Loose(m)
      ensures RxShape() && acc == null && port.acc == None && RxView() == RxReset(old(RxView()))
    {
      hide Low32, Linked, Outside, RxShape, More, Port.Valid, Port.Inbox, Port.Elsewhere, Port.Others, Port.Loose;
      BlockApart();
      m := DetachBlock();
      ResetReception();
      BlockApart();
    }

    method DeliverSingle(ta: Addressing, d: seq<byte>)
      requires Linked() && 0 < |d| <= MAX_FD_LEN
      modifies `answers, `up, port`sdus, port`published, port.parts
      ensures Linked() && Outside() == old(Outside())
      ensures Foretold() ==> old(Foretold()) && WorldView() == RxSingle(cfg, old(WorldView()), ta, d)
    {
      hide Linked, Outside, Foretold, Publish;
      match SfLen(d)
      case Some((len, hdr)) =>
        PublishSdu(RawSdu(cfg.link, Indication, ta, N_OK, d[hdr..hdr + len]));
      case None =>
    }

    /** The first frame's payload, and what its message being complete, or not, calls for. */
    method OpenMessage(d: seq<byte>, hdr: nat)
      requires Linked() && RxShape() && RxOk(RxView()) && rxState == RxAssem && rxFilled == 0 && hdr <= |d|
      modifies `rxState, `rxSn, `rxTotal, `rxFilled, `rxBlockLeft, `rxDeadline, `rxDeadlineTime, `acc, `ticks,
               port`acc, acc
      modifies `answers, `log, `up, port`frames, port`sent, port`sdus, port`published, port.parts
      ensures Linked() && Outside() == old(Outside()) && RxShape() && RxOk(RxView()) && (acc == null || acc == old(acc))
      ensures Foretold() ==>
                && old(Foretold())
                && (RxView(), WorldView()) == Opened(cfg, old(RxView()), old(WorldView()), d, hdr)
    {
      hide EmitCts, RxFinish, Low32, Linked, Outside, Foretold, Frames, Port.Valid, Port.Inbox, Port.Elsewhere, Port.Others;
      BlockApart();
      var have := |d| - hdr;
      if have > rxTotal {
        have := rxTotal;
      }
      Store(d[hdr..hdr + have]);
      assert Filled() == FfTake(d, rxTotal, hdr);
      if rxFilled >= rxTotal {
        FinishReception();
      } else {
        EmitClearToSend();
      }
    }

    lemma StatesShown()
      ensures RxView().state == rxState && RxView().total == rxTotal
    {}

    lemma NothingFilled()
      requires RxShape() && RxView().acc == [] && RxView().state == RxAssem
      ensures rxState == RxAssem && rxFilled == 0
    {}

    method FirstFrame(d: seq<byte>)
      requires Linked() && RxShape() && rxState == RxIdle && RxOk(RxView()) && 0 < |d| <= MAX_FD_LEN
      modifies `rxState, `rxSn, `rxTotal, `rxFilled, `rxBlockLeft, `rxDeadline, `rxDeadlineTime, `acc, `ticks, port`acc
      modifies `answers, `log, `up, port`frames, port`sent, port`sdus, port`published, port.parts
      ensures Linked() && Outside() == old(Outside()) && RxShape() && RxOk(RxView()) && (acc == null || fresh(acc))
      ensures Foretold() ==>
                && old(Foretold())
                && (RxView(), WorldView()) == RxFirst(cfg, old(RxView()), old(WorldView()), d)
    {
      hide EmitFc, EmitCts, RxFinish, FfTake, RxShape, RxOk, RxView, Low32, Linked, Outside, Foretold, Frames,
           Port.Valid, Port.Inbox, Port.Elsewhere, Port.Others;
      BlockApart();
      StatesShown();
      IdleHoldsNothing();
      match FfLen(d)
      case None =>
      case Some((len, hdr)) =>
        if len > MAX_MSG_LEN || (cfg.rxMaxLen != 0 && len > cfg.rxMaxLen) {
          var _ := EmitFlowControl(FS_OVFLW, 0, 0);
        } else {
          var room := BeginReception(len);
          BlockApart();
          if !room {
            var _ := EmitFlowControl(FS_OVFLW, 0, 0);
          } else {
            NothingFilled();
            OpenMessage(d, hdr);
          }
        }
    }

    /** Take a consecutive frame's payload and expect the next one. */
    method TakePayload(d: seq<byte>)
      requires Linked() && RxShape() && RxOk(RxView()) && 0 < |d| <= MAX_FD_LEN && rxState == RxAssem
      modifies `rxFilled, `rxSn, `rxDeadline, `rxDeadlineTime, `ticks, acc
      ensures Linked() && Outside() == old(Outside()) && RxShape()
      ensures var (t, w) := Read(old(WorldView()));
              && WorldView() == w
              && RxView() == old(RxView()).(acc := old(Filled()) + CfTake(d, rxTotal - old(rxFilled)),
                                            sn := (old(rxSn) + 1) % 16, deadline := t + cfg.nCr)
    {
      hide Low32, Linked, Outside, Foretold, Frames, Port.Valid, Port.Inbox, Port.Elsewhere, Port.Others;
      BlockApart();
      var have := |d| - 1;
      var room := rxTotal - rxFilled;
      if have > room {
        have := room;
      }
      Store(d[1..1 + have]);
      rxSn := (rxSn + 1) % 16;
      ArmReception();
    }

    /** One frame of the block less; at its end a fresh permission. */
    method CountDown()
      requires Linked() && RxShape() && RxOk(RxView()) && rxState == RxAssem
      modifies `ticks, `rxState, `rxDeadline, `rxDeadlineTime, `rxBlockLeft
      modifies `answers, `log, port`frames, port`sent, port.parts
      ensures Linked() && Outside() == old(Outside()) && RxShape() && RxOk(RxView())
      ensures Foretold() ==>
                && old(Foretold())
                && var rx := old(RxView());
                   (RxView(), WorldView()) ==
                     if rx.blockLeft == 1 then EmitCts(cfg, rx.(blockLeft := 0), old(WorldView()))
                     else (rx.(blockLeft := if rx.blockLeft > 0 then rx.blockLeft - 1 else 0), old(WorldView()))
    {
      hide EmitCts, Low32, Linked, Outside, Foretold, Frames, Port.Valid, Port.Inbox, Port.Elsewhere, Port.Others;
      BlockApart();
      if rxBlockLeft > 0 {
        rxBlockLeft := rxBlockLeft - 1;
        if rxBlockLeft == 0 {
          EmitClearToSend();
        }
      }
    }

    method ConsecutiveFrame(d: seq<byte>)
      requires Linked() && RxShape() && RxOk(RxView()) && 0 < |d| <= MAX_FD_LEN
      modifies `rxState, `rxSn, `rxTotal, `rxFilled, `rxBlockLeft, `rxDeadline, `rxDeadlineTime, `acc, `ticks,
               port`acc, acc
      modifies `answers, `log, `up, port`frames, port`sent, port`sdus, port`published, port.parts
      ensures Linked() && Outside() == old(Outside()) && RxShape() && RxOk(RxView()) && (acc == null || acc == old(acc))
      ensures Foretold() ==>
                && old(Foretold())
                && (RxView(), WorldView()) == RxConsecutive(cfg, old(RxView()), old(WorldView()), d)
    {
      hide EmitCts, RxFinish, RxAbort, CfTake, Low32, Linked, Outside, Foretold, Frames, Port.Valid, Port.Inbox, Port.Elsewhere,
           Port.Others;
      BlockApart();
      if rxState != RxAssem {
        return;
      }
      if d[0] % 16 != rxSn {
        AbortReception(N_WRONG_SN);
        return;
      }
      TakePayload(d);
      if rxFilled >= rxTotal {
        FinishReception();
        return;
      }
      BlockApart();
      CountDown();
    }

    /** RxFrame in place: which fields change depends on the frame's kind and on what was expected. */
    method ReceiveFrame(d: seq<byte>)
      requires Linked() && RxShape() && RxOk(RxView()) && 0 < |d| <= MAX_FD_LEN
      modifies `rxState, `rxSn, `rxTotal, `rxFilled, `rxBlockLeft, `rxDeadline, `rxDeadlineTime, `acc, `ticks,
               port`acc, acc
      modifies `answers, `log, `up, port`frames, port`sent, port`sdus, port`published, port.parts
      ensures Linked() && Outside() == old(Outside()) && RxShape() && RxOk(RxView())
              && (acc == null || acc == old(acc) || fresh(acc))
      ensures Foretold() ==>
                && old(Foretold())
                && (RxView(), WorldView()) == RxFrame(cfg, old(RxView()), old(WorldView()), d)
    {
      hide RxFirst, RxConsecutive, RxSingle, Low32, Linked, Outside, Foretold, Frames, Port.Valid, Port.Inbox, Port.Elsewhere,
           Port.Others;
      var kind := d[0] / 16;
      if kind == 0 {
        AbortReception(N_UNEXP_PDU);
        DeliverSingle(Physical, d);
        BlockApart();
      } else if kind == 1 {
        AbortReception(N_UNEXP_PDU);
        FirstFrame(d);
      } else if kind == 2 {
        ConsecutiveFrame(d);
      }
    }

    // -------------------------------------------------------------- transmission

    /** Give the message being sent back to its block's other holders, or to the pool. */
    method DropMessage()
      requires Linked() && TxShape()
      modifies `sdu, port`sdu, port.parts
      ensures Linked() && Outside() == old(Outside()) && TxShape() && sdu == None
    {
      hide Low32, Frames, Port.Valid, Port.Inbox, Port.Elsewhere, Port.Others;
      port.DropSdu();
      sdu := None;
    }

    /** Note how it went, give the message up and be idle. */
    method GoIdle(result: Outcome)
      requires Linked() && TxShape() && txSn < 16
      modifies `sdu, `txState, `txWft, `done, port`sdu, port.parts
      ensures Linked() && Outside() == old(Outside()) && TxShape() && sdu == None && TxOk(cfg, TxView())
      ensures TxView() == old(TxView()).(state := TxIdle, wft := 0, sdu := None)
      ensures WorldView() == if old(sdu) == None then old(WorldView())
                             else old(WorldView()).(done := old(done) + [(old(sdu).value, result)])
    {
      hide HeadLoad, TxShape, Low32, Linked, Outside, Foretold, Frames, Port.Valid, Port.Inbox, Port.Elsewhere, Port.Others;
      BlockApart();
      if sdu != None {
        done := done + [(sdu.value, result)];
      }
      DropMessage();
      BlockApart();
      txState, txWft := TxIdle, 0;
    }

    method EndTransmission(result: Outcome)
      requires Linked() && TxShape() && txSn < 16
      modifies `sdu, `txState, `txWft, `done, port`sdu
      modifies `answers, `up, port`sdus, port`published, port.parts
      ensures Linked() && Outside() == old(Outside()) && TxShape() && sdu == None && txState == TxIdle
              && TxOk(cfg, TxView())
      ensures Foretold() ==>
                && old(Foretold())
                && (TxView(), WorldView()) == TxEnd(cfg, old(TxView()), old(WorldView()), result)
    {
      hide HeadLoad, Publish, TxShape, TxOk, Low32, Linked, Outside, Foretold, Frames, Port.Valid, Port.Inbox, Port.Elsewhere,
           Port.Others;
      BlockApart();
      var wasActive := sdu != None;
      GoIdle(result);
      BlockApart();
      if wasActive && cfg.confirmTx {
        PublishSdu(RawSdu(cfg.link, Confirm, Physical, result, []));
      }
    }

    /** The wait for flow control starts over. */
    method AwaitFc()
      requires TxShape()
      modifies `txDeadline, `txDeadlineTime, `ticks
      ensures TxShape() && WorldView() == Read(old(WorldView())).1
      ensures TxView() == old(TxView()).(deadline := Read(old(WorldView())).0 + cfg.nBs)
    {
      hide Low32;
      txDeadline, txDeadlineTime := After(cfg.nBs);
    }

    /** One more WAIT tolerated. */
    method Tolerate(waits: byte)
      requires TxShape()
      modifies `txWft, `txDeadline, `txDeadlineTime, `ticks, `trace
      ensures TxShape()
      ensures var (t, w) := Read(old(WorldView()));
              && TxView() == old(TxView()).(wft := waits, deadline := t + cfg.nBs)
              && WorldView() == w.(trace := w.trace + [PaceWait])
    {
      hide TxShape;
      txWft := waits;
      AwaitFc();
      trace := trace + [PaceWait];
    }

    /** ApplyFc in place: permission, wait, overflow or nonsense from the receiving side. */
    method ApplyFlowControl(d: seq<byte>)
      requires Linked() && TxShape() && TxOk(cfg, TxView()) && 0 < |d|
      modifies `sdu, `txState, `txWft, `done, port`sdu, `txDeadline, `txDeadlineTime, `ticks, `trace, `txBs, `stminUs
      modifies `answers, `up, port`sdus, port`published, port.parts
      ensures Linked() && Outside() == old(Outside()) && TxShape() && TxOk(cfg, TxView())
      ensures Foretold() ==>
                && old(Foretold())
                && (TxView(), WorldView()) == ApplyFc(cfg, old(TxView()), old(WorldView()), d)
    {
      hide HeadLoad, TxEnd, TxShape, TxOk, TxView, StminToUs, Low32, Linked, Outside, Foretold, Frames, Port.Valid,
           Port.Inbox, Port.Elsewhere, Port.Others;
      BlockApart();
      StatesTold();
      if txState != TxWaitFc || |d| < 3 {
        return;
      }
      WaitingOk(cfg, TxView());
      var fs := d[0] % 16;
      if fs == FS_OVFLW {
        EndTransmission(N_BUFFER_OVFLW);
        return;
      }
      if fs == FS_WAIT {
        var waits := (txWft + 1) % 256;
        if waits > cfg.nWftMax {
          EndTransmission(N_WFT_OVRN);
          return;
        }
        Tolerate(waits);
        return;
      }
      if fs != FS_CTS {
        EndTransmission(N_INVALID_FS);
        return;
      }
      Resume(d[1], d[2]);
    }

    lemma StatesTold()
      ensures TxView().state == txState && TxView().wft == txWft && TxView().sn == txSn
    {}

    /** The peer permits the next block. */
    method Resume(bs: byte, stmin: byte)
      requires TxShape()
      modifies `txWft, `txBs, `stminUs, `txState, `trace
      ensures TxShape() && TxView() == old(TxView()).(wft := 0, bs := bs, stmin := StminToUs(stmin), state := TxSend)
      ensures WorldView() == old(WorldView()).(trace := old(trace) + [PaceCts(bs, StminToUs(stmin))])
    {
      txWft, txBs, stminUs, txState := 0, bs, StminToUs(stmin), TxSend;
      trace := trace + [PaceCts(bs, StminToUs(stmin))];
    }

    /** TxHold in place: nothing at all if the same frame was refused before. */
    method Hold()
      requires TxShape()
      modifies `txState, `txDeadline, `txDeadlineTime, `ticks
      ensures TxShape() && (TxView(), WorldView()) == TxHold(cfg, old(TxView()), old(WorldView()))
    {
      hide Low32;
      if txState != TxWaitLink {
        txState := TxWaitLink;
        txDeadline, txDeadlineTime := After(cfg.nAs);
      }
    }

    /** Await flow control for N_Bs from a reading already taken. */
    method ArmFc(now: uint32, ghost time: nat)
      requires TxShape() && now == Low32(time)
      modifies `txState, `txDeadline, `txDeadlineTime
      ensures TxShape() && TxView() == old(TxView()).(state := TxWaitFc, deadline := time + cfg.nBs)
    {
      Low32Sum(time, cfg.nBs);
      hide Low32;
      txState := TxWaitFc;
      txDeadline, txDeadlineTime := Low32(now + cfg.nBs), time + cfg.nBs;
    }

    /** From the first frame on the link to awaiting flow control. */
    method HeadDone(loaded: uint32)
      requires TxShape() && sdu.Some? && loaded <= total
      modifies `sent, `lastUs, `lastTime, `txDeadline, `txDeadlineTime, `txState, `ticks, `trace
      ensures TxShape()
      ensures var (t, w) := Read(old(WorldView()));
              && TxView() == old(TxView()).(sent := loaded, last := t, deadline := t + cfg.nBs, state := TxWaitFc)
              && WorldView() == w.(trace := w.trace + [PaceHead(t)])
    {
      hide Low32, TxShape, TxView;
      var now, time := Now();
      StampHead(loaded, now, time);
      ArmFc(now, time);
    }

    method StampHead(loaded: uint32, now: uint32, ghost time: nat)
      requires TxShape() && sdu.Some? && loaded <= total && now == Low32(time)
      modifies `sent, `lastUs, `lastTime, `trace
      ensures TxShape() && TxView() == old(TxView()).(sent := loaded, last := time)
      ensures trace == old(trace) + [PaceHead(time)]
    {
      hide Low32;
      sent, lastUs, lastTime := loaded, now, time;
      trace := trace + [PaceHead(time)];
    }

    /** A message is about to start, or its head frame is held. */
    ghost predicate AtHead()
      reads this`sdu, this`sent, this`txSn, this`txId
    {
      sdu.Some? && sent == 0 && txSn == 1 && txId == TxId(cfg, sdu.value)
    }

    method OfferSingle() returns (emitted: nat)
      requires Linked() && TxShape() && AtHead() && IsSingle(cfg, sdu.value.data)
      modifies `sdu, `txState, `txWft, `done, port`sdu, `txDeadline, `txDeadlineTime, `ticks
      modifies `answers, `log, `up, port`frames, port`sent, port`sdus, port`published, port.parts
      ensures Linked() && Outside() == old(Outside()) && TxShape() && TxOk(cfg, TxView())
      ensures Foretold() ==>
                && old(Foretold())
                && (TxView(), WorldView(), emitted) == OfferHead(cfg, old(TxView()), old(WorldView()))
    {
      hide TxEnd, HeadFrame, SfCapacity, TxShape, Low32, Linked, Outside, Foretold, Frames, Port.Valid, Port.Inbox, Port.Elsewhere,
           Port.Others;
      BlockApart();
      var ok := EmitSf(txId, sdu.value.data, |done|);
      BlockApart();
      if !ok {
        Hold();
        return 0;
      }
      EndTransmission(N_OK);
      return 1;
    }

    method OfferFirst() returns (emitted: nat)
      requires Linked() && TxShape() && AtHead() && !IsSingle(cfg, sdu.value.data) && total == |sdu.value.data|
      modifies `txState, `txDeadline, `txDeadlineTime, `ticks, `trace, `sent, `lastUs, `lastTime
      modifies `answers, `log, port`frames, port`sent, port.parts
      ensures Linked() && Outside() == old(Outside()) && TxShape() && TxOk(cfg, TxView())
      ensures Foretold() ==>
                && old(Foretold())
                && (TxView(), WorldView(), emitted) == OfferHead(cfg, old(TxView()), old(WorldView()))
    {
      hide TxEnd, HeadFrame, SfCapacity, TxShape, Low32, Linked, Outside, Foretold, Frames, Port.Valid, Port.Inbox, Port.Elsewhere,
           Port.Others;
      BlockApart();
      var loaded := EmitFf(txId, sdu.value.data, |done|);
      BlockApart();
      if loaded == 0 {
        Hold();
        return 0;
      }
      HeadDone(loaded);
      return 1;
    }

    /** Offer the frame the message starts with, single or first. */
    method EmitHead() returns (emitted: nat)
      requires Linked() && TxShape() && AtHead()
      modifies `sdu, `txState, `txWft, `done, port`sdu, `txDeadline, `txDeadlineTime, `ticks, `trace, `sent, `lastUs,
               `lastTime
      modifies `answers, `log, `up, port`frames, port`sent, port`sdus, port`published, port.parts
      ensures Linked() && Outside() == old(Outside()) && TxShape() && TxOk(cfg, TxView())
      ensures Foretold() ==>
                && old(Foretold())
                && (TxView(), WorldView(), emitted) == OfferHead(cfg, old(TxView()), old(WorldView()))
    {
      hide OfferHead, AtHead, SfCapacity, TxOk, Low32, Linked, Outside, Foretold, Frames, Port.Valid, Port.Inbox, Port.Elsewhere,
           Port.Others;
      assert sdu.Some? by { HeadThere(); }
      if total <= SfCapacity(cfg) {
        emitted := OfferSingle();
      } else {
        emitted := OfferFirst();
      }
    }

    lemma HeadThere()
      requires AtHead()
      ensures sdu.Some?
    {}

    /** Offer the next consecutive frame; none of the progress fields move. */
    method EmitNext() returns (ok: bool, chunk: nat)
      requires Linked() && TxShape() && TxOk(cfg, TxView()) && sdu.Some? && sent > 0
      modifies `answers, `log, port`frames, port`sent, port.parts
      ensures Linked() && Outside() == old(Outside()) && TxShape() && TxView() == old(TxView())
      ensures sent + chunk == NextLoad(cfg, sdu.value.data, sent)
      ensures Foretold() ==> old(Foretold()) && (ok, WorldView()) == OfferCf(cfg, TxView(), old(WorldView()))
    {
      hide BuildFrame, HeadLoad, Low32, Linked, Outside, Foretold, Frames, Port.Valid, Port.Inbox, Port.Elsewhere, Port.Others;
      BlockApart();
      chunk := total - sent;
      if chunk > cfg.maxFrameLen - 1 {
        chunk := cfg.maxFrameLen - 1;
      }
      ok := EmitCf(txId, sdu.value.data[sent..sent + chunk], txSn, Data(|done|, sent, sent + chunk, txSn));
    }

    /** A consecutive frame is on the link: account for it and stamp it. */
    method Advance(chunk: nat, now: uint32, ghost nowTime: nat)
      requires TxShape() && TxOk(cfg, TxView()) && sdu.Some? && sent > 0 && now == Low32(nowTime)
      requires sent + chunk == NextLoad(cfg, sdu.value.data, sent)
      modifies `sent, `txSn, `lastUs, `lastTime, `trace
      ensures TxShape() && TxView() == Advanced(cfg, old(TxView()), nowTime)
      ensures trace == old(trace) + [PaceCf(nowTime)]
    {
      hide HeadLoad, Low32;
      sent := sent + chunk;
      txSn := (txSn + 1) % 16;
      lastUs, lastTime := now, nowTime;
      trace := trace + [PaceCf(nowTime)];
    }

    /** Offer a held consecutive frame again and stamp it when the link takes it. */
    method EmitHeld() returns (ok: bool)
      requires Linked() && TxShape() && TxOk(cfg, TxView()) && txState == TxWaitLink && sent > 0
      modifies `txState, `ticks, `trace, `sent, `lastUs, `lastTime, `txSn
      modifies `answers, `log, port`frames, port`sent, port.parts
      ensures Linked() && Outside() == old(Outside()) && TxShape()
      ensures TxView() == if ok then Advanced(cfg, old(TxView()),
              clock(old(ticks))).(state := TxSend) else old(TxView())
      ensures Foretold() ==>
                && old(Foretold())
                && var (taken, w) := OfferCf(cfg, old(TxView()), old(WorldView()));
                   && ok == taken
                   && WorldView() == if ok then Stamped(w, clock(old(ticks))) else w
    {
      hide HeadLoad, OfferCf, Advanced, TxShape, Low32, Linked, Outside, Foretold, Frames, Port.Valid, Port.Inbox, Port.Elsewhere,
           Port.Others;
      BlockApart();
      var chunk;
      ok, chunk := EmitNext();
      BlockApart();
      if ok {
        StampHeld(chunk);
      }
    }

    method StampHeld(chunk: nat)
      requires TxShape() && TxOk(cfg, TxView()) && sdu.Some? && sent > 0
      requires sent + chunk == NextLoad(cfg, sdu.value.data, sent)
      modifies `txState, `ticks, `trace, `sent, `lastUs, `lastTime, `txSn
      ensures TxShape() && TxView() == Advanced(cfg, old(TxView()), clock(old(ticks))).(state := TxSend)
      ensures WorldView() == Stamped(old(WorldView()), clock(old(ticks)))
    {
      hide HeadLoad, TxShape, Low32;
      var now, nowTime := Now();
      Advance(chunk, now, nowTime);
      txState := TxSend;
    }

    /** One frame of the block less; at its end, unless the message is, await flow control. */
    method CountBlock(now: uint32, ghost time: nat) returns (stop: bool)
      requires TxShape() && sdu.Some? && now == Low32(time)
      modifies `txBs, `txState, `txDeadline, `txDeadlineTime
      ensures TxShape() && stop == (old(txBs) == 1 && sent < total)
      ensures var tx := old(TxView()).(bs := if old(txBs) > 0 then old(txBs) - 1 else 0);
              TxView() == if stop then tx.(state := TxWaitFc, deadline := time + cfg.nBs) else tx
    {
      hide Low32;
      stop := false;
      if txBs > 0 {
        txBs := txBs - 1;
        if txBs == 0 && sent < total {
          ArmFc(now, time);
          stop := true;
        }
      }
    }

    /** Behind the held frame: the end of the message, the end of the block, or the run goes on. */
    method AfterHeld() returns (more: bool)
      requires Linked() && TxShape() && txState == TxSend && txSn < 16 && sdu.Some?
               && (sent < total ==> TxOk(cfg, TxView()))
      requires sent < total ==> forall state: TxState, bs: nat, deadline: nat :: state != TxIdle && bs < 256 ==>
                 TxOk(cfg, TxView().(state := state, bs := bs, deadline := deadline))
      modifies `sdu, `txState, `txWft, `done, port`sdu, `txDeadline, `txDeadlineTime, `ticks, `trace, `sent, `lastUs,
               `lastTime, `txSn, `txBs
      modifies `answers, `log, `up, port`frames, port`sent, port`sdus, port`published, port.parts
      ensures Linked() && Outside() == old(Outside()) && TxShape() && TxOk(cfg, TxView())
      ensures more ==> txState == TxSend
      ensures Foretold() ==>
                && old(Foretold())
                && (more, TxView(), WorldView()) == Behind(cfg, old(TxView()), old(WorldView()))
    {
      hide TxEnd, TxShape, TxOk, Low32, Linked, Outside, Foretold, Frames, Port.Valid, Port.Inbox, Port.Elsewhere, Port.Others;
      BlockApart();
      TotalIsLength();
      if sent >= total {
        EndTransmission(N_OK);
        return false;
      }
      var stop := CountBlock(lastUs, lastTime);
      return !stop;
    }

    /** The held frame, then whether the run may carry on behind it. */
    method Retry() returns (emitted: nat, more: bool)
      requires Linked() && TxShape() && TxOk(cfg, TxView()) && txState == TxWaitLink && sdu.Some? && sent > 0
      modifies `sdu, `txState, `txWft, `done, port`sdu, `txDeadline, `txDeadlineTime, `ticks, `trace, `sent, `lastUs,
               `lastTime, `txSn, `txBs
      modifies `answers, `log, `up, port`frames, port`sent, port`sdus, port`published, port.parts
      ensures Linked() && Outside() == old(Outside()) && TxShape() && TxOk(cfg, TxView())
      ensures more ==> txState == TxSend
      ensures Foretold() ==>
                && old(Foretold())
                && forall budget: nat ::
                     RetryCf(cfg, old(TxView()), old(WorldView()), budget) ==
                     if more then Sending(cfg, TxView(), WorldView(), emitted, budget) else (TxView(), WorldView(), emitted)
    {
      hide TxEnd, HeadLoad, OfferCf, Sending, Advanced, TxShape, TxOk, Behind, RetryCf, Low32, Linked, Outside,
           Foretold, Frames, Port.Valid, Port.Inbox, Port.Elsewhere, Port.Others;
      BlockApart();
      AdvancedFacts(cfg, TxView());
      OfferCfLeaves(cfg, TxView(), WorldView());
      RetrySplits(cfg, TxView(), WorldView());
      var ok := EmitHeld();
      BlockApart();
      if !ok {
        return 0, false;
      }
      TotalIsLength();
      more := AfterHeld();
      return 1, more;
    }

    lemma TotalIsLength()
      requires TxShape() && sdu.Some?
      ensures total == |sdu.value.data| && sent <= total && lastUs == Low32(lastTime)
      ensures TxView().sdu == sdu && TxView().sent == sent && TxView().last == lastTime
      ensures TxView().bs == txBs && TxView().stmin == stminUs && TxView().state == txState && TxView().sn == txSn
    {}

    /** One frame of the send loop: offer it, and account for it when the link takes it. */
    method EmitInLoop(now: uint32, ghost nowTime: nat) returns (ok: bool, now1: uint32, ghost nowTime1: nat)
      requires Linked() && TxShape() && TxOk(cfg, TxView()) && txState == TxSend && now == Low32(nowTime)
      requires sdu.Some? && sent > 0
      modifies `txState, `txDeadline, `txDeadlineTime, `ticks, `trace, `sent, `lastUs, `lastTime, `txSn
      modifies `answers, `log, port`frames, port`sent, port.parts
      ensures Linked() && Outside() == old(Outside()) && TxShape() && now1 == Low32(nowTime1)
      ensures ok ==> nowTime1 == clock(old(ticks))
      ensures TxView() == Tried(cfg, old(TxView()), ok, nowTime, clock(old(ticks)))
      ensures Foretold() ==>
                && old(Foretold())
                && (ok, WorldView()) == Looped(cfg, old(TxView()), old(WorldView()), nowTime)
    {
      hide HeadLoad, OfferCf, Advanced, Low32, Linked, Outside, Foretold, Frames, Port.Valid, Port.Inbox, Port.Elsewhere,
           Port.Others, TxOk, NextLoad;
      BlockApart();
      var chunk;
      ok, chunk := EmitNext();
      BlockApart();
      if !ok {
        Hold();
        now1, nowTime1 := now, nowTime;
        return;
      }
      Advance(chunk, now, nowTime);
      now1, nowTime1 := Now();
    }

    /** In the middle of a run, or with the last frame on the link. */
    ghost predicate Running()
      reads this
    {
      && sdu.Some? && txState == TxSend && txSn < 16 && total == |sdu.value.data|
      && (sent < total ==> TxOk(cfg, TxView()))
    }

    /** The loop is on its way to the result the machine expects. */
    ghost predicate OnCourse(nowTime: nat, emitted: nat, budget: nat, expected: (Tx, World, nat))
      requires Running()
      reads this
    {
      if sent < total then SendLoop(cfg, TxView(), WorldView(), nowTime, emitted, budget) == expected
      else expected == (TxEnd(cfg, TxView(), WorldView(), N_OK).0, TxEnd(cfg, TxView(), WorldView(), N_OK).1, emitted)
    }

    /** One pass: wait for the separation time, emit, and stop at the end of a block. */
    method SendPass(now: uint32, ghost nowTime: nat, emitted: nat, ghost budget: nat, ghost expected: (Tx, World, nat))
      returns (now1: uint32, ghost nowTime1: nat, emitted1: nat, stop: bool)
      requires Linked() && TxShape() && Running() && now == Low32(nowTime) && emitted < budget && sent < total
      requires Foretold() ==> OnCourse(nowTime, emitted, budget, expected)
      modifies `txState, `txDeadline, `txDeadlineTime, `ticks, `trace, `sent, `lastUs, `lastTime, `txSn, `txBs
      modifies `answers, `log, port`frames, port`sent, port.parts
      ensures Linked() && Outside() == old(Outside()) && TxShape() && now1 == Low32(nowTime1)
      ensures stop ==> sent < total && TxOk(cfg, TxView())
      ensures stop && Foretold() ==> old(Foretold()) && (TxView(), WorldView(), emitted1) == expected
      ensures !stop ==> Running() && total - sent < total - old(sent)
      ensures !stop && Foretold() ==> old(Foretold()) && OnCourse(nowTime1, emitted1, budget, expected)
    {
      hide TxEnd, Looped, Tried, Advanced, SendLoop, TxShape, TxView, TxOk, Low32, Linked, Outside, Foretold, Frames,
           Port.Valid, Port.Inbox, Port.Elsewhere, Port.Others;
      BlockApart();
      TotalIsLength();
      Diff32OfReadings(nowTime, lastTime);
      hide Diff32;
      LoopSplits(cfg, TxView(), WorldView(), nowTime, emitted, budget);
      AdvancedFacts(cfg, TxView());
      HeldOk(cfg, TxView(), nowTime, clock(ticks));
      if stminUs > 0 && Diff32(now, lastUs) < stminUs {
        return now, nowTime, emitted, true;
      }
      var ok;
      ok, now1, nowTime1 := EmitInLoop(now, nowTime);
      TotalIsLength();
      if !ok {
        return now1, nowTime1, emitted, true;
      }
      stop := CountBlock(now1, nowTime1);
      TotalIsLength();
      return now1, nowTime1, emitted + 1, stop;
    }

    /** Emit consecutive frames up to the budget, the block and the separation time. */
    method SendRun(emittedSoFar: nat, budget: nat) returns (emitted: nat)
      requires Linked() && TxShape() && TxOk(cfg, TxView())
      modifies `sdu, `txState, `txWft, `done, port`sdu, `txDeadline, `txDeadlineTime, `ticks, `trace, `sent, `lastUs,
               `lastTime, `txSn, `txBs
      modifies `answers, `log, `up, port`frames, port`sent, port`sdus, port`published, port.parts
      ensures Linked() && Outside() == old(Outside()) && TxShape() && TxOk(cfg, TxView())
      ensures Foretold() ==>
                && old(Foretold())
                && (TxView(), WorldView(), emitted) == Sending(cfg, old(TxView()), old(WorldView()), emittedSoFar, budget)
    {
      hide TxEnd, TxHold, HeadLoad, OfferCf, SendLoop, Low32, Linked, Outside, Foretold, Frames, Port.Valid,
           Port.Inbox, Port.Elsewhere, Port.Others;
      emitted := emittedSoFar;
      if txState != TxSend {
        return;
      }
      BlockApart();
      var now: uint32;
      ghost var nowTime: nat;
      now, nowTime := Now();
      ghost var expected := SendLoop(cfg, TxView(), WorldView(), nowTime, emitted, budget);
      emitted := SendFrames(now, nowTime, emitted, budget, expected);
    }

    method SendFrames(now0: uint32, ghost nowTime0: nat, emittedSoFar: nat, budget: nat, ghost expected: (Tx, World, nat)) returns (emitted: nat)
      requires Linked() && TxShape() && TxOk(cfg, TxView()) && txState == TxSend && now0 == Low32(nowTime0)
      requires SendLoop(cfg, TxView(), WorldView(), nowTime0, emittedSoFar, budget) == expected
      modifies `sdu, `txState, `txWft, `done, port`sdu, `txDeadline, `txDeadlineTime, `ticks, `trace, `sent, `lastUs,
               `lastTime, `txSn, `txBs
      modifies `answers, `log, `up, port`frames, port`sent, port`sdus, port`published, port.parts
      ensures Linked() && Outside() == old(Outside()) && TxShape() && TxOk(cfg, TxView())
      ensures Foretold() ==> old(Foretold()) && (TxView(), WorldView(), emitted) == expected
    {
      hide TxEnd, TxHold, HeadLoad, OfferCf, Low32, Linked, Outside, Foretold, Frames, Port.Valid, Port.Inbox, Port.Elsewhere,
           Port.Others;
      BlockApart();
      var now := now0;
      ghost var nowTime := nowTime0;
      emitted := emittedSoFar;
      var stop := false;
      while !stop && emitted < budget && sent < total
        invariant Linked() && port.Valid() && Outside() == old(Outside()) && TxShape() && now == Low32(nowTime)
        invariant !stop ==> Running()
        invariant stop ==> sent < total && TxOk(cfg, TxView())
        invariant !stop && Foretold() ==> old(Foretold()) && OnCourse(nowTime, emitted, budget, expected)
        invariant stop && Foretold() ==> old(Foretold()) && (TxView(), WorldView(), emitted) == expected
        decreases !stop, total - sent
      {
        now, nowTime, emitted, stop := SendPass(now, nowTime, emitted, budget, expected);
        BlockApart();
      }
      if sent >= total {
        EndTransmission(N_OK);
      }
    }

    /** Take over the next message of the queue, if there is one. */
    method TakeNext() returns (got: bool)
      requires Linked() && TxShape() && sdu == None
      modifies `sdu, `total, `sent, `txSn, `txWft, `txId, port`sdu, port.parts
      ensures Linked() && TxShape() && Outside().0 == old(Outside()).0
      ensures got <==> old(port.Inbox()).1 != []
      ensures !got ==> port.Inbox() == old(port.Inbox()) && TxView() == old(TxView())
      ensures got ==> AtHead() && port.Inbox() == (old(port.Inbox()).0, old(port.Inbox()).1[1..])
      ensures got ==> TxView() == Pulled(cfg, old(TxView()), old(port.Inbox()).1[0])
    {
      hide TxShape, AtHead, Pulled, Low32, Linked, Outside, Foretold, Frames, Port.Valid, Port.Inbox, Port.Elsewhere, Port.Others;
      BlockApart();
      StampsStand();
      var s := PopMessage();
      BlockApart();
      got := s.Some?;
      if got {
        StartMessage(s.value);
      }
    }

    method PopMessage() returns (s: Option<Sdu>)
      requires Linked() && port.sdu == None
      modifies port`sdu, port.parts
      ensures Linked() && Outside().0 == old(Outside()).0
      ensures s.None? <==> old(port.Inbox()).1 == []
      ensures s.None? ==> port.sdu == None && port.Inbox() == old(port.Inbox())
      ensures s.Some? ==>
                && port.sdu.Some? && s.value == old(port.Inbox()).1[0]
                && port.Inbox() == (old(port.Inbox()).0, old(port.Inbox()).1[1..])
    {
      hide Frames, Port.Valid, Port.Inbox, Port.Elsewhere, Port.Others;
      s := port.TakeSdu();
    }

    lemma StampsStand()
      requires TxShape()
      ensures txDeadline == Low32(txDeadlineTime) && lastUs == Low32(lastTime) && (sdu == None ==> port.sdu == None)
      ensures sdu == None && port.sdu == None ==> TxShape()
    {}

    /** The state of a transmission none of which is on the link. */
    method StartMessage(s: Sdu)
      requires txDeadline == Low32(txDeadlineTime) && lastUs == Low32(lastTime) && port.sdu.Some?
      modifies `sdu, `total, `sent, `txSn, `txWft, `txId
      ensures TxShape() && AtHead() && TxView() == Pulled(cfg, old(TxView()), s)
    {
      hide Low32;
      sdu, total, sent, txSn, txWft := Some(s), |s.data|, 0, 1, 0;
      txId := if s.ta == Functional then cfg.funcTxId else cfg.physTxId;
    }

    lemma HeldHead()
      requires TxShape() && TxOk(cfg, TxView())
      ensures txState == TxWaitLink && sent == 0 ==> AtHead()
      ensures txState == TxIdle <==> sdu == None
    {
      hide HeadLoad;
    }

    /** Take the next message when idle and drive the transmission on. */
    method RequestTransmit(budget: nat) returns (emitted: nat)
      requires Linked() && TxShape() && TxOk(cfg, TxView())
      modifies `sdu, `txState, `txWft, `done, port`sdu, `txDeadline, `txDeadlineTime, `ticks, `trace, `sent, `lastUs,
               `lastTime, `txSn, `txBs, `total, `txId
      modifies `answers, `log, `up, port`frames, port`sent, port`sdus, port`published, port.parts
      ensures Linked() && Outside().0 == old(Outside()).0 && TxShape() && TxOk(cfg, TxView())
      ensures port.Inbox().0 == old(port.Inbox()).0
      ensures Foretold() ==>
                && old(Foretold())
                && (TxView(), WorldView(), port.Inbox().1, emitted) == RequestTx(cfg, old(TxView()), old(WorldView()),
                old(port.Inbox()).1, budget)
    {
      hide OfferHead, RetryCf, Sending, TxOk, TxShape, AtHead, Low32, Linked, Foretold, Frames, Port.Valid,
           Port.Inbox, Port.Elsewhere, Port.Others;
      BlockApart();
      HeldHead();
      emitted := 0;
      if txState == TxIdle {
        var got := TakeNext();
        if !got {
          return;
        }
        emitted := EmitHead();
        return;
      }
      if txState == TxWaitLink {
        if sent == 0 {
          emitted := EmitHead();
          return;
        }
        var more;
        emitted, more := Retry();
        if !more {
          return;
        }
      }
      emitted := SendRun(emitted, budget);
    }

    // -------------------------------------------------------------- frame intake

    /** Intake in place: the frame is for one of the two directions, or for another instance. */
    method TakeFrame(f: Frame)
      requires Valid()
      modifies `rxState, `rxSn, `rxTotal, `rxFilled, `rxBlockLeft, `rxDeadline, `rxDeadlineTime, `acc, `ticks,
               port`acc, acc, `sdu, `txState, `txWft, `done, port`sdu, `txDeadline, `txDeadlineTime, `trace, `txBs, `stminUs
      modifies `answers, `log, `up, port`frames, port`sent, port`sdus, port`published, port.parts
      ensures Valid() && Outside() == old(Outside()) && (acc == null || acc == old(acc) || fresh(acc))
      ensures Foretold() ==>
                old(Foretold()) && (RxView(), TxView(), WorldView()) == Intake(cfg, old(RxView()), old(TxView()), old(WorldView()), f)
    {
      hide RxFrame, ApplyFc, RxSingle, RxView, TxView, RxShape, TxShape, RxOk, TxOk, Low32, Linked, Outside, Foretold,
           Frames, Port.Valid, Port.Inbox, Port.Elsewhere, Port.Others;
      BlockApart();
      var len := DlcToLen(f.dlc);
      if len == 0 || f.ch != cfg.ch || f.isExt != cfg.extId {
        return;
      }
      hide DlcToLen;
      if f.id == cfg.physRxId {
        if f.data[0] / 16 == 3 {
          ApplyFlowControl(f.data);
          BlockApart();
        } else {
          ReceiveFrame(f.data);
          BlockApart();
        }
        return;
      }
      if cfg.funcRxId != 0 && f.id == cfg.funcRxId && f.data[0] / 16 == 0 {
        DeliverSingle(Functional, f.data);
        BlockApart();
      }
    }

    /** Take the oldest received frame; `m` is its message. */
    method PopFrame() returns (m: Option<nat>)
      requires Linked()
      modifies port.parts
      ensures Linked() && (m.None? <==> old(port.Inbox()).0 == [])
      ensures m.None? ==> Outside() == old(Outside())
      ensures m.Some? ==> m.value in port.frames && port.frames[m.value] == old(port.Inbox()).0[0]
      ensures m.Some? ==>
                && m.value !in port.spared
                && Outside() == (More(old(Outside()).0, m.value), (old(port.Inbox()).0[1..], old(port.Inbox()).1))
    {
      hide Frames, Port.Valid, Port.Inbox, Port.Elsewhere, Port.Others;
      m := port.PopFrame();
    }

    /** The frame has been looked at and its block may go. */
    method DropFrame(m: nat)
      requires Linked() && Outside().0.refs[m] > 0 && m !in port.spared
      modifies port.parts
      ensures Linked() && Outside() == (Less(old(Outside()).0, m), old(Outside()).1)
    {
      hide Frames, Port.Valid, Port.Inbox, Port.Elsewhere, Port.Others;
      port.Release(m);
    }

    method DrainCanRx()
      requires Valid()
      modifies `rxState, `rxSn, `rxTotal, `rxFilled, `rxBlockLeft, `rxDeadline, `rxDeadlineTime, `acc, `ticks,
               port`acc, acc, `sdu, `txState, `txWft, `done, port`sdu, `txDeadline, `txDeadlineTime, `trace, `txBs, `stminUs
      modifies `answers, `log, `up, port`frames, port`sent, port`sdus, port`published, port.parts
      ensures Valid() && Outside() == (old(Outside()).0, ([], old(port.Inbox()).1))
              && (acc == null || acc == old(acc) || fresh(acc))
      ensures Foretold() ==>
                && old(Foretold())
                && (RxView(), TxView(), WorldView()) == Drain(cfg, old(RxView()), old(TxView()), old(WorldView()),
                old(port.Inbox()).0)
    {
      hide Intake, RxView, TxView, RxShape, TxShape, RxOk, TxOk, Low32, Linked, Outside, Foretold, Frames, Port.Valid,
           Port.Inbox, Port.Elsewhere, Port.Others;
      BlockApart();
      ghost var expected := Drain(cfg, RxView(), TxView(), WorldView(), port.Inbox().0);
      ghost var others, sdus := Outside().0, port.Inbox().1;
      OutsideIs();
      var more := true;
      while more
        invariant Valid() && port.Valid() && (acc == null || acc == old(acc) || fresh(acc))
        invariant Outside() == (others, (port.Inbox().0, sdus)) && (!more ==> port.Inbox().0 == [])
        invariant Foretold() ==>
                  && old(Foretold())
                  && Drain(cfg, RxView(), TxView(), WorldView(), port.Inbox().0) == expected
        decreases more, |port.Inbox().0|
      {
        more := DrainOne(others, sdus, expected);
        BlockApart();
      }
    }

    lemma OutsideIs()
      requires port.Valid()
      ensures Outside() == (Around(port.Others(), port.Elsewhere()), port.Inbox())
    {}

    /** One frame: popped, routed, released. */
    method DrainOne(ghost others: Around, ghost sdus: seq<Sdu>, ghost expected: (Rx, Tx, World)) returns (more: bool)
      requires Valid() && Outside() == (others, (port.Inbox().0, sdus))
      requires Foretold() ==> Drain(cfg, RxView(), TxView(), WorldView(), port.Inbox().0) == expected
      modifies `rxState, `rxSn, `rxTotal, `rxFilled, `rxBlockLeft, `rxDeadline, `rxDeadlineTime, `acc, `ticks,
               port`acc, acc, `sdu, `txState, `txWft, `done, port`sdu, `txDeadline, `txDeadlineTime, `trace, `txBs, `stminUs
      modifies `answers, `log, `up, port`frames, port`sent, port`sdus, port`published, port.parts
      ensures Valid() && (acc == null || acc == old(acc) || fresh(acc))
      ensures Outside() == (others, (port.Inbox().0, sdus))
      ensures if more then |port.Inbox().0| < |old(port.Inbox()).0| else port.Inbox().0 == []
      ensures Foretold() ==> old(Foretold()) && Drain(cfg, RxView(), TxView(), WorldView(), port.Inbox().0) == expected
    {
      hide Intake, RxView, TxView, RxShape, TxShape, RxOk, TxOk, Low32, Linked, Outside, Foretold, Frames, Port.Valid,
           Port.Inbox, Port.Elsewhere, Port.Others;
      BlockApart();
      OutsideIs();
      var m := PopFrame();
      BlockApart();
      OutsideIs();
      if m.None? {
        return false;
      }
      TakeFrame(port.frames[m.value]);
      BlockApart();
      DropFrame(m.value);
      BlockApart();
      OutsideIs();
      MoreThenLess(others, m.value);
      return true;
    }

    // -------------------------------------------------------------- public calls

    /** Every guard names the one timeout it enforces; a flow control still held is offered
        again. */
    method CheckReception(now: uint32, ghost nowTime: nat)
      requires Linked() && RxShape() && RxOk(RxView()) && now == Low32(nowTime)
      modifies `rxState, `rxSn, `rxTotal, `rxFilled, `rxBlockLeft, `rxDeadline, `rxDeadlineTime, `acc, `ticks, port`acc
      modifies `answers, `log, `up, port`frames, port`sent, port`sdus, port`published, port.parts
      ensures Linked() && Outside() == old(Outside()) && RxShape() && RxOk(RxView()) && (acc == null || acc == old(acc))
      ensures Foretold() ==>
                && old(Foretold())
                && (RxView(), WorldView()) == RxGuards(cfg, old(RxView()), old(WorldView()), nowTime)
    {
      hide Diff32, RxAbort, EmitCts, RxOk, Low32, Linked, Outside, Foretold, Frames, Port.Valid, Port.Inbox, Port.Elsewhere,
           Port.Others;
      BlockApart();
      Diff32OfReadings(nowTime, rxDeadlineTime);
      if rxState == RxAssem && Expired(now, rxDeadline) {
        AbortReception(N_TIMEOUT_CR);
      }
      if rxState == RxFcWait && Expired(now, rxDeadline) {
        AbortReception(N_TIMEOUT_A);
      }
      if rxState == RxFcWait {
        EmitClearToSend();
      }
    }

    method CheckTransmission(now: uint32, ghost nowTime: nat)
      requires Linked() && TxShape() && TxOk(cfg, TxView()) && now == Low32(nowTime)
      modifies `sdu, `txState, `txWft, `done, port`sdu
      modifies `answers, `up, port`sdus, port`published, port.parts
      ensures Linked() && Outside() == old(Outside()) && TxShape() && TxOk(cfg, TxView())
      ensures Foretold() ==>
                && old(Foretold())
                && (TxView(), WorldView()) == TxGuards(cfg, old(TxView()), old(WorldView()), nowTime)
    {
      hide Diff32, TxEnd, HeadLoad, Low32, Linked, Outside, Foretold, Frames, Port.Valid, Port.Inbox, Port.Elsewhere, Port.Others;
      BlockApart();
      Diff32OfReadings(nowTime, txDeadlineTime);
      if txState == TxWaitFc && Expired(now, txDeadline) {
        EndTransmission(N_TIMEOUT_BS);
      }
      if txState == TxWaitLink && Expired(now, txDeadline) {
        EndTransmission(N_TIMEOUT_A);
      }
    }

    /** Read the clock once and check every guard against that reading. */
    method CheckGuards()
      requires Valid()
      modifies `rxState, `rxSn, `rxTotal, `rxFilled, `rxBlockLeft, `rxDeadline, `rxDeadlineTime, `acc, `ticks,
               port`acc, `sdu, `txState, `txWft, `done, port`sdu
      modifies `answers, `log, `up, port`frames, port`sent, port`sdus, port`published, port.parts
      ensures Valid() && Outside() == old(Outside()) && (acc == null || acc == old(acc))
      ensures Foretold() ==>
                && old(Foretold())
                && (RxView(), TxView(), WorldView()) == Guarded(cfg, old(RxView()), old(TxView()), old(WorldView()))
    {
      hide RxGuards, TxGuards, RxView, TxView, RxShape, TxShape, RxOk, TxOk, Low32, Linked, Outside, Foretold, Frames,
           Port.Valid, Port.Inbox, Port.Elsewhere, Port.Others;
      BlockApart();
      var now, nowTime := Now();
      CheckReception(now, nowTime);
      BlockApart();
      CheckTransmission(now, nowTime);
      BlockApart();
    }

    /** nx_can_isotp_process: drain the link, check the guards, then drive the send side. */
    method Process()
      requires Valid()
      modifies this, acc, port`frames, port`sent, port`sdus, port`published, port`acc, port`sdu, port.parts
      ensures Valid() && (acc == null || acc == old(acc) || fresh(acc))
      ensures port.Others() == old(port.Others()) && port.Elsewhere() == old(port.Elsewhere()) && port.Inbox().0 == []
      ensures Foretold() ==> old(Foretold()) && View() == IsoTpMachine.Process(cfg, old(View()))
    {
      hide Drain, RequestTx, RxGuards, TxGuards, RxView, TxView, RxShape, TxShape, RxOk, TxOk, Low32, Linked,
           Foretold, Frames, Port.Valid, Port.Inbox, Port.Elsewhere, Port.Others;
      BlockApart();
      DrainCanRx();
      BlockApart();
      CheckGuards();
      BlockApart();
      var budget := cfg.txFramesPerProcess;
      if budget == 0 {
        budget := 255;
      }
      var _ := RequestTransmit(budget);
      BlockApart();
    }

    /** nx_can_isotp_send: queue a message, or say why not. */
    method Send(data: seq<byte>, ta: Addressing) returns (r: SendResult)
      requires Valid()
      modifies port`sdus, port.parts
      ensures Valid() && port.Others() == old(port.Others()) && port.Elsewhere() == old(port.Elsewhere())
      ensures port.Inbox().0 == old(port.Inbox()).0
      ensures var badUse := data == [] || (ta == Functional && (cfg.funcTxId == 0 || |data| > SfCapacity(cfg)));
              var starved := Pool.Exhausted(old(port.ms.pool.places), old(port.ms.headers.Keys), old(port.ms.pool.forbidFallback),
                                            BlockSize(SDU_HEADER + |data|));
              var room := |old(port.ms.View())[port.at.sduRx]| < port.ms.Capacities()[port.at.sduRx];
              && (r == BadParameter <==> badUse)
              && (r == TooLongToSend <==> !badUse && |data| > MAX_MSG_LEN)
              && (r == NoMemory <==> !badUse && |data| <= MAX_MSG_LEN && starved)
              && (r == NoSlot <==> !badUse && |data| <= MAX_MSG_LEN && !starved && !room)
      ensures port.Inbox().1 == if r == Queued then old(port.Inbox()).1 + [RawSdu(cfg.link, Indication, ta, N_OK,
              data)] else old(port.Inbox()).1
    {
      hide SfCapacity, RxView, TxView, RxShape, TxShape, RxOk, TxOk, Low32, Frames, Port.Valid, Port.Inbox, Port.Elsewhere,
           Port.Others, Pool.Exhausted;
      if data == [] {
        return BadParameter;
      }
      if ta == Functional && (cfg.funcTxId == 0 || |data| > SfCapacity(cfg)) {
        return BadParameter;
      }
      if |data| > MAX_MSG_LEN {
        return TooLongToSend;
      }
      var sent := port.QueueSdu(RawSdu(cfg.link, Indication, ta, N_OK, data));
      match sent
      case NoBlock => return NoMemory;
      case NoRoom => return NoSlot;
      case Took(_) => return Queued;
    }

    // -------------------------------------------------------------- whole runs

    /** One thing happens to the instance itself; `e` is what the machine sees of it. */
    method Undergo(a: Act, theirs: multiset<nat>) returns (rest: multiset<nat>, ghost e: Option<Event>, ghost d: Deed)
      requires Valid() && Own(a) && theirs <= port.Others()
      modifies this, acc, port`frames, port`sent, port`sdus, port`published, port`acc, port`sdu, port.parts
      ensures Valid() && (acc == null || acc == old(acc) || fresh(acc))
      ensures Fits(cfg, a, e) && Does(a, d) && (d.Gains? ==> d.m !in port.spared) && rest <= port.Others()
      ensures Possible(old(Outside()).0, d) && Outside().0 == Done(old(Outside()).0, d)
      ensures Foretold() ==>
                && old(Foretold())
                && View() == if e == None then old(View()) else Step(cfg, old(View()), e.value)
    {
      hide RxView, TxView, RxShape, TxShape, RxOk, TxOk, IsoTpMachine.Process, Low32, Linked, Foretold, Frames,
           Port.Valid, Port.Inbox, Port.Elsewhere, Port.Others, SfCapacity;
      BlockApart();
      d, rest := Nothing, theirs;
      match a {
        case ProcessCalled =>
          Process();
          e := Some(Tick);
        case FrameComes(f) =>
          var ok := FrameArrives(f);
          e := if ok then Some(Arrive(f)) else None;
        case SendAsked(data, ta) =>
          var r := Send(data, ta);
          e := if r == Queued then Some(Give(RawSdu(cfg.link, Indication, ta, N_OK, data))) else None;
        case Taken(above) =>
          rest, d := OthersTake(above, theirs);
          e := None;
      }
      BlockApart();
    }

    /** The driver queues a frame it received. */
    method FrameArrives(f: Frame) returns (ok: bool)
      requires Linked()
      modifies port`frames, port.parts
      ensures Linked() && Outside().0 == old(Outside()).0
      ensures port.Inbox() == (if ok then old(port.Inbox()).0 + [f] else old(port.Inbox()).0, old(port.Inbox()).1)
    {
      hide Frames, Port.Valid, Port.Inbox, Port.Elsewhere, Port.Others;
      ok := port.Arrive(f);
    }

    /** The driver or the upper layer takes a message off an outgoing queue. */
    method OthersTake(above: bool, theirs: multiset<nat>) returns (rest: multiset<nat>, ghost d: Deed)
      requires Linked() && theirs <= port.Others()
      modifies port.parts
      ensures Linked() && port.Inbox() == old(port.Inbox()) && Does(Taken(above), d) && rest <= port.Others()
      ensures d.Gains? ==> d.m !in port.spared
      ensures Possible(old(Outside()).0, d) && Outside().0 == Done(old(Outside()).0, d)
    {
      hide Frames, Port.Valid, Port.Inbox, Port.Elsewhere, Port.Others;
      var m := port.TakeOut(above);
      if m.Some? {
        return theirs + multiset{m.value}, Gains(m.value);
      }
      return theirs, Nothing;
    }

    /** Others give up a reference. Of those they have, `theirs` are the ones they may give up or
        pass on. */
    method OthersLetGo(m: nat, theirs: multiset<nat>) returns (rest: multiset<nat>, ghost d: Deed)
      requires Linked() && theirs <= port.Others()
      modifies port`spared, port.parts
      ensures Linked() && port.Inbox() == old(port.Inbox()) && rest <= port.Others() && Does(LetGo(m), d)
      ensures Possible(old(Outside()).0, d) && Outside().0 == Done(old(Outside()).0, d)
    {
      hide Frames, Port.Valid, Port.Inbox, Port.Elsewhere, Port.Others, Enqueued, Dequeued;
      if m !in theirs {
        return theirs, Nothing;
      }
      port.StopSparing(m);
      port.Release(m);
      return theirs - multiset{m}, Loses(m);
    }

    method OthersAsk(len: nat, theirs: multiset<nat>) returns (rest: multiset<nat>, ghost d: Deed)
      requires Linked() && theirs <= port.Others()
      modifies port.parts
      ensures Linked() && port.Inbox() == old(port.Inbox()) && rest <= port.Others() && Does(BlockAsked(len), d)
      ensures Possible(old(Outside()).0, d) && Outside().0 == Done(old(Outside()).0, d)
    {
      hide Frames, Port.Valid, Port.Inbox, Port.Elsewhere, Port.Others, Enqueued, Dequeued;
      if len > PoolLayout.SIZE_MAX {
        return theirs, Nothing;
      }
      var m := port.AskBlock(len);
      if m.None? {
        return theirs, Nothing;
      }
      return theirs + multiset{m.value}, Gains(m.value);
    }

    method OthersPut(m: nat, q: nat, theirs: multiset<nat>) returns (rest: multiset<nat>, ghost d: Deed)
      requires Linked() && theirs <= port.Others()
      modifies port`spared, port.parts
      ensures Linked() && port.Inbox() == old(port.Inbox()) && rest <= port.Others() && Does(PutElsewhere(m, q), d)
      ensures Possible(old(Outside()).0, d) && Outside().0 == Done(old(Outside()).0, d)
    {
      hide Frames, Port.Valid, Port.Inbox, Port.Elsewhere, Port.Others, Enqueued, Dequeued;
      if m !in theirs || q >= |port.ms.queues| || IsMine(port.at, q) {
        return theirs, Nothing;
      }
      port.StopSparing(m);
      var ok := port.PutElsewhere(m, q);
      return theirs, if ok then Puts(m, q) else Nothing;
    }

    method OthersTakeElsewhere(q: nat, theirs: multiset<nat>) returns (rest: multiset<nat>, ghost d: Deed)
      requires Linked() && theirs <= port.Others()
      modifies port.parts
      ensures Linked() && port.Inbox() == old(port.Inbox()) && rest <= port.Others() && Does(TakenElsewhere(q), d)
      ensures Possible(old(Outside()).0, d) && Outside().0 == Done(old(Outside()).0, d)
    {
      hide Frames, Port.Valid, Port.Inbox, Port.Elsewhere, Port.Others, Enqueued, Dequeued;
      if q >= |port.ms.queues| || IsMine(port.at, q) {
        return theirs, Nothing;
      }
      var m := port.TakeElsewhere(q);
      if m.None? {
        return theirs, Nothing;
      }
      return theirs + multiset{m.value}, Takes(q);
    }

    /** One thing others do: it changes their references or queues, and nothing of the instance. */
    method LookOn(a: Act, theirs: multiset<nat>) returns (rest: multiset<nat>, ghost d: Deed)
      requires Valid() && !Own(a)
      requires theirs <= port.Others()
      modifies port`spared, port.parts
      ensures Valid() && View() == old(View()) && Does(a, d) && rest <= port.Others()
      ensures Foretold() == old(Foretold())
      ensures Possible(old(Outside()).0, d) && Outside().0 == Done(old(Outside()).0, d)
    {
      hide RxView, TxView, RxShape, TxShape, RxOk, TxOk, Low32, Frames, Linked, Outside, Possible, Done, Does,
           Port.Valid, Port.Inbox, Port.Elsewhere, Port.Others;
      BlockApart();
      match a {
        case LetGo(m) => rest, d := OthersLetGo(m, theirs);
        case BlockAsked(len) => rest, d := OthersAsk(len, theirs);
        case PutElsewhere(m, q) => rest, d := OthersPut(m, q, theirs);
        case TakenElsewhere(q) => rest, d := OthersTakeElsewhere(q, theirs);
      }
      BlockApart();
    }

    /** Whatever happens to an instance and around it, in whatever order: it stays in step with
        the machine, holds its own references and no more, and others' references and queues are
        what they themselves have made of them. */
    method Perform(acts: seq<Act>, theirs: multiset<nat>) returns (ghost es: seq<Event>, ghost deeds: seq<Deed>)
      requires Valid() && theirs <= port.Others()
      modifies this, acc, port`frames, port`sent, port`sdus, port`published, port`acc, port`sdu, port`spared, port.parts
      ensures Valid()
      ensures Happened(cfg, acts, es) && Leads(old(Outside()).0, acts, deeds, Outside().0)
      ensures Foretold() ==> old(Foretold()) && View() == Run(cfg, old(View()), es)
    {
      hide RxView, TxView, RxShape, TxShape, RxOk, TxOk, InstOk, IsoTpMachine.Process, Low32, Linked, Foretold, Outside, Does, Possible, Done,
           Frames, Port.Valid, Port.Inbox, Port.Elsewhere, Port.Others, View, Fits, Step;
      BlockApart();
      StateOk();
      ghost var start, around := View(), Outside().0;
      es, deeds := [], [];
      assert acts[..0] == [];
      var loose := theirs;
      for i := 0 to |acts|
        invariant Valid() && port.Valid() && (acc == null || acc == old(acc) || fresh(acc)) && loose <= port.Others()
        invariant InstOk(cfg, start) && Happened(cfg, acts[..i], es) && Leads(around, acts[..i], deeds, Outside().0)
        invariant Foretold() ==> old(Foretold()) && View() == Run(cfg, start, es)
      {
        StateOk();
        ghost var was := Outside().0;
        ghost var e: Option<Event>, d: Deed;
        if Own(acts[i]) {
          loose, e, d := Undergo(acts[i], loose);
        } else {
          loose, d := LookOn(acts[i], loose);
          e := None;
          NothingSeen(acts[i]);
        }
        BlockApart();
        OneMoreAct(cfg, acts, i, es, e);
        OneMoreDeed(around, acts, i, deeds, d, was);
        deeds := deeds + [d];
        if e.Some? {
          assert (es + [e.value])[..|es|] == es;
          es := es + [e.value];
        }
      }
      assert acts[..|acts|] == acts;
    }

    lemma NothingSeen(a: Act)
      requires !Own(a)
      ensures Fits(cfg, a, None)
    {}

    lemma StateOk()
      requires Valid()
      ensures InstOk(cfg, View())
    {}

    // -------------------------------------------------------------- ownership

    /** Between calls the instance holds a block for its reception exactly while one is under way,
        and its message exactly while one is being sent; with the others' references these are
        all the references there are, and the counts and the pool agree with them. */
    lemma HoldsExactly()
      requires Valid()
      ensures port.acc.Some? <==> rxState != RxIdle
      ensures port.sdu.Some? <==> txState != TxIdle
      ensures port.ms.Valid() && port.ms.held == port.Others() + (Bag(port.acc) + Bag(port.sdu))
    {
      hide HeadLoad, Known, Suffix, Messages.Valid;
    }

    /** An idle instance holds nothing: with its queues drained and no other holder, every block is
        back in the pool. */
    lemma IdleMeansFree()
      requires Valid() && rxState == RxIdle && txState == TxIdle
      requires port.Others() == multiset{} && forall s :: s in port.ms.View() ==> s == []
      ensures port.ms.pool.LiveBlocks() == {} && port.ms.headers == map[]
    {
      HoldsExactly();
      port.ms.DrainedMeansFree();
    }
  }
}
