/** Two ISO-TP instances on one pool, each with its own four queues: neither disturbs the other. */
module IsoTpPair {
  import opened Options
  import opened CanBus
  import opened IsoTpTypes
  import opened IsoTpMachine
  import opened IsoTpPort
  import opened IsoTp
  import opened RefMsg

  predicate Apart(a: Places, b: Places) {
    !IsMine(a, b.canRx) && !IsMine(a, b.canTx) && !IsMine(a, b.sduRx) && !IsMine(a, b.sduTx)
  }

  function Only(m: Option<nat>): set<nat> {
    if m.Some? then {m.value} else {}
  }

  lemma RestWithin(held: multiset<nat>, acc: Option<nat>, sdu: Option<nat>)
    ensures Rest(held, acc, sdu) <= held
    ensures forall m: nat :: acc != Some(m) && sdu != Some(m) ==> Rest(held, acc, sdu)[m] == held[m]
  {}

  /** The queues that are not the other instance's show what they showed. */
  lemma OthersShow(at: Places, was: seq<seq<nat>>, now: seq<seq<nat>>, at2: Places, frames: map<nat, Frame>, sdus: map<nat, Sdu>)
    requires Apart(at, at2) && Blanked(at, was) == Blanked(at, now) && Known(at2, was, frames, sdus)
    ensures Known(at2, now, frames, sdus) && TrafficOf(at2, now, frames, sdus) == TrafficOf(at2, was, frames, sdus)
  {
    hide Told;
    forall q: nat | q < |was| && IsMine(at2, q)
      ensures |now| == |was| && now[q] == was[q]
    {
      assert |Blanked(at, was)| == |was| && |Blanked(at, now)| == |now|;
      assert Blanked(at, was)[q] == Blanked(at, now)[q];
    }
  }

  /** All that one instance's books say stays true when another one, which spares the block being
      filled, goes from `was` to `now` and leaves everybody's references and queues alone. */
  lemma Undisturbed(at: Places, was: Books, now: Books, at2: Places, b: Books, b2: Books)
    requires Apart(at, at2) && Sound(at, was) && Sound(at, now) && Sound(at2, b)
    requires was.view == b.view && was.held == b.held && b2 == b.(view := now.view, held := now.held)
    requires Blanked(at, was.view) == Blanked(at, now.view) && b.spared == {}
    requires was.spared == now.spared == Only(b.acc)
    requires Bag(b.acc) + Bag(b.sdu) <= Rest(was.held, was.acc, was.sdu) <= Rest(now.held, now.acc, now.sdu)
    requires b.acc.Some? ==> Rest(now.held, now.acc, now.sdu)[b.acc.value] == Rest(was.held, was.acc, was.sdu)[b.acc.value]
    ensures Sound(at2, b2) && Waiting(at2, b2) == Waiting(at2, b)
    ensures Bag(b2.acc) + Bag(b2.sdu) <= Rest(now.held, now.acc, now.sdu)
  {
    hide TrafficOf, Suffix, Known, Rest, Blanked, Apart;
    OthersShow(at, was.view, now.view, at2, b.frames, b.sdus);
    RestWithin(was.held, was.acc, was.sdu);
    RestWithin(now.held, now.acc, now.sdu);
    if b.acc.Some? {
      assert b.acc.value in now.spared && b.acc.value in was.spared;
      hide Bag;
      assert Untouched(now, b.acc.value) && Untouched(was, b.acc.value);
    }
  }

  /** Two instances at different queues of the same messages. The first leaves alone the block the
      other one is filling, and no reference is the instances' twice. */
  ghost predicate Beside(x: Instance, y: Instance)
    reads x, y, x.port, y.port, x.port.ms
  {
    && x != y && x.port != y.port && x.port.ms == y.port.ms && Apart(x.port.at, y.port.at)
    && (x.acc == null || x.acc != y.acc) && x.port.spared == Only(y.port.acc)
    && Bag(y.port.acc) + Bag(y.port.sdu) <= x.port.Others()
  }

  /** Likewise the other way round. */
  ghost predicate Mates(x: Instance, y: Instance)
    reads x, y, x.port, y.port, x.port.ms
  {
    Beside(x, y) && y.port.spared == Only(x.port.acc)
  }

  lemma SameParts(x: Instance, y: Instance)
    requires x.Valid() && y.Valid() && Beside(x, y)
    ensures x.port.parts == y.port.parts && {x as object, y, x.port, y.port} !! x.port.parts
    ensures x.acc != null ==> (x.acc as object) !in x.port.parts
    ensures y.acc != null ==> (y.acc as object) !in x.port.parts
    ensures x.port.Valid() && y.port.Valid() && x.port.Framed() && x.port.ms.Valid()
  {}

  /** One port's books went from `was` to what they are now; another one's, `b`, are still in order
      and show what they showed. */
  lemma Bystands(x: Port, y: Port, was: Books, b: Books)
    requires x.Valid() && y.Framed() && x.ms == y.ms && Apart(x.at, y.at)
    requires Sound(x.at, was) && Sound(y.at, b) && was.view == b.view && was.held == b.held
    requires y.Now() == b.(view := x.Now().view, held := x.Now().held) && b.spared == {}
    requires was.spared == x.spared == Only(b.acc) && Blanked(x.at, was.view) == x.Elsewhere()
    requires Bag(b.acc) + Bag(b.sdu) <= Rest(was.held, was.acc, was.sdu) <= x.Others()
    requires b.acc.Some? ==> x.Others()[b.acc.value] == Rest(was.held, was.acc, was.sdu)[b.acc.value]
    ensures y.Valid() && y.Inbox() == (Waiting(y.at, b).canRx, Waiting(y.at, b).sduRx)
    ensures Bag(y.acc) + Bag(y.sdu) <= x.Others()
  {
    hide Sound, Waiting, Messages.Valid, Messages.View, Rest, Bag, Blanked, Apart;
    Undisturbed(x.at, was, x.Now(), y.at, b, y.Now());
  }

  /** What happens to an instance leaves others' queues alone, and of their references at most
      adds one. */
  lemma OwnDeed(w: Around, a: Act, d: Deed)
    requires Own(a) && Does(a, d) && Possible(w, d)
    ensures Done(w, d).elsewhere == w.elsewhere && w.refs <= Done(w, d).refs
    ensures forall m: nat :: d != Gains(m) ==> Done(w, d).refs[m] == w.refs[m]
  {}

  /** Something happens to one instance; the other does not notice. */
  method ActBeside(x: Instance, y: Instance, a: Act) returns (ghost e: Option<Event>)
    requires x.Valid() && y.Valid() && Beside(x, y) && y.port.spared == {} && Own(a)
    modifies x, x.acc, x.port, x.port.parts
    ensures x.Valid() && y.Valid() && Beside(x, y) && y.port.spared == {}
    ensures x.acc == null || x.acc == old(x.acc) || fresh(x.acc)
    ensures Fits(x.cfg, a, e)
    ensures x.Foretold() ==>
              && old(x.Foretold())
              && x.View() == if e == None then old(x.View()) else Step(x.cfg, old(x.View()), e.value)
    ensures y.View() == old(y.View())
  {
    hide Instance.RxShape, Instance.TxShape, Instance.RxView, Instance.TxView, Instance.WorldView, RxOk, TxOk, Fits, Step,
         Instance.Foretold, Messages.Valid, Messages.View, Sound, Waiting, Bag, Apart, Rest, Blanked, Does, Possible, Done, Frames;
    SameParts(x, y);
    ghost var was, b, around := x.port.Now(), y.port.Now(), x.Outside().0;
    assert around == Around(Rest(was.held, was.acc, was.sdu), Blanked(x.port.at, was.view));
    var rest;
    ghost var d;
    rest, e, d := x.Undergo(a, multiset{});
    OwnDeed(around, a, d);
    Bystands(x.port, y.port, was, b);
  }

  /** The block one instance is filling is one the other can spare. */
  lemma CanSpare(x: Port, y: Port)
    requires x.Valid() && y.Valid() && x.ms == y.ms && x.acc.Some? && Bag(y.acc) + Bag(y.sdu) <= x.Others()
    ensures y.Others()[x.acc.value] > 0 && Unqueued(y.ms.View(), x.acc.value)
    ensures y.acc != x.acc && y.sdu != x.acc
  {
    hide Sound, Messages.Valid, Messages.View, Unqueued;
    Holders(x.at, x.Now());
    var m := x.acc.value;
    assert x.Others()[m] == 0;
    assert Bag(y.acc)[m] + Bag(y.sdu)[m] == 0 by {
      assert (Bag(y.acc) + Bag(y.sdu))[m] <= x.Others()[m];
    }
  }

  /** Instances that have yet to begin are mates. */
  lemma MatesAtFirst(x: Instance, y: Instance)
    requires x != y && x.port != y.port && x.port.ms == y.port.ms && Apart(x.port.at, y.port.at)
    requires x.acc == y.acc == null && x.port.acc == x.port.sdu == y.port.acc == y.port.sdu == None
    requires x.port.spared == y.port.spared == {}
    ensures Mates(x, y)
  {}

  lemma MatesBothWays(x: Instance, y: Instance)
    requires x.Valid() && y.Valid() && Mates(x, y)
    ensures Mates(y, x)
  {
    hide Sound, Messages.Valid, Messages.View;
    Holders(x.port.at, x.port.Now());
    Holders(y.port.at, y.port.Now());
  }

  /** One instance is about to act: its block is its own to pass on. */
  ghost method StopSparing(x: Instance, y: Instance)
    requires x.Valid() && y.Valid() && Mates(x, y)
    modifies y.port`spared
    ensures x.Valid() && y.Valid() && Beside(x, y) && y.port.spared == {}
    ensures x.View() == old(x.View()) && y.View() == old(y.View())
  {
    hide Instance.RxShape, Instance.TxShape, Instance.RxView, Instance.TxView, Instance.WorldView, RxOk, TxOk,
         Messages.Valid, Messages.View, Sound, Waiting, Bag, Apart, Rest, Blanked, Frames;
    SameParts(x, y);
    if x.port.acc.Some? {
      y.port.StopSparing(x.port.acc.value);
    }
  }

  /** It has acted: the other one is to leave the block it fills now as it is. */
  ghost method StartSparing(x: Instance, y: Instance)
    requires x.Valid() && y.Valid() && Beside(x, y) && y.port.spared == {}
    modifies y.port`spared
    ensures x.Valid() && y.Valid() && Mates(x, y)
    ensures x.View() == old(x.View()) && y.View() == old(y.View())
  {
    hide Instance.RxShape, Instance.TxShape, Instance.RxView, Instance.TxView, Instance.WorldView, RxOk, TxOk,
         Messages.Valid, Messages.View, Sound, Waiting, Bag, Apart, Rest, Blanked, Frames;
    SameParts(x, y);
    if x.port.acc.Some? {
      CanSpare(x.port, y.port);
      y.port.StartSparing(x.port.acc.value);
    }
  }

  /** Something happens to one of two mates, and they are mates still. */
  method ActAmong(x: Instance, y: Instance, a: Act) returns (ghost e: Option<Event>)
    requires x.Valid() && y.Valid() && Mates(x, y) && Own(a)
    modifies x, x.acc, x.port, x.port.parts, y.port`spared
    ensures x.Valid() && y.Valid() && Mates(x, y) && (x.acc == null || x.acc == old(x.acc) || fresh(x.acc))
    ensures Fits(x.cfg, a, e)
    ensures x.Foretold() ==>
              && old(x.Foretold())
              && x.View() == if e == None then old(x.View()) else Step(x.cfg, old(x.View()), e.value)
    ensures y.View() == old(y.View())
  {
    hide Instance.Valid, Instance.View, Instance.Foretold, Port.Valid, Beside, Fits, Step;
    SameParts(x, y);
    StopSparing(x, y);
    e := ActBeside(x, y, a);
    StartSparing(x, y);
  }

  /** Whose turn it is, and what happens to that instance. */
  datatype Turn = Turn(first: bool, act: Act)

  /** What happens to one of the two. */
  function ActsOf(turns: seq<Turn>, first: bool): seq<Act> {
    if turns == [] then []
    else
      var t := turns[|turns| - 1];
      ActsOf(turns[..|turns| - 1], first) + if t.first == first then [t.act] else []
  }

  lemma OneMoreTurn(cfg: Config, turns: seq<Turn>, i: nat, first: bool, es: seq<Event>, e: Option<Event>)
    requires i < |turns| && Happened(cfg, ActsOf(turns[..i], first), es)
    requires turns[i].first == first ==> Fits(cfg, turns[i].act, e)
    ensures Happened(cfg, ActsOf(turns[..i + 1], first), es + if turns[i].first == first then Seen(e) else [])
  {
    hide Fits, Happened;
    assert turns[..i + 1][..i] == turns[..i];
    var front, a := ActsOf(turns[..i], first), turns[i].act;
    assert (front + [a])[..|front|] == front && (front + [a])[..|front| + 1] == front + [a];
    if turns[i].first == first {
      OneMoreAct(cfg, front + [a], |front|, es, e);
      assert es + [] == es;
    } else {
      assert front + [] == front && es + [] == es;
    }
  }

  function Seen(e: Option<Event>): seq<Event> {
    if e.Some? then [e.value] else []
  }

  /** One step further, or none. */
  lemma StepOn(cfg: Config, start: Inst, es: seq<Event>, e: Option<Event>)
    requires InstOk(cfg, start)
    ensures Run(cfg, start, es + Seen(e)) == if e == None then Run(cfg, start, es) else Step(cfg, Run(cfg, start, es), e.value)
  {
    hide Step;
    assert es + [] == es;
    if e.Some? {
      assert (es + [e.value])[..|es|] == es;
    }
  }

  /** One of them acts. */
  method OneTurn(x: Instance, y: Instance, t: Turn) returns (ghost e: Option<Event>)
    requires x.Valid() && y.Valid() && Mates(x, y) && Own(t.act)
    modifies x, x.acc, x.port, x.port.parts, y, y.acc, y.port
    ensures x.Valid() && y.Valid() && Mates(x, y)
    ensures (x.acc == null || x.acc == old(x.acc) || fresh(x.acc)) && (y.acc == null || y.acc == old(y.acc) || fresh(y.acc))
    ensures Fits(if t.first then x.cfg else y.cfg, t.act, e)
    ensures x.Foretold() ==>
              && old(x.Foretold())
              && x.View() == if t.first && e.Some? then Step(x.cfg, old(x.View()), e.value) else old(x.View())
    ensures y.Foretold() ==>
              && old(y.Foretold())
              && y.View() == if !t.first && e.Some? then Step(y.cfg, old(y.View()), e.value) else old(y.View())
  {
    hide Instance.Valid, Instance.View, Instance.Foretold, Port.Valid, Mates, Beside, Fits, Step, Own, InstOk;
    Meet(x, y);
    if t.first {
      e := ActAmong(x, y, t.act);
    } else {
      MatesBothWays(x, y);
      e := ActAmong(y, x, t.act);
      MatesBothWays(y, x);
    }
    Meet(x, y);
  }

  /** Two instances on the same pool, whatever happens to them in whatever order: each one does
      what its machine does on its own events alone, and their books stay in order. */
  method RunTogether(x: Instance, y: Instance, turns: seq<Turn>) returns (ghost ex: seq<Event>, ghost ey: seq<Event>)
    requires x.Valid() && y.Valid() && Mates(x, y) && forall i :: 0 <= i < |turns| ==> Own(turns[i].act)
    modifies x, x.acc, x.port, x.port.parts, y, y.acc, y.port
    ensures x.Valid() && y.Valid() && Mates(x, y)
    ensures Happened(x.cfg, ActsOf(turns, true), ex) && Happened(y.cfg, ActsOf(turns, false), ey)
    ensures x.Foretold() ==> old(x.Foretold()) && x.View() == Run(x.cfg, old(x.View()), ex)
    ensures y.Foretold() ==> old(y.Foretold()) && y.View() == Run(y.cfg, old(y.View()), ey)
  {
    hide Instance.Valid, Instance.View, Instance.Foretold, Port.Valid, Mates, Beside, Fits, Step, Happened, InstOk, Run, Own, ActsOf;
    Meet(x, y);
    ghost var fromX, fromY := x.View(), y.View();
    ex, ey := [], [];
    NothingYet(x.cfg, fromX);
    NothingYet(y.cfg, fromY);
    assert turns[..0] == [];
    for i := 0 to |turns|
      invariant x.Valid() && y.Valid() && Mates(x, y) && x.port.Valid() && y.port.Valid()
      invariant x.acc == null || x.acc == old(x.acc) || fresh(x.acc)
      invariant y.acc == null || y.acc == old(y.acc) || fresh(y.acc)
      invariant InstOk(x.cfg, fromX) && InstOk(y.cfg, fromY)
      invariant Happened(x.cfg, ActsOf(turns[..i], true), ex) && Happened(y.cfg, ActsOf(turns[..i], false), ey)
      invariant x.Foretold() ==> old(x.Foretold()) && x.View() == Run(x.cfg, fromX, ex)
      invariant y.Foretold() ==> old(y.Foretold()) && y.View() == Run(y.cfg, fromY, ey)
    {
      Meet(x, y);
      ghost var e := OneTurn(x, y, turns[i]);
      ghost var first := turns[i].first;
      OneMoreTurn(x.cfg, turns, i, true, ex, e);
      OneMoreTurn(y.cfg, turns, i, false, ey, e);
      StepOn(x.cfg, fromX, ex, if first then e else None);
      StepOn(y.cfg, fromY, ey, if first then None else e);
      ex, ey := ex + if first then Seen(e) else [], ey + if first then [] else Seen(e);
      Meet(x, y);
    }
    assert turns[..|turns|] == turns;
  }

  lemma NothingYet(cfg: Config, s: Inst)
    requires InstOk(cfg, s)
    ensures Happened(cfg, ActsOf([], true), []) && Happened(cfg, ActsOf([], false), []) && Run(cfg, s, []) == s
  {}

  /** What two mates have in common and what not. */
  lemma Meet(x: Instance, y: Instance)
    requires x.Valid() && y.Valid() && Mates(x, y)
    ensures x.port.Valid() && y.port.Valid() && x.port.parts == y.port.parts && x != y && x.port != y.port
    ensures {x as object, y, x.port, y.port} !! x.port.parts && (x.acc == null || x.acc != y.acc)
    ensures x.acc != null ==> (x.acc as object) !in x.port.parts
    ensures y.acc != null ==> (y.acc as object) !in x.port.parts
    ensures InstOk(x.cfg, x.View()) && InstOk(y.cfg, y.View())
  {
    SameParts(x, y);
    x.StateOk();
    y.StateOk();
  }
}
