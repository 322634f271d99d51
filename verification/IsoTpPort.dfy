/** Where an ISO-TP instance meets the pool and the queues: the block it reassembles into, the
    message it is sending, and the messages of its four queues. */
module IsoTpPort {
  import opened Options
  import opened Words
  import opened CanBus
  import opened IsoTpTypes
  import opened Pool
  import opened PoolLayout
  import opened PoolState
  import opened RefMsg

  /** sizeof(nx_can_msg_t) and sizeof(nx_tp_sdu_t), ahead of their payload. */
  const FRAME_HEADER := 16
  const SDU_HEADER := 8

  // ---------------------------------------------------------------- what queued blocks hold

  /** The messages of a queue, as what their blocks hold. */
  function Told<T>(c: map<nat, T>, q: seq<nat>): (r: seq<T>)
    requires forall m :: m in q ==> m in c
    ensures |r| == |q|
  {
    seq(|q|, i requires 0 <= i < |q| => c[q[i]])
  }

  /** The places of the four queues among all queues. */
  datatype Places = Places(canRx: nat, canTx: nat, sduRx: nat, sduTx: nat)

  ghost predicate Known(at: Places, view: seq<seq<nat>>, frames: map<nat, Frame>, sdus: map<nat, Sdu>) {
    && at.canRx < |view| && at.canTx < |view| && at.sduRx < |view| && at.sduTx < |view|
    && at.canRx != at.canTx && at.sduRx != at.sduTx && {at.canRx, at.canTx} !! {at.sduRx, at.sduTx}
    && (forall m :: m in view[at.canRx] ==> m in frames) && (forall m :: m in view[at.canTx] ==> m in frames)
    && (forall m :: m in view[at.sduRx] ==> m in sdus) && (forall m :: m in view[at.sduTx] ==> m in sdus)
  }

  /** What is in the four queues. */
  datatype Traffic = Traffic(canRx: seq<Frame>, canTx: seq<Frame>, sduRx: seq<Sdu>, sduTx: seq<Sdu>)

  ghost function TrafficOf(at: Places, view: seq<seq<nat>>, frames: map<nat, Frame>, sdus: map<nat, Sdu>): Traffic
    requires Known(at, view, frames, sdus)
  {
    Traffic(Told(frames, view[at.canRx]), Told(frames, view[at.canTx]), Told(sdus, view[at.sduRx]), Told(sdus, view[at.sduTx]))
  }

  predicate Unqueued(view: seq<seq<nat>>, m: nat) {
    forall i :: 0 <= i < |view| ==> m !in view[i]
  }

  lemma ToldMore<T>(c: map<nat, T>, q: seq<nat>, m: nat, x: T)
    requires (forall k :: k in q ==> k in c) && m !in q
    ensures Told(c[m := x], q) == Told(c, q) && Told(c[m := x], q + [m]) == Told(c, q) + [x]
  {}

  lemma ToldRest<T>(c: map<nat, T>, q: seq<nat>)
    requires (forall k :: k in q ==> k in c) && q != []
    ensures Told(c, q[1..]) == Told(c, q)[1..] && Told(c, q)[0] == c[q[0]]
  {}

  lemma PutFrame(at: Places, view: seq<seq<nat>>, frames: map<nat, Frame>, sdus: map<nat, Sdu>, q: nat, m: nat, f: Frame)
    requires Known(at, view, frames, sdus) && Unqueued(view, m) && (q == at.canRx || q == at.canTx)
    ensures Known(at, Enqueued(view, q, m), frames[m := f], sdus)
    ensures var t := TrafficOf(at, view, frames, sdus);
            TrafficOf(at, Enqueued(view, q, m), frames[m := f], sdus) ==
              if q == at.canRx then t.(canRx := t.canRx + [f]) else t.(canTx := t.canTx + [f])
  {
    hide Told;
    ToldMore(frames, view[at.canRx], m, f);
    ToldMore(frames, view[at.canTx], m, f);
  }

  lemma PutSdu(at: Places, view: seq<seq<nat>>, frames: map<nat, Frame>, sdus: map<nat, Sdu>, q: nat, m: nat, s: Sdu)
    requires Known(at, view, frames, sdus) && Unqueued(view, m) && (q == at.sduRx || q == at.sduTx)
    ensures Known(at, Enqueued(view, q, m), frames, sdus[m := s])
    ensures var t := TrafficOf(at, view, frames, sdus);
            TrafficOf(at, Enqueued(view, q, m), frames, sdus[m := s]) ==
              if q == at.sduRx then t.(sduRx := t.sduRx + [s]) else t.(sduTx := t.sduTx + [s])
  {
    hide Told;
    ToldMore(sdus, view[at.sduRx], m, s);
    ToldMore(sdus, view[at.sduTx], m, s);
  }

  lemma TakeFront(at: Places, view: seq<seq<nat>>, frames: map<nat, Frame>, sdus: map<nat, Sdu>, q: nat)
    requires Known(at, view, frames, sdus) && q in {at.canRx, at.canTx, at.sduRx, at.sduTx} && view[q] != []
    ensures Known(at, Dequeued(view, q), frames, sdus)
    ensures var t, t' := TrafficOf(at, view, frames, sdus), TrafficOf(at, Dequeued(view, q), frames, sdus);
            && (q == at.canRx ==> t.canRx != [] && t.canRx[0] == frames[view[q][0]] && t' == t.(canRx := t.canRx[1..]))
            && (q == at.canTx ==> t.canTx != [] && t.canTx[0] == frames[view[q][0]] && t' == t.(canTx := t.canTx[1..]))
            && (q == at.sduRx ==> t.sduRx != [] && t.sduRx[0] == sdus[view[q][0]] && t' == t.(sduRx := t.sduRx[1..]))
            && (q == at.sduTx ==> t.sduTx != [] && t.sduTx[0] == sdus[view[q][0]] && t' == t.(sduTx := t.sduTx[1..]))
  {
    hide Told;
    if q == at.canRx || q == at.canTx {
      ToldRest(frames, view[q]);
    } else {
      ToldRest(sdus, view[q]);
    }
  }

  // ---------------------------------------------------------------- a message into a queue

  datatype Delivery = Took(m: nat) | NoBlock | NoRoom

  /** What a block holds before it is written. */
  function Blank(len: nat): (data: seq<bv8>)
    ensures |data| == len
  {
    seq(len, _ => 0)
  }

  /** Queue a message and drop the producer's reference either way. */
  method HandOver(ms: Messages, m: nat, q: nat) returns (took: bool)
    requires ms.Valid() && q < |ms.queues| && ms.held[m] > 0
    modifies ms, ms.pool`history, ms.pool.mem, ms.pool.tiers, ms.queues[q], ms.queues[q].buffer
    ensures ms.Valid() && ms.held == old(ms.held) - multiset{m} && m in old(ms.headers)
    ensures took <==> |old(ms.View())[q]| < ms.Capacities()[q]
    ensures ms.View() == if took then Enqueued(old(ms.View()), q, m) else old(ms.View())
    ensures var was := old(ms.headers);
            ms.headers == if took then was
                          else if was[m].refcount == 1 then was - {m}
                          else was[m := was[m].(refcount := was[m].refcount - 1)]
  {
    hide Balanced, PoolOk, Live, Messages.View, Messages.QueuesOk, Messages.Separate, Enqueued;
    ms.HeldIsLive(m);
    var r := ms.Publish(m, q);
    took := r.Published?;
    ms.Release(m);
    if took {
      assert ms.headers == old(ms.headers);
    }
  }

  /** The one way a new message goes out: a block for it, one more reference for the queue, and
      the producer's dropped, so that a refused message is gone. */
  method Deliver(ms: Messages, len: nat, q: nat) returns (r: Delivery)
    requires ms.Valid() && q < |ms.queues| && 0 < len <= SIZE_MAX - HEADER
    modifies ms, ms.pool`history, ms.pool.mem, ms.pool.tiers, ms.queues[q], ms.queues[q].buffer
    ensures ms.Valid() && ms.held == old(ms.held)
    ensures r.NoBlock? <==> Exhausted(ms.pool.places, old(ms.headers.Keys), ms.pool.forbidFallback, BlockSize(len))
    ensures r.NoRoom? ==> |old(ms.View())[q]| >= ms.Capacities()[q]
    ensures r.Took? ==> |old(ms.View())[q]| < ms.Capacities()[q]
    ensures r.Took? ==> r.m !in old(ms.headers) && ms.View() == Enqueued(old(ms.View()), q, r.m)
    ensures r.Took? ==> ms.headers == old(ms.headers)[r.m := Header(Blank(len), 1)]
    ensures !r.Took? ==> ms.View() == old(ms.View()) && ms.headers == old(ms.headers)
  {
    hide Balanced, PoolOk, Live, Exhausted, Messages.View, Messages.QueuesOk, Messages.Separate, Enqueued, Blank;
    var m := ms.Alloc(Blank(len));
    if m.None? {
      return NoBlock;
    }
    var took := HandOver(ms, m.value, q);
    if !took {
      assert ms.headers == old(ms.headers);
      return NoRoom;
    }
    return Took(m.value);
  }

  // ---------------------------------------------------------------- the books

  ghost predicate Suffix<T>(a: seq<T>, b: seq<T>) {
    |a| <= |b| && a == b[|b| - |a|..]
  }

  function Bag(m: Option<nat>): multiset<nat> {
    if m.Some? then multiset{m.value} else multiset{}
  }

  /** Of the references held, those that are not the instance's. */
  function Rest(held: multiset<nat>, acc: Option<nat>, sdu: Option<nat>): multiset<nat> {
    held - (Bag(acc) + Bag(sdu))
  }

  lemma OneMore(held: multiset<nat>, mine: multiset<nat>, m: nat)
    requires mine <= held
    ensures mine <= held + multiset{m} && mine + multiset{m} <= held + multiset{m}
    ensures held + multiset{m} - mine == held - mine + multiset{m}
    ensures held + multiset{m} - (mine + multiset{m}) == held - mine
  {}

  lemma OneLess(held: multiset<nat>, mine: multiset<nat>, m: nat)
    requires mine + multiset{m} <= held
    ensures held[m] > 0 && mine <= held - multiset{m} && mine <= held
    ensures held - multiset{m} - mine == held - (mine + multiset{m})
    ensures held - mine == held - (mine + multiset{m}) + multiset{m}
  {}

  lemma OneLost(held: multiset<nat>, mine: multiset<nat>, m: nat)
    requires mine <= held && (held - mine)[m] > 0
    ensures held[m] > 0 && mine <= held - multiset{m}
    ensures held - multiset{m} - mine == held - mine - multiset{m}
  {}

  /** Somebody takes a reference, or the instance does. */
  lemma RestGains(held: multiset<nat>, acc: Option<nat>, sdu: Option<nat>, m: nat)
    requires Bag(acc) + Bag(sdu) <= held
    ensures Bag(acc) + Bag(sdu) <= held + multiset{m}
    ensures Rest(held + multiset{m}, acc, sdu) == Rest(held, acc, sdu) + multiset{m}
    ensures acc.None? ==>
              && Bag(Some(m)) + Bag(sdu) <= held + multiset{m}
              && Rest(held + multiset{m}, Some(m), sdu) == Rest(held, acc, sdu)
    ensures sdu.None? ==>
              && Bag(acc) + Bag(Some(m)) <= held + multiset{m}
              && Rest(held + multiset{m}, acc, Some(m)) == Rest(held, acc, sdu)
  {
    OneMore(held, Bag(acc) + Bag(sdu), m);
    assert acc.None? ==> Bag(Some(m)) + Bag(sdu) == Bag(acc) + Bag(sdu) + multiset{m};
    assert sdu.None? ==> Bag(acc) + Bag(Some(m)) == Bag(acc) + Bag(sdu) + multiset{m};
  }

  lemma NothingMine(held: multiset<nat>)
    ensures Rest(held, None, None) == held
  {}

  lemma RestLoses(held: multiset<nat>, acc: Option<nat>, sdu: Option<nat>, m: nat)
    requires Bag(acc) + Bag(sdu) <= held && Rest(held, acc, sdu)[m] > 0
    ensures held[m] > 0 && Bag(acc) + Bag(sdu) <= held - multiset{m}
    ensures Rest(held - multiset{m}, acc, sdu) == Rest(held, acc, sdu) - multiset{m}
  {
    hide Bag;
    OneLost(held, Bag(acc) + Bag(sdu), m);
  }

  /** The block being filled is given up or passed on. */
  lemma AccLeaves(held: multiset<nat>, m: nat, sdu: Option<nat>)
    requires Bag(Some(m)) + Bag(sdu) <= held
    ensures held[m] > 0 && Bag(None) + Bag(sdu) <= held - multiset{m} && Bag(None) + Bag(sdu) <= held
    ensures Rest(held - multiset{m}, None, sdu) == Rest(held, Some(m), sdu)
    ensures Rest(held, None, sdu) == Rest(held, Some(m), sdu) + multiset{m}
  {
    assert Bag(Some(m)) + Bag(sdu) == Bag(None) + Bag(sdu) + multiset{m};
    OneLess(held, Bag(None) + Bag(sdu), m);
  }

  /** The message being sent is given up. */
  lemma SduLeaves(held: multiset<nat>, acc: Option<nat>, m: nat)
    requires Bag(acc) + Bag(Some(m)) <= held
    ensures held[m] > 0 && Bag(acc) + Bag(None) <= held - multiset{m}
    ensures Rest(held - multiset{m}, acc, None) == Rest(held, acc, Some(m))
  {
    assert Bag(acc) + Bag(Some(m)) == Bag(acc) + Bag(None) + multiset{m};
    OneLess(held, Bag(acc) + Bag(None), m);
  }

  /** Everything the port keeps account of: the queues, what their blocks hold, the references
      held, the instance's own two, and all that the outgoing queues ever took. */
  datatype Books = Books(view: seq<seq<nat>>, frames: map<nat, Frame>, sdus: map<nat, Sdu>, held: multiset<nat>,
                         acc: Option<nat>, sdu: Option<nat>, sent: seq<Frame>, published: seq<Sdu>, spared: set<nat>)

  /** Somebody else holds m, and neither a queue nor the instance has it. */
  ghost predicate Untouched(b: Books, m: nat) {
    Unqueued(b.view, m) && b.held[m] > 0 && b.acc != Some(m) && b.sdu != Some(m)
  }

  /** The instance's references are among those held, the block being filled is the instance's
      alone, the messages to be spared are, and what waits in an outgoing queue is the latest of
      what went into it. */
  ghost predicate Sound(at: Places, b: Books) {
    && Known(at, b.view, b.frames, b.sdus)
    && Bag(b.acc) + Bag(b.sdu) <= b.held
    && (b.acc.Some? ==> Unqueued(b.view, b.acc.value) && b.held[b.acc.value] == 1)
    && (forall m :: m in b.spared ==> Untouched(b, m))
    && Suffix(Waiting(at, b).canTx, b.sent) && Suffix(Waiting(at, b).sduTx, b.published)
  }

  predicate IsMine(at: Places, q: nat) {
    q == at.canRx || q == at.canTx || q == at.sduRx || q == at.sduTx
  }

  /** The queues that are not the instance's. */
  function Blanked(at: Places, view: seq<seq<nat>>): (rest: seq<seq<nat>>)
    ensures |rest| == |view|
  {
    seq(|view|, i requires 0 <= i < |view| => if IsMine(at, i) then [] else view[i])
  }

  lemma BlankedUpdate(at: Places, view: seq<seq<nat>>, q: nat, s: seq<nat>)
    requires q < |view|
    ensures Blanked(at, view[q := s]) == if IsMine(at, q) then Blanked(at, view) else Blanked(at, view)[q := s]
  {}

  /** What waits in the queues. */
  ghost function Waiting(at: Places, b: Books): Traffic
    requires Known(at, b.view, b.frames, b.sdus)
  {
    TrafficOf(at, b.view, b.frames, b.sdus)
  }

  lemma SuffixGrows<T>(a: seq<T>, b: seq<T>, x: T)
    requires Suffix(a, b)
    ensures Suffix(a + [x], b + [x])
  {}

  lemma SuffixShrinks<T>(a: seq<T>, b: seq<T>)
    requires Suffix(a, b) && a != []
    ensures Suffix(a[1..], b)
  {}

  /** A frame goes into a queue; one on its way to the link is recorded. */
  lemma FrameIn(at: Places, b: Books, q: nat, m: nat, f: Frame)
    requires Sound(at, b) && Unqueued(b.view, m) && (q == at.canRx || q == at.canTx) && b.acc != Some(m)
    requires m !in b.spared
    ensures q < |b.view| && Blanked(at, Enqueued(b.view, q, m)) == Blanked(at, b.view)
    ensures var b' := b.(view := Enqueued(b.view, q, m), frames := b.frames[m := f],
                         sent := if q == at.canTx then b.sent + [f] else b.sent);
            && Sound(at, b')
            && Waiting(at, b').sduRx == Waiting(at, b).sduRx
            && Waiting(at, b').canRx == if q == at.canRx then Waiting(at, b).canRx + [f] else Waiting(at, b).canRx
  {
    hide TrafficOf, Suffix, Blanked;
    BlankedUpdate(at, b.view, q, b.view[q] + [m]);
    PutFrame(at, b.view, b.frames, b.sdus, q, m, f);
    SuffixGrows(Waiting(at, b).canTx, b.sent, f);
  }

  /** A message goes into a queue; one on its way to the upper layer is recorded. */
  lemma SduIn(at: Places, b: Books, q: nat, m: nat, s: Sdu)
    requires Sound(at, b) && Unqueued(b.view, m) && (q == at.sduRx || q == at.sduTx) && b.acc != Some(m)
    requires m !in b.spared
    ensures q < |b.view| && Blanked(at, Enqueued(b.view, q, m)) == Blanked(at, b.view)
    ensures var b' := b.(view := Enqueued(b.view, q, m), sdus := b.sdus[m := s],
                         published := if q == at.sduTx then b.published + [s] else b.published);
            && Sound(at, b')
            && Waiting(at, b').canRx == Waiting(at, b).canRx
            && Waiting(at, b').sduRx == if q == at.sduRx then Waiting(at, b).sduRx + [s] else Waiting(at, b).sduRx
  {
    hide TrafficOf, Suffix, Blanked;
    BlankedUpdate(at, b.view, q, b.view[q] + [m]);
    PutSdu(at, b.view, b.frames, b.sdus, q, m, s);
    SuffixGrows(Waiting(at, b).sduTx, b.published, s);
  }

  /** The oldest message of a queue is taken out. */
  lemma MessageOut(at: Places, b: Books, q: nat)
    requires Sound(at, b) && q in {at.canRx, at.canTx, at.sduRx, at.sduTx} && b.view[q] != []
    ensures var m := b.view[q][0];
            var b' := b.(view := Dequeued(b.view, q), held := b.held + multiset{m});
            var w, w' := Waiting(at, b), Waiting(at, b');
            && Sound(at, b') && m !in b.spared && b.acc != Some(m)
            && Blanked(at, b'.view) == Blanked(at, b.view)
            && (q != at.canRx ==> w'.canRx == w.canRx)
            && (q != at.sduRx ==> w'.sduRx == w.sduRx)
            && (q == at.canRx ==>
                  m in b.frames && w.canRx != [] && w.canRx[0] == b.frames[m] && w'.canRx == w.canRx[1..])
            && (q == at.sduRx ==> m in b.sdus && w.sduRx != [] && w.sduRx[0] == b.sdus[m] && w'.sduRx == w.sduRx[1..])
  {
    hide TrafficOf, Suffix, Blanked;
    BlankedUpdate(at, b.view, q, b.view[q][1..]);
    TakeFront(at, b.view, b.frames, b.sdus, q);
    if q == at.canTx {
      SuffixShrinks(Waiting(at, b).canTx, b.sent);
    } else if q == at.sduTx {
      SuffixShrinks(Waiting(at, b).sduTx, b.published);
    }
  }

  /** Four different queues, all empty. */
  predicate Vacant(at: Places, view: seq<seq<nat>>) {
    && at.canRx < |view| && at.canTx < |view| && at.sduRx < |view| && at.sduTx < |view|
    && at.canRx != at.canTx && at.sduRx != at.sduTx && {at.canRx, at.canTx} !! {at.sduRx, at.sduTx}
    && view[at.canRx] == view[at.canTx] == view[at.sduRx] == view[at.sduTx] == []
  }

  /** Books with nothing in them. */
  lemma FreshBooks(at: Places, b: Books)
    requires Vacant(at, b.view)
    requires b.acc == b.sdu == None && b.sent == [] && b.published == [] && b.spared == {}
    ensures Sound(at, b) && Waiting(at, b).canRx == [] && Waiting(at, b).sduRx == []
  {}

  /** References change hands, and the block being filled and the message being sent with them. */
  lemma NewHolders(at: Places, b: Books, held: multiset<nat>, acc: Option<nat>, sdu: Option<nat>)
    requires Sound(at, b) && Bag(acc) + Bag(sdu) <= held
    requires acc.Some? ==> Unqueued(b.view, acc.value) && held[acc.value] == 1
    requires forall m :: m in b.spared ==> held[m] > 0 && acc != Some(m) && sdu != Some(m)
    ensures var b' := b.(held := held, acc := acc, sdu := sdu);
            Sound(at, b') && Waiting(at, b') == Waiting(at, b)
  {
    hide TrafficOf, Suffix;
  }

  lemma Holders(at: Places, b: Books)
    requires Sound(at, b)
    ensures Bag(b.acc) + Bag(b.sdu) <= b.held
    ensures b.acc.Some? ==>
              && Unqueued(b.view, b.acc.value) && b.held[b.acc.value] == 1
              && b.sdu != b.acc && Rest(b.held, b.acc, b.sdu)[b.acc.value] == 0
    ensures forall m :: m in b.spared ==> Unqueued(b.view, m) && b.held[m] > 0 && b.acc != Some(m) && b.sdu != Some(m)
  {}

  /** Somebody else puts a message they hold into a queue that is not the instance's. */
  lemma OthersPut(at: Places, b: Books, q: nat, m: nat)
    requires Sound(at, b) && q < |b.view| && !IsMine(at, q) && b.acc != Some(m) && m !in b.spared
    ensures var b' := b.(view := Enqueued(b.view, q, m));
            && Sound(at, b') && Waiting(at, b') == Waiting(at, b)
            && Blanked(at, b'.view) == Enqueued(Blanked(at, b.view), q, m)
  {
    hide Suffix, Told;
  }

  /** Somebody else takes the oldest message of a queue that is not the instance's. */
  lemma OthersTook(at: Places, b: Books, q: nat)
    requires Sound(at, b) && q < |b.view| && !IsMine(at, q) && b.view[q] != []
    ensures Blanked(at, b.view)[q] == b.view[q]
    ensures var m := b.view[q][0];
            var b' := b.(view := Dequeued(b.view, q), held := b.held + multiset{m});
            && Sound(at, b') && Waiting(at, b') == Waiting(at, b)
            && Blanked(at, b'.view) == Dequeued(Blanked(at, b.view), q)
  {
    hide Suffix, Told;
  }

  /** Fewer messages to be spared. */
  lemma SpareFewer(at: Places, b: Books, spared: set<nat>)
    requires Sound(at, b) && forall m :: m in spared ==> m in b.spared
    ensures Sound(at, b.(spared := spared)) && Waiting(at, b.(spared := spared)) == Waiting(at, b)
  {
    hide Suffix, TrafficOf;
  }

  /** One more. */
  lemma SpareMore(at: Places, b: Books, m: nat)
    requires Sound(at, b) && Untouched(b, m)
    ensures Sound(at, b.(spared := b.spared + {m})) && Waiting(at, b.(spared := b.spared + {m})) == Waiting(at, b)
  {
    hide Suffix, TrafficOf;
  }

  /** An empty queue shows as one. */
  lemma NothingWaits(at: Places, b: Books)
    requires Sound(at, b)
    ensures b.view[at.canRx] == [] <==> Waiting(at, b).canRx == []
    ensures b.view[at.sduRx] == [] <==> Waiting(at, b).sduRx == []
  {}

  lemma PlacesInside(at: Places, b: Books)
    requires Sound(at, b)
    ensures at.canRx < |b.view| && at.canTx < |b.view| && at.sduRx < |b.view| && at.sduTx < |b.view|
    ensures at.canRx != at.canTx && at.sduRx != at.sduTx && {at.canRx, at.canTx} !! {at.sduRx, at.sduTx}
  {}

  // ---------------------------------------------------------------- the port

  class Port {
    const ms: Messages
    const at: Places
    // what the blocks of frames and of SDUs hold
    var frames: map<nat, Frame>
    var sdus: map<nat, Sdu>
    /** The block being reassembled into, and the message being sent. */
    var acc: Option<nat>
    var sdu: Option<nat>
    // everything the two outgoing queues ever took
    ghost var sent: seq<Frame>
    ghost var published: seq<Sdu>
    /** Messages that others hold and that the instance's calls must leave as they are. */
    ghost var spared: set<nat>

    /** What the port's operations touch besides its own fields. */
    ghost const parts: set<object>

    ghost predicate Framed()
      reads ms.pool
    {
      parts == {ms as object, ms.pool, ms.pool.mem, ms.pool.tiers} + ms.QueueParts() && (this as object) !in parts
    }

    ghost function Now(): Books
      requires Framed() && ms.Valid()
      reads this, ms.pool, parts
    {
      Books(ms.View(), frames, sdus, ms.held, acc, sdu, sent, published, spared)
    }

    ghost predicate Valid()
      reads this, ms.pool, parts
    {
      Framed() && ms.Valid() && Sound(at, Now())
    }

    /** A message no queue holds, and not one to be spared. */
    ghost predicate Loose(m: nat)
      requires Valid()
      reads this, ms.pool, parts
    {
      Unqueued(ms.View(), m) && m !in spared
    }

    /** What is in the queues that are not the instance's. */
    ghost function Elsewhere(): seq<seq<nat>>
      requires Valid()
      reads this, ms.pool, parts
    {
      Blanked(at, ms.View())
    }

    /** The references anybody else has. */
    ghost function Others(): multiset<nat>
      reads this`acc, this`sdu, ms`held
    {
      Rest(ms.held, acc, sdu)
    }

    /** The frames and messages waiting to be processed. */
    ghost function Inbox(): (seq<Frame>, seq<Sdu>)
      requires Valid()
      reads this, ms.pool, parts
    {
      (Waiting(at, Now()).canRx, Waiting(at, Now()).sduRx)
    }

    constructor (ms: Messages, at: Places)
      requires ms.Valid() && Vacant(at, ms.View())
      ensures Valid() && this.ms == ms && this.at == at && acc == None && sdu == None
      ensures Inbox() == ([], []) && sent == [] && published == [] && spared == {}
      ensures Others() == ms.held && (this as object) !in parts
    {
      this.ms, this.at := ms, at;
      parts := {ms as object, ms.pool, ms.pool.mem, ms.pool.tiers} + ms.QueueParts();
      frames, sdus, acc, sdu := map[], map[], None, None;
      sent, published, spared := [], [], {};
      new;
      hide PoolOk, Live, Balanced, Sound, Waiting, Vacant, Messages.Separate, Messages.View, Messages.QueuesOk, Rest,
           Bag;
      assert (this as object) !in parts;
      NothingMine(ms.held);
      FreshBooks(at, Now());
    }

    lemma QueuesThere()
      requires Valid()
      ensures |ms.View()| == |ms.queues|
      ensures at.canRx < |ms.queues| && at.canTx < |ms.queues| && at.sduRx < |ms.queues| && at.sduTx < |ms.queues|
      ensures at.canRx != at.canTx && at.sduRx != at.sduTx && {at.canRx, at.canTx} !! {at.sduRx, at.sduTx}
      ensures forall i :: 0 <= i < |ms.queues| ==> {ms.queues[i] as object, ms.queues[i].buffer} <= parts
    {
      PlacesInside(at, Now());
    }

    /** A block handed out anew is in no queue and is not the one being filled. */
    lemma NewBlocks()
      requires Valid()
      ensures forall m: nat :: m !in ms.headers ==> Unqueued(ms.View(), m) && acc != Some(m) && ms.held[m] == 0 && m !in spared
    {
      hide PoolOk, Live, Balanced, Messages.Separate, Messages.View, Messages.QueuesOk, Known;
      forall m: nat | m !in ms.headers
        ensures Unqueued(ms.View(), m) && acc != Some(m) && ms.held[m] == 0 && m !in spared
      {
        ms.HeldIsLive(m);
      }
    }

    /** Put a frame on the link's queue, if there is a block and room for it. */
    method SendFrame(f: Frame) returns (ok: bool)
      requires Valid()
      modifies this`frames, this`sent, parts
      ensures Valid() && Others() == old(Others()) && Inbox() == old(Inbox()) && Elsewhere() == old(Elsewhere())
      ensures ok <==> && !Exhausted(old(ms.pool.places), old(ms.headers.Keys), old(ms.pool.forbidFallback),
              BlockSize(FRAME_HEADER + |f.data|))
                      && |old(ms.View())[at.canTx]| < ms.Capacities()[at.canTx]
      ensures sent == if ok then old(sent) + [f] else old(sent)
    {
      hide PoolOk, Live, Balanced, Messages.Separate, Messages.View, Messages.QueuesOk, Exhausted, Sound, Waiting,
           Enqueued, Messages.Valid, Unqueued, Bag, Rest, Blanked;
      QueuesThere();
      NewBlocks();
      ghost var b := Now();
      var r := Deliver(ms, FRAME_HEADER + |f.data|, at.canTx);
      ok := r.Took?;
      if ok {
        FrameIn(at, b, at.canTx, r.m, f);
        frames := frames[r.m := f];
        sent := sent + [f];
      }
    }

    /** Report to the upper layer, if there is a block and room for it. */
    method PublishSdu(s: Sdu) returns (ok: bool)
      requires Valid() && |s.data| <= MAX_MSG_LEN
      modifies this`sdus, this`published, parts
      ensures Valid() && Others() == old(Others()) && Inbox() == old(Inbox()) && Elsewhere() == old(Elsewhere())
      ensures ok <==> && !Exhausted(old(ms.pool.places), old(ms.headers.Keys), old(ms.pool.forbidFallback),
              BlockSize(SDU_HEADER + |s.data|))
                      && |old(ms.View())[at.sduTx]| < ms.Capacities()[at.sduTx]
      ensures published == if ok then old(published) + [s] else old(published)
    {
      hide PoolOk, Live, Balanced, Messages.Separate, Messages.View, Messages.QueuesOk, Exhausted, Sound, Waiting,
           Enqueued, Messages.Valid, Unqueued, Bag, Rest, Blanked;
      QueuesThere();
      NewBlocks();
      ghost var b := Now();
      var r := Deliver(ms, SDU_HEADER + |s.data|, at.sduTx);
      ok := r.Took?;
      if ok {
        SduIn(at, b, at.sduTx, r.m, s);
        sdus := sdus[r.m := s];
        published := published + [s];
      }
    }

    /** Ask for a message to be sent. */
    method QueueSdu(s: Sdu) returns (r: Delivery)
      requires Valid() && |s.data| <= MAX_MSG_LEN
      modifies this`sdus, parts
      ensures Valid() && Others() == old(Others()) && Elsewhere() == old(Elsewhere())
      ensures Inbox() == if r.Took? then (old(Inbox()).0, old(Inbox()).1 + [s]) else old(Inbox())
      ensures r.NoBlock? <==> Exhausted(old(ms.pool.places), old(ms.headers.Keys), old(ms.pool.forbidFallback),
              BlockSize(SDU_HEADER + |s.data|))
      ensures r.NoRoom? ==> |old(ms.View())[at.sduRx]| >= ms.Capacities()[at.sduRx]
      ensures r.Took? ==> |old(ms.View())[at.sduRx]| < ms.Capacities()[at.sduRx]
    {
      hide PoolOk, Live, Balanced, Messages.Separate, Messages.View, Messages.QueuesOk, Exhausted, Sound, Waiting,
           Enqueued, Messages.Valid, Unqueued, Bag, Rest, Blanked;
      QueuesThere();
      NewBlocks();
      ghost var b := Now();
      r := Deliver(ms, SDU_HEADER + |s.data|, at.sduRx);
      if r.Took? {
        SduIn(at, b, at.sduRx, r.m, s);
        sdus := sdus[r.m := s];
      }
    }

    /** The driver hands over a frame it received. */
    method Arrive(f: Frame) returns (ok: bool)
      requires Valid()
      modifies this`frames, parts
      ensures Valid() && Others() == old(Others()) && Elsewhere() == old(Elsewhere())
      ensures Inbox() == if ok then (old(Inbox()).0 + [f], old(Inbox()).1) else old(Inbox())
    {
      hide PoolOk, Live, Balanced, Messages.Separate, Messages.View, Messages.QueuesOk, Exhausted, Sound, Waiting,
           Enqueued, Messages.Valid, Unqueued, Bag, Rest, Blanked;
      QueuesThere();
      NewBlocks();
      ghost var b := Now();
      var r := Deliver(ms, FRAME_HEADER + |f.data|, at.canRx);
      ok := r.Took?;
      if ok {
        FrameIn(at, b, at.canRx, r.m, f);
        frames := frames[r.m := f];
      }
    }

    /** Get a block to reassemble a message of `len` bytes into. */
    method OpenBlock(len: nat) returns (ok: bool)
      requires Valid() && acc == None && len <= MAX_MSG_LEN
      modifies this`acc, parts
      ensures Valid() && Others() == old(Others()) && Inbox() == old(Inbox()) && Elsewhere() == old(Elsewhere())
      ensures ok == acc.Some?
      ensures ok <==> !Exhausted(old(ms.pool.places), old(ms.headers.Keys), old(ms.pool.forbidFallback),
              BlockSize(SDU_HEADER + len))
    {
      hide PoolOk, Live, Balanced, Messages.Separate, Messages.View, Messages.QueuesOk, Exhausted, Sound, Waiting,
           Enqueued, Messages.Valid, Unqueued, Bag, Rest, Blanked;
      QueuesThere();
      NewBlocks();
      ghost var b := Now();
      Holders(at, b);
      var m := ms.Alloc(Blank(SDU_HEADER + len));
      ok := m.Some?;
      if ok {
        RestGains(b.held, acc, sdu, m.value);
        NewHolders(at, b, ms.held, m, sdu);
        acc := m;
      }
    }

    /** Give the block being filled back, if there is one. */
    method DropBlock()
      requires Valid()
      modifies this`acc, parts
      ensures Valid() && acc == None && Others() == old(Others()) && Inbox() == old(Inbox())
      ensures Elsewhere() == old(Elsewhere())
      ensures old(acc).None? ==> forall m: nat :: Loose(m) == old(Loose(m))
    {
      hide PoolOk, Live, Balanced, Messages.Separate, Messages.View, Messages.QueuesOk, Sound, Waiting,
           Messages.Valid, Unqueued, Bag, Rest, Blanked;
      QueuesThere();
      ghost var b := Now();
      Holders(at, b);
      if acc.Some? {
        AccLeaves(b.held, acc.value, sdu);
        NewHolders(at, b, b.held - multiset{acc.value}, None, sdu);
        ms.Release(acc.value);
        acc := None;
      }
    }

    /** Take the block being filled out of the instance's hands, reference and all. */
    method Detach() returns (m: nat)
      requires Valid() && acc.Some?
      modifies this`acc
      ensures Valid() && acc == None && Others() == old(Others()) + multiset{m} && Inbox() == old(Inbox())
      ensures Loose(m) && Elsewhere() == old(Elsewhere())
    {
      hide PoolOk, Live, Balanced, Messages.Separate, Messages.View, Messages.QueuesOk, Sound, Waiting,
           Messages.Valid, Unqueued, Bag, Rest, Blanked;
      ghost var b := Now();
      Holders(at, b);
      m := acc.value;
      AccLeaves(b.held, m, sdu);
      NewHolders(at, b, b.held, None, sdu);
      acc := None;
    }

    /** Hand a detached block, filled, to the upper layer; one it has no room for is given back. */
    method HandUp(m: nat, s: Sdu) returns (ok: bool)
      requires Valid() && Others()[m] > 0 && Loose(m) && acc == None
      modifies this`sdus, this`published, parts
      ensures Valid() && Others() == old(Others()) - multiset{m} && Inbox() == old(Inbox()) && Elsewhere() == old(Elsewhere())
      ensures ok <==> |old(ms.View())[at.sduTx]| < ms.Capacities()[at.sduTx]
      ensures published == if ok then old(published) + [s] else old(published)
    {
      hide PoolOk, Live, Balanced, Messages.Separate, Messages.View, Messages.QueuesOk, Exhausted, Sound, Waiting,
           Enqueued, Messages.Valid, Unqueued, Bag, Rest, Blanked;
      QueuesThere();
      ghost var b := Now();
      Holders(at, b);
      RestLoses(b.held, acc, sdu, m);
      ok := HandOver(ms, m, at.sduTx);
      NewHolders(at, b, ms.held, acc, sdu);
      if ok {
        SduIn(at, b.(held := ms.held), at.sduTx, m, s);
        sdus := sdus[m := s];
        published := published + [s];
      }
    }

    /** Take the oldest message to be sent. */
    method TakeSdu() returns (s: Option<Sdu>)
      requires Valid() && sdu == None
      modifies this`sdu, parts
      ensures Valid() && Others() == old(Others()) && Elsewhere() == old(Elsewhere())
      ensures s.None? <==> old(Inbox()).1 == []
      ensures s.None? ==> sdu == None && Inbox() == old(Inbox())
      ensures s.Some? ==> sdu.Some? && s.value == old(Inbox()).1[0] && Inbox() == (old(Inbox()).0, old(Inbox()).1[1..])
    {
      hide PoolOk, Live, Balanced, Messages.Separate, Messages.View, Messages.QueuesOk, Sound, Waiting,
           Messages.Valid, Unqueued, Bag, Rest, Blanked;
      hide Dequeued;
      QueuesThere();
      ghost var b := Now();
      Holders(at, b);
      NothingWaits(at, b);
      var m := ms.Pop(at.sduRx);
      if m.None? {
        return None;
      }
      MessageOut(at, b, at.sduRx);
      RestGains(b.held, acc, sdu, m.value);
      Holders(at, b.(view := Dequeued(b.view, at.sduRx), held := ms.held));
      NewHolders(at, b.(view := Dequeued(b.view, at.sduRx), held := ms.held), ms.held, acc, m);
      sdu := m;
      return Some(sdus[m.value]);
    }

    /** Give up the message being sent. */
    method DropSdu()
      requires Valid()
      modifies this`sdu, parts
      ensures Valid() && sdu == None && Others() == old(Others()) && Inbox() == old(Inbox())
      ensures Elsewhere() == old(Elsewhere())
    {
      hide PoolOk, Live, Balanced, Messages.Separate, Messages.View, Messages.QueuesOk, Sound, Waiting,
           Messages.Valid, Unqueued, Bag, Rest, Blanked;
      QueuesThere();
      ghost var b := Now();
      Holders(at, b);
      if sdu.Some? {
        SduLeaves(b.held, acc, sdu.value);
        NewHolders(at, b, b.held - multiset{sdu.value}, acc, None);
        ms.Release(sdu.value);
        sdu := None;
      }
    }

    /** Take the oldest received frame, and its reference. */
    method PopFrame() returns (m: Option<nat>)
      requires Valid()
      modifies parts
      ensures Valid() && Elsewhere() == old(Elsewhere()) && (m.None? <==> old(Inbox()).0 == [])
      ensures m.Some? ==> m.value !in spared
      ensures m.None? ==> Inbox() == old(Inbox()) && Others() == old(Others())
      ensures m.Some? ==> m.value in frames && frames[m.value] == old(Inbox()).0[0]
      ensures m.Some? ==>
                && Inbox() == (old(Inbox()).0[1..], old(Inbox()).1)
                && Others() == old(Others()) + multiset{m.value}
    {
      hide PoolOk, Live, Balanced, Messages.Separate, Messages.View, Messages.QueuesOk, Sound, Waiting,
           Messages.Valid, Unqueued, Bag, Rest, Blanked;
      hide Dequeued;
      QueuesThere();
      ghost var b := Now();
      Holders(at, b);
      NothingWaits(at, b);
      m := ms.Pop(at.canRx);
      if m.Some? {
        MessageOut(at, b, at.canRx);
        RestGains(b.held, acc, sdu, m.value);
      }
    }

    /** Give up a reference taken from a queue. */
    method Release(m: nat)
      requires Valid() && Others()[m] > 0 && m !in spared
      modifies parts
      ensures Valid() && Others() == old(Others()) - multiset{m} && Inbox() == old(Inbox()) && Elsewhere() == old(Elsewhere())
    {
      hide PoolOk, Live, Balanced, Messages.Separate, Messages.View, Messages.QueuesOk, Sound, Waiting,
           Messages.Valid, Unqueued, Bag, Rest, Blanked;
      QueuesThere();
      ghost var b := Now();
      Holders(at, b);
      RestLoses(b.held, acc, sdu, m);
      NewHolders(at, b, b.held - multiset{m}, acc, sdu);
      ms.Release(m);
    }

    // -------------------------------------------------------------- what others do

    /** The driver, or the upper layer, takes what an outgoing queue has waited with longest. */
    method TakeOut(up: bool) returns (m: Option<nat>)
      requires Valid()
      modifies parts
      ensures m.Some? ==> m.value !in spared
      ensures Valid() && Inbox() == old(Inbox()) && Elsewhere() == old(Elsewhere())
      ensures Others() == if m.Some? then old(Others()) + multiset{m.value} else old(Others())
    {
      hide PoolOk, Live, Balanced, Messages.Separate, Messages.View, Messages.QueuesOk, Sound, Waiting,
           Messages.Valid, Unqueued, Bag, Rest, Blanked;
      hide Dequeued;
      QueuesThere();
      ghost var b := Now();
      Holders(at, b);
      var q := if up then at.sduTx else at.canTx;
      m := ms.Pop(q);
      if m.Some? {
        MessageOut(at, b, q);
        RestGains(b.held, acc, sdu, m.value);
      }
    }

    /** Another client asks the pool for a message of its own. */
    method AskBlock(len: nat) returns (m: Option<nat>)
      requires Valid() && len <= SIZE_MAX
      modifies parts
      ensures Valid() && Inbox() == old(Inbox()) && Elsewhere() == old(Elsewhere())
      ensures Others() == if m.Some? then old(Others()) + multiset{m.value} else old(Others())
    {
      hide Exhausted;
      hide PoolOk, Live, Balanced, Messages.Separate, Messages.View, Messages.QueuesOk, Sound, Waiting,
           Messages.Valid, Unqueued, Bag, Rest, Blanked;
      QueuesThere();
      NewBlocks();
      ghost var b := Now();
      Holders(at, b);
      m := ms.Alloc(Blank(len));
      if m.Some? {
        RestGains(b.held, acc, sdu, m.value);
        NewHolders(at, b, ms.held, acc, sdu);
      }
    }

    /** A message that others hold need not be spared any longer. */
    ghost method StopSparing(m: nat)
      requires Valid()
      modifies this`spared
      ensures Valid() && spared == old(spared) - {m}
      ensures Others() == old(Others()) && Inbox() == old(Inbox()) && Elsewhere() == old(Elsewhere())
    {
      hide PoolOk, Live, Balanced, Messages.Separate, Messages.View, Messages.QueuesOk, Sound, Waiting,
           Messages.Valid, Unqueued, Bag, Rest, Blanked;
      SpareFewer(at, Now(), spared - {m});
      spared := spared - {m};
    }

    /** From here on the instance leaves a message that others hold as it is. */
    ghost method StartSparing(m: nat)
      requires Valid() && Others()[m] > 0 && Unqueued(ms.View(), m) && acc != Some(m) && sdu != Some(m)
      modifies this`spared
      ensures Valid() && spared == old(spared) + {m}
      ensures Others() == old(Others()) && Inbox() == old(Inbox()) && Elsewhere() == old(Elsewhere())
    {
      hide PoolOk, Live, Balanced, Messages.Separate, Messages.View, Messages.QueuesOk, Sound, Waiting,
           Messages.Valid, Unqueued, Bag, Rest, Blanked;
      Holders(at, Now());
      RestLoses(ms.held, acc, sdu, m);
      SpareMore(at, Now(), m);
      spared := spared + {m};
    }

    /** A holder queues its message in a queue that is not the instance's. */
    method PutElsewhere(m: nat, q: nat) returns (ok: bool)
      requires Valid() && Others()[m] > 0 && m !in spared && q < |ms.queues| && !IsMine(at, q)
      modifies parts
      ensures Valid() && Others() == old(Others()) && Inbox() == old(Inbox()) && q < |old(Elsewhere())|
      ensures Elsewhere() == if ok then Enqueued(old(Elsewhere()), q, m) else old(Elsewhere())
    {
      hide PoolOk, Live, Balanced, Messages.Separate, Messages.View, Messages.QueuesOk, Sound, Waiting,
           Messages.Valid, Unqueued, Bag, Rest, Blanked;
      hide Enqueued;
      QueuesThere();
      ghost var b := Now();
      Holders(at, b);
      RestLoses(b.held, acc, sdu, m);
      ms.HeldIsLive(m);
      OthersPut(at, b, q, m);
      var r := ms.Publish(m, q);
      ok := r.Published?;
    }

    /** Somebody takes the oldest message of a queue that is not the instance's. */
    method TakeElsewhere(q: nat) returns (m: Option<nat>)
      requires Valid() && q < |ms.queues| && !IsMine(at, q)
      modifies parts
      ensures Valid() && Inbox() == old(Inbox()) && q < |old(Elsewhere())|
      ensures m.None? ==> Others() == old(Others()) && Elsewhere() == old(Elsewhere())
      ensures m.Some? ==>
                && old(Elsewhere())[q] != [] && m.value == old(Elsewhere())[q][0]
                && Others() == old(Others()) + multiset{m.value} && Elsewhere() == Dequeued(old(Elsewhere()), q)
    {
      hide PoolOk, Live, Balanced, Messages.Separate, Messages.View, Messages.QueuesOk, Sound, Waiting,
           Messages.Valid, Unqueued, Bag, Rest, Blanked;
      hide Dequeued;
      QueuesThere();
      ghost var b := Now();
      Holders(at, b);
      m := ms.Pop(q);
      if m.Some? {
        OthersTook(at, b, q);
        RestGains(b.held, acc, sdu, m.value);
      }
    }
  }
}
