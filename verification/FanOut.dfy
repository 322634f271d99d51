/** One frame for many queues: copied on the first match, offered to every other, and the
    producer's reference dropped. */
module FanOut {
  import opened Options
  import opened Pool
  import opened PoolLayout
  import opened PoolState
  import opened RefMsg

  /** The queues of the table entries that claim a frame, in table order. */
  function Picked(claims: nat -> bool, queues: seq<nat>): (to: seq<nat>)
    ensures |to| <= |queues|
  {
    if queues == [] then []
    else
      var n := |queues| - 1;
      Picked(claims, queues[..n]) + if claims(n) then [queues[n]] else []
  }

  ghost function Now(ms: Messages): Snapshot
    requires ms.Valid()
    reads ms, ms.pool, ms.pool.mem, ms.pool.tiers, ms.QueueParts()
  {
    Snapshot(ms.View(), ms.headers, ms.held)
  }

  // ---------------------------------------------------------------- the fan-out's progress

  datatype Snapshot = Snapshot(view: seq<seq<nat>>, headers: map<nat, Header>, held: multiset<nat>)

  /** What has become of the queues when the owners so far have been offered the frame. */
  ghost predicate Fanned(s: Snapshot, s0: Snapshot, to: seq<nat>, caps: seq<nat>, msg: Option<nat>, delivered: nat, f: seq<bv8>) {
    && |caps| == |s0.view| && (forall a :: 0 <= a < |to| ==> to[a] < |s0.view|)
    && match msg
       case None => to == [] && s == s0 && delivered == 0
       case Some(m) =>
         && m !in s0.headers && s.headers == s0.headers[m := Header(f, 1 + delivered)]
         && s.held == s0.held + multiset{m}
         && s.view == Offered(s0.view, to, m, caps) && delivered == Takers(s0.view, to, m, caps)
  }

  lemma FanStart(s: Snapshot, caps: seq<nat>, f: seq<bv8>)
    requires |caps| == |s.view|
    ensures Fanned(s, s, [], caps, None, 0, f)
  {}

  lemma FanNothing(s: Snapshot, s0: Snapshot, caps: seq<nat>, delivered: nat, f: seq<bv8>)
    requires Fanned(s, s0, [], caps, None, delivered, f)
    ensures s == s0 && delivered == 0 && |caps| == |s0.view|
  {}

  lemma FanAlloc(s: Snapshot, s0: Snapshot, caps: seq<nat>, m: nat, f: seq<bv8>)
    requires |caps| == |s0.view| && m !in s0.headers
    requires s == Snapshot(s0.view, s0.headers[m := Header(f, 1)], s0.held + multiset{m})
    ensures Fanned(s, s0, [], caps, Some(m), 0, f)
  {}

  lemma FanStep(s: Snapshot, s0: Snapshot, to: seq<nat>, q: nat, caps: seq<nat>, m: nat, delivered: nat, f: seq<bv8>)
    requires Fanned(s, s0, to, caps, Some(m), delivered, f) && q < |s0.view|
    ensures |s.view| == |s0.view| == |caps| && m in s.headers
    ensures |s.view[q]| >= caps[q] ==> Fanned(s, s0, to + [q], caps, Some(m), delivered, f)
    ensures |s.view[q]| < caps[q] ==>
              var s' := Snapshot(Enqueued(s.view, q, m), s.headers[m := s.headers[m].(refcount := s.headers[m].refcount + 1)], s.held);
              Fanned(s', s0, to + [q], caps, Some(m), delivered + 1, f)
  {}

  lemma FanLength(s: Snapshot, s0: Snapshot, to: seq<nat>, caps: seq<nat>, m: nat, delivered: nat, f: seq<bv8>)
    requires Fanned(s, s0, to, caps, Some(m), delivered, f)
    ensures |caps| == |s0.view| && m in s.headers
  {}

  lemma FanEnd(s: Snapshot, s0: Snapshot, to: seq<nat>, caps: seq<nat>, msg: Option<nat>, delivered: nat, f: seq<bv8>)
    requires Fanned(s, s0, to, caps, msg, delivered, f)
    ensures |caps| == |s0.view| && (forall a :: 0 <= a < |to| ==> to[a] < |s0.view|)
    ensures msg.None? ==> to == [] && s == s0
    ensures msg.Some? ==>
              var m := msg.value;
              && m !in s0.headers && m in s.headers && s.headers[m].refcount == 1 + delivered
              && s.headers == s0.headers[m := Header(f, 1 + delivered)] && s.held == s0.held + multiset{m}
              && s.view == Offered(s0.view, to, m, caps) && delivered == Takers(s0.view, to, m, caps)
  {}

  /** Who takes a message does not depend on which it is, and what nobody took is nowhere. */
  lemma {:induction false} NobodyTookNothing(view: seq<seq<nat>>, to: seq<nat>, m: nat, caps: seq<nat>)
    requires |caps| == |view| && forall a :: 0 <= a < |to| ==> to[a] < |view|
    ensures Takers(view, to, m, caps) == Takers(view, to, 0, caps)
    ensures forall i :: 0 <= i < |view| ==> |Offered(view, to, m, caps)[i]| == |Offered(view, to, 0, caps)[i]|
    ensures Takers(view, to, m, caps) == 0 ==> Offered(view, to, m, caps) == view
  {
    if to != [] {
      NobodyTookNothing(view, to[..|to| - 1], m, caps);
    }
  }

  /** Nobody takes a message exactly when every queue it is offered to was full beforehand. */
  lemma {:induction false} NobodyTakesIff(view: seq<seq<nat>>, to: seq<nat>, m: nat, caps: seq<nat>)
    requires |caps| == |view| && forall a :: 0 <= a < |to| ==> to[a] < |view|
    ensures Takers(view, to, m, caps) == 0 <==> forall a :: 0 <= a < |to| ==> |view[to[a]]| >= caps[to[a]]
  {
    if to != [] {
      var front := to[..|to| - 1];
      NobodyTakesIff(view, front, m, caps);
      NobodyTookNothing(view, front, m, caps);
      assert forall a :: 0 <= a < |front| ==> front[a] == to[a];
    }
  }

  lemma {:induction false} NextPick(claims: nat -> bool, queues: seq<nat>, i: nat)
    requires i < |queues|
    ensures Picked(claims, queues[..i + 1]) == if claims(i) then Picked(claims, queues[..i]) + [queues[i]] else Picked(claims, queues[..i])
    ensures claims(i) ==> Picked(claims, queues) != []
  {
    assert queues[..i + 1][..i] == queues[..i];
    if claims(i) {
      PickGrows(claims, queues, i + 1);
    }
  }

  lemma {:induction false} PickGrows(claims: nat -> bool, queues: seq<nat>, i: nat)
    requires i <= |queues|
    ensures |Picked(claims, queues[..i])| <= |Picked(claims, queues)|
  {
    if i < |queues| {
      assert queues[..|queues| - 1][..i] == queues[..i];
      PickGrows(claims, queues[..|queues| - 1], i);
    } else {
      assert queues[..i] == queues;
    }
  }

  // ---------------------------------------------------------------- the loop

  /** The table loop of both dispatchers: each entry that claims the frame is offered the one
      copy; when no copy can be had at the first, nothing has happened. */
  method Deliver(ms: Messages, f: seq<bv8>, claims: nat -> bool, queues: seq<nat>)
      returns (matched: nat, delivered: nat, starved: bool, ghost m: nat)
    requires ms.Valid() && 0 < BlockSize(|f|) && 0 < |f| <= SIZE_MAX && forall i :: 0 <= i < |queues| ==> queues[i] < |ms.queues|
    modifies ms, ms.pool`history, ms.pool.mem, ms.pool.tiers, ms.QueueParts()
    ensures ms.Valid() && ms.held == old(ms.held)
    ensures var to := Picked(claims, queues);
            && (starved <==> to != [] && Exhausted(ms.pool.places, old(ms.headers.Keys), ms.pool.forbidFallback, BlockSize(|f|)))
            && (starved || to == [] ==> ms.View() == old(ms.View()) && ms.headers == old(ms.headers))
            && (!starved ==> matched == |to|)
            && (!starved && to != [] ==>
                  && (forall a :: 0 <= a < |to| ==> to[a] < |ms.queues|)
                  && delivered == Takers(old(ms.View()), to, m, ms.Capacities())
                  && ms.View() == Offered(old(ms.View()), to, m, ms.Capacities())
                  && m !in old(ms.headers)
                  && ms.headers == if delivered == 0 then old(ms.headers) else old(ms.headers)[m := Header(f, delivered)])
  {
    hide Balanced, PoolOk, Live, Exhausted, Messages.View, Messages.QueuesOk, Messages.Separate, Picked, Fanned, Offered, Takers;
    matched, delivered, starved, m := 0, 0, false, 0;
    var msg: Option<nat> := None;
    ghost var start, caps := Now(ms), ms.Capacities();
    FanStart(start, caps, f);
    NoPicks(claims);
    assert queues[..0] == [] && queues[..|queues|] == queues;
    for i := 0 to |queues|
      invariant ms.Valid() && !starved && matched == |Picked(claims, queues[..i])|
      invariant Fanned(Now(ms), start, Picked(claims, queues[..i]), caps, msg, delivered, f)
      invariant msg.None? <==> matched == 0
      invariant msg.Some? ==> msg.value == m && !Exhausted(ms.pool.places, old(ms.headers.Keys), ms.pool.forbidFallback, BlockSize(|f|))
    {
      NextPick(claims, queues, i);
      if claims(i) {
        matched := matched + 1;
        if msg.None? {
          assert Picked(claims, queues[..i]) == [];
          FanNothing(Now(ms), start, caps, delivered, f);
          msg := FirstCopy(ms, f, start, caps);
          if msg.None? {
            FanNothing(Now(ms), start, caps, delivered, f);
            starved := true;
            return;
          }
          m := msg.value;
        }
        var took := Offer(ms, f, queues[i], msg.value, start, Picked(claims, queues[..i]), caps, delivered);
        if took {
          delivered := delivered + 1;
        }
      }
    }
    if msg.Some? {
      DropProducer(ms, f, msg.value, start, Picked(claims, queues), caps, delivered);
    } else {
      FanNothing(Now(ms), start, caps, delivered, f);
    }
  }

  lemma NoPicks(claims: nat -> bool)
    ensures Picked(claims, []) == []
  {}

  /** The copy made for the first owner. */
  method FirstCopy(ms: Messages, f: seq<bv8>, ghost start: Snapshot, ghost caps: seq<nat>) returns (msg: Option<nat>)
    requires ms.Valid() && 0 < BlockSize(|f|) && 0 < |f| <= SIZE_MAX && Fanned(Now(ms), start, [], caps, None, 0, f)
    modifies ms, ms.pool`history, ms.pool.mem, ms.pool.tiers
    ensures ms.Valid() && Fanned(Now(ms), start, [], caps, msg, 0, f)
    ensures msg.None? <==> Exhausted(ms.pool.places, old(ms.headers.Keys), ms.pool.forbidFallback, BlockSize(|f|))
  {
    hide PoolOk, Live, Exhausted, Messages.View, Messages.QueuesOk, Messages.Separate, Balanced, Fanned;
    FanNothing(Now(ms), start, caps, 0, f);
    msg := ms.Alloc(f);
    if msg.Some? {
      FanAlloc(Now(ms), start, caps, msg.value, f);
    }
  }

  /** Publish the copy to one more owner. */
  method Offer(ms: Messages, f: seq<bv8>, q: nat, m: nat, ghost start: Snapshot, ghost to: seq<nat>, ghost caps: seq<nat>, ghost delivered: nat)
      returns (took: bool)
    requires ms.Valid() && Fanned(Now(ms), start, to, caps, Some(m), delivered, f)
    requires q < |ms.queues| && caps == ms.Capacities()
    modifies ms`headers, ms.queues[q], ms.queues[q].buffer
    ensures ms.Valid() && Fanned(Now(ms), start, to + [q], caps, Some(m), delivered + (if took then 1 else 0), f)
  {
    hide PoolOk, Live, Messages.View, Messages.QueuesOk, Messages.Separate, Balanced, Fanned;
    FanLength(Now(ms), start, to, caps, m, delivered, f);
    FanStep(Now(ms), start, to, q, caps, m, delivered, f);
    var r := ms.Publish(m, q);
    took := r.Published?;
  }

  /** Drop the producer's reference: the owners that took the frame have it now. */
  method DropProducer(ms: Messages, f: seq<bv8>, m: nat, ghost start: Snapshot, ghost to: seq<nat>, ghost caps: seq<nat>, ghost delivered: nat)
    requires ms.Valid() && Fanned(Now(ms), start, to, caps, Some(m), delivered, f)
    modifies ms, ms.pool`history, ms.pool.mem, ms.pool.tiers
    ensures ms.Valid() && ms.held == start.held && |caps| == |start.view| && forall a :: 0 <= a < |to| ==> to[a] < |start.view|
    ensures m !in start.headers && ms.View() == Offered(start.view, to, m, caps) && delivered == Takers(start.view, to, m, caps)
    ensures ms.headers == if delivered == 0 then start.headers else start.headers[m := Header(f, delivered)]
  {
    hide PoolOk, Live, Messages.View, Messages.QueuesOk, Messages.Separate, Balanced, Fanned;
    FanEnd(Now(ms), start, to, caps, Some(m), delivered, f);
    ms.Release(m);
    assert delivered == 0 ==> ms.headers == start.headers;
  }
}
