/** Reference-counted messages on a tiered pool: a block is live exactly while something
    refers to it. */
module RefMsg {
  import opened Bitmap
  import opened Options
  import opened Pool
  import opened PoolLayout
  import opened PoolState
  import Q = Queue

  /** sizeof(nx_ref_msg_t): pool, length and count, padded to the data's alignment. */
  const HEADER := 16

  /** What a message's block holds. */
  datatype Header = Header(data: seq<bv8>, refcount: nat)

  /** What alloc asks the pool for; the sum is a size_t. */
  function BlockSize(len: nat): nat {
    (HEADER + len) % (SIZE_MAX + 1)
  }

  /** The block asked for holds header and data exactly when the sum does not wrap. */
  lemma BlockSizeCoversIff(len: nat)
    requires len <= SIZE_MAX
    ensures HEADER + len <= BlockSize(len) <==> len <= SIZE_MAX - HEADER
  {}

  /** A best-fitting block holds header and data unless their sum wraps. */
  lemma AllocHolds(ts: seq<Tier>, m: seq<bv8>, places: seq<Tier>, forbid: bool, len: nat, i: nat, k: nat)
    requires SamePlaces(ts, places) && BestFit(ts, forbid, BlockSize(len), i) && len <= SIZE_MAX
    requires ts[i].used + BitmapBytes(ts[i].blockCount) <= |m| && NextClear(BitsOf(ts[i], m), ts[i].hint, k)
    ensures BlockFor(places, BlockAt(ts[i], k), BlockSize(len))
    ensures len <= SIZE_MAX - HEADER ==> BlockFor(places, BlockAt(ts[i], k), HEADER + len)
  {
    FitHolds(ts, places, forbid, BlockSize(len), i, k);
    BlockSizeCoversIff(len);
  }

  datatype PublishRet = Published | QueueFull
  datatype MultiRet = AllTook | NobodyTook | Partial

  // ---------------------------------------------------------------- the ledger

  /** How many queue slots hold message m. */
  function Queued(view: seq<seq<nat>>, m: nat): nat {
    if view == [] then 0 else Queued(view[..|view| - 1], m) + multiset(view[|view| - 1])[m]
  }

  /** Every reference there is to m: clients' and queued. */
  function Refs(held: multiset<nat>, view: seq<seq<nat>>, m: nat): nat {
    held[m] + Queued(view, m)
  }

  /** Each count is the number of references, and what has a header is what is referred to. */
  ghost predicate Balanced(headers: map<nat, Header>, held: multiset<nat>, view: seq<seq<nat>>) {
    forall m: nat {:trigger Refs(held, view, m)} {:trigger m in headers} ::
      if m in headers then headers[m].refcount == Refs(held, view, m) > 0 else Refs(held, view, m) == 0
  }

  lemma {:induction false} QueuedUpdate(view: seq<seq<nat>>, i: nat, s: seq<nat>, m: nat)
    requires i < |view|
    ensures Queued(view[i := s], m) + multiset(view[i])[m] == Queued(view, m) + multiset(s)[m]
  {
    var n := |view| - 1;
    if i == n {
      assert view[i := s][..n] == view[..n];
    } else {
      assert view[i := s][..n] == view[..n][i := s];
      QueuedUpdate(view[..n], i, s, m);
    }
  }

  /** With no client reference and empty queues, nothing is referred to. */
  lemma {:induction false} DrainedRefs(held: multiset<nat>, view: seq<seq<nat>>, m: nat)
    requires held == multiset{} && forall s :: s in view ==> s == []
    ensures Refs(held, view, m) == 0
  {
    if view != [] {
      assert view[|view| - 1] in view;
      var front := view[..|view| - 1];
      forall s | s in front
        ensures s == []
      {
        assert s in view;
      }
      DrainedRefs(held, front, m);
    }
  }

  /** The queues after m went into, or came out of, queue i. */
  function Enqueued(view: seq<seq<nat>>, i: nat, m: nat): seq<seq<nat>>
    requires i < |view|
  {
    view[i := view[i] + [m]]
  }

  function Dequeued(view: seq<seq<nat>>, i: nat): seq<seq<nat>>
    requires i < |view| && view[i] != []
  {
    view[i := view[i][1..]]
  }

  lemma PublishBalances(headers: map<nat, Header>, held: multiset<nat>, view: seq<seq<nat>>, i: nat, m: nat)
    requires Balanced(headers, held, view) && m in headers && i < |view|
    ensures Balanced(headers[m := headers[m].(refcount := headers[m].refcount + 1)], held, Enqueued(view, i, m))
  {
    hide Queued;
    var view' := Enqueued(view, i, m);
    forall k: nat
      ensures Refs(held, view', k) == Refs(held, view, k) + if k == m then 1 else 0
    {
      QueuedUpdate(view, i, view[i] + [m], k);
    }
  }

  lemma PopBalances(headers: map<nat, Header>, held: multiset<nat>, view: seq<seq<nat>>, i: nat)
    requires Balanced(headers, held, view) && i < |view| && view[i] != []
    ensures view[i][0] in headers
    ensures Balanced(headers, held + multiset{view[i][0]}, Dequeued(view, i))
  {
    hide Queued;
    var x := view[i][0];
    assert view[i] == [x] + view[i][1..];
    forall k: nat
      ensures Refs(held + multiset{x}, Dequeued(view, i), k) == Refs(held, view, k)
      ensures multiset(view[i])[k] <= Queued(view, k)
    {
      QueuedUpdate(view, i, view[i][1..], k);
      QueuedUpdate(view, i, [], k);
    }
    assert Refs(held, view, x) > 0 by {
      assert multiset(view[i])[x] <= Queued(view, x);
    }
  }

  lemma AllocBalances(headers: map<nat, Header>, held: multiset<nat>, view: seq<seq<nat>>, m: nat, data: seq<bv8>)
    requires Balanced(headers, held, view) && m !in headers
    ensures Balanced(headers[m := Header(data, 1)], held + multiset{m}, view)
  {}

  lemma ReleaseBalances(headers: map<nat, Header>, held: multiset<nat>, view: seq<seq<nat>>, m: nat)
    requires Balanced(headers, held, view) && held[m] > 0
    ensures m in headers && headers[m].refcount > 0
    ensures var rest := headers[m].refcount - 1;
            Balanced(if rest == 0 then headers - {m} else headers[m := headers[m].(refcount := rest)], held - multiset{m}, view)
  {}

  /** What has no header is in no queue. */
  lemma UnknownNotQueued(headers: map<nat, Header>, held: multiset<nat>, view: seq<seq<nat>>, m: nat)
    requires Balanced(headers, held, view) && m !in headers
    ensures forall i :: 0 <= i < |view| ==> m !in view[i]
  {
    hide Queued;
    assert Refs(held, view, m) == 0;
    forall i: nat | i < |view|
      ensures m !in view[i]
    {
      QueuedUpdate(view, i, [], m);
    }
  }

  // ---------------------------------------------------------------- messages and queues

  class Messages {
    const pool: Pool
    const queues: seq<Q.Queue<nat>>
    /** The message headers, by block address. */
    var headers: map<nat, Header>
    /** References that clients hold: producers not yet done, consumers' popped messages. */
    ghost var held: multiset<nat>

    ghost function QueueParts(): set<object> {
      (set i | 0 <= i < |queues| :: queues[i] as object) + (set i | 0 <= i < |queues| :: queues[i].buffer as object)
    }

    /** Nothing is shared between the pool and the queues. */
    ghost predicate Separate()
      reads pool`tiers
    {
      && (forall i, j :: 0 <= i < j < |queues| ==> queues[i] != queues[j] && queues[i].buffer != queues[j].buffer)
      && {pool as object, pool.mem, pool.tiers, this} !! QueueParts()
    }

    ghost predicate QueuesOk()
      reads QueueParts()
    {
      forall i :: 0 <= i < |queues| ==> queues[i].Valid() && queues[i].onFull.Reject?
    }

    ghost function View(): (view: seq<seq<nat>>)
      requires QueuesOk()
      reads QueueParts()
      ensures |view| == |queues|
    {
      seq(|queues|, i requires 0 <= i < |queues| && QueuesOk() reads QueueParts() => queues[i].Contents())
    }

    ghost predicate Valid()
      reads this, pool, pool.mem, pool.tiers, QueueParts()
    {
      && pool.Valid() && Separate() && QueuesOk()
      && Balanced(headers, held, View())
      && headers.Keys == pool.LiveBlocks()
    }

    /** A freshly laid-out pool and empty queues that share nothing. */
    constructor (pool: Pool, queues: seq<Q.Queue<nat>>)
      requires pool.Valid() && pool.LiveBlocks() == {}
      requires forall i :: 0 <= i < |queues| ==> queues[i].Valid() && queues[i].onFull.Reject? && queues[i].Contents() == []
      requires forall i, j :: 0 <= i < j < |queues| ==> queues[i] != queues[j] && queues[i].buffer != queues[j].buffer
      requires forall i :: 0 <= i < |queues| ==> {pool as object, pool.mem, pool.tiers} !! {queues[i] as object, queues[i].buffer}
      ensures Valid() && this.pool == pool && this.queues == queues && headers == map[] && held == multiset{}
    {
      this.pool, this.queues := pool, queues;
      headers, held := map[], multiset{};
      new;
      forall m: nat
        ensures Refs(held, View(), m) == 0
      {
        DrainedRefs(held, View(), m);
      }
    }

    /** A new message with the producer's reference. */
    method Alloc(data: seq<bv8>) returns (m: Option<nat>)
      requires Valid() && |data| <= SIZE_MAX
      modifies this, pool`history, pool.mem, pool.tiers
      ensures Valid() && View() == old(View())
      ensures m.None? <==> |data| == 0 || BlockSize(|data|) == 0
                           || Exhausted(pool.places, old(headers.Keys), pool.forbidFallback, BlockSize(|data|))
      ensures m.None? ==> headers == old(headers) && held == old(held)
      ensures m.Some? ==> BlockFor(pool.places, m.value, BlockSize(|data|))
      ensures m.Some? && |data| <= SIZE_MAX - HEADER ==> BlockFor(pool.places, m.value, HEADER + |data|)
      ensures m.Some? ==> m.value !in old(headers) && headers == old(headers)[m.value := Header(data, 1)]
      ensures m.Some? ==> held == old(held) + multiset{m.value}
    {
      hide Balanced, PoolOk, Exhausted, BestFit, NextClear, Claimed, Marked, BlockAt, BitsOf, Live, FreeCounts, Q.Queue.Valid, Q.Queue.Contents;
      if |data| == 0 {
        return None;
      }
      ghost var ts, mem := pool.tiers[..], pool.mem[..];
      var p, i, k := pool.Alloc(BlockSize(|data|));
      assert View() == old(View());
      if p.None? {
        return None;
      }
      AllocBalances(headers, held, View(), p.value, data);
      AllocHolds(ts, mem, pool.places, pool.forbidFallback, |data|, i, k);
      headers := headers[p.value := Header(data, 1)];
      held := held + multiset{p.value};
      return p;
    }

    /** Enqueue a message: count first, and hand the reference back when the queue is full. */
    method Publish(m: nat, i: nat) returns (r: PublishRet)
      requires Valid() && m in headers && i < |queues|
      modifies this`headers, queues[i], queues[i].buffer
      ensures Valid() && held == old(held)
      ensures r.Published? <==> |old(View())[i]| < queues[i].buffer.Length
      ensures r.Published? ==> View() == Enqueued(old(View()), i, m)
      ensures r.Published? ==> headers == old(headers)[m := old(headers)[m].(refcount := old(headers)[m].refcount + 1)]
      ensures r.QueueFull? ==> View() == old(View()) && headers == old(headers)
    {
      hide Balanced, PoolOk, Live, Refs, Queued, Q.Queue.Valid, Q.Queue.Contents, QueuesOk, View;
      PublishBalances(headers, held, View(), i, m);
      headers := headers[m := headers[m].(refcount := headers[m].refcount + 1)];
      var ret := PushInto(i, m);
      if !ret.Ok? {
        headers := headers[m := headers[m].(refcount := headers[m].refcount - 1)];
        assert headers == old(headers);
        return QueueFull;
      }
      return Published;
    }

    /** nx_queue_push on one of the queues; the others keep what they hold. */
    method PushInto(i: nat, m: nat) returns (r: Q.Ret)
      requires pool.Valid() && Separate() && QueuesOk() && i < |queues|
      modifies queues[i], queues[i].buffer
      ensures pool.Valid() && pool.LiveBlocks() == old(pool.LiveBlocks()) && Separate() && QueuesOk()
      ensures r.Ok? <==> |old(View())[i]| < queues[i].buffer.Length
      ensures View() == if r.Ok? then Enqueued(old(View()), i, m) else old(View())
    {
      hide PoolOk, Live;
      ghost var view := View();
      assert queues[i] in queues;
      r := queues[i].Push(m);
      assert View() == if r.Ok? then Enqueued(view, i, m) else view;
    }

    /** Give up a client reference; the last one gives the block back. */
    method Release(m: nat)
      requires Valid() && held[m] > 0
      modifies this, pool`history, pool.mem, pool.tiers
      ensures Valid() && View() == old(View()) && held == old(held) - multiset{m}
      ensures m in old(headers)
      ensures var rest := old(headers)[m].refcount - 1;
              headers == if rest == 0 then old(headers) - {m} else old(headers)[m := old(headers)[m].(refcount := rest)]
    {
      hide Balanced, PoolOk, Live, Refs, IsBlock, Q.Queue.Valid, Q.Queue.Contents;
      ReleaseBalances(headers, held, View(), m);
      var rest := headers[m].refcount - 1;
      held := held - multiset{m};
      if rest == 0 {
        var _ := pool.Free(Some(m));
        headers := headers - {m};
      } else {
        headers := headers[m := headers[m].(refcount := rest)];
      }
      assert View() == old(View());
    }

    /** A consumer takes the oldest message of a queue, and its reference. */
    method Pop(i: nat) returns (m: Option<nat>)
      requires Valid() && i < |queues|
      modifies this`held, queues[i]
      ensures Valid() && headers == old(headers)
      ensures m.None? <==> old(View())[i] == []
      ensures m.None? ==> View() == old(View()) && held == old(held)
      ensures m.Some? ==> m.value == old(View())[i][0] && m.value in headers
      ensures m.Some? ==> View() == Dequeued(old(View()), i) && held == old(held) + multiset{m.value}
    {
      hide Balanced, PoolOk, Live, Refs;
      ghost var view := View();
      assert queues[i] in queues;
      var r, x := queues[i].Pop();
      if r.Empty? {
        assert View() == view;
        return None;
      }
      PopBalances(headers, held, view, i);
      held := held + multiset{x};
      assert View() == Dequeued(view, i);
      return Some(x);
    }

    /** Offer a message to each listed queue, keeping on after a full one. */
    method PublishMulti(m: nat, to: seq<nat>) returns (r: MultiRet, delivered: nat, firstFailed: nat)
      requires Valid() && m in headers && forall a :: 0 <= a < |to| ==> to[a] < |queues|
      modifies this`headers, QueueParts()
      ensures Valid() && held == old(held)
      ensures View() == Offered(old(View()), to, m, Capacities())
      ensures delivered == Takers(old(View()), to, m, Capacities()) <= |to|
      ensures r == if delivered == |to| then AllTook else if delivered == 0 then NobodyTook else Partial
      ensures firstFailed == FirstFull(old(View()), to, m, Capacities())
      ensures m in headers && headers == old(headers)[m := old(headers)[m].(refcount := old(headers)[m].refcount + delivered)]
    {
      hide Balanced, PoolOk, Live, Refs, Queued, Enqueued, Offered, Takers, FirstFull, Separate, QueuesOk, Q.Queue.Valid, Q.Queue.Contents, View;
      delivered, firstFailed := 0, 0;
      var failed := false;
      ghost var view, caps := View(), Capacities();
      OfferNone(view, to, m, caps);
      for n := 0 to |to|
        invariant Valid() && held == old(held) && View() == Offered(view, to[..n], m, caps)
        invariant delivered == Takers(view, to[..n], m, caps) <= n
        invariant if failed then firstFailed == FirstFull(view, to[..n], m, caps) < n else FirstFull(view, to[..n], m, caps) == n
        invariant m in headers && m in old(headers)
        invariant headers == old(headers)[m := old(headers)[m].(refcount := old(headers)[m].refcount + delivered)]
      {
        OfferStep(view, to, n, m, caps);
        var r := Publish(m, to[n]);
        if r.Published? {
          delivered := delivered + 1;
        } else if !failed {
          firstFailed, failed := n, true;
        }
      }
      if !failed {
        firstFailed := |to|;
      }
      assert to[..|to|] == to;
      r := if delivered == |to| then AllTook else if delivered == 0 then NobodyTook else Partial;
    }

    ghost function Capacities(): (caps: seq<nat>)
      ensures |caps| == |queues|
    {
      seq(|queues|, i requires 0 <= i < |queues| => queues[i].buffer.Length)
    }

    /** What somebody holds is live, and what is not live is in no queue. */
    lemma HeldIsLive(m: nat)
      requires Valid()
      ensures held[m] > 0 ==> m in headers && headers[m].refcount > 0
      ensures m !in headers ==> forall i :: 0 <= i < |queues| ==> m !in View()[i]
    {
      hide PoolOk, Live, Queued, Q.Queue.Valid, Q.Queue.Contents;
      assert m !in headers ==> Refs(held, View(), m) == 0;
      if m !in headers {
        UnknownNotQueued(headers, held, View(), m);
      }
    }

    /** When clients hold nothing and the queues are empty, every block is back in the pool. */
    lemma DrainedMeansFree()
      requires Valid() && held == multiset{} && forall s :: s in View() ==> s == []
      ensures pool.LiveBlocks() == {} && headers == map[]
      ensures forall i :: 0 <= i < pool.tiers.Length ==> pool.tiers[i].freeCount == pool.tiers[i].blockCount
    {
      hide PoolOk, Live, Refs, Queued, Q.Queue.Valid, Q.Queue.Contents;
      forall m: nat
        ensures m !in headers
      {
        DrainedRefs(held, View(), m);
      }
      pool.AllFree();
    }
  }

  // ---------------------------------------------------------------- offering to many

  /** The queues after a message was offered to each of a list in turn. */
  function Offered(view: seq<seq<nat>>, to: seq<nat>, m: nat, caps: seq<nat>): (view': seq<seq<nat>>)
    requires |caps| == |view| && forall a :: 0 <= a < |to| ==> to[a] < |view|
    ensures |view'| == |view|
  {
    if to == [] then view
    else
      var before, i := Offered(view, to[..|to| - 1], m, caps), to[|to| - 1];
      if |before[i]| < caps[i] then Enqueued(before, i, m) else before
  }

  /** How many of them took it. */
  function Takers(view: seq<seq<nat>>, to: seq<nat>, m: nat, caps: seq<nat>): (n: nat)
    requires |caps| == |view| && forall a :: 0 <= a < |to| ==> to[a] < |view|
    ensures n <= |to|
  {
    if to == [] then 0
    else
      var before, i := Offered(view, to[..|to| - 1], m, caps), to[|to| - 1];
      Takers(view, to[..|to| - 1], m, caps) + if |before[i]| < caps[i] then 1 else 0
  }

  /** The index of the first that did not, or the length of the list. */
  function FirstFull(view: seq<seq<nat>>, to: seq<nat>, m: nat, caps: seq<nat>): (n: nat)
    requires |caps| == |view| && forall a :: 0 <= a < |to| ==> to[a] < |view|
    ensures n <= |to|
  {
    if to == [] then 0
    else
      var n := FirstFull(view, to[..|to| - 1], m, caps);
      var before, i := Offered(view, to[..|to| - 1], m, caps), to[|to| - 1];
      if n < |to| - 1 then n else if |before[i]| < caps[i] then |to| else n
  }

  lemma OfferNone(view: seq<seq<nat>>, to: seq<nat>, m: nat, caps: seq<nat>)
    requires |caps| == |view| && forall a :: 0 <= a < |to| ==> to[a] < |view|
    ensures Offered(view, to[..0], m, caps) == view && Takers(view, to[..0], m, caps) == 0 && FirstFull(view, to[..0], m, caps) == 0
  {}

  lemma OfferStep(view: seq<seq<nat>>, to: seq<nat>, n: nat, m: nat, caps: seq<nat>)
    requires |caps| == |view| && n < |to| && forall a :: 0 <= a < |to| ==> to[a] < |view|
    ensures var before, first := Offered(view, to[..n], m, caps), FirstFull(view, to[..n], m, caps);
            var room := |before[to[n]]| < caps[to[n]];
            && Offered(view, to[..n + 1], m, caps) == (if room then Enqueued(before, to[n], m) else before)
            && Takers(view, to[..n + 1], m, caps) == Takers(view, to[..n], m, caps) + (if room then 1 else 0)
            && FirstFull(view, to[..n + 1], m, caps) == (if first < n then first else if room then n + 1 else n)
  {
    assert to[..n + 1][..n] == to[..n] && to[..n + 1][n] == to[n];
  }

  /** Among different queues, those with room take the message and no other. */
  lemma {:induction false} DistinctQueuesTakeIfRoom(view: seq<seq<nat>>, to: seq<nat>, m: nat, caps: seq<nat>, i: nat)
    requires |caps| == |view| && i < |view| && forall a :: 0 <= a < |to| ==> to[a] < |view|
    requires forall a, b :: 0 <= a < b < |to| ==> to[a] != to[b]
    ensures Offered(view, to, m, caps)[i] == if i in to && |view[i]| < caps[i] then view[i] + [m] else view[i]
  {
    if to != [] {
      var front, last := to[..|to| - 1], to[|to| - 1];
      assert to == front + [last];
      DistinctQueuesTakeIfRoom(view, front, m, caps, i);
    }
  }

  predicate HasSpace(view: seq<seq<nat>>, caps: seq<nat>, i: nat) {
    i < |view| && i < |caps| && |view[i]| < caps[i]
  }

  /** Which of the listed queues have room beforehand. */
  function Rooms(view: seq<seq<nat>>, to: seq<nat>, caps: seq<nat>): (rooms: seq<bool>)
    ensures |rooms| == |to|
  {
    seq(|to|, a requires 0 <= a < |to| => HasSpace(view, caps, to[a]))
  }

  function Yes(bs: seq<bool>): nat {
    if bs == [] then 0 else Yes(bs[..|bs| - 1]) + if bs[|bs| - 1] then 1 else 0
  }

  function FirstNo(bs: seq<bool>): (n: nat)
    ensures n <= |bs| && (n < |bs| ==> !bs[n]) && forall a :: 0 <= a < n ==> bs[a]
  {
    if bs == [] then 0
    else
      var n := FirstNo(bs[..|bs| - 1]);
      if n < |bs| - 1 then n else if bs[|bs| - 1] then |bs| else n
  }

  lemma {:induction false} YesExtremes(bs: seq<bool>)
    ensures Yes(bs) <= |bs|
    ensures Yes(bs) == |bs| <==> forall a :: 0 <= a < |bs| ==> bs[a]
    ensures Yes(bs) == 0 <==> forall a :: 0 <= a < |bs| ==> !bs[a]
  {
    if bs != [] {
      var front := bs[..|bs| - 1];
      YesExtremes(front);
      assert forall a :: 0 <= a < |front| ==> bs[a] == front[a];
    }
  }

  /** Among different queues, the outcome counts those that had room and finds the first that
      had none: all take the message exactly when every one had room, none exactly when none had. */
  lemma OutcomeTellsRoom(view: seq<seq<nat>>, to: seq<nat>, m: nat, caps: seq<nat>)
    requires |caps| == |view| && forall a :: 0 <= a < |to| ==> to[a] < |view|
    requires forall a, b :: 0 <= a < b < |to| ==> to[a] != to[b]
    ensures Takers(view, to, m, caps) == Yes(Rooms(view, to, caps)) <= |to|
    ensures FirstFull(view, to, m, caps) == FirstNo(Rooms(view, to, caps))
    ensures Takers(view, to, m, caps) == |to| <==> forall a :: 0 <= a < |to| ==> HasSpace(view, caps, to[a])
    ensures Takers(view, to, m, caps) == 0 <==> forall a :: 0 <= a < |to| ==> !HasSpace(view, caps, to[a])
  {
    var rooms := Rooms(view, to, caps);
    CountsRooms(view, to, m, caps);
    YesExtremes(rooms);
    assert forall a :: 0 <= a < |to| ==> rooms[a] == HasSpace(view, caps, to[a]);
  }

  lemma {:induction false} CountsRooms(view: seq<seq<nat>>, to: seq<nat>, m: nat, caps: seq<nat>)
    requires |caps| == |view| && forall a :: 0 <= a < |to| ==> to[a] < |view|
    requires forall a, b :: 0 <= a < b < |to| ==> to[a] != to[b]
    ensures Takers(view, to, m, caps) == Yes(Rooms(view, to, caps))
    ensures FirstFull(view, to, m, caps) == FirstNo(Rooms(view, to, caps))
  {
    if to == [] {
      OfferNone(view, to, m, caps);
    } else {
      var n := |to| - 1;
      var front, last := to[..n], to[n];
      CountsRooms(view, front, m, caps);
      DistinctQueuesTakeIfRoom(view, front, m, caps, last);
      assert last !in front;
      OfferStep(view, to, n, m, caps);
      assert to[..n + 1] == to;
      hide Offered, Takers, FirstFull;
      assert Rooms(view, to, caps)[..n] == Rooms(view, front, caps);
    }
  }
}
