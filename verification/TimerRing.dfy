/** The intrusive circular list and the timer manager on it. */
module TimerRing {
  import opened Words
  import opened TimerGrid

  /** A timer with its list hook; the list head is one that is never started. */
  class Node {
    var prev: Node
    var next: Node
    var expire: uint32
    var interval: uint32
    var active: bool

    /** nx_timer_init and nx_list_init: alone in a ring of its own. */
    constructor ()
      ensures Linked([this]) && !active
    {
      prev, next := this, this;
      expire, interval, active := 0, 0, false;
    }
  }

  /** The nodes of r, each once, form one ring in this order. */
  ghost predicate Linked(r: seq<Node>)
    reads r
  {
    && |r| > 0
    && (forall i, j :: 0 <= i < j < |r| ==> r[i] != r[j])
    && (forall i, j :: 0 <= i < j < |r| && j == i + 1 ==> r[i].next == r[j] && r[j].prev == r[i])
    && r[|r| - 1].next == r[0] && r[0].prev == r[|r| - 1]
  }

  ghost function InsertedAfter(r: seq<Node>, k: nat, node: Node): seq<Node>
    requires k < |r|
  {
    r[..k + 1] + [node] + r[k + 1..]
  }

  function Without<T>(r: seq<T>, k: nat): seq<T>
    requires k < |r|
  {
    r[..k] + r[k + 1..]
  }

  /** nx_list_add: put a node behind the one at place k. */
  method Add(pos: Node, node: Node, ghost r: seq<Node>, ghost k: nat)
    requires Linked(r) && k < |r| && r[k] == pos && node !in r
    modifies node`prev, node`next, pos`next, pos.next`prev
    ensures Linked(InsertedAfter(r, k, node))
  {
    ghost var s := InsertedAfter(r, k, node);
    assert pos.next == if k + 1 < |r| then r[k + 1] else r[0];
    assert pos in r && pos.next in r;
    node.prev := pos;
    node.next := pos.next;
    pos.next.prev := node;
    pos.next := node;
    forall i, j | 0 <= i < j < |s| && j == i + 1
      ensures s[i].next == s[j] && s[j].prev == s[i]
    {
      if j <= k {
        assert s[i] == r[i] && s[j] == r[j];
      } else if i > k + 1 {
        assert s[i] == r[i - 1] && s[j] == r[i];
      }
    }
  }

  /** nx_list_del: its neighbours close the ring behind a node. */
  method Del(node: Node, ghost r: seq<Node>, ghost k: nat)
    requires Linked(r) && 0 < k < |r| && r[k] == node
    modifies node.prev`next, node.next`prev
    ensures Linked(Without(r, k))
  {
    ghost var s := Without(r, k);
    assert node.prev == r[k - 1] && node.next == if k + 1 < |r| then r[k + 1] else r[0];
    node.prev.next := node.next;
    node.next.prev := node.prev;
    forall i, j | 0 <= i < j < |s| && j == i + 1
      ensures s[i].next == s[j] && s[j].prev == s[i]
    {
      if j < k {
        assert s[i] == r[i] && s[j] == r[j];
      } else if i >= k {
        assert s[i] == r[i + 1] && s[j] == r[j + 1];
      }
    }
  }

  // ---------------------------------------------------------------- the manager

  ghost function EntryOf(t: Node): Entry<Node>
    reads t
  {
    Entry(t, t.expire, t.interval)
  }

  ghost function Entries(ts: seq<Node>): (es: seq<Entry<Node>>)
    reads ts
    ensures |es| == |ts| && forall i :: 0 <= i < |ts| ==> es[i] == EntryOf(ts[i])
  {
    seq(|ts|, i requires 0 <= i < |ts| reads ts => EntryOf(ts[i]))
  }

  class Manager {
    const head: Node
    var lastTick: uint32

    /** Every timer given to this manager, and the active ones in list order. */
    ghost var known: set<Node>
    ghost var ring: seq<Node>

    /** The ring holds the head and exactly the active timers, once each. */
    ghost predicate Valid()
      reads this`ring, this`known, head, known
    {
      && head !in known && (forall i :: 0 <= i < |ring| ==> ring[i] in known)
      && Linked([head] + ring)
      && forall t :: t in known ==> (t.active <==> t in ring)
    }

    constructor ()
      ensures Valid() && fresh(head) && known == {} && ring == [] && lastTick == 0
    {
      head := new Node();
      lastTick, known, ring := 0, {}, [];
      new;
      assert [head] + ring == [head];
    }

    /** The active timers in list order, as values. */
    ghost function Active(): seq<Entry<Node>>
      requires Valid()
      reads this`ring, this`known, head, known
    {
      Entries(ring)
    }

    /** Take an active timer out of the ring. */
    method Unlink(t: Node, ghost k: nat)
      requires Valid() && k < |ring| && ring[k] == t
      modifies this`ring, head, known
      ensures Valid() && !t.active && ring == Without(old(ring), k)
      ensures SameTimes(known)
    {
      hide Linked, Without;
      RingDistinct();
      Neighbours(k);
      ghost var r := ring;
      Detach(t, k);
      label unlinked:
      t.active := false;
      LinksKept@unlinked([head] + ring);
      WithoutMembers(r, k);
      forall i | 0 <= i < |ring|
        ensures ring[i] in known
      {
        assert ring[i] in ring && ring[i] in r;
      }
    }

    /** The links of the ring without one of its timers. */
    method Detach(t: Node, ghost k: nat)
      requires Valid() && k < |ring| && ring[k] == t
      modifies this`ring, t.prev`next, t.next`prev
      ensures ring == Without(old(ring), k) && Linked([head] + ring)
    {
      hide Linked;
      Place(k);
      Del(t, [head] + ring, k + 1);
      assert Without([head] + ring, k + 1) == [head] + Without(ring, k);
      ring := Without(ring, k);
    }

    lemma Place(k: nat)
      requires Valid() && k < |ring|
      ensures ([head] + ring)[k + 1] == ring[k]
    {}

    lemma RingDistinct()
      requires Valid()
      ensures forall i, j :: 0 <= i < j < |ring| ==> ring[i] != ring[j]
    {
      var r := [head] + ring;
      forall i, j | 0 <= i < j < |ring|
        ensures ring[i] != ring[j]
      {
        assert ring[i] == r[i + 1] && ring[j] == r[j + 1];
      }
    }

    /** Who comes behind a timer, and that its neighbours are in the ring. */
    lemma Neighbours(k: nat)
      requires Valid() && k < |ring|
      ensures ring[k].next == At(k + 1)
      ensures (ring[k].next == head || ring[k].next in known) && (ring[k].prev == head || ring[k].prev in known)
    {
      var r := [head] + ring;
      assert r[k + 1] == ring[k] && r[k].next == r[k + 1];
      if k + 1 < |ring| {
        assert r[k + 2] == ring[k + 1];
      }
    }

    /** nx_timer_stop. */
    method Stop(t: Node)
      requires Valid() && t in known
      modifies this`ring, head, known
      ensures Valid() && !t.active && SameTimes(known)
      ensures Active() == Step(old(Active()), Stopped(t))
      ensures t !in old(ring) ==> ring == old(ring)
      ensures forall k :: 0 <= k < |old(ring)| && old(ring)[k] == t ==> ring == Without(old(ring), k)
    {
      hide Linked, Without, Dropped;
      RingDistinct();
      ghost var r := ring;
      if !t.active {
        DroppedAt(Active(), |r|, t);
        return;
      }
      ghost var k :| 0 <= k < |ring| && ring[k] == t;
      DroppedAt(Active(), k, t);
      Unlink(t, k);
      EntriesSame(r);
    }

    /** nx_timer_start: behind all active timers, due a delay after the last tick processed. */
    method Start(t: Node, delay: uint32, period: uint32)
      requires Valid() && t != head && (t in known || !t.active)
      modifies this`ring, this`known, head, known, t
      ensures Valid() && known == old(known) + {t} && t.active
      ensures EntryOf(t) == Entry(t, Low32(lastTick + delay), period)
      ensures Active() == Step(old(Active()), Started(EntryOf(t)))
      ensures SameTimes(old(known) - {t})
      ensures t !in old(ring) ==> ring == old(ring) + [t]
      ensures forall k :: 0 <= k < |old(ring)| && old(ring)[k] == t ==> ring == Without(old(ring), k) + [t]
    {
      hide Linked, Without, Dropped;
      if t.active {
        Stop(t);
      } else {
        RingDistinct();
        NotListed(t);
        DroppedAt(Active(), |ring|, t);
      }
      Enlist(t, Low32(lastTick + delay), period);
    }

    lemma NotListed(t: Node)
      requires Valid() && t !in ring
      ensures Absent(Active(), t)
    {}

    /** Put an idle timer behind all active ones. */
    method Enlist(t: Node, expire: uint32, period: uint32)
      requires Valid() && t != head && !t.active
      modifies this`ring, this`known, head, known, t
      ensures Valid() && known == old(known) + {t} && t.active && ring == old(ring) + [t]
      ensures EntryOf(t) == Entry(t, expire, period) && Active() == old(Active()) + [EntryOf(t)]
      ensures SameTimes(old(known) - {t})
    {
      hide Linked, Without;
      ghost var r := ring;
      label stopped:
      t.expire, t.interval, t.active := expire, period, true;
      LinksKept@stopped([head] + ring);
      Attach(t);
      known := known + {t};
      EntriesSame(r);
    }

    /** Behind all others: nx_list_add_tail. */
    method Attach(t: Node)
      requires Linked([head] + ring) && t != head && t !in ring
      modifies this`ring, t`prev, t`next, head.prev`next, head`prev
      ensures ring == old(ring) + [t] && Linked([head] + ring)
    {
      ghost var r := [head] + ring;
      assert head.prev.next == head;
      Add(head.prev, t, r, |r| - 1);
      assert InsertedAfter(r, |r| - 1, t) == [head] + (ring + [t]);
      ring := ring + [t];
    }

    /** One timer of the list: fire it if it is due. */
    method Visit(t: Node, now: uint32, ghost k: nat) returns (fires: bool)
      requires Valid() && k < |ring| && ring[k] == t
      modifies this`ring, head, known
      ensures Valid()
      ensures var e := old(Active())[k];
              && fires == Due(e, now)
              && ring == (if fires && e.interval == 0 then Without(old(ring), k) else old(ring))
              && Active() == if !fires then old(Active())
                             else if e.interval == 0 then Without(old(Active()), k)
                             else old(Active())[k := e.(expire := Low32(e.expire + e.interval))]
    {
      hide Linked;
      fires := Expired(now, t.expire);
      if fires {
        if t.interval == 0 {
          ghost var r := ring;
          Unlink(t, k);
          EntriesSame(r);
        } else {
          RingDistinct();
          Reload(t, k);
        }
      }
    }

    /** A periodic timer's next expiry. */
    method Reload(t: Node, ghost k: nat)
      requires Valid() && k < |ring| && ring[k] == t && forall i, j :: 0 <= i < j < |ring| ==> ring[i] != ring[j]
      modifies t`expire
      ensures Valid() && Active() == old(Active())[k := EntryOf(t)]
      ensures t.expire == Low32(old(t.expire) + t.interval)
    {
      t.expire := Low32(t.expire + t.interval);
    }

    /** nx_timer_mgr_process, with callbacks that leave the list alone: `fired` is whose callback
        ran, in order. */
    method Process(now: uint32) returns (fired: seq<Node>)
      requires Valid()
      modifies this`lastTick, this`ring, head, known
      ensures Valid() && lastTick == now
      ensures fired == Fired(old(Active()), now)
      ensures Active() == TimerGrid.After(old(Active()), now)
    {
      hide Linked, Valid, Progress, Done, Entries, TimerGrid.After, Fired, Due, At, Active;
      lastTick := now;
      fired := [];
      ghost var es, i := Active(), 0;
      First();
      Begins(es, now);
      var pos := head.next;
      var n := pos.next;
      while pos != head
        invariant Valid() && lastTick == now && i <= |es| && Progress(Active(), es, i, now, fired)
        invariant pos == At(Done(es, i, now)) && n == pos.next
        decreases |es| - i
      {
        fired := Pass(pos, now, es, i, fired);
        i := i + 1;
        pos := n;
        n := pos.next;
      }
      NotHead(Done(es, i, now));
      Ends(Active(), es, i, now, fired);
    }

    /** One pass of the loop: visit the timer the list has come to. */
    method Pass(pos: Node, now: uint32, ghost es: seq<Entry<Node>>, ghost i: nat, fired: seq<Node>) returns (fired': seq<Node>)
      requires Valid() && i <= |es| && Progress(Active(), es, i, now, fired)
      requires pos == At(Done(es, i, now)) && pos != head
      modifies this`ring, head, known
      ensures Valid() && i < |es| && Progress(Active(), es, i + 1, now, fired')
      ensures old(pos.next) == At(Done(es, i + 1, now))
    {
      hide Linked, Valid, Progress, Done, Entries, TimerGrid.After, Fired, Due;
      ghost var k := Done(es, i, now);
      NotHead(k);
      Advance(Active(), es, i, now, fired);
      Neighbours(k);
      ghost var r := ring;
      var fires := Visit(pos, now, k);
      WithoutAt(r, k);
      return if fires then fired + [pos] else fired;
    }

    /** The timer at place k of the list, and the head behind the last. */
    ghost function At(k: nat): Node
      reads this`ring
    {
      if k < |ring| then ring[k] else head
    }

    lemma First()
      requires Valid()
      ensures head.next == At(0)
    {
      var r := [head] + ring;
      assert |r| > 1 ==> r[0].next == r[1];
    }

    lemma NotHead(k: nat)
      requires Valid()
      ensures At(k) == head <==> k >= |ring|
      ensures |ring| == |Active()|
    {}
  }

  /** How many of the first i timers are still in the list after their visit. */
  ghost function Done<T>(es: seq<Entry<T>>, i: nat, now: uint32): nat
    requires i <= |es|
  {
    |TimerGrid.After(es[..i], now)|
  }

  /** What the list says when its first i timers have been visited. */
  ghost predicate Progress<T>(active: seq<Entry<T>>, es: seq<Entry<T>>, i: nat, now: uint32, fired: seq<T>) {
    i <= |es| && active == TimerGrid.After(es[..i], now) + es[i..] && fired == Fired(es[..i], now)
  }

  lemma Begins<T>(es: seq<Entry<T>>, now: uint32)
    ensures Progress(es, es, 0, now, []) && Done(es, 0, now) == 0
  {}

  lemma Ends<T>(active: seq<Entry<T>>, es: seq<Entry<T>>, i: nat, now: uint32, fired: seq<T>)
    requires Progress(active, es, i, now, fired) && i <= |es| && Done(es, i, now) >= |active|
    ensures active == TimerGrid.After(es, now) && fired == Fired(es, now)
  {
    assert i == |es| && es[..i] == es && es[i..] == [];
  }

  /** What one visit adds. */
  lemma Advance<T>(active: seq<Entry<T>>, es: seq<Entry<T>>, i: nat, now: uint32, fired: seq<T>)
    requires Progress(active, es, i, now, fired) && Done(es, i, now) < |active|
    ensures i < |es|
    ensures var k := Done(es, i, now);
            var e := active[k];
            && Done(es, i + 1, now) == (if Due(e, now) && e.interval == 0 then k else k + 1)
            && Progress(if !Due(e, now) then active
                        else if e.interval == 0 then Without(active, k)
                        else active[k := e.(expire := Low32(e.expire + e.interval))],
                        es, i + 1, now, if Due(e, now) then fired + [e.who] else fired)
  {
    hide Due, Low32;
    assert es[..i + 1][..i] == es[..i] && es[i..] == [es[i]] + es[i + 1..];
  }

  /** Dropping a timer from the list is taking out its place, if it has one. */
  lemma {:induction false} DroppedAt<T>(es: seq<Entry<T>>, k: nat, x: T)
    requires forall i, j :: 0 <= i < j < |es| ==> es[i].who != es[j].who
    requires if k < |es| then es[k].who == x else Absent(es, x)
    ensures Dropped(es, x) == if k < |es| then Without(es, k) else es
  {
    if es != [] {
      var n := |es| - 1;
      assert es == es[..n] + [es[n]];
      if k == n {
        DroppedAt(es[..n], n, x);
        assert Without(es, n) == es[..n];
      } else {
        DroppedAt(es[..n], k, x);
        if k < n {
          assert Without(es, k) == Without(es[..n], k) + [es[n]];
        }
      }
    }
  }

  twostate lemma EntriesSame(ts: seq<Node>)
    requires forall t :: t in ts ==> t.expire == old(t.expire) && t.interval == old(t.interval)
    ensures Entries(ts) == old(Entries(ts))
    ensures forall k :: 0 <= k < |ts| ==> Entries(Without(ts, k)) == Without(Entries(ts), k)
  {}

  /** Only the links make a ring. */
  twostate lemma LinksKept(r: seq<Node>)
    requires old(Linked(r)) && forall i :: 0 <= i < |r| ==> r[i].next == old(r[i].next) && r[i].prev == old(r[i].prev)
    ensures Linked(r)
  {}

  /** Nobody's expiry or period changed. */
  twostate predicate SameTimes(ts: set<Node>)
    reads ts
  {
    forall t :: t in ts ==> t.expire == old(t.expire) && t.interval == old(t.interval)
  }

  lemma WithoutAt<T>(r: seq<T>, k: nat)
    requires k < |r|
    ensures |Without(r, k)| == |r| - 1 && (k + 1 < |r| ==> Without(r, k)[k] == r[k + 1])
  {}

  lemma WithoutMembers(r: seq<Node>, k: nat)
    requires k < |r| && forall i, j :: 0 <= i < j < |r| ==> r[i] != r[j]
    ensures forall x :: x in Without(r, k) <==> x in r && x != r[k]
  {}
}
