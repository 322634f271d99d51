/** Routing a request frame to its subscribers, or answering it with one exception. */
module ModbusDispatch {
  import opened ModbusFrames
  import opened ModbusMessages
  import opened RefMsg
  import opened FanOut
  import opened PoolState
  import opened Pool
  import opened Options

  /** An owner of the addresses lo to hi under one function code; `queue` is its place among the
      queues. */
  datatype Sub = Sub(func: bv8, lo: word, hi: word, queue: nat)

  predicate WellSliced(f: seq<bv8>) {
    |f| >= REQUEST_MIN && RequestLen(f) == Bytes(|f|)
  }

  // ---------------------------------------------------------------- ownership

  /** request_span: the inclusive range a request touches; its end may pass 0xFFFF. */
  function Span(f: seq<bv8>): (nat, nat)
    requires WellSliced(f)
  {
    var base := if f[1] == READ_WRITE_REGS then 6 else 2;
    var a := Word(f[base], f[base + 1]);
    if f[1] == WRITE_SINGLE_COIL || f[1] == WRITE_SINGLE_REG then (a, a)
    else
      var q := Word(f[base + 2], f[base + 3]);
      (a, if q == 0 then a else a + q - 1)
  }

  predicate Owns(sub: Sub, f: seq<bv8>)
    requires WellSliced(f)
  {
    sub.func == f[1] && sub.lo <= Span(f).0 && Span(f).1 <= sub.hi
  }

  /** The addresses a request is about, in unbounded arithmetic: for a read/write exchange the
      written ones. */
  predicate Touches(r: Request, a: int) {
    match r
    case Fixed(_, cmd, start, value) =>
      if cmd == WRITE_SINGLE_COIL || cmd == WRITE_SINGLE_REG then a == start else start <= a < start + value
    case Variable(_, _, start, qty, _) => start <= a < start + qty
    case ReadWrite(_, _, _, wrStart, wrQty, _) => wrStart <= a < wrStart + wrQty
  }

  /** A subscription owns a well-formed request exactly when every address the request touches
      lies in its range; none owns one that runs past the last address. */
  lemma OwnsIffContains(sub: Sub, f: seq<bv8>)
    requires WellSliced(f) && ValueExc(f) == 0
    ensures Owns(sub, f) <==> sub.func == f[1] && forall a :: Touches(ReadRequest(f), a) ==> sub.lo <= a <= sub.hi
    ensures Touches(ReadRequest(f), 0x10000) ==> !Owns(sub, f)
  {
    hide Word, Val;
    var (lo, hi) := Span(f);
    TouchesSpan(f);
    if forall a :: Touches(ReadRequest(f), a) ==> sub.lo <= a <= sub.hi {
      assert Touches(ReadRequest(f), lo) && Touches(ReadRequest(f), hi);
    }
  }

  lemma TouchesSpan(f: seq<bv8>)
    requires WellSliced(f) && ValueExc(f) == 0
    ensures Span(f).0 <= Span(f).1
    ensures forall a :: Touches(ReadRequest(f), a) <==> Span(f).0 <= a <= Span(f).1
  {
    hide Word, Val;
  }

  predicate Supported(subs: seq<Sub>, f: seq<bv8>)
    requires WellSliced(f)
  {
    exists s :: s in subs && s.func == f[1]
  }

  /** The queues of the subscriptions that own a request, in table order. */
  function Owners(subs: seq<Sub>, f: seq<bv8>): (to: seq<nat>)
    requires WellSliced(f)
    ensures forall a :: 0 <= a < |to| ==> exists s :: s in subs && Owns(s, f) && s.queue == to[a]
    ensures to == [] <==> forall s :: s in subs ==> !Owns(s, f)
  {
    if subs == [] then []
    else
      var front, s := subs[..|subs| - 1], subs[|subs| - 1];
      assert subs == front + [s];
      Owners(front, f) + if Owns(s, f) then [s.queue] else []
  }

  // ---------------------------------------------------------------- dispatch

  /** What a request comes to: the exception attempted, if any, and how many subscribers took
      the frame. */
  datatype Outcome = Outcome(exc: Option<bv8>, takers: nat)

  /** The outcome the code's order of checks fixes, given the queues and whether the frame
      could be copied. */
  function Resolve(subs: seq<Sub>, f: seq<bv8>, view: seq<seq<nat>>, caps: seq<nat>, copied: bool): Outcome
    requires WellSliced(f) && |caps| == |view| && forall s :: s in subs ==> s.queue < |view|
  {
    if !Supported(subs, f) then Outcome(Some(ILLEGAL_FUNCTION), 0)
    else if ValueExc(f) != 0 then Outcome(Some(ValueExc(f)), 0)
    else
      var to := Owners(subs, f);
      if to == [] then Outcome(Some(ILLEGAL_DATA_ADDR), 0)
      else if !copied then Outcome(Some(DEVICE_FAILURE), 0)
      else
        var n := Takers(view, to, 0, caps);
        if n == 0 then Outcome(Some(DEVICE_BUSY), 0) else Outcome(None, n)
  }

  class Slave {
    const ms: Messages
    const subs: seq<Sub>
    /** Place of the response queue among the queues. */
    const response: nat

    ghost predicate Valid()
      reads this, ms, ms.pool, ms.pool.mem, ms.pool.tiers, ms.QueueParts()
    {
      && ms.Valid() && response < |ms.queues|
      && forall s :: s in subs ==> s.queue < |ms.queues|
    }

    constructor (ms: Messages, subs: seq<Sub>, response: nat)
      requires ms.Valid() && response < |ms.queues| && forall s :: s in subs ==> s.queue < |ms.queues|
      ensures Valid() && this.ms == ms && this.subs == subs && this.response == response
    {
      this.ms, this.subs, this.response := ms, subs, response;
    }

    /** A reply is allowed, and there is memory and queue room for it. */
    ghost predicate CanReply(frame: seq<bv8>, view: seq<seq<nat>>, live: set<nat>)
      requires |frame| >= 2 && response < |ms.queues| == |view|
      reads ms.pool
    {
      && frame[0] != ADDR_BROADCAST && |view[response]| < ms.Capacities()[response]
      && !Exhausted(ms.pool.places, live, ms.pool.forbidFallback, BlockSize(RESPONSE_MIN))
    }

    /** nx_modbus_rtu_slave_reply_exception: nothing for a broadcast, and one reply frame on the
        response queue otherwise, when there is memory and room for it. */
    method SendException(frame: seq<bv8>, exc: bv8) returns (queued: Option<nat>)
      requires Valid() && |frame| >= 2
      modifies ms, ms.pool`history, ms.pool.mem, ms.pool.tiers, ms.queues[response], ms.queues[response].buffer
      ensures Valid() && ms.held == old(ms.held)
      ensures queued.None? ==> ms.View() == old(ms.View()) && ms.headers == old(ms.headers)
      ensures queued.Some? <==> CanReply(frame, old(ms.View()), old(ms.headers.Keys))
      ensures queued.Some? ==> ms.View() == Enqueued(old(ms.View()), response, queued.value)
      ensures queued.Some? ==>
                && queued.value !in old(ms.headers)
                && ms.headers == old(ms.headers)[queued.value := Header(ReplyAdu(ExceptionReply(frame[0], frame[1], exc)), 1)]
    {
      hide ReplyAdu, Balanced, PoolOk, Live, Exhausted, Messages.View, Messages.QueuesOk, Enqueued;
      var reply := ExceptionReply(frame[0], frame[1], exc);
      if !ReplyBuildable(reply) {
        return None;
      }
      var ok, adu := BuildReply(reply);
      AduLength(reply);
      var m := ms.Alloc(adu[..]);
      if m.None? {
        return None;
      }
      var sent := ReplySend(m.value);
      if !sent {
        assert ms.headers == old(ms.headers);
        return None;
      }
      return m;
    }

    /** reply_send: queue a built reply and drop the producer's reference either way. */
    method ReplySend(m: nat) returns (queued: bool)
      requires Valid() && ms.held[m] > 0 && m in ms.headers && ms.headers[m].refcount == 1
      modifies ms, ms.pool`history, ms.pool.mem, ms.pool.tiers, ms.queues[response], ms.queues[response].buffer
      ensures Valid() && ms.held == old(ms.held) - multiset{m}
      ensures queued == (|old(ms.View())[response]| < ms.Capacities()[response])
      ensures ms.View() == if queued then Enqueued(old(ms.View()), response, m) else old(ms.View())
      ensures ms.headers == if queued then old(ms.headers) else old(ms.headers) - {m}
    {
      hide Balanced, PoolOk, Live, Exhausted, Messages.View, Messages.QueuesOk, Enqueued;
      var r := ms.Publish(m, response);
      ms.Release(m);
      queued := r.Published?;
    }

    /** Offer the frame to every owning subscription. */
    method FanOut(f: seq<bv8>) returns (matched: nat, delivered: nat, starved: bool, ghost m: nat)
      requires Valid() && WellSliced(f)
      modifies ms, ms.pool`history, ms.pool.mem, ms.pool.tiers, ms.QueueParts()
      ensures Valid() && ms.held == old(ms.held)
      ensures starved <==> Owners(subs, f) != [] && Exhausted(ms.pool.places, old(ms.headers.Keys), ms.pool.forbidFallback, BlockSize(|f|))
      ensures starved || Owners(subs, f) == [] ==> ms.View() == old(ms.View()) && ms.headers == old(ms.headers)
      ensures !starved ==> matched == |Owners(subs, f)|
      ensures !starved && matched > 0 ==>
                && delivered == Takers(old(ms.View()), Owners(subs, f), m, ms.Capacities())
                && ms.View() == Offered(old(ms.View()), Owners(subs, f), m, ms.Capacities())
                && m !in old(ms.headers)
                && ms.headers == if delivered == 0 then old(ms.headers) else old(ms.headers)[m := Header(f, delivered)]
    {
      hide PoolOk, Live, Exhausted, Messages.View, Messages.QueuesOk, Messages.Separate, Balanced, Owners, Owns, RequestLen, Picked, Offered, Takers;
      var queues := seq(|subs|, i requires 0 <= i < |subs| => subs[i].queue);
      var claims := (i: nat) => i < |subs| && Owns(subs[i], f);
      PickedOwners(subs, f, claims, queues, |subs|);
      assert queues[..|subs|] == queues && subs[..|subs|] == subs;
      FrameSize(f);
      assert forall i :: 0 <= i < |subs| ==> subs[i] in subs;
      matched, delivered, starved, m := Deliver(ms, f, claims, queues);
    }

    /** Is the function code claimed at all? */
    method ClaimsCode(f: seq<bv8>) returns (ok: bool)
      requires WellSliced(f)
      ensures ok == Supported(subs, f)
    {
      ok := false;
      for i := 0 to |subs|
        invariant !ok ==> forall j :: 0 <= j < i ==> subs[j].func != f[1]
        invariant ok ==> Supported(subs, f)
      {
        if subs[i].func == f[1] {
          assert subs[i] in subs;
          return true;
        }
      }
    }

    /** Resolve one request: function support, then value legality, then ownership. Either at
        least one owner takes the frame and no exception is attempted, or exactly one is. */
    method Dispatch(f: seq<bv8>) returns (o: Outcome, ghost m: nat, ghost reply: Option<nat>)
      requires Valid() && WellSliced(f)
      modifies ms, ms.pool`history, ms.pool.mem, ms.pool.tiers, ms.QueueParts()
      ensures Valid() && ms.held == old(ms.held)
      ensures o == Resolve(subs, f, old(ms.View()), ms.Capacities(),
                           !Exhausted(ms.pool.places, old(ms.headers.Keys), ms.pool.forbidFallback, BlockSize(|f|)))
      ensures o.exc.None? ==>
                && (forall a :: 0 <= a < |Owners(subs, f)| ==> Owners(subs, f)[a] < |ms.queues|)
                && ms.View() == Offered(old(ms.View()), Owners(subs, f), m, ms.Capacities())
                && m !in old(ms.headers) && ms.headers == old(ms.headers)[m := Header(f, o.takers)]
      ensures o.exc.Some? ==> (reply.Some? <==> CanReply(f, old(ms.View()), old(ms.headers.Keys)))
      ensures o.exc.Some? && reply.None? ==> ms.View() == old(ms.View()) && ms.headers == old(ms.headers)
      ensures o.exc.Some? && reply.Some? ==>
                && f[0] != ADDR_BROADCAST && reply.value !in old(ms.headers)
                && ms.View() == Enqueued(old(ms.View()), response, reply.value)
                && ms.headers == old(ms.headers)[reply.value := Header(ReplyAdu(ExceptionReply(f[0], f[1], o.exc.value)), 1)]
    {
      hide PoolOk, Live, Exhausted, Messages.View, Messages.QueuesOk, Messages.Separate, Balanced, RequestLen,
           Owners, ReplyAdu, Enqueued, Offered, Takers, ValueExc, Supported;
      m, reply := 0, None;
      var exc: bv8;
      var supported := ClaimsCode(f);
      if !supported {
        exc := ILLEGAL_FUNCTION;
      } else if ValueExc(f) != 0 {
        exc := ValueExc(f);
      } else {
        ghost var view := ms.View();
        OwnersInRange(subs, f, |ms.queues|);
        var matched, delivered, starved, copy := FanOut(f);
        m := copy;
        if starved {
          exc := DEVICE_FAILURE;
        } else {
          NobodyTookNothing(view, Owners(subs, f), m, ms.Capacities());
          if matched == 0 {
            exc := ILLEGAL_DATA_ADDR;
          } else if delivered == 0 {
            exc := DEVICE_BUSY;
          } else {
            return Outcome(None, delivered), m, None;
          }
        }
      }
      var queued := SendException(f, exc);
      return Outcome(Some(exc), 0), m, queued;
    }
  }

  // ---------------------------------------------------------------- one outcome

  /** Exactly one of two things comes of a request: it reaches an owner and no exception is
      attempted, or nothing takes it and one exception is, its code fixed by the first check
      that fails. A request's values are in order exactly when a builder would have let it through. */
  lemma OneOutcome(subs: seq<Sub>, f: seq<bv8>, view: seq<seq<nat>>, caps: seq<nat>, copied: bool)
    requires WellSliced(f) && |caps| == |view| && forall s :: s in subs ==> s.queue < |view|
    ensures var o := Resolve(subs, f, view, caps, copied);
            && (o.exc.None? <==> o.takers > 0)
            && (o.takers > 0 ==> exists s :: s in subs && Owns(s, f))
            && (o.exc == Some(ILLEGAL_FUNCTION) <==> forall s :: s in subs ==> s.func != f[1])
            && (o.exc == Some(ILLEGAL_DATA_VALUE) <==> !Lawful(ReadRequest(f)) && exists s :: s in subs && s.func == f[1])
            && (o.exc == Some(ILLEGAL_DATA_ADDR) <==>
                  && Lawful(ReadRequest(f)) && (exists s :: s in subs && s.func == f[1])
                  && forall s :: s in subs ==> !Owns(s, f))
            && (o.exc == Some(DEVICE_FAILURE) <==> Lawful(ReadRequest(f)) && !copied && exists s :: s in subs && Owns(s, f))
            && (o.exc == Some(DEVICE_BUSY) <==>
                  && Lawful(ReadRequest(f)) && copied && (exists s :: s in subs && Owns(s, f))
                  && forall s :: s in subs && Owns(s, f) ==> |view[s.queue]| >= caps[s.queue])
  {
    hide Owns, RequestLen, Takers, ValueExc, ReadRequest, Lawful;
    ValueRulesAreTheBuilders(f);
    OwnersInRange(subs, f, |view|);
    NobodyTakesIff(view, Owners(subs, f), 0, caps);
    OwnersAll(subs, f);
    OwnersNone(subs, f);
    OwnersHaveCode(f);
  }

  lemma OwnersNone(subs: seq<Sub>, f: seq<bv8>)
    requires WellSliced(f)
    ensures Owners(subs, f) == [] <==> forall s :: s in subs ==> !Owns(s, f)
  {}

  lemma {:induction false} OwnersAll(subs: seq<Sub>, f: seq<bv8>)
    requires WellSliced(f)
    ensures forall s :: s in subs && Owns(s, f) ==> s.queue in Owners(subs, f)
  {
    hide Owns;
    if subs != [] {
      var front, last := subs[..|subs| - 1], subs[|subs| - 1];
      assert subs == front + [last];
      OwnersAll(front, f);
    }
  }

  lemma OwnersHaveCode(f: seq<bv8>)
    requires WellSliced(f)
    ensures forall s :: Owns(s, f) ==> s.func == f[1]
  {}

  /** The owners, as the loop over the table picks them. */
  lemma {:induction false} PickedOwners(subs: seq<Sub>, f: seq<bv8>, claims: nat -> bool, queues: seq<nat>, n: nat)
    requires WellSliced(f) && n <= |subs| == |queues|
    requires forall i: nat :: i < |subs| ==> queues[i] == subs[i].queue && (claims(i) <==> Owns(subs[i], f))
    ensures Picked(claims, queues[..n]) == Owners(subs[..n], f)
  {
    hide Owns, RequestLen;
    if n > 0 {
      PickedOwners(subs, f, claims, queues, n - 1);
      assert queues[..n][..n - 1] == queues[..n - 1] && subs[..n][..n - 1] == subs[..n - 1];
    }
  }

  lemma FrameSize(f: seq<bv8>)
    requires WellSliced(f)
    ensures 8 <= |f| <= 268 && BlockSize(|f|) > 0
  {}

  lemma OwnersInRange(subs: seq<Sub>, f: seq<bv8>, n: nat)
    requires WellSliced(f) && forall s :: s in subs ==> s.queue < n
    ensures forall a :: 0 <= a < |Owners(subs, f)| ==> Owners(subs, f)[a] < n
  {}

  lemma AduLength(r: Reply)
    requires ReplyBuildable(r) && r.ExceptionReply?
    ensures |ReplyAdu(r)| == RESPONSE_MIN && BlockSize(RESPONSE_MIN) > 0
  {}
}
