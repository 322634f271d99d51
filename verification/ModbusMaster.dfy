/** Handing a response to the modules that asked. */
module ModbusMaster {
  import opened Options
  import opened Pool
  import opened PoolState
  import opened ModbusFrames
  import opened ModbusMessages
  import opened RefMsg
  import opened FanOut

  /** Who wants the answers of which slave; func 0 stands for any code. */
  datatype Sub = Sub(addr: bv8, func: bv8, queue: nat)

  /** sub_claims. */
  predicate Claims(sub: Sub, addr: bv8, cmd: bv8) {
    sub.addr == addr && (sub.func == 0 || cmd & !EXCEPTION_FLAG == sub.func)
  }

  /** The module that asked for a code hears the answer and the refusal of it alike, and the
      refusal reaches nobody who would not have had the answer. */
  lemma RefusalGoesWhereAnswerWould(sub: Sub, addr: bv8, cmd: bv8)
    ensures Claims(sub, addr, cmd | EXCEPTION_FLAG) <==> Claims(sub, addr, cmd)
    ensures cmd & EXCEPTION_FLAG == 0 ==> (Claims(sub, addr, cmd) <==> sub.addr == addr && (sub.func == 0 || sub.func == cmd))
  {}

  /** Whatever a slave replies, the frame carries the address and code that decide who claims
      it: exactly the modules that asked this slave for this code, or for everything. */
  lemma RepliesReachAskers(sub: Sub, r: Reply)
    requires ReplyBuildable(r) && r.cmd & EXCEPTION_FLAG == 0
    ensures |ReplyAdu(r)| >= RESPONSE_MIN
    ensures Claims(sub, ReplyAdu(r)[0], ReplyAdu(r)[1]) <==> sub.addr == r.addr && (sub.func == 0 || sub.func == r.cmd)
  {}

  function Claimants(subs: seq<Sub>, f: seq<bv8>): (to: seq<nat>)
    requires |f| >= RESPONSE_MIN
    ensures to == [] <==> forall s :: s in subs ==> !Claims(s, f[0], f[1])
  {
    if subs == [] then []
    else
      var front, s := subs[..|subs| - 1], subs[|subs| - 1];
      assert subs == front + [s];
      Claimants(front, f) + if Claims(s, f[0], f[1]) then [s.queue] else []
  }

  class Master {
    const ms: Messages
    const subs: seq<Sub>

    ghost predicate Valid()
      reads this, ms, ms.pool, ms.pool.mem, ms.pool.tiers, ms.QueueParts()
    {
      ms.Valid() && forall s :: s in subs ==> s.queue < |ms.queues|
    }

    constructor (ms: Messages, subs: seq<Sub>)
      requires ms.Valid() && forall s :: s in subs ==> s.queue < |ms.queues|
      ensures Valid() && this.ms == ms && this.subs == subs
    {
      this.ms, this.subs := ms, subs;
    }

    /** One copy for every claiming module; a response nobody claims, or that cannot be copied,
        is lost and changes nothing. */
    method Dispatch(f: seq<bv8>) returns (delivered: nat, ghost m: nat)
      requires Valid() && RESPONSE_MIN <= |f| <= MAX_ADU + 4
      modifies ms, ms.pool`history, ms.pool.mem, ms.pool.tiers, ms.QueueParts()
      ensures Valid() && ms.held == old(ms.held)
      ensures var to := Claimants(subs, f);
              if to == [] || Exhausted(ms.pool.places, old(ms.headers.Keys), ms.pool.forbidFallback, BlockSize(|f|))
              then ms.View() == old(ms.View()) && ms.headers == old(ms.headers)
              else
                && (forall a :: 0 <= a < |to| ==> to[a] < |ms.queues|)
                && delivered == Takers(old(ms.View()), to, m, ms.Capacities())
                && ms.View() == Offered(old(ms.View()), to, m, ms.Capacities())
                && m !in old(ms.headers)
                && ms.headers == if delivered == 0 then old(ms.headers) else old(ms.headers)[m := Header(f, delivered)]
    {
      hide PoolOk, Live, Exhausted, Messages.View, Messages.QueuesOk, Messages.Separate, Balanced, Claimants, Claims, Picked, Offered, Takers;
      var queues := seq(|subs|, i requires 0 <= i < |subs| => subs[i].queue);
      var claims := (i: nat) => i < |subs| && Claims(subs[i], f[0], f[1]);
      PickedClaimants(subs, f, claims, queues, |subs|);
      assert queues[..|subs|] == queues && subs[..|subs|] == subs;
      assert forall i :: 0 <= i < |subs| ==> subs[i] in subs;
      assert 0 < BlockSize(|f|);
      var _, got, _, copy := Deliver(ms, f, claims, queues);
      delivered, m := got, copy;
    }
  }

  lemma {:induction false} PickedClaimants(subs: seq<Sub>, f: seq<bv8>, claims: nat -> bool, queues: seq<nat>, n: nat)
    requires |f| >= RESPONSE_MIN && n <= |subs| == |queues|
    requires forall i: nat :: i < |subs| ==> queues[i] == subs[i].queue && (claims(i) <==> Claims(subs[i], f[0], f[1]))
    ensures Picked(claims, queues[..n]) == Claimants(subs[..n], f)
  {
    hide Claims;
    if n > 0 {
      PickedClaimants(subs, f, claims, queues, n - 1);
      assert queues[..n][..n - 1] == queues[..n - 1] && subs[..n][..n - 1] == subs[..n - 1];
    }
  }
}
