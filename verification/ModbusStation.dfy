/** A slave on the line: bytes come in, requests are sliced out of them, and each has its one outcome. */
module ModbusStation {
  import opened Options
  import opened ModbusFrames
  import opened ModbusMessages
  import opened ModbusReceiver
  import opened ModbusDispatch
  import opened Pool
  import opened PoolState
  import opened RefMsg

  /** What a frame must be to have come to this outcome, whatever the queues and the pool were like:
      taken by owners of all it touches, or refused for the first reason there is. */
  ghost predicate Deserved(subs: seq<Sub>, f: seq<bv8>, o: Outcome)
    requires WellSliced(f)
  {
    var known, lawful, owned :=
      exists s :: s in subs && s.func == f[1], Lawful(ReadRequest(f)), exists s :: s in subs && Owns(s, f);
    && (o.exc.None? <==> o.takers > 0)
    && (o.exc == Some(ILLEGAL_FUNCTION) <==> !known)
    && (o.exc == Some(ILLEGAL_DATA_VALUE) <==> known && !lawful)
    && (o.exc == Some(ILLEGAL_DATA_ADDR) <==> known && lawful && !owned)
    && (o.exc.None? || o.exc in {Some(DEVICE_FAILURE), Some(DEVICE_BUSY)} <==> lawful && owned)
  }

  lemma ResolvedAsDeserved(subs: seq<Sub>, f: seq<bv8>, view: seq<seq<nat>>, caps: seq<nat>, copied: bool)
    requires WellSliced(f) && |caps| == |view| && forall s :: s in subs ==> s.queue < |view|
    ensures Deserved(subs, f, Resolve(subs, f, view, caps, copied))
  {
    OneOutcome(subs, f, view, caps, copied);
    hide RequestLen, Owns, Lawful, ReadRequest, Owners, Takers, ValueExc;
    OwnersHaveCode(f);
  }

  class Station {
    const rcv: Receiver
    const slave: ModbusDispatch.Slave

    ghost predicate Valid()
      reads this, rcv, rcv.rxBuf
      reads slave, slave.ms, slave.ms.pool, slave.ms.pool.mem, slave.ms.pool.tiers, slave.ms.QueueParts()
    {
      && rcv.Valid() && rcv.side.Slave? && slave.Valid()
      && {rcv as object, rcv.rxBuf} !!
         {slave as object, slave.ms, slave.ms.pool, slave.ms.pool.mem, slave.ms.pool.tiers} + slave.ms.QueueParts()
    }

    constructor (rcv: Receiver, slave: ModbusDispatch.Slave)
      requires rcv.Valid() && rcv.side.Slave? && slave.Valid()
      requires {rcv as object, rcv.rxBuf} !!
               {slave as object, slave.ms, slave.ms.pool, slave.ms.pool.mem, slave.ms.pool.tiers} + slave.ms.QueueParts()
      ensures Valid() && this.rcv == rcv && this.slave == slave
    {
      this.rcv, this.slave := rcv, slave;
    }

    /** slave_rx: take in what came, slice the requests out of it and resolve each, in order. No
        reference is kept, and each request has the outcome it deserves. */
    method Serve(chunk: seq<bv8>) returns (frames: seq<seq<bv8>>, outcomes: seq<Outcome>)
      requires Valid() && |chunk| <= rcv.rxBuf.Length - rcv.rxLen
      modifies rcv, rcv.rxBuf
      modifies slave.ms, slave.ms.pool`history, slave.ms.pool.mem, slave.ms.pool.tiers, slave.ms.QueueParts()
      ensures Valid() && slave.ms.held == old(slave.ms.held)
      ensures rcv.stream == old(rcv.stream) + chunk && rcv.sliced == old(rcv.sliced) + frames
      ensures |outcomes| == |frames|
      ensures forall i :: 0 <= i < |frames| ==> WellSliced(frames[i]) && Deserved(slave.subs, frames[i], outcomes[i])
    {
      hide Receiver.Accounts, Messages.Valid, Messages.View, Deserved, RequestLen, Settle;
      var overflow;
      frames, overflow := rcv.Receive(chunk);
      SlicedAreRequests(rcv, old(rcv.sliced), frames);
      outcomes := [];
      for i := 0 to |frames|
        invariant Valid() && slave.ms.held == old(slave.ms.held)
        invariant rcv.stream == old(rcv.stream) + chunk && rcv.sliced == old(rcv.sliced) + frames
        invariant |outcomes| == i
        invariant forall j :: 0 <= j < i ==> Deserved(slave.subs, frames[j], outcomes[j])
      {
        var o := Resolved(frames[i]);
        outcomes := outcomes + [o];
      }
    }

    method Resolved(f: seq<bv8>) returns (o: Outcome)
      requires slave.Valid() && WellSliced(f)
      modifies slave.ms, slave.ms.pool`history, slave.ms.pool.mem, slave.ms.pool.tiers, slave.ms.QueueParts()
      ensures slave.Valid() && slave.ms.held == old(slave.ms.held) && Deserved(slave.subs, f, o)
    {
      hide PoolOk, Live, Balanced, Messages.Separate, Messages.View, Deserved, RequestLen, Resolve, Exhausted, ReplyAdu;
      ghost var view := slave.ms.View();
      ghost var m, reply;
      ghost var copied := !Exhausted(slave.ms.pool.places, slave.ms.headers.Keys, slave.ms.pool.forbidFallback, BlockSize(|f|));
      ResolvedAsDeserved(slave.subs, f, view, slave.ms.Capacities(), copied);
      o, m, reply := slave.Dispatch(f);
    }
  }

  /** What a slave's receiver slices are requests. */
  lemma SlicedAreRequests(rcv: Receiver, before: seq<seq<bv8>>, frames: seq<seq<bv8>>)
    requires rcv.Valid() && rcv.side.Slave? && rcv.sliced == before + frames
    ensures forall i :: 0 <= i < |frames| ==> WellSliced(frames[i])
  {
    hide RequestLen, Settle;
    SlicesAreFrames(rcv.side, rcv.stream, rcv.rxBuf.Length);
    var all := Settle(rcv.side, rcv.stream, rcv.rxBuf.Length).0;
    forall i | 0 <= i < |frames|
      ensures WellSliced(frames[i])
    {
      assert frames[i] == all[|before| + i] && all[|before| + i] in all;
    }
  }
}
