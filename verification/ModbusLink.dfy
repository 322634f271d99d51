/** The two sides of a Modbus RTU line together: what one builds is what the other's bounded
    buffer slices, whatever pieces it arrives in. */
module ModbusLink {
  import opened ModbusFrames
  import opened ModbusMessages
  import opened ModbusReceiver

  /** The frames of the front of a stream are the first frames of the stream. */
  lemma FirstFrames(side: Side, s: seq<bv8>, all: seq<bv8>, size: nat)
    requires s <= all
    ensures Settle(side, s, size).0 <= Settle(side, all, size).0
  {
    hide Settle;
    SettleInPieces(side, s, all[|s|..], size);
    assert s + all[|s|..] == all;
  }

  /** However much of a master's requests a slave has received, in whatever pieces and with whatever
      noise in front of each, it has sliced the first of them and nothing else; once it has received
      them all, the others are in its buffer, and none is when the buffer is settled. */
  lemma RequestsReceived(rcv: Receiver, noise: seq<seq<bv8>>, rs: seq<Request>)
    requires rcv.Valid() && rcv.side.Slave?
    requires forall r :: r in rs ==> Buildable(r) && |RequestAdu(r)| <= rcv.rxBuf.Length
    requires forall r :: r in rs ==> r.addr == rcv.side.addr || (r.addr == ADDR_BROADCAST && rcv.side.broadcast)
    requires |noise| == |rs| && forall i :: 0 <= i < |rs| ==> Noise(rcv.side, noise[i], rs[i].addr)
    requires rcv.stream <= Woven(noise, Adus(rs), [])
    ensures rcv.sliced <= Adus(rs)
    ensures rcv.stream == Woven(noise, Adus(rs), []) ==>
              rcv.sliced + Settle(rcv.side, rcv.Held(), rcv.rxBuf.Length).0 == Adus(rs)
    ensures rcv.stream == Woven(noise, Adus(rs), [])
            && Settle(rcv.side, rcv.stream, rcv.rxBuf.Length) == (rcv.sliced, rcv.Held()) ==>
              rcv.sliced == Adus(rs) && rcv.Held() == []
  {
    hide Buildable, RequestAdu, Settle, Noise, Woven;
    RequestsArrive(rcv.side.addr, rcv.side.broadcast, noise, rs, rcv.rxBuf.Length);
    FirstFrames(rcv.side, rcv.stream, Woven(noise, Adus(rs), []), rcv.rxBuf.Length);
  }

  /** And the same of slaves' replies and a master. */
  lemma RepliesReceived(rcv: Receiver, noise: seq<seq<bv8>>, rs: seq<Reply>)
    requires rcv.Valid() && rcv.side.Master?
    requires forall r :: r in rs ==> ReplyBuildable(r) && Matching(r) && |ReplyAdu(r)| <= rcv.rxBuf.Length
    requires |noise| == |rs| && forall i :: 0 <= i < |rs| ==> Noise(Master, noise[i], rs[i].addr)
    requires rcv.stream <= Woven(noise, ReplyAdus(rs), [])
    ensures rcv.sliced <= ReplyAdus(rs)
    ensures rcv.stream == Woven(noise, ReplyAdus(rs), [])
            && Settle(rcv.side, rcv.stream, rcv.rxBuf.Length) == (rcv.sliced, rcv.Held()) ==>
              rcv.sliced == ReplyAdus(rs) && rcv.Held() == []
  {
    hide ReplyBuildable, Matching, ReplyAdu, Settle, Noise, Woven;
    RepliesArrive(noise, rs, rcv.rxBuf.Length);
    FirstFrames(rcv.side, rcv.stream, Woven(noise, ReplyAdus(rs), []), rcv.rxBuf.Length);
  }
}
