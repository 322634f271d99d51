/** The bounded receive buffer of a Modbus RTU slave or master: whatever chunks the bytes
    arrive in, the frames sliced out are those of the whole stream. */
module ModbusReceiver {
  import opened ModbusCrc
  import opened ModbusFrames
  import opened Memory

  class Receiver {
    const side: Side
    const rxBuf: array<bv8>
    var rxLen: nat

    // history
    ghost var stream: seq<bv8>
    ghost var sliced: seq<seq<bv8>>

    ghost function Held(): seq<bv8>
      reads this, rxBuf
    {
      rxBuf[..if rxLen <= rxBuf.Length then rxLen else 0]
    }

    /** What has been sliced, and what the buffer still holds, account for the stream. */
    ghost predicate Accounts(held: seq<bv8>)
      reads this
    {
      var (fs, rest) := Settle(side, held, rxBuf.Length);
      Settle(side, stream, rxBuf.Length) == (sliced + fs, rest)
    }

    ghost predicate Valid()
      reads this, rxBuf
    {
      && MinLen(side) < rxBuf.Length
      && rxLen < rxBuf.Length
      && Accounts(Held())
    }

    constructor (side: Side, size: nat)
      requires MinLen(side) < size
      ensures Valid() && fresh(rxBuf) && this.side == side && rxBuf.Length == size
      ensures stream == [] && sliced == []
    {
      this.side := side;
      rxBuf := new bv8[size];
      rxLen := 0;
      stream, sliced := [], [];
      new;
      assert Held() == [] && stream == [];
      NothingHeld(side, rxBuf.Length);
      assert sliced + Settle(side, [], rxBuf.Length).0 == [];
    }

    /** Move what is left behind `front` to the start of the buffer. */
    method Compact(front: nat)
      requires front <= rxLen <= rxBuf.Length
      modifies this`rxLen, rxBuf
      ensures rxLen == old(rxLen) - front && Held() == old(rxBuf[front..rxLen])
    {
      if front > 0 {
        if front < rxLen {
          Copy(rxBuf, 0, rxBuf[front..rxLen]);
        }
        rxLen := rxLen - front;
      }
    }

    /** Take in what read() delivered, slice out complete frames, and keep the rest. */
    method Receive(chunk: seq<bv8>) returns (frames: seq<seq<bv8>>, overflow: bool)
      requires Valid() && |chunk| <= rxBuf.Length - rxLen
      modifies this, rxBuf
      ensures Valid()
      ensures stream == old(stream) + chunk && sliced == old(sliced) + frames
      ensures overflow ==> side.Slave? && rxBuf.Length < 11
      ensures side.Master? || rxBuf.Length >= 11 ==> Settle(side, stream, rxBuf.Length) == (sliced, Held())
    {
      hide CrcOk, Settle;
      ghost var before := Held();
      Copy(rxBuf, rxLen, chunk);
      rxLen := rxLen + |chunk|;
      assert Held() == before + chunk;
      Arrives(before, chunk);
      stream := stream + chunk;
      frames := [];
      var front := 0;
      assert Held() == rxBuf[front..rxLen];
      front, frames := SliceFrames();
      Compact(front);
      overflow := rxLen == rxBuf.Length;
      if overflow {
        FullMeansHopeless(side, Held(), rxBuf.Length);
        SkipOne(side, Held(), rxBuf.Length);
        assert rxBuf[1..rxLen] == Held()[1..];
        Compact(1);
      } else if side.Master? || rxBuf.Length >= 11 {
        StaysUndecided(side, Held(), rxBuf.Length);
        assert sliced + [] == sliced;
      }
    }

    /** Drain a line in calls that read as many bytes as the driver happens to have: whatever
        the cuts, and however small the buffer, the frames sliced are the first of the stream's,
        and the rest of them are still in the buffer; in a master, or a slave with room for a
        read/write header, none is. */
    method Pump(line: seq<bv8>, cuts: seq<nat>) returns (frames: seq<seq<bv8>>, rest: seq<bv8>)
      requires Valid()
      modifies this, rxBuf
      ensures Valid() && |rest| <= |line| && rest == line[|line| - |rest|..]
      ensures stream + rest == old(stream) + line && sliced == old(sliced) + frames
      ensures Settle(side, stream, rxBuf.Length).0 == sliced + Settle(side, Held(), rxBuf.Length).0
      ensures |cuts| > 0 && (side.Master? || rxBuf.Length >= 11) ==> Settle(side, stream, rxBuf.Length) == (sliced, Held())
    {
      frames, rest := [], line;
      ghost var start := stream;
      for i := 0 to |cuts|
        invariant Valid() && |rest| <= |line| && rest == line[|line| - |rest|..]
        invariant stream + rest == start + line && sliced == old(sliced) + frames
        invariant i > 0 && (side.Master? || rxBuf.Length >= 11) ==> Settle(side, stream, rxBuf.Length) == (sliced, Held())
      {
        hide Settle, Accounts;
        var room := rxBuf.Length - rxLen;
        var take := if cuts[i] < room then cuts[i] else room;
        take := if take < |rest| then take else |rest|;
        ghost var was := stream;
        var more, _ := Receive(rest[..take]);
        Regroup(was, rest, take, old(sliced), frames, more);
        SuffixOfSuffix(line, |line| - |rest|, take);
        rest := rest[take..];
        frames := frames + more;
      }
    }

    /** New bytes behind the held ones are new bytes behind the stream. */
    lemma Arrives(held: seq<bv8>, chunk: seq<bv8>)
      requires Accounts(held)
      ensures var (fs, rest) := Settle(side, held + chunk, rxBuf.Length);
              Settle(side, stream + chunk, rxBuf.Length) == (sliced + fs, rest)
    {
      hide Settle;
      SettleInPieces(side, stream, chunk, rxBuf.Length);
      SettleInPieces(side, held, chunk, rxBuf.Length);
      var (fs, rest) := Settle(side, held, rxBuf.Length);
      var (gs, _) := Settle(side, rest + chunk, rxBuf.Length);
      assert sliced + (fs + gs) == sliced + fs + gs;
    }

    /** The slicing loop. */
    method SliceFrames() returns (front: nat, frames: seq<seq<bv8>>)
      requires MinLen(side) < rxBuf.Length && rxLen <= rxBuf.Length && Accounts(rxBuf[..rxLen])
      modifies `sliced
      ensures front <= rxLen && sliced == old(sliced) + frames && Accounts(rxBuf[front..rxLen])
      ensures rxLen - front < MinLen(side) || Decide(side, rxBuf[front..rxLen], rxBuf.Length) == Wait
    {
      hide CrcOk, Settle;
      front, frames := 0, [];
      assert rxBuf[front..rxLen] == rxBuf[..rxLen];
      while rxLen - front >= MinLen(side)
        invariant front <= rxLen && sliced == old(sliced) + frames && Accounts(rxBuf[front..rxLen])
        decreases rxLen - front
      {
        var p := rxBuf[front..rxLen];
        var step, taken := Examine(p);
        if step == 0 {
          break;
        }
        assert p[step..] == rxBuf[front + step..rxLen];
        if taken {
          assert sliced + ([p[..step]] + Settle(side, p[step..], rxBuf.Length).0)
              == sliced + [p[..step]] + Settle(side, p[step..], rxBuf.Length).0;
          frames := frames + [p[..step]];
          sliced := sliced + [p[..step]];
        }
        front := front + step;
      }
    }

    /** One pass of the loop: how far to move, and whether a frame was there. */
    method Examine(p: seq<bv8>) returns (step: nat, taken: bool)
      requires MinLen(side) <= |p| <= rxBuf.Length
      ensures step <= |p| && (step == 0 <==> Decide(side, p, rxBuf.Length) == Wait)
      ensures taken <==> Decide(side, p, rxBuf.Length) == Slice(step) && step > 0
      ensures step > 0 ==>
                var (fs, rest) := Settle(side, p[step..], rxBuf.Length);
                Settle(side, p, rxBuf.Length) == (if taken then [p[..step]] + fs else fs, rest)
    {
      hide CrcOk, Val;
      if !ForUs(side, p) {
        return 1, false;                    // another station's byte
      }
      match FrameLen(side, p)
      case Unsupported => return 1, false;  // no frame starts like this
      case Undecided => return 0, false;    // its length is yet to come
      case Bytes(n) =>
        if n > rxBuf.Length {
          return 1, false;                  // no room for such a frame
        }
        if |p| < n {
          return 0, false;                  // its tail is yet to come
        }
        var ok := CheckCrc(p[..n]);
        if !ok {
          return 1, false;                  // damaged, or no frame at all
        }
        return n, true;
    }
  }

  lemma Regroup(was: seq<bv8>, rest: seq<bv8>, take: nat, fs: seq<seq<bv8>>, gs: seq<seq<bv8>>, more: seq<seq<bv8>>)
    requires take <= |rest|
    ensures was + rest[..take] + rest[take..] == was + rest
    ensures fs + gs + more == fs + (gs + more)
  {}

  lemma SuffixOfSuffix(s: seq<bv8>, i: nat, j: nat)
    requires i + j <= |s|
    ensures s[i..][j..] == s[i + j..]
  {}

  lemma NothingHeld(side: Side, size: nat)
    ensures Settle(side, [], size) == ([], [])
  {}

  /** A full buffer the loop still waits on holds a header whose frame cannot fit. */
  lemma FullMeansHopeless(side: Side, held: seq<bv8>, size: nat)
    requires |held| == size > MinLen(side) && Decide(side, held, size) == Wait
    ensures HopelessHeader(side, held, size)
  {}

  lemma SkipOne(side: Side, held: seq<bv8>, size: nat)
    requires |held| >= MinLen(side) && HopelessHeader(side, held, size)
    ensures Settle(side, held, size) == Settle(side, held[1..], size)
  {}

  lemma StaysUndecided(side: Side, held: seq<bv8>, size: nat)
    requires |held| < MinLen(side) || Decide(side, held, size) == Wait
    requires side.Master? || size >= 11
    ensures Settle(side, held, size) == ([], held)
  {}

  /** A frame that fits the buffer is never what the overflow guard drops: a header it drops
      announces at least thirteen bytes. */
  lemma GuardDropsNoFrameThatFits(side: Side, s: seq<bv8>, size: nat)
    requires |s| >= 11 && MinLen(side) < size && HopelessHeader(side, s, size)
    ensures RequestLen(s).Bytes? && RequestLen(s).n > size
  {}
}
