/** The streaming context: whatever the chunks, the digest is that of the whole message. */
module Sha256Stream {
  import opened Sha256
  import opened Memory

  const TWO_64 := 0x1_0000_0000_0000_0000

  /** nx_sha256_transform. */
  method Transform(state: array<bv32>, block: seq<bv8>)
    requires state.Length == 8 && |block| == BLOCK
    modifies state
    ensures state[..] == Compress(old(state[..]), block)
  {
    hide Add, Rounds, W;
    ghost var h := state[..];
    var w := Schedule(block);
    var v := AllRounds(Vars(state[0], state[1], state[2], state[3], state[4], state[5], state[6], state[7]), block, w);
    AddCommutes(v.a, h[0]);
    AddCommutes(v.b, h[1]);
    AddCommutes(v.c, h[2]);
    AddCommutes(v.d, h[3]);
    AddCommutes(v.e, h[4]);
    AddCommutes(v.f, h[5]);
    AddCommutes(v.g, h[6]);
    AddCommutes(v.h, h[7]);
    state[0], state[1], state[2], state[3] := Add(state[0], v.a), Add(state[1], v.b), Add(state[2], v.c), Add(state[3], v.d);
    state[4], state[5], state[6], state[7] := Add(state[4], v.e), Add(state[5], v.f), Add(state[6], v.g), Add(state[7], v.h);
  }

  /** The message schedule, filled in from the front. */
  method Schedule(block: seq<bv8>) returns (w: array<bv32>)
    requires |block| == BLOCK
    ensures fresh(w) && w.Length == 64 && forall t :: 0 <= t < 64 ==> w[t] == W(block, t)
  {
    hide SmallSigma0, SmallSigma1, Load, Add4;
    w := new bv32[64];
    for i := 0 to 16
      invariant forall t :: 0 <= t < i ==> w[t] == W(block, t)
    {
      w[i] := Load(block[i * 4], block[i * 4 + 1], block[i * 4 + 2], block[i * 4 + 3]);
    }
    for i := 16 to 64
      invariant forall t :: 0 <= t < i ==> w[t] == W(block, t)
    {
      var s0 := SmallSigma0(w[i - 15]);
      var s1 := SmallSigma1(w[i - 2]);
      Add4Reverses(w[i - 16], s0, w[i - 7], s1);
      w[i] := Add4(w[i - 16], s0, w[i - 7], s1);
    }
  }

  /** The 64 rounds on the working variables. */
  method AllRounds(start: Vars, block: seq<bv8>, w: array<bv32>) returns (v: Vars)
    requires |block| == BLOCK && w.Length == 64 && forall t :: 0 <= t < 64 ==> w[t] == W(block, t)
    ensures v == Rounds(start, block, 64)
  {
    hide Ch, Maj, BigSigma0, BigSigma1, W, Add;
    var a, b, c, d := start.a, start.b, start.c, start.d;
    var e, f, g, h := start.e, start.f, start.g, start.h;
    for i := 0 to 64
      invariant Vars(a, b, c, d, e, f, g, h) == Rounds(start, block, i)
    {
      var s1 := BigSigma1(e);
      var ch := Ch(e, f, g);
      var temp1 := Add(Add(Add(Add(h, s1), ch), K(i)), w[i]);
      var s0 := BigSigma0(a);
      var maj := Maj(a, b, c);
      var temp2 := Add(s0, maj);
      h := g;
      g := f;
      f := e;
      e := Add(d, temp1);
      d := c;
      c := b;
      b := a;
      a := Add(temp1, temp2);
    }
    v := Vars(a, b, c, d, e, f, g, h);
  }

  class Context {
    const state: array<bv32>
    const buffer: array<bv8>
    var bufferLen: nat
    var bitCount: nat

    // everything fed since init, padding included
    ghost var fed: seq<bv8>

    ghost predicate Valid()
      reads this, state, buffer
    {
      && (state as object) != buffer && state.Length == 8 && buffer.Length == BLOCK && bufferLen < BLOCK
      && state[..] == Absorbed(IV, fed) && buffer[..bufferLen] == Rest(fed)
    }

    /** The length counted is that of what was fed, on a 64-bit counter. */
    ghost predicate Counted()
      reads this
    {
      bitCount == 8 * |fed| % TWO_64
    }

    constructor ()
      ensures Valid() && Counted() && fed == [] && fresh(state) && fresh(buffer)
    {
      state := new bv32[8](i requires 0 <= i < 8 => IV[i]);
      buffer := new bv8[BLOCK];
      bufferLen, bitCount, fed := 0, 0, [];
      new;
      assert state[..] == IV;
    }

    /** With p still to be taken in, the context stands for all of `goal`. */
    ghost predicate Pending(p: seq<bv8>, goal: seq<bv8>)
      reads this, state, buffer
    {
      && (state as object) != buffer && state.Length == 8 && buffer.Length == BLOCK && bufferLen < BLOCK
      && Absorbed(state[..], buffer[..bufferLen] + p) == Absorbed(IV, goal)
      && Rest(buffer[..bufferLen] + p) == Rest(goal)
    }

    /** nx_sha256_update: top up the staged block, take whole blocks straight from the input,
        and stage what is left. */
    method Update(data: seq<bv8>)
      requires Valid()
      modifies this, state, buffer
      ensures Valid() && fed == old(fed) + data
      ensures bitCount == (old(bitCount) + 8 * |data|) % TWO_64
    {
      hide Compress, Absorbed, Rest;
      bitCount := (bitCount + 8 * |data|) % TWO_64;
      var p := data;
      fed := fed + data;
      AbsorbInPieces(IV, old(fed), data);
      if bufferLen > 0 {
        p := TopUp(p);
      }
      while |p| >= BLOCK
        invariant Pending(p, fed) && (bufferLen == 0 || p == []) && fed == old(fed) + data
        invariant bitCount == (old(bitCount) + 8 * |data|) % TWO_64
        decreases |p|
      {
        assert buffer[..bufferLen] + p == p && buffer[..bufferLen] + p[BLOCK..] == p[BLOCK..];
        AbsorbBlock(state[..], p);
        Transform(state, p[..BLOCK]);
        p := p[BLOCK..];
      }
      if |p| > 0 {
        Copy(buffer, 0, p);
        bufferLen := |p|;
        assert buffer[..bufferLen] + [] == p;
      }
      SettledAlready(state[..], buffer[..bufferLen]);
      assert buffer[..bufferLen] + [] == buffer[..bufferLen];
    }

    /** Fill the staged block as far as the input goes, and absorb it when it is full. */
    method TopUp(data: seq<bv8>) returns (p: seq<bv8>)
      requires Pending(data, fed) && bufferLen > 0
      modifies this`bufferLen, state, buffer
      ensures Pending(p, fed) && (bufferLen == 0 || p == [])
    {
      hide Compress, Absorbed, Rest;
      var need := BLOCK - bufferLen;
      var take := if |data| < need then |data| else need;
      ghost var all := buffer[..bufferLen] + data;
      Copy(buffer, bufferLen, data[..take]);
      bufferLen := bufferLen + take;
      p := data[take..];
      assert buffer[..bufferLen] + p == all;
      if bufferLen == BLOCK {
        assert all[..BLOCK] == buffer[..] && all[BLOCK..] == p;
        AbsorbBlock(state[..], all);
        Transform(state, buffer[..]);
        bufferLen := 0;
        assert buffer[..bufferLen] + p == p;
      }
    }

    /** nx_sha256_final: one 0x80 byte, zeros until eight bytes are left in the block, and the
        length in bits; then the state, big-endian. */
    method Final() returns (digest: array<bv8>)
      requires Valid() && Counted()
      modifies this, state, buffer
      ensures fresh(digest) && digest.Length == 32
      ensures 8 * |old(fed)| < TWO_64 ==> digest[..] == Digest(old(fed))
    {
      hide Compress, Absorbed, Rest, ZeroCount, Stored, Zeros, Len64;
      ghost var msg := fed;
      var count := bitCount;
      Update([0x80]);
      bitCount := count;
      PadZeros(count, msg);
      var bytes := LengthBytes(count);
      Update(bytes);
      digest := StoreState();
    }

    /** Zeros, one byte at a time, until eight bytes are left in the block. */
    method PadZeros(count: nat, ghost msg: seq<bv8>)
      requires Valid() && bitCount == count && fed == msg + [0x80]
      modifies this, state, buffer
      ensures Valid() && bitCount == count && fed == msg + [0x80] + Zeros(ZeroCount(|msg|))
    {
      hide Compress, Absorbed, Rest, ZeroCount;
      ghost var zeros := 0;
      RestLength(fed);
      assert fed == msg + [0x80] + Zeros(0);
      while bufferLen != BLOCK - 8
        invariant Valid() && bitCount == count && zeros <= ZeroCount(|msg|) && fed == msg + [0x80] + Zeros(zeros)
        invariant bufferLen == (|msg| + 1 + zeros) % BLOCK
        decreases ZeroCount(|msg|) - zeros
      {
        FewestZeros(|msg|, zeros);
        Update([0]);
        bitCount := count;
        assert Zeros(zeros) + [0] == Zeros(zeros + 1);
        zeros := zeros + 1;
        RestLength(fed);
        assert fed == msg + [0x80] + Zeros(zeros);
      }
      FewestZeros(|msg|, zeros);
    }

    lemma RestLength(s: seq<bv8>)
      ensures |Rest(s)| == |s| % BLOCK
    {}

    method StoreState() returns (digest: array<bv8>)
      requires state.Length == 8
      ensures fresh(digest) && digest.Length == 32 && digest[..] == Stored(state[..])
    {
      digest := new bv8[32];
      for i := 0 to 8
        invariant digest[..4 * i] == Stored(state[..i])
      {
        var x := state[i];
        digest[i * 4], digest[i * 4 + 1] := Byte3(x), Byte2(x);
        digest[i * 4 + 2], digest[i * 4 + 3] := Byte1(x), Byte0(x);
        assert state[..i + 1][..i] == state[..i];
        assert digest[..4 * (i + 1)] == digest[..4 * i] + [Byte3(x), Byte2(x), Byte1(x), Byte0(x)];
      }
      assert state[..8] == state[..] && digest[..32] == digest[..];
    }
  }

  /** The length trailer: bit_count shifted down byte by byte. */
  method LengthBytes(n: nat) returns (bytes: seq<bv8>)
    requires n < TWO_64
    ensures bytes == Len64(n)
  {
    bytes := [];
    for i := 0 to 8
      invariant bytes == Len64(n)[..i]
    {
      var byte := (n / PLACES[i] % 256) as bv8;
      assert byte == Len64(n)[i];
      hide Len64;
      bytes := bytes + [byte];
    }
  }

  lemma SettledAlready(h: seq<bv32>, s: seq<bv8>)
    requires |h| == 8 && |s| < BLOCK
    ensures Absorbed(h, s) == h && Rest(s) == s
  {}

  /** The loop stops at the right count and not before. */
  lemma FewestZeros(length: nat, zeros: nat)
    requires zeros <= ZeroCount(length)
    ensures (length + 1 + zeros) % BLOCK == BLOCK - 8 <==> zeros == ZeroCount(length)
  {}

  /** The whole message in one call, or in chunks: the same digest. */
  method HashChunks(chunks: seq<seq<bv8>>) returns (digest: array<bv8>)
    requires 8 * |Joined(chunks)| < TWO_64
    ensures digest[..] == Digest(Joined(chunks))
  {
    hide Digest, Absorbed, Rest;
    var ctx := new Context();
    assert chunks[..|chunks|] == chunks;
    for i := 0 to |chunks|
      invariant ctx.Valid() && ctx.Counted() && ctx.fed == Joined(chunks[..i]) && fresh(ctx) && fresh(ctx.state) && fresh(ctx.buffer)
    {
      assert chunks[..i + 1][..i] == chunks[..i];
      StillCounted(|ctx.fed|, |chunks[i]|);
      ctx.Update(chunks[i]);
    }
    digest := ctx.Final();
  }

  lemma StillCounted(a: nat, b: nat)
    ensures (8 * a % TWO_64 + 8 * b) % TWO_64 == 8 * (a + b) % TWO_64
  {}

  function Joined(chunks: seq<seq<bv8>>): seq<bv8> {
    if chunks == [] then [] else Joined(chunks[..|chunks| - 1]) + chunks[|chunks| - 1]
  }
}
