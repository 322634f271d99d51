/** What a pool's table and bitmaps mean: live blocks, free counts, and how one bit moves
    them. */
module PoolState {
  import opened Bitmap
  import opened PoolLayout

  function BlockAt(t: Tier, k: nat): nat {
    t.base + k * t.blockSize
  }

  function BitsOf(t: Tier, m: seq<bv8>): (bits: seq<bool>)
    requires t.used + BitmapBytes(t.blockCount) <= |m|
    ensures |bits| == t.blockCount
  {
    Bits(m, t.used, t.blockCount)
  }

  predicate MapsInside(ts: seq<Tier>, m: seq<bv8>) {
    forall i :: 0 <= i < |ts| ==> ts[i].used + BitmapBytes(ts[i].blockCount) <= |m|
  }

  /** Block k of tier i is handed out. */
  predicate InUse(ts: seq<Tier>, m: seq<bv8>, i: nat, k: nat)
    requires MapsInside(ts, m)
  {
    i < |ts| && k < ts[i].blockCount && BitsOf(ts[i], m)[k]
  }

  /** The addresses of the blocks handed out. */
  ghost function Live(ts: seq<Tier>, m: seq<bv8>): set<nat>
    requires MapsInside(ts, m)
  {
    set i: nat, k: nat | 0 <= i < |ts| && 0 <= k < ts[i].blockCount && InUse(ts, m, i, k) :: BlockAt(ts[i], k)
  }

  predicate TierCounted(t: Tier, m: seq<bv8>) {
    && t.used + BitmapBytes(t.blockCount) <= |m|
    && t.freeCount == Clear(BitsOf(t, m))
    && t.hint <= t.blockCount
  }

  predicate Counted(ts: seq<Tier>, m: seq<bv8>) {
    forall i :: 0 <= i < |ts| ==> TierCounted(ts[i], m)
  }

  function FreeCounts(ts: seq<Tier>): (counts: seq<nat>)
    ensures |counts| == |ts|
  {
    seq(|ts|, i requires 0 <= i < |ts| => ts[i].freeCount)
  }

  /** The lowest count of tier i among the recorded ones. */
  function Trough(history: seq<seq<nat>>, i: nat): (low: nat)
    requires |history| > 0 && forall h :: h in history ==> i < |h|
  {
    var last := history[|history| - 1][i];
    if |history| == 1 then last
    else var low := Trough(history[..|history| - 1], i); if last < low then last else low
  }

  /** It is one of them and no more than any of them. */
  lemma {:induction false} TroughIsMinimum(history: seq<seq<nat>>, i: nat)
    requires |history| > 0 && forall h :: h in history ==> i < |h|
    ensures forall h :: h in history ==> Trough(history, i) <= h[i]
    ensures exists h :: h in history && h[i] == Trough(history, i)
  {
    if |history| > 1 {
      var front := history[..|history| - 1];
      TroughIsMinimum(front, i);
      assert history == front + [history[|history| - 1]];
      var h :| h in front && h[i] == Trough(front, i);
      assert h in history && history[|history| - 1] in history;
    } else {
      assert history[0] in history;
    }
  }

  // ---------------------------------------------------------------- blocks

  lemma BlockInside(t: Tier, k: nat)
    requires k < t.blockCount && t.end == t.base + t.blockSize * t.blockCount
    ensures t.base <= BlockAt(t, k) && BlockAt(t, k) + t.blockSize <= t.end
  {
    Times(k + 1, t.blockCount, t.blockSize);
  }

  lemma BlocksDiffer(t: Tier, k: nat, l: nat)
    requires k < l
    ensures BlockAt(t, k) + t.blockSize <= BlockAt(t, l)
  {
    Times(k + 1, l, t.blockSize);
  }

  /** Blocks of a placed pool share no byte. */
  lemma BlocksDisjoint(ts: seq<Tier>, raw: nat, tableTop: nat, metaTop: nat, size: nat, i: nat, k: nat, j: nat, l: nat)
    requires Placed(ts, raw, tableTop, metaTop, size)
    requires i < |ts| && k < ts[i].blockCount && j < |ts| && l < ts[j].blockCount && (i != j || k != l)
    ensures || BlockAt(ts[i], k) + ts[i].blockSize <= BlockAt(ts[j], l)
            || BlockAt(ts[j], l) + ts[j].blockSize <= BlockAt(ts[i], k)
  {
    hide BlockAt;
    assert TierPlaced(ts[i], raw, tableTop, metaTop, size) && TierPlaced(ts[j], raw, tableTop, metaTop, size);
    if i == j {
      if k < l {
        BlocksDiffer(ts[i], k, l);
      } else {
        BlocksDiffer(ts[i], l, k);
      }
    } else {
      BlockInside(ts[i], k);
      BlockInside(ts[j], l);
      assert Apart(ts[i], ts[j]);
    }
  }

  /** A block is aligned, and inside the buffer behind all bookkeeping. */
  lemma BlockPlaced(t: Tier, k: nat, raw: nat, tableTop: nat, metaTop: nat, size: nat)
    requires TierPlaced(t, raw, tableTop, metaTop, size) && k < t.blockCount
    ensures BlockAt(t, k) % ALIGN == 0
    ensures raw + metaTop <= BlockAt(t, k) && BlockAt(t, k) + t.blockSize <= raw + size
  {
    BlockInside(t, k);
    MultipleTimes(t.blockSize, k);
    SumAligned(t.base, t.blockSize * k);
  }

  /** What the division of free() recovers. */
  lemma IndexOfBlock(t: Tier, p: nat)
    requires t.base <= p < t.end && t.end == t.base + t.blockSize * t.blockCount && t.blockSize > 0
    ensures (p - t.base) % t.blockSize == 0 ==>
              (p - t.base) / t.blockSize < t.blockCount && p == BlockAt(t, (p - t.base) / t.blockSize)
    ensures forall k: nat {:trigger BlockAt(t, k)} :: p == BlockAt(t, k) ==> (p - t.base) % t.blockSize == 0 && (p - t.base) / t.blockSize == k
  {
    var q, r := (p - t.base) / t.blockSize, (p - t.base) % t.blockSize;
    assert p - t.base == q * t.blockSize + r;
    if q >= t.blockCount {
      Times(t.blockCount, q, t.blockSize);
      assert false;
    }
    forall k: nat | p == BlockAt(t, k)
      ensures r == 0 && q == k
    {
      DivExact(k, t.blockSize);
    }
  }

  lemma DivExact(k: nat, d: nat)
    requires d > 0
    ensures k * d % d == 0 && k * d / d == k
  {
    var q, r := k * d / d, k * d % d;
    assert k * d == q * d + r;
    if q < k {
      Times(q + 1, k, d);
    } else if q > k {
      Times(k + 1, q, d);
    }
  }

  // ---------------------------------------------------------------- one bit

  predicate SamePlace(t: Tier, u: Tier) {
    t.base == u.base && t.end == u.end && t.blockSize == u.blockSize && t.blockCount == u.blockCount && t.used == u.used
  }

  predicate SamePlaces(ts: seq<Tier>, places: seq<Tier>) {
    |ts| == |places| && forall i :: 0 <= i < |ts| ==> SamePlace(ts[i], places[i])
  }

  /** The buffer with the bit of block k of tier t rewritten. */
  function Marked(t: Tier, m: seq<bv8>, k: nat, used: bool): (m': seq<bv8>)
    requires k < t.blockCount && t.used + BitmapBytes(t.blockCount) <= |m|
    ensures |m'| == |m|
  {
    var at := t.used + k / 8;
    m[at := if used then With(m[at], k % 8) else Without(m[at], k % 8)]
  }

  lemma PlacedInside(ts: seq<Tier>, raw: nat, tableTop: nat, metaTop: nat, m: seq<bv8>)
    requires Placed(ts, raw, tableTop, metaTop, |m|)
    ensures MapsInside(ts, m)
  {}

  lemma PlacedStays(ts: seq<Tier>, i: nat, t: Tier, raw: nat, tableTop: nat, metaTop: nat, size: nat)
    requires Placed(ts, raw, tableTop, metaTop, size) && i < |ts| && SamePlace(ts[i], t)
    ensures Placed(ts[i := t], raw, tableTop, metaTop, size)
  {}

  /** A bitmap rewritten for one tier leaves the other bitmaps alone. */
  lemma MarkedBits(ts: seq<Tier>, m: seq<bv8>, i: nat, k: nat, used: bool, raw: nat, tableTop: nat, metaTop: nat)
    requires Placed(ts, raw, tableTop, metaTop, |m|) && MapsInside(ts, m) && i < |ts| && k < ts[i].blockCount
    ensures BitsOf(ts[i], Marked(ts[i], m, k, used)) == BitsOf(ts[i], m)[k := used]
    ensures forall j :: 0 <= j < |ts| && j != i ==> BitsOf(ts[j], Marked(ts[i], m, k, used)) == BitsOf(ts[j], m)
  {
    hide Bits, With, Without, TierPlaced;
    var m' := Marked(ts[i], m, k, used);
    var at := ts[i].used + k / 8;
    BitsUpdate(m, ts[i].used, ts[i].blockCount, k, m'[at], used);
    forall j | 0 <= j < |ts| && j != i
      ensures BitsOf(ts[j], m') == BitsOf(ts[j], m)
    {
      assert Apart(ts[i], ts[j]);
      BitsFrame(m, m', ts[j].used, ts[j].blockCount);
    }
  }

  /** Handing out a block makes exactly it live; taking it back, exactly it no longer. */
  lemma MarkedLive(ts: seq<Tier>, m: seq<bv8>, i: nat, t: Tier, k: nat, used: bool, raw: nat, tableTop: nat, metaTop: nat)
    requires Placed(ts, raw, tableTop, metaTop, |m|) && MapsInside(ts, m) && i < |ts| && k < ts[i].blockCount
    requires SamePlace(ts[i], t)
    ensures MapsInside(ts[i := t], Marked(ts[i], m, k, used))
    ensures Live(ts[i := t], Marked(ts[i], m, k, used))
         == if used then Live(ts, m) + {BlockAt(ts[i], k)} else Live(ts, m) - {BlockAt(ts[i], k)}
  {
    hide Bits, BlockAt, Marked, BitmapBytes, TierPlaced, Apart;
    var m', ts' := Marked(ts[i], m, k, used), ts[i := t];
    MarkedBits(ts, m, i, k, used, raw, tableTop, metaTop);
    forall j, l | 0 <= j < |ts| && 0 <= l < ts[j].blockCount
      ensures InUse(ts', m', j, l) <==> if j == i && l == k then used else InUse(ts, m, j, l)
      ensures BlockAt(ts'[j], l) == BlockAt(ts[j], l)
    {
      SameBlock(ts'[j], ts[j], l);
      assert ts'[j].used == ts[j].used && ts'[j].blockCount == ts[j].blockCount;
    }
    forall j: nat, l: nat | j < |ts| && l < ts[j].blockCount && (j != i || l != k)
      ensures BlockAt(ts[j], l) != BlockAt(ts[i], k)
    {
      DifferentBlocks(ts, raw, tableTop, metaTop, |m|, j, l, i, k);
    }
    LiveMoves(ts, ts', m, m', i, k, used);
  }

  /** A block's address is live exactly when its bit is set. */
  lemma LiveMeansInUse(ts: seq<Tier>, m: seq<bv8>, raw: nat, tableTop: nat, metaTop: nat, i: nat, k: nat)
    requires Placed(ts, raw, tableTop, metaTop, |m|) && MapsInside(ts, m) && i < |ts| && k < ts[i].blockCount
    ensures BlockAt(ts[i], k) in Live(ts, m) <==> BitsOf(ts[i], m)[k]
  {
    hide BlockAt, Bits, BitmapBytes, Placed;
    var p := BlockAt(ts[i], k);
    assert InUse(ts, m, i, k) <==> BitsOf(ts[i], m)[k];
    if p in Live(ts, m) {
      var j: nat, l: nat :| j < |ts| && l < ts[j].blockCount && InUse(ts, m, j, l) && p == BlockAt(ts[j], l);
      if j != i || l != k {
        DifferentBlocks(ts, raw, tableTop, metaTop, |m|, i, k, j, l);
      }
    }
  }

  lemma SameBlock(t: Tier, u: Tier, k: nat)
    requires SamePlace(t, u) || t == u
    ensures BlockAt(t, k) == BlockAt(u, k)
  {}

  lemma DifferentBlocks(ts: seq<Tier>, raw: nat, tableTop: nat, metaTop: nat, size: nat, i: nat, k: nat, j: nat, l: nat)
    requires Placed(ts, raw, tableTop, metaTop, size)
    requires i < |ts| && k < ts[i].blockCount && j < |ts| && l < ts[j].blockCount && (i != j || k != l)
    ensures BlockAt(ts[i], k) != BlockAt(ts[j], l)
  {
    hide BlockAt, Apart;
    assert TierPlaced(ts[i], raw, tableTop, metaTop, size) && TierPlaced(ts[j], raw, tableTop, metaTop, size);
    BlocksDisjoint(ts, raw, tableTop, metaTop, size, i, k, j, l);
  }

  lemma LiveMoves(ts: seq<Tier>, ts': seq<Tier>, m: seq<bv8>, m': seq<bv8>, i: nat, k: nat, used: bool)
    requires MapsInside(ts, m) && MapsInside(ts', m') && |ts| == |ts'| && i < |ts| && k < ts[i].blockCount
    requires forall j :: 0 <= j < |ts| ==> ts'[j].blockCount == ts[j].blockCount
    requires forall j: nat, l: nat :: j < |ts| && l < ts[j].blockCount ==>
               (InUse(ts', m', j, l) <==> if j == i && l == k then used else InUse(ts, m, j, l))
    requires forall j: nat, l: nat :: j < |ts| && l < ts[j].blockCount ==> BlockAt(ts'[j], l) == BlockAt(ts[j], l)
    requires forall j: nat, l: nat :: j < |ts| && l < ts[j].blockCount && (j != i || l != k) ==> BlockAt(ts[j], l) != BlockAt(ts[i], k)
    ensures Live(ts', m') == if used then Live(ts, m) + {BlockAt(ts[i], k)} else Live(ts, m) - {BlockAt(ts[i], k)}
  {}

  // ---------------------------------------------------------------- the invariant

  /** The table's low-water marks are the lowest of the recorded free counts. */
  ghost predicate Recorded(ts: seq<Tier>, history: seq<seq<nat>>) {
    && |history| > 0 && history[|history| - 1] == FreeCounts(ts)
    && (forall h :: h in history ==> |h| == |ts|)
    && (forall i :: 0 <= i < |ts| ==> ts[i].minFree == Trough(history, i))
  }

  /** Disjoint and aligned tiers in ascending size, counts that count the clear bits, and
      low-water marks that remember. */
  ghost predicate PoolOk(ts: seq<Tier>, m: seq<bv8>, history: seq<seq<nat>>, raw: nat, tableTop: nat, metaTop: nat) {
    Placed(ts, raw, tableTop, metaTop, |m|) && Sorted(ts) && Counted(ts, m) && Recorded(ts, history)
  }

  /** A table entry after one of its blocks changed hands. */
  predicate Follows(t: Tier, t': Tier, used: bool) {
    && SamePlace(t, t') && t'.hint <= t'.blockCount
    && t'.freeCount == t.freeCount + (if used then -1 else 1)
    && t'.minFree == if t'.freeCount < t.minFree then t'.freeCount else t.minFree
  }

  /** Handing out or taking back one block keeps the whole invariant and moves exactly that
      block in or out of the live ones. */
  lemma StepKeeps(ts: seq<Tier>, m: seq<bv8>, history: seq<seq<nat>>, raw: nat, tableTop: nat, metaTop: nat,
                  i: nat, k: nat, used: bool, t': Tier)
    requires PoolOk(ts, m, history, raw, tableTop, metaTop) && MapsInside(ts, m)
    requires i < |ts| && k < ts[i].blockCount && BitsOf(ts[i], m)[k] != used && Follows(ts[i], t', used)
    ensures var ts', m' := ts[i := t'], Marked(ts[i], m, k, used);
            && PoolOk(ts', m', history + [FreeCounts(ts')], raw, tableTop, metaTop) && MapsInside(ts', m')
            && Live(ts', m') == (if used then Live(ts, m) + {BlockAt(ts[i], k)} else Live(ts, m) - {BlockAt(ts[i], k)})
            && (used <==> BlockAt(ts[i], k) !in Live(ts, m))
  {
    hide Marked, BlockAt, BitmapBytes, Bits, Live, Placed, Recorded, Clear;
    LiveMeansInUse(ts, m, raw, tableTop, metaTop, i, k);
    var ts', m' := ts[i := t'], Marked(ts[i], m, k, used);
    PlacedStays(ts, i, t', raw, tableTop, metaTop, |m|);
    MarkedBits(ts, m, i, k, used, raw, tableTop, metaTop);
    MarkedLive(ts, m, i, t', k, used, raw, tableTop, metaTop);
    ClearUpdate(BitsOf(ts[i], m), k, used);
    RecordedStep(ts, history, i, t', used);
  }

  lemma RecordedStep(ts: seq<Tier>, history: seq<seq<nat>>, i: nat, t': Tier, used: bool)
    requires Recorded(ts, history) && i < |ts| && Follows(ts[i], t', used)
    ensures Recorded(ts[i := t'], history + [FreeCounts(ts[i := t'])])
  {}

  lemma InUseIsLive(ts: seq<Tier>, m: seq<bv8>, i: nat, k: nat)
    requires MapsInside(ts, m) && InUse(ts, m, i, k)
    ensures BlockAt(ts[i], k) in Live(ts, m)
  {}

  /** With nothing live every tier is all free. */
  lemma NothingLiveMeansAllFree(ts: seq<Tier>, m: seq<bv8>, history: seq<seq<nat>>, raw: nat, tableTop: nat, metaTop: nat)
    requires PoolOk(ts, m, history, raw, tableTop, metaTop) && MapsInside(ts, m) && Live(ts, m) == {}
    ensures forall i :: 0 <= i < |ts| ==> ts[i].freeCount == ts[i].blockCount
  {
    hide Placed, Sorted, Recorded, Bits, BitmapBytes, BlockAt, Clear;
    forall i: nat | i < |ts|
      ensures ts[i].freeCount == ts[i].blockCount
    {
      assert TierCounted(ts[i], m);
      ClearExists(BitsOf(ts[i], m));
      forall k: nat | k < ts[i].blockCount
        ensures !BitsOf(ts[i], m)[k]
      {
        if InUse(ts, m, i, k) {
          InUseIsLive(ts, m, i, k);
          assert false;
        }
      }
    }
  }

  /** Whatever clients write into blocks, the bookkeeping stands. */
  lemma ClientWritesKeep(ts: seq<Tier>, m: seq<bv8>, m': seq<bv8>, history: seq<seq<nat>>, raw: nat, tableTop: nat, metaTop: nat)
    requires PoolOk(ts, m, history, raw, tableTop, metaTop) && MapsInside(ts, m)
    requires |m'| == |m| && m'[..metaTop] == m[..metaTop]
    ensures PoolOk(ts, m', history, raw, tableTop, metaTop) && MapsInside(ts, m') && Live(ts, m') == Live(ts, m)
  {
    hide Sorted, Recorded, Bits, BitmapBytes, BlockAt, Clear, Apart, TierPlaced, Live;
    forall i | 0 <= i < |ts|
      ensures BitsOf(ts[i], m') == BitsOf(ts[i], m) && TierCounted(ts[i], m')
    {
      assert TierPlaced(ts[i], raw, tableTop, metaTop, |m|) && TierCounted(ts[i], m);
      BitmapBelow(ts[i], m, m', raw, tableTop, metaTop);
    }
    SameBitsSameLive(ts, m, m');
  }

  lemma BitmapBelow(t: Tier, m: seq<bv8>, m': seq<bv8>, raw: nat, tableTop: nat, metaTop: nat)
    requires TierPlaced(t, raw, tableTop, metaTop, |m|) && metaTop <= |m|
    requires |m'| == |m| && m'[..metaTop] == m[..metaTop]
    ensures t.used + BitmapBytes(t.blockCount) <= |m| && BitsOf(t, m') == BitsOf(t, m)
  {}

  lemma SameBitsSameLive(ts: seq<Tier>, m: seq<bv8>, m': seq<bv8>)
    requires MapsInside(ts, m) && MapsInside(ts, m')
    requires forall i :: 0 <= i < |ts| ==> BitsOf(ts[i], m') == BitsOf(ts[i], m)
    ensures Live(ts, m') == Live(ts, m)
  {}

  // ---------------------------------------------------------------- pointers

  /** p is where some block starts. */
  predicate Starts(ts: seq<Tier>, p: nat, i: nat, k: nat) {
    i < |ts| && k < ts[i].blockCount && p == BlockAt(ts[i], k)
  }

  ghost predicate IsBlock(ts: seq<Tier>, p: nat) {
    exists i: nat, k: nat :: Starts(ts, p, i, k)
  }

  predicate Within(t: Tier, p: nat) {
    t.base <= p < t.end
  }

  lemma StartsWithin(ts: seq<Tier>, raw: nat, tableTop: nat, metaTop: nat, size: nat, p: nat, j: nat, l: nat)
    requires Placed(ts, raw, tableTop, metaTop, size) && Starts(ts, p, j, l)
    ensures Within(ts[j], p)
  {}

  /** No byte belongs to two tiers. */
  lemma OneTier(ts: seq<Tier>, raw: nat, tableTop: nat, metaTop: nat, size: nat, p: nat, i: nat, j: nat)
    requires Placed(ts, raw, tableTop, metaTop, size) && i < |ts| && j < |ts| && Within(ts[i], p) && Within(ts[j], p)
    ensures i == j
  {}

  /** Inside a tier's region, the remainder tells block starts from other bytes. */
  lemma WithinTier(ts: seq<Tier>, m: seq<bv8>, raw: nat, tableTop: nat, metaTop: nat, i: nat, p: nat)
    requires Placed(ts, raw, tableTop, metaTop, |m|) && MapsInside(ts, m) && i < |ts| && Within(ts[i], p)
    ensures ts[i].blockSize > 0
    ensures var k := (p - ts[i].base) / ts[i].blockSize;
            && (IsBlock(ts, p) <==> (p - ts[i].base) % ts[i].blockSize == 0)
            && (IsBlock(ts, p) ==> Starts(ts, p, i, k) && (p in Live(ts, m) <==> BitsOf(ts[i], m)[k]))
            && (!IsBlock(ts, p) ==> p !in Live(ts, m))
  {
    hide BlockAt, Bits, BitmapBytes, Live;
    assert TierPlaced(ts[i], raw, tableTop, metaTop, |m|);
    IndexOfBlock(ts[i], p);
    var k := (p - ts[i].base) / ts[i].blockSize;
    if (p - ts[i].base) % ts[i].blockSize == 0 {
      assert Starts(ts, p, i, k);
      LiveMeansInUse(ts, m, raw, tableTop, metaTop, i, k);
    } else {
      forall j: nat, l: nat
        ensures !Starts(ts, p, j, l)
      {
        if Starts(ts, p, j, l) {
          StartsWithin(ts, raw, tableTop, metaTop, |m|, p, j, l);
          OneTier(ts, raw, tableTop, metaTop, |m|, p, i, j);
          assert false;
        }
      }
      if p in Live(ts, m) {
        LiveAreBlocks(ts, m, p);
      }
    }
  }

  lemma LiveAreBlocks(ts: seq<Tier>, m: seq<bv8>, p: nat)
    requires MapsInside(ts, m) && p in Live(ts, m)
    ensures IsBlock(ts, p)
  {
    hide BlockAt, Bits, BitmapBytes;
    var i: nat, k: nat :| i < |ts| && k < ts[i].blockCount && InUse(ts, m, i, k) && p == BlockAt(ts[i], k);
    assert Starts(ts, p, i, k);
  }

  lemma WithinNone(ts: seq<Tier>, m: seq<bv8>, raw: nat, tableTop: nat, metaTop: nat, p: nat)
    requires Placed(ts, raw, tableTop, metaTop, |m|) && MapsInside(ts, m)
    requires forall i :: 0 <= i < |ts| ==> !Within(ts[i], p)
    ensures !IsBlock(ts, p) && p !in Live(ts, m)
  {
    hide BlockAt, Bits, BitmapBytes, Live, Apart;
    forall j: nat, l: nat
      ensures !Starts(ts, p, j, l)
    {
      if Starts(ts, p, j, l) {
        assert TierPlaced(ts[j], raw, tableTop, metaTop, |m|);
        BlockInside(ts[j], l);
      }
    }
    if p in Live(ts, m) {
      LiveAreBlocks(ts, m, p);
    }
  }
}
