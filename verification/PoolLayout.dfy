/** How the tiered pool carves one buffer into a tier table, bitmaps and blocks, on a 32-bit
    target. */
module PoolLayout {
  import opened Bitmap

  const SIZE_MAX := 0xFFFF_FFFF
  const ALIGN := 8
  /** Bytes of one entry of the tier table. */
  const ENTRY := 32

  datatype TierCfg = TierCfg(blockSize: nat, blockCount: nat)

  datatype Tier = Tier(base: nat, end: nat, blockSize: nat, blockCount: nat,
                       freeCount: nat, minFree: nat, hint: nat, used: nat)

  datatype Ret = Ok | ErrParam | ErrConfig

  /** NX_TIERED_ALIGN_UP on size_t. */
  function RoundUp(n: nat): nat
    requires n <= SIZE_MAX
  {
    (n + (ALIGN - 1)) % (SIZE_MAX + 1) / ALIGN * ALIGN
  }

  /** Rounding covers the size asked for exactly when the addition does not wrap. */
  lemma RoundUpCoversIff(n: nat)
    requires n <= SIZE_MAX
    ensures n <= RoundUp(n) <==> n <= SIZE_MAX - (ALIGN - 1)
    ensures RoundUp(n) % ALIGN == 0
    ensures n <= SIZE_MAX - (ALIGN - 1) ==> RoundUp(n) < n + ALIGN
  {}

  /** A size whose rounding wraps to nothing. */
  lemma RoundUpCanVanish()
    ensures RoundUp(SIZE_MAX) == 0
  {}

  // ---------------------------------------------------------------- the first pass

  /** What the pool can be asked for: sizes whose rounding does not wrap. */
  predicate Roundable(cfgs: seq<TierCfg>) {
    forall c :: c in cfgs ==> c.blockSize <= SIZE_MAX - (ALIGN - 1) && c.blockCount <= SIZE_MAX
  }

  function Seg(c: TierCfg): nat
    requires c.blockSize <= SIZE_MAX
  {
    RoundUp(c.blockSize) * c.blockCount
  }

  predicate Nonempty(cfgs: seq<TierCfg>) {
    forall c :: c in cfgs ==> c.blockSize > 0 && c.blockCount > 0
  }

  function Blocks(cfgs: seq<TierCfg>): nat
    requires Roundable(cfgs)
  {
    if cfgs == [] then 0 else Blocks(cfgs[..|cfgs| - 1]) + Seg(cfgs[|cfgs| - 1])
  }

  function Maps(cfgs: seq<TierCfg>): nat {
    if cfgs == [] then 0 else Maps(cfgs[..|cfgs| - 1]) + BitmapBytes(cfgs[|cfgs| - 1].blockCount)
  }

  lemma {:induction false} MapsBelowBlocks(cfgs: seq<TierCfg>)
    requires Roundable(cfgs) && Nonempty(cfgs)
    ensures Maps(cfgs) <= Blocks(cfgs)
  {
    if cfgs != [] {
      var c := cfgs[|cfgs| - 1];
      MapsBelowBlocks(cfgs[..|cfgs| - 1]);
      RoundUpCoversIff(c.blockSize);
      Times(1, RoundUp(c.blockSize), c.blockCount);
    }
  }

  lemma Times(a: nat, b: nat, k: nat)
    requires a <= b
    ensures a * k <= b * k
  {}

  function Meta(cfgs: seq<TierCfg>): nat {
    |cfgs| * ENTRY + Maps(cfgs)
  }

  /** The bytes a configuration needs once its buffer is aligned. */
  function Required(cfgs: seq<TierCfg>): nat
    requires Roundable(cfgs)
  {
    (Meta(cfgs) + (ALIGN - 1)) / ALIGN * ALIGN + Blocks(cfgs)
  }

  /** Every size involved fits a size_t. */
  predicate Countable(cfgs: seq<TierCfg>)
    requires Roundable(cfgs)
  {
    Nonempty(cfgs) && Required(cfgs) <= SIZE_MAX
  }

  function Padding(raw: nat): nat {
    (ALIGN - raw % ALIGN) % ALIGN
  }

  /** Where the tier table ends, and where the padded metadata does, in the buffer. */
  function TableTop(cfgs: seq<TierCfg>, raw: nat): nat {
    Padding(raw) + |cfgs| * ENTRY
  }

  function MetaTop(cfgs: seq<TierCfg>, raw: nat): nat {
    Padding(raw) + (Meta(cfgs) + (ALIGN - 1)) / ALIGN * ALIGN
  }

  lemma Tops(cfgs: seq<TierCfg>, raw: nat)
    requires Roundable(cfgs)
    ensures TableTop(cfgs, raw) + Maps(cfgs) <= MetaTop(cfgs, raw)
    ensures MetaTop(cfgs, raw) + Blocks(cfgs) == Padding(raw) + Required(cfgs)
    ensures (raw + MetaTop(cfgs, raw)) % ALIGN == 0
  {
    hide Maps, Blocks, Padding;
    DownToMultiple(Meta(cfgs) + (ALIGN - 1));
    PaddingAligns(raw);
    SumAligned(raw + Padding(raw), (Meta(cfgs) + (ALIGN - 1)) / ALIGN * ALIGN);
  }

  lemma DownToMultiple(m: nat)
    ensures m / ALIGN * ALIGN % ALIGN == 0 && m - ALIGN < m / ALIGN * ALIGN <= m
  {}

  lemma SumAligned(a: nat, b: nat)
    requires a % ALIGN == 0 && b % ALIGN == 0
    ensures (a + b) % ALIGN == 0
  {}

  lemma PaddingAligns(raw: nat)
    ensures (raw + Padding(raw)) % ALIGN == 0 && Padding(raw) < ALIGN
  {}

  // ---------------------------------------------------------------- the second pass

  /** A tier described by its configuration and place, all free. */
  function TierFrom(c: TierCfg, base: nat, used: nat): Tier
    requires c.blockSize <= SIZE_MAX
  {
    Tier(base, base + Seg(c), RoundUp(c.blockSize), c.blockCount, c.blockCount, c.blockCount, 0, used)
  }

  function TierAt(cfgs: seq<TierCfg>, i: nat, blocks: nat, maps: nat): Tier
    requires Roundable(cfgs) && i < |cfgs|
  {
    assert cfgs[i] in cfgs;
    TierFrom(cfgs[i], blocks + Blocks(cfgs[..i]), maps + Maps(cfgs[..i]))
  }

  /** The tiers in configuration order. */
  function Laid(cfgs: seq<TierCfg>, blocks: nat, maps: nat): (ts: seq<Tier>)
    requires Roundable(cfgs)
    ensures |ts| == |cfgs|
  {
    seq(|cfgs|, i requires 0 <= i < |cfgs| => TierAt(cfgs, i, blocks, maps))
  }

  lemma {:induction false} Advances(cfgs: seq<TierCfg>, i: nat, j: nat)
    requires Roundable(cfgs) && i < j <= |cfgs|
    ensures Blocks(cfgs[..i]) + Seg(cfgs[i]) <= Blocks(cfgs[..j])
    ensures Maps(cfgs[..i]) + BitmapBytes(cfgs[i].blockCount) <= Maps(cfgs[..j])
    decreases j
  {
    hide RoundUp, BitmapBytes, Seg;
    assert cfgs[..j][..j - 1] == cfgs[..j - 1];
    if i < j - 1 {
      Advances(cfgs, i, j - 1);
    }
  }

  /** One tier's place: its bitmap between table and blocks, its blocks aligned and whole. */
  predicate TierPlaced(t: Tier, raw: nat, tableTop: nat, metaTop: nat, size: nat) {
    && t.blockSize > 0 && t.blockCount > 0
    && t.blockSize % ALIGN == 0 && t.base % ALIGN == 0
    && t.end == t.base + t.blockSize * t.blockCount
    && tableTop <= t.used && t.used + BitmapBytes(t.blockCount) <= metaTop
    && raw + metaTop <= t.base && t.end <= raw + size
  }

  /** Two tiers share neither a block byte nor a bitmap byte. */
  predicate Apart(t: Tier, u: Tier) {
    && (t.end <= u.base || u.end <= t.base)
    && (t.used + BitmapBytes(t.blockCount) <= u.used || u.used + BitmapBytes(u.blockCount) <= t.used)
  }

  predicate Placed(ts: seq<Tier>, raw: nat, tableTop: nat, metaTop: nat, size: nat) {
    && tableTop <= metaTop <= size
    && (forall i :: 0 <= i < |ts| ==> TierPlaced(ts[i], raw, tableTop, metaTop, size))
    && (forall i, j :: 0 <= i < |ts| && 0 <= j < |ts| && i != j ==> Apart(ts[i], ts[j]))
  }

  predicate Sorted(ts: seq<Tier>) {
    forall i, j :: 0 <= i < j < |ts| ==> ts[i].blockSize <= ts[j].blockSize
  }

  /** A configuration whose size fits is laid out disjoint, aligned and inside the buffer. */
  lemma LaidIsPlaced(cfgs: seq<TierCfg>, raw: nat, size: nat)
    requires Roundable(cfgs) && Nonempty(cfgs)
    requires Padding(raw) + Required(cfgs) <= size
    ensures Placed(Laid(cfgs, raw + MetaTop(cfgs, raw), TableTop(cfgs, raw)), raw, TableTop(cfgs, raw), MetaTop(cfgs, raw), size)
  {
    hide RoundUp, TableTop, MetaTop, Required, Padding, TierPlaced, Apart, TierAt;
    var tableTop, metaTop := TableTop(cfgs, raw), MetaTop(cfgs, raw);
    Tops(cfgs, raw);
    var ts := Laid(cfgs, raw + metaTop, tableTop);
    forall i | 0 <= i < |ts|
      ensures TierPlaced(ts[i], raw, tableTop, metaTop, size)
    {
      OnePlaced(cfgs, i, raw, size);
    }
    forall i, j | 0 <= i < |ts| && 0 <= j < |ts| && i != j
      ensures Apart(ts[i], ts[j])
    {
      TwoApart(cfgs, i, j, raw + metaTop, tableTop);
    }
  }

  lemma TwoApart(cfgs: seq<TierCfg>, i: nat, j: nat, blocks: nat, maps: nat)
    requires Roundable(cfgs) && i < |cfgs| && j < |cfgs| && i != j
    ensures Apart(TierAt(cfgs, i, blocks, maps), TierAt(cfgs, j, blocks, maps))
  {
    hide RoundUp, BitmapBytes, Seg, Blocks, Maps;
    if i < j {
      Advances(cfgs, i, j);
    } else {
      Advances(cfgs, j, i);
    }
  }

  lemma {:induction false} BlocksAligned(cfgs: seq<TierCfg>)
    requires Roundable(cfgs)
    ensures Blocks(cfgs) % ALIGN == 0
  {
    hide Seg;
    if cfgs != [] {
      BlocksAligned(cfgs[..|cfgs| - 1]);
      SegAligned(cfgs[|cfgs| - 1]);
    }
  }

  lemma SegAligned(c: TierCfg)
    requires c.blockSize <= SIZE_MAX
    ensures Seg(c) % ALIGN == 0
  {
    hide RoundUp;
    RoundUpCoversIff(c.blockSize);
    MultipleTimes(RoundUp(c.blockSize), c.blockCount);
  }

  lemma MultipleTimes(a: nat, k: nat)
    requires a % ALIGN == 0
    ensures a * k % ALIGN == 0
  {
    var q := a / ALIGN;
    assert a * k == q * k * ALIGN;
  }

  lemma OnePlaced(cfgs: seq<TierCfg>, i: nat, raw: nat, size: nat)
    requires Roundable(cfgs) && Nonempty(cfgs) && i < |cfgs|
    requires Padding(raw) + Required(cfgs) <= size
    ensures TierPlaced(TierAt(cfgs, i, raw + MetaTop(cfgs, raw), TableTop(cfgs, raw)), raw, TableTop(cfgs, raw), MetaTop(cfgs, raw), size)
  {
    hide RoundUp, BitmapBytes, Blocks, Maps, TableTop, MetaTop, Required, Padding;
    Tops(cfgs, raw);
    Advances(cfgs, i, |cfgs|);
    assert cfgs[..|cfgs|] == cfgs;
    assert cfgs[i] in cfgs;
    RoundUpCoversIff(cfgs[i].blockSize);
    BlocksAligned(cfgs[..i]);
  }

  // ---------------------------------------------------------------- insertion

  /** Where insertion puts a tier: behind every tier that is not larger. */
  function Inserted(ts: seq<Tier>, t: Tier): seq<Tier> {
    if ts == [] then [t]
    else if ts[|ts| - 1].blockSize > t.blockSize then Inserted(ts[..|ts| - 1], t) + [ts[|ts| - 1]]
    else ts + [t]
  }

  function InsertAll(ts: seq<Tier>): seq<Tier> {
    if ts == [] then [] else Inserted(InsertAll(ts[..|ts| - 1]), ts[|ts| - 1])
  }

  lemma {:induction false} InsertedAt(ts: seq<Tier>, t: Tier) returns (p: nat)
    ensures p <= |ts| && Inserted(ts, t) == ts[..p] + [t] + ts[p..]
    ensures p > 0 ==> ts[p - 1].blockSize <= t.blockSize
    ensures forall i :: p <= i < |ts| ==> t.blockSize < ts[i].blockSize
  {
    if ts == [] || ts[|ts| - 1].blockSize <= t.blockSize {
      p := |ts|;
    } else {
      p := InsertedAt(ts[..|ts| - 1], t);
      assert ts == ts[..|ts| - 1] + [ts[|ts| - 1]];
    }
  }

  function Spliced<T>(s: seq<T>, p: nat, x: T): (r: seq<T>)
    requires p <= |s|
    ensures |r| == |s| + 1 && r[p] == x
    ensures forall i :: 0 <= i < p ==> r[i] == s[i]
    ensures forall i :: p < i <= |s| ==> r[i] == s[i - 1]
    ensures multiset(r) == multiset(s) + multiset{x}
  {
    assert s == s[..p] + s[p..];
    s[..p] + [x] + s[p..]
  }

  lemma SplicedSorted(ts: seq<Tier>, p: nat, t: Tier)
    requires Sorted(ts) && p <= |ts|
    requires p > 0 ==> ts[p - 1].blockSize <= t.blockSize
    requires forall i :: p <= i < |ts| ==> t.blockSize < ts[i].blockSize
    ensures Sorted(Spliced(ts, p, t))
  {}

  lemma SplicedPlaced(ts: seq<Tier>, p: nat, t: Tier, raw: nat, tableTop: nat, metaTop: nat, size: nat)
    requires p <= |ts| && Placed(ts, raw, tableTop, metaTop, size) && TierPlaced(t, raw, tableTop, metaTop, size)
    requires forall u :: u in ts ==> Apart(u, t) && Apart(t, u)
    ensures Placed(Spliced(ts, p, t), raw, tableTop, metaTop, size)
  {
    hide Spliced, TierPlaced, Apart;
  }

  /** Insertion keeps the order and the tiers. */
  lemma InsertedSorted(ts: seq<Tier>, t: Tier)
    requires Sorted(ts)
    ensures Sorted(Inserted(ts, t)) && multiset(Inserted(ts, t)) == multiset(ts) + multiset{t}
  {
    hide Inserted, Sorted;
    var p := InsertedAt(ts, t);
    assert Inserted(ts, t) == Spliced(ts, p, t);
    SplicedSorted(ts, p, t);
  }

  /** The sorted table is a permutation of what was laid out. */
  lemma {:induction false} InsertAllSorts(ts: seq<Tier>)
    ensures Sorted(InsertAll(ts)) && multiset(InsertAll(ts)) == multiset(ts) && |InsertAll(ts)| == |ts|
  {
    hide Inserted;
    if ts != [] {
      hide Sorted;
      InsertAllSorts(ts[..|ts| - 1]);
      InsertedSorted(InsertAll(ts[..|ts| - 1]), ts[|ts| - 1]);
      var p := InsertedAt(InsertAll(ts[..|ts| - 1]), ts[|ts| - 1]);
      assert ts == ts[..|ts| - 1] + [ts[|ts| - 1]];
    }
  }

  /** Reordering keeps every tier in its place. */
  lemma {:induction false} InsertAllPlaced(ts: seq<Tier>, raw: nat, tableTop: nat, metaTop: nat, size: nat)
    requires Placed(ts, raw, tableTop, metaTop, size)
    ensures Placed(InsertAll(ts), raw, tableTop, metaTop, size)
  {
    hide TierPlaced, Apart, Inserted, Sorted;
    if ts != [] {
      var front, t := ts[..|ts| - 1], ts[|ts| - 1];
      InsertAllPlaced(front, raw, tableTop, metaTop, size);
      InsertAllSorts(front);
      var sorted := InsertAll(front);
      forall u | u in sorted
        ensures Apart(u, t) && Apart(t, u)
      {
        assert u in multiset(sorted);
        assert u in front;
      }
      var p := InsertedAt(sorted, t);
      SplicedPlaced(sorted, p, t, raw, tableTop, metaTop, size);
    }
  }
}
