/** The tiered memory pool: layout, best-fit allocation and checked release. */
module Pool {
  import opened Options
  import opened Bitmap
  import opened PoolLayout
  import opened PoolState

  datatype FreeRet = Freed | Invalid | DoubleFree


  datatype Stat = Stat(blockSize: nat, blockCount: nat, freeCount: nat, peakUsed: nat)

  // ---------------------------------------------------------------- init

  /** What init answers, and the size it reports. */
  function InitAnswer(cfgs: seq<TierCfg>, raw: nat, size: nat): (Ret, nat)
    requires Roundable(cfgs)
  {
    if size == 0 || cfgs == [] then (ErrParam, 0)
    else if !Countable(cfgs) then (ErrConfig, 0)
    else if Padding(raw) + Required(cfgs) > size then (ErrConfig, Required(cfgs))
    else (Ok, Required(cfgs))
  }

  /** nx_tiered_tier_bytes: refuse an empty tier and one whose size overflows. */
  method TierBytes(c: TierCfg) returns (ok: bool, bytes: nat)
    requires c.blockSize <= SIZE_MAX
    ensures ok == (c.blockSize > 0 && c.blockCount > 0 && Seg(c) <= SIZE_MAX)
    ensures ok ==> bytes == Seg(c)
  {
    if c.blockCount == 0 || c.blockSize == 0 {
      return false, 0;
    }
    var blockSize := RoundUp(c.blockSize);
    OverflowTest(blockSize, c.blockCount);
    if blockSize > SIZE_MAX / c.blockCount {
      return false, 0;
    }
    return true, blockSize * c.blockCount;
  }

  /** The division test is exact. */
  lemma OverflowTest(a: nat, n: nat)
    requires n > 0
    ensures a > SIZE_MAX / n <==> a * n > SIZE_MAX
  {
    var q, r := SIZE_MAX / n, SIZE_MAX % n;
    assert SIZE_MAX == q * n + r;
    if a > q {
      Times(q + 1, a, n);
    } else {
      Times(a, q, n);
    }
  }

  /** The first pass: sum up block and bitmap bytes, or find what is wrong. */
  method Totals(cfgs: seq<TierCfg>) returns (ok: bool, blocks: nat, maps: nat)
    requires Roundable(cfgs)
    ensures ok <==> Nonempty(cfgs) && Blocks(cfgs) <= SIZE_MAX
    ensures ok ==> blocks == Blocks(cfgs) && maps == Maps(cfgs) <= SIZE_MAX
  {
    hide RoundUp, Seg, BitmapBytes;
    blocks, maps := 0, 0;
    assert cfgs[..|cfgs|] == cfgs;
    for i := 0 to |cfgs|
      invariant Nonempty(cfgs[..i]) && blocks == Blocks(cfgs[..i]) <= SIZE_MAX && maps == Maps(cfgs[..i])
    {
      assert cfgs[i] in cfgs && cfgs[..i + 1][..i] == cfgs[..i];
      var good, bytes := TierBytes(cfgs[i]);
      BlocksGrow(cfgs, i);
      if !good || bytes > SIZE_MAX - blocks {
        return false, blocks, maps;
      }
      blocks := blocks + bytes;
      maps := maps + BitmapBytes(cfgs[i].blockCount);
    }
    MapsBelowBlocks(cfgs);
    return true, blocks, maps;
  }

  lemma BlocksGrow(cfgs: seq<TierCfg>, i: nat)
    requires Roundable(cfgs) && i < |cfgs|
    ensures Blocks(cfgs[..i]) + Seg(cfgs[i]) <= Blocks(cfgs)
  {
    Advances(cfgs, i, |cfgs|);
    assert cfgs[..|cfgs|] == cfgs;
  }

  /** The padding as the pointer arithmetic computes it, whether or not the addition wraps. */
  lemma PaddingComputed(raw: nat)
    requires raw <= SIZE_MAX
    ensures var aligned := (raw + (ALIGN - 1)) % (SIZE_MAX + 1) / ALIGN * ALIGN;
            (aligned - raw) % (SIZE_MAX + 1) == Padding(raw)
  {
    var q, r := raw / ALIGN, raw % ALIGN;
    assert raw == ALIGN * q + r;
    if raw + (ALIGN - 1) > SIZE_MAX {
      assert (raw + (ALIGN - 1)) % (SIZE_MAX + 1) == raw + (ALIGN - 1) - (SIZE_MAX + 1);
    }
  }

  /** The wrap test on the padded metadata is exact. */
  lemma PaddedTest(meta: nat)
    requires meta <= SIZE_MAX
    ensures var padded := (meta + (ALIGN - 1)) % (SIZE_MAX + 1) / ALIGN * ALIGN;
            && (padded < meta <==> (meta + (ALIGN - 1)) / ALIGN * ALIGN > SIZE_MAX)
            && (padded >= meta ==> padded == (meta + (ALIGN - 1)) / ALIGN * ALIGN)
  {}

  class Pool {
    const mem: array<bv8>
    /** The buffer's address. */
    const raw: nat
    var tiers: array<Tier>
    var tierCount: nat
    var forbidFallback: bool

    // the layout, and every free count there has been
    ghost var tableTop: nat
    ghost var metaTop: nat
    ghost var places: seq<Tier>
    ghost var history: seq<seq<nat>>

    ghost predicate Valid()
      reads this, mem, tiers
    {
      && tierCount == tiers.Length && (mem as object) != tiers && SamePlaces(tiers[..], places)
      && PoolOk(tiers[..], mem[..], history, raw, tableTop, metaTop)
    }

    ghost function LiveBlocks(): set<nat>
      requires Valid()
      reads this, mem, tiers
    {
      PlacedInside(tiers[..], raw, tableTop, metaTop, mem[..]);
      Live(tiers[..], mem[..])
    }

    constructor (mem: array<bv8>, raw: nat)
      requires raw + mem.Length <= SIZE_MAX + 1
      ensures this.mem == mem && this.raw == raw
    {
      this.mem, this.raw := mem, raw;
      tiers := new Tier[0];
      tierCount, forbidFallback := 0, false;
      tableTop, metaTop, history, places := 0, 0, [], [];
    }

    method Init(cfgs: seq<TierCfg>, forbid: bool) returns (r: Ret, required: nat)
      requires Roundable(cfgs) && raw + mem.Length <= SIZE_MAX + 1 && raw <= SIZE_MAX
      modifies this, mem
      ensures (r, required) == InitAnswer(cfgs, raw, mem.Length)
      ensures !r.Ok? ==> mem[..] == old(mem[..]) && tiers == old(tiers) && tierCount == old(tierCount)
      ensures r.Ok? ==> Valid() && fresh(tiers) && forbidFallback == forbid && LiveBlocks() == {}
      ensures r.Ok? ==> tiers[..] == InsertAll(Laid(cfgs, raw + MetaTop(cfgs, raw), TableTop(cfgs, raw)))
      ensures r.Ok? ==> multiset(tiers[..]) == multiset(Laid(cfgs, raw + MetaTop(cfgs, raw), TableTop(cfgs, raw)))
    {
      hide RoundUp, Seg, BitmapBytes, Padding, Blocks, Maps;
      if mem.Length == 0 || |cfgs| == 0 {
        return ErrParam, 0;
      }
      var ok, blocks, maps := Totals(cfgs);
      if !ok {
        return ErrConfig, 0;
      }
      if |cfgs| > SIZE_MAX / ENTRY {
        return ErrConfig, 0;
      }
      var table := |cfgs| * ENTRY;
      if maps > SIZE_MAX - table {
        return ErrConfig, 0;
      }
      var meta := table + maps;
      var padded := (meta + (ALIGN - 1)) % (SIZE_MAX + 1) / ALIGN * ALIGN;
      PaddedTest(meta);
      if padded < meta || blocks > SIZE_MAX - padded {
        return ErrConfig, 0;
      }
      required := padded + blocks;
      var aligned := (raw + (ALIGN - 1)) % (SIZE_MAX + 1) / ALIGN * ALIGN;
      var padding := (aligned - raw) % (SIZE_MAX + 1);
      PaddingComputed(raw);
      if mem.Length < padding || mem.Length - padding < required {
        return ErrConfig, required;
      }
      LayOut(cfgs, padding + table, padding + padded, forbid);
      return Ok, required;
    }

    /** The second pass: reset each tier's bitmap and insert the tier into the sorted table. */
    method LayOut(cfgs: seq<TierCfg>, bitmaps: nat, metaSize: nat, forbid: bool)
      requires Roundable(cfgs) && Nonempty(cfgs)
      requires Padding(raw) + Required(cfgs) <= mem.Length
      requires bitmaps == TableTop(cfgs, raw) && metaSize == MetaTop(cfgs, raw)
      modifies this, mem
      ensures Valid() && fresh(tiers) && forbidFallback == forbid && LiveBlocks() == {}
      ensures tiers[..] == InsertAll(Laid(cfgs, raw + MetaTop(cfgs, raw), TableTop(cfgs, raw)))
      ensures multiset(tiers[..]) == multiset(Laid(cfgs, raw + MetaTop(cfgs, raw), TableTop(cfgs, raw)))
    {
      hide RoundUp, Seg, BitmapBytes, Padding, Blocks, Maps, TableTop, MetaTop, Required, Placed, PoolOk, Laid, InsertAll, FreeCounts, Live;
      tiers := new Tier[|cfgs|](_ => Tier(0, 0, 0, 0, 0, 0, 0, 0));
      tierCount, forbidFallback := 0, forbid;
      Tops(cfgs, raw);
      CarveTiers(cfgs, raw + metaSize, bitmaps);
      tableTop, metaTop, history, places := bitmaps, metaSize, [FreeCounts(tiers[..])], tiers[..];
      LaidIsPlaced(cfgs, raw, mem.Length);
      FreshState(cfgs, Laid(cfgs, raw + metaSize, bitmaps));
    }

    /** Tier by tier, blocks and bitmaps in configuration order and table slots in size order. */
    method CarveTiers(cfgs: seq<TierCfg>, blocks: nat, maps: nat)
      requires Roundable(cfgs) && tiers.Length == |cfgs| && tierCount == 0 && (mem as object) != tiers
      requires maps + Maps(cfgs) <= mem.Length
      modifies this`tierCount, tiers, mem
      ensures tierCount == |cfgs| && tiers[..] == InsertAll(Laid(cfgs, blocks, maps))
      ensures forall j :: maps <= j < maps + Maps(cfgs) ==> mem[j] == 0
    {
      hide RoundUp, Seg, BitmapBytes, Blocks, Maps, Laid, InsertAll, Inserted, TierFrom;
      ghost var ts := Laid(cfgs, blocks, maps);
      var blockCur, bitmapCur := blocks, maps;
      NoTiers();
      assert cfgs[..0] == [] && ts[..0] == [] && tiers[..0] == [];
      for i := 0 to |cfgs|
        invariant tierCount == i
        invariant blockCur == blocks + Blocks(cfgs[..i]) && bitmapCur == maps + Maps(cfgs[..i])
        invariant tiers[..i] == InsertAll(ts[..i])
        invariant bitmapCur <= mem.Length && forall j :: maps <= j < bitmapCur ==> mem[j] == 0
      {
        OneMore(cfgs, i, blocks, maps);
        var t := TierSetup(cfgs[i], blockCur, bitmapCur);
        InsertTier(t);
        FromEnd(cfgs[i], blockCur, bitmapCur);
        blockCur := t.end;
        bitmapCur := bitmapCur + BitmapBytes(cfgs[i].blockCount);
      }
      assert tiers[..] == tiers[..|cfgs|] && ts[..|cfgs|] == ts && cfgs[..|cfgs|] == cfgs;
    }

    /** nx_tiered_tier_setup: describe a tier and clear its bitmap. */
    method TierSetup(c: TierCfg, base: nat, used: nat) returns (t: Tier)
      requires c.blockSize <= SIZE_MAX && used + BitmapBytes(c.blockCount) <= mem.Length
      modifies mem
      ensures t == TierFrom(c, base, used)
      ensures forall j :: used <= j < used + BitmapBytes(c.blockCount) ==> mem[j] == 0
      ensures forall j :: 0 <= j < mem.Length && !(used <= j < used + BitmapBytes(c.blockCount)) ==> mem[j] == old(mem[j])
    {
      hide RoundUp;
      var bytes := BitmapBytes(c.blockCount);
      for i := 0 to bytes
        invariant forall j :: used <= j < used + i ==> mem[j] == 0
        invariant forall j :: 0 <= j < mem.Length && !(used <= j < used + i) ==> mem[j] == old(mem[j])
      {
        mem[used + i] := 0;
      }
      var blockSize := RoundUp(c.blockSize);
      t := Tier(base, base + blockSize * c.blockCount, blockSize, c.blockCount, c.blockCount, c.blockCount, 0, used);
    }

    /** The insertion step: shift larger tiers up and put t in the gap. */
    method InsertTier(t: Tier)
      requires tierCount < tiers.Length
      modifies this`tierCount, tiers
      ensures tierCount == old(tierCount) + 1
      ensures tiers[..tierCount] == Inserted(old(tiers[..tierCount]), t)
    {
      hide Inserted, Shifting;
      ghost var was, n := tiers[..tierCount], tierCount;
      var pos := tierCount;
      ShiftStart(was, tiers[..n + 1], t);
      while pos > 0 && tiers[pos - 1].blockSize > t.blockSize
        invariant 0 <= pos <= n == tierCount && Shifting(was, tiers[..n + 1], pos, t)
      {
        ghost var now := tiers[..n + 1];
        tiers[pos] := tiers[pos - 1];
        assert tiers[..n + 1] == now[pos := now[pos - 1]];
        ShiftStep(was, now, pos, t);
        pos := pos - 1;
      }
      ghost var now := tiers[..n + 1];
      tiers[pos] := t;
      tierCount := tierCount + 1;
      assert tiers[..n + 1] == now[pos := t];
      ShiftEnd(was, now, pos, t);
    }

    /** Scan from the rolling hint, going round once, for a free block. */
    method Scan(t: Tier) returns (k: nat)
      requires TierCounted(t, mem[..]) && t.freeCount > 0
      ensures NextClear(BitsOf(t, mem[..]), t.hint, k)
    {
      hide Has, Clear;
      ghost var bits := BitsOf(t, mem[..]);
      ClearExists(bits);
      k := t.hint;
      var scanned := 0;
      while scanned < t.blockCount
        invariant scanned <= t.blockCount && k <= t.blockCount
        invariant k == if t.hint + scanned <= t.blockCount then t.hint + scanned else t.hint + scanned - t.blockCount
        invariant if t.hint + scanned <= t.blockCount then forall j :: t.hint <= j < k ==> bits[j]
                  else forall j :: 0 <= j < t.blockCount && (t.hint <= j || j < k) ==> bits[j]
      {
        if k >= t.blockCount {
          k := 0;
        }
        if !Has(mem[t.used + k / 8], k % 8) {
          assert !bits[k];
          return;
        }
        assert bits[k];
        k := k + 1;
        scanned := scanned + 1;
      }
      assert false;
    }

    /** Hand out block k of tier i. */
    method Claim(i: nat, k: nat)
      requires Valid() && i < tiers.Length && k < tiers[i].blockCount
      requires MapsInside(tiers[..], mem[..]) && !BitsOf(tiers[i], mem[..])[k]
      modifies this`history, mem, tiers
      ensures Valid() && LiveBlocks() == old(LiveBlocks()) + {BlockAt(old(tiers[i]), k)}
      ensures var t := old(tiers[i]); tiers[..] == old(tiers[..])[i := Claimed(t, k)] && mem[..] == Marked(t, old(mem[..]), k, true)
      ensures history == old(history) + [FreeCounts(tiers[..])]
      ensures BlockAt(old(tiers[i]), k) !in old(LiveBlocks())
    {
      hide Marked, Claimed, With, PoolOk, Live, BitsOf, BlockAt, FreeCounts, Follows;
      ghost var ts, m := tiers[..], mem[..];
      var t := tiers[i];
      ClaimFollows(ts, m, history, raw, tableTop, metaTop, i, k);
      SamePlacesStay(ts, i, Claimed(t, k), places);
      StepKeeps(ts, m, history, raw, tableTop, metaTop, i, k, true, Claimed(t, k));
      var at := t.used + k / 8;
      MarkedMeans(t, m, k, true);
      mem[at] := With(mem[at], k % 8);
      assert mem[..] == m[at := With(m[at], k % 8)];
      tiers[i] := Claimed(t, k);
      assert tiers[..] == ts[i := Claimed(t, k)];
      history := history + [FreeCounts(tiers[..])];
    }

    /** Best fit: the smallest eligible tier with room, its first free block from the hint on;
        nothing exactly when no eligible tier has room. */
    method Alloc(size: nat) returns (p: Option<nat>, ghost i: nat, ghost k: nat)
      requires Valid()
      modifies this`history, mem, tiers
      ensures Valid()
      ensures p.None? <==> size == 0 || Exhausted(places, old(LiveBlocks()), forbidFallback, size)
      ensures p.None? ==> tiers[..] == old(tiers[..]) && mem[..] == old(mem[..]) && history == old(history)
      ensures p.Some? ==> BestFit(old(tiers[..]), forbidFallback, size, i)
      ensures p.Some? ==>
                var t := old(tiers[..])[i];
                && t.used + BitmapBytes(t.blockCount) <= mem.Length
                && NextClear(BitsOf(t, old(mem[..])), t.hint, k) && p.value == BlockAt(t, k)
                && tiers[..] == old(tiers[..])[i := Claimed(t, k)] && mem[..] == Marked(t, old(mem[..]), k, true)
      ensures p.Some? ==> p.value !in old(LiveBlocks()) && LiveBlocks() == old(LiveBlocks()) + {p.value}
      ensures p.Some? ==> history == old(history) + [FreeCounts(tiers[..])]
    {
      hide Marked, Claimed, PoolOk, Live, BitsOf, FreeCounts, NextClear, Searched, BestFit, NoRoom, HasRoom, MapsInside, Exhausted, SamePlaces;
      i, k := 0, 0;
      if size == 0 {
        return None, 0, 0;
      }
      ghost var ts := tiers[..];
      ExhaustedIff(ts, mem[..], history, raw, tableTop, metaTop, places, forbidFallback, size);
      var ideal := 0;
      var n := 0;
      SearchStart(ts, forbidFallback, size);
      while n < tierCount
        invariant 0 <= n <= tierCount && Searched(ts, forbidFallback, size, n, ideal)
        invariant Valid() && tiers[..] == ts && mem[..] == old(mem[..]) && history == old(history)
      {
        var t := tiers[n];
        AtTier(ts, mem[..], history, raw, tableTop, metaTop, forbidFallback, size, n, ideal);
        if t.blockSize >= size {
          if ideal == 0 {
            ideal := t.blockSize;
          }
          if forbidFallback && t.blockSize > ideal {
            return None, 0, 0;
          }
          if t.freeCount > 0 {
            var at := Scan(t);
            FoundFree(BitsOf(t, mem[..]), t.hint, at);
            FoundRoom(ts, forbidFallback, size, n);
            i, k := n, at;
            Claim(n, at);
            return Some(t.base + at * t.blockSize), n, at;
          }
        }
        n := n + 1;
      }
      SearchEnd(ts, forbidFallback, size, ideal);
      return None, 0, 0;
    }

    /** Take back block k of tier i. */
    method Reclaim(i: nat, k: nat)
      requires Valid() && i < tiers.Length && k < tiers[i].blockCount
      requires MapsInside(tiers[..], mem[..]) && BitsOf(tiers[i], mem[..])[k]
      modifies this`history, mem, tiers
      ensures Valid() && LiveBlocks() == old(LiveBlocks()) - {BlockAt(old(tiers[i]), k)}
      ensures var t := old(tiers[i]);
              tiers[..] == old(tiers[..])[i := t.(freeCount := t.freeCount + 1)] && mem[..] == Marked(t, old(mem[..]), k, false)
      ensures history == old(history) + [FreeCounts(tiers[..])]
    {
      hide Marked, Without, PoolOk, Live, BitsOf, BlockAt, FreeCounts, Follows;
      ghost var ts, m := tiers[..], mem[..];
      var t := tiers[i];
      var t' := t.(freeCount := t.freeCount + 1);
      ReclaimFollows(ts, m, history, raw, tableTop, metaTop, i, t');
      StepKeeps(ts, m, history, raw, tableTop, metaTop, i, k, false, t');
      var at := t.used + k / 8;
      MarkedMeans(t, m, k, false);
      mem[at] := Without(mem[at], k % 8);
      assert mem[..] == m[at := Without(m[at], k % 8)];
      tiers[i] := t';
      assert tiers[..] == ts[i := t'];
      history := history + [FreeCounts(tiers[..])];
    }

    /** Give a block back: accepted exactly for a live block's start; a block start that is not
        live is a double free, and any other pointer is invalid. */
    method Free(ptr: Option<nat>) returns (r: FreeRet)
      requires Valid()
      modifies this`history, mem, tiers
      ensures Valid()
      ensures r.Freed? <==> ptr.None? || ptr.value in old(LiveBlocks())
      ensures r.DoubleFree? <==> ptr.Some? && IsBlock(old(tiers[..]), ptr.value) && ptr.value !in old(LiveBlocks())
      ensures LiveBlocks() == if ptr.Some? && r.Freed? then old(LiveBlocks()) - {ptr.value} else old(LiveBlocks())
      ensures ptr.None? || !r.Freed? ==> tiers[..] == old(tiers[..]) && mem[..] == old(mem[..]) && history == old(history)
    {
      hide PoolOk, Live, BitsOf, BlockAt, IsBlock, MapsInside, Within, FreeCounts;
      if ptr.None? {
        return Freed;
      }
      var p := ptr.value;
      var n := 0;
      ghost var ts, m := tiers[..], mem[..];
      Facts(ts, m);
      while n < tierCount
        invariant 0 <= n <= tierCount && forall j :: 0 <= j < n ==> !Within(ts[j], p)
        invariant Valid() && tiers[..] == ts && mem[..] == m && history == old(history)
      {
        var t := tiers[n];
        if Within(t, p) {
          WithinTier(ts, m, raw, tableTop, metaTop, n, p);
          WithinMeans(t, p);
          var offset := p - t.base;
          if offset % t.blockSize != 0 {
            return Invalid;
          }
          var k := offset / t.blockSize;
          BitRead(t, m, k);
          if !Has(mem[t.used + k / 8], k % 8) {
            return DoubleFree;
          }
          Reclaim(n, k);
          return Freed;
        }
        n := n + 1;
      }
      WithinNone(ts, m, raw, tableTop, metaTop, p);
      return Invalid;
    }

    /** With nothing live every tier is all free. */
    lemma AllFree()
      requires Valid() && LiveBlocks() == {}
      ensures forall i :: 0 <= i < tiers.Length ==> tiers[i].freeCount == tiers[i].blockCount
    {
      hide PoolOk, Live;
      Facts(tiers[..], mem[..]);
      NothingLiveMeansAllFree(tiers[..], mem[..], history, raw, tableTop, metaTop);
      assert forall i :: 0 <= i < tiers.Length ==> tiers[..][i].freeCount == tiers[..][i].blockCount;
    }

    lemma Facts(ts: seq<Tier>, m: seq<bv8>)
      requires PoolOk(ts, m, history, raw, tableTop, metaTop)
      ensures Placed(ts, raw, tableTop, metaTop, |m|) && MapsInside(ts, m)
    {}

    /** Occupancy of one tier: how many blocks are free, and the most that were ever in use. */
    method TierStat(i: nat) returns (s: Option<Stat>)
      requires Valid()
      ensures s.Some? <==> i < tierCount
      ensures s.Some? ==>
                var t := tiers[i];
                && t.used + BitmapBytes(t.blockCount) <= mem.Length
                && s.value.blockSize == t.blockSize && s.value.blockCount == t.blockCount
                && s.value.freeCount == Clear(BitsOf(t, mem[..]))
                && (forall h :: h in history ==> |h| > i && t.blockCount - h[i] <= s.value.peakUsed)
                && (exists h :: h in history && |h| > i && t.blockCount - h[i] == s.value.peakUsed)
    {
      if i >= tierCount {
        return None;
      }
      hide PoolOk, Clear, BitsOf, BitmapBytes;
      var t := tiers[i];
      StatFacts(tiers[..], mem[..], history, raw, tableTop, metaTop, i);
      return Some(Stat(t.blockSize, t.blockCount, t.freeCount, t.blockCount - t.minFree));
    }

    /** A pool just laid out is valid, with every block free. */
    lemma FreshState(cfgs: seq<TierCfg>, ts: seq<Tier>)
      requires Roundable(cfgs) && tierCount == tiers.Length && (mem as object) != tiers
      requires Placed(ts, raw, tableTop, metaTop, mem.Length)
      requires exists blocks :: ts == Laid(cfgs, blocks, tableTop)
      requires tiers[..] == InsertAll(ts) == places && history == [FreeCounts(tiers[..])]
      requires forall j :: tableTop <= j < tableTop + Maps(cfgs) ==> mem[j] == 0
      ensures Valid() && LiveBlocks() == {} && multiset(tiers[..]) == multiset(ts)
    {
      hide RoundUp, Seg, Padding, Blocks, Maps, TierPlaced, Apart, InsertAll, Live, Bits, Placed, TierCounted;
      InsertAllSorts(ts);
      InsertAllPlaced(ts, raw, tableTop, metaTop, mem.Length);
      PlacedInside(tiers[..], raw, tableTop, metaTop, mem[..]);
      var blocks :| ts == Laid(cfgs, blocks, tableTop);
      forall i | 0 <= i < tiers.Length
        ensures TierCounted(tiers[i], mem[..]) && tiers[i].minFree == tiers[i].freeCount
        ensures true !in BitsOf(tiers[i], mem[..])
      {
        assert tiers[..][i] in multiset(InsertAll(ts));
        assert tiers[i] in ts;
        var k :| 0 <= k < |ts| && ts[k] == tiers[i];
        Advances(cfgs, k, |cfgs|);
        assert cfgs[..|cfgs|] == cfgs;
        FreshTier(tiers[i], mem[..]);
      }
      NothingLive(tiers[..], mem[..]);
    }
  }

  /** What one pass of the layout loop adds. */
  lemma OneMore(cfgs: seq<TierCfg>, i: nat, blocks: nat, maps: nat)
    requires Roundable(cfgs) && i < |cfgs|
    ensures cfgs[i].blockSize <= SIZE_MAX
    ensures Blocks(cfgs[..i + 1]) == Blocks(cfgs[..i]) + Seg(cfgs[i])
    ensures Maps(cfgs[..i + 1]) == Maps(cfgs[..i]) + BitmapBytes(cfgs[i].blockCount) <= Maps(cfgs)
    ensures var ts, c := Laid(cfgs, blocks, maps), cfgs[i];
            InsertAll(ts[..i + 1]) == Inserted(InsertAll(ts[..i]), TierFrom(c, blocks + Blocks(cfgs[..i]), maps + Maps(cfgs[..i])))
  {
    hide RoundUp, Seg, BitmapBytes, Inserted, Blocks, Maps, InsertAll, Laid, TierFrom, Roundable;
    SumsStep(cfgs, i);
    InsertStep(Laid(cfgs, blocks, maps), i);
    LaidAt(cfgs, i, blocks, maps);
  }

  lemma LaidAt(cfgs: seq<TierCfg>, i: nat, blocks: nat, maps: nat)
    requires Roundable(cfgs) && i < |cfgs|
    ensures cfgs[i].blockSize <= SIZE_MAX && Roundable(cfgs[..i])
    ensures Laid(cfgs, blocks, maps)[i] == TierFrom(cfgs[i], blocks + Blocks(cfgs[..i]), maps + Maps(cfgs[..i]))
  {}

  lemma SumsStep(cfgs: seq<TierCfg>, i: nat)
    requires Roundable(cfgs) && i < |cfgs|
    ensures cfgs[i].blockSize <= SIZE_MAX
    ensures Blocks(cfgs[..i + 1]) == Blocks(cfgs[..i]) + Seg(cfgs[i])
    ensures Maps(cfgs[..i + 1]) == Maps(cfgs[..i]) + BitmapBytes(cfgs[i].blockCount) <= Maps(cfgs)
  {
    hide RoundUp, Seg, BitmapBytes;
    assert cfgs[..i + 1][..i] == cfgs[..i] && cfgs[i] in cfgs;
    assert cfgs[..|cfgs|] == cfgs;
    Advances(cfgs, i, |cfgs|);
  }

  lemma FromEnd(c: TierCfg, base: nat, used: nat)
    requires c.blockSize <= SIZE_MAX
    ensures TierFrom(c, base, used).end == base + Seg(c)
  {}

  lemma InsertStep(ts: seq<Tier>, i: nat)
    requires i < |ts|
    ensures InsertAll(ts[..i + 1]) == Inserted(InsertAll(ts[..i]), ts[i])
  {
    hide Inserted;
    assert ts[..i + 1][..i] == ts[..i];
  }

  /** Tiers from `pos` on have moved up one place, to make room for t at or below it. */
  predicate Shifting(was: seq<Tier>, now: seq<Tier>, pos: nat, t: Tier) {
    && pos <= |was| && |now| == |was| + 1
    && (forall j :: 0 <= j < pos ==> now[j] == was[j])
    && (forall j :: pos < j <= |was| ==> now[j] == was[j - 1])
    && Inserted(was, t) == Inserted(was[..pos], t) + was[pos..]
  }

  lemma ShiftStart(was: seq<Tier>, now: seq<Tier>, t: Tier)
    requires |now| == |was| + 1 && now[..|was|] == was
    ensures Shifting(was, now, |was|, t)
  {
    hide Inserted;
    assert was[..|was|] == was && was[|was|..] == [];
    forall j | 0 <= j < |was|
      ensures now[j] == was[j]
    {
      assert now[..|was|][j] == was[j];
    }
  }

  lemma ShiftStep(was: seq<Tier>, now: seq<Tier>, pos: nat, t: Tier)
    requires Shifting(was, now, pos, t) && pos > 0 && now[pos - 1].blockSize > t.blockSize
    ensures Shifting(was, now[pos := now[pos - 1]], pos - 1, t)
  {
    assert was[..pos][..pos - 1] == was[..pos - 1];
    assert [was[pos - 1]] + was[pos..] == was[pos - 1..];
  }

  lemma ShiftEnd(was: seq<Tier>, now: seq<Tier>, pos: nat, t: Tier)
    requires Shifting(was, now, pos, t) && (pos == 0 || now[pos - 1].blockSize <= t.blockSize)
    ensures now[pos := t] == Inserted(was, t)
  {}

  /** The first clear bit from `hint` on, going round. */
  predicate NextClear(bits: seq<bool>, hint: nat, k: nat) {
    && k < |bits| && !bits[k]
    && (if hint <= k then forall j :: hint <= j < k ==> bits[j]
        else forall j :: 0 <= j < |bits| && (hint <= j || j < k) ==> bits[j])
  }

  lemma FoundFree(bits: seq<bool>, hint: nat, k: nat)
    requires NextClear(bits, hint, k)
    ensures k < |bits| && !bits[k]
  {}

  lemma FoundRoom(ts: seq<Tier>, forbid: bool, size: nat, i: nat)
    requires BestFit(ts, forbid, size, i)
    ensures i < |ts| && !NoRoom(ts, forbid, size)
  {}

  /** The table entry of a tier whose block k has just been handed out. */
  function Claimed(t: Tier, k: nat): Tier {
    var free := if t.freeCount > 0 then t.freeCount - 1 else 0;
    t.(hint := k + 1, freeCount := free, minFree := if free < t.minFree then free else t.minFree)
  }

  /** A clear bit is counted, so there was a block to take. */
  lemma ClaimFollows(ts: seq<Tier>, m: seq<bv8>, history: seq<seq<nat>>, raw: nat, tableTop: nat, metaTop: nat, i: nat, k: nat)
    requires PoolOk(ts, m, history, raw, tableTop, metaTop) && MapsInside(ts, m)
    requires i < |ts| && k < ts[i].blockCount && !BitsOf(ts[i], m)[k]
    ensures Follows(ts[i], Claimed(ts[i], k), true) && SamePlace(ts[i], Claimed(ts[i], k))
  {
    hide Placed, Sorted, Recorded, Bits, Clear;
    ClearExists(BitsOf(ts[i], m));
    assert TierCounted(ts[i], m);
  }

  lemma ReclaimFollows(ts: seq<Tier>, m: seq<bv8>, history: seq<seq<nat>>, raw: nat, tableTop: nat, metaTop: nat, i: nat, t': Tier)
    requires PoolOk(ts, m, history, raw, tableTop, metaTop) && i < |ts|
    requires t' == ts[i].(freeCount := ts[i].freeCount + 1)
    ensures Follows(ts[i], t', false)
  {}

  lemma StatFacts(ts: seq<Tier>, m: seq<bv8>, history: seq<seq<nat>>, raw: nat, tableTop: nat, metaTop: nat, i: nat)
    requires PoolOk(ts, m, history, raw, tableTop, metaTop) && i < |ts|
    ensures ts[i].used + BitmapBytes(ts[i].blockCount) <= |m| && ts[i].freeCount == Clear(BitsOf(ts[i], m))
    ensures ts[i].minFree <= ts[i].blockCount
    ensures forall h :: h in history ==> |h| > i && ts[i].minFree <= h[i]
    ensures exists h :: h in history && |h| > i && h[i] == ts[i].minFree
  {
    hide Placed, Sorted, Clear, BitsOf, Trough, BitmapBytes;
    assert TierCounted(ts[i], m);
    TroughIsMinimum(history, i);
    assert history[|history| - 1] in history && history[|history| - 1][i] == ts[i].freeCount;
  }

  lemma WithinMeans(t: Tier, p: nat)
    ensures Within(t, p) <==> t.base <= p < t.end
  {}

  lemma BitRead(t: Tier, m: seq<bv8>, k: nat)
    requires k < t.blockCount && t.used + BitmapBytes(t.blockCount) <= |m|
    ensures BitsOf(t, m)[k] == Has(m[t.used + k / 8], k % 8)
  {}

  lemma MarkedMeans(t: Tier, m: seq<bv8>, k: nat, used: bool)
    requires k < t.blockCount && t.used + BitmapBytes(t.blockCount) <= |m|
    ensures var at := t.used + k / 8;
            Marked(t, m, k, used) == m[at := if used then With(m[at], k % 8) else Without(m[at], k % 8)]
  {}

  /** A tier the fallback policy lets serve a request. */
  predicate Eligible(ts: seq<Tier>, forbid: bool, size: nat, i: nat) {
    && i < |ts| && ts[i].blockSize >= size
    && (forbid ==> forall j :: 0 <= j < |ts| && ts[j].blockSize >= size ==> ts[i].blockSize <= ts[j].blockSize)
  }

  predicate HasRoom(ts: seq<Tier>, forbid: bool, size: nat, i: nat) {
    Eligible(ts, forbid, size, i) && ts[i].freeCount > 0
  }

  predicate NoRoom(ts: seq<Tier>, forbid: bool, size: nat) {
    forall i :: 0 <= i < |ts| ==> !HasRoom(ts, forbid, size, i)
  }

  /** A block of at least `size` bytes starts at p. */
  ghost predicate BlockFor(places: seq<Tier>, p: nat, size: nat) {
    exists i: nat, k: nat :: Starts(places, p, i, k) && places[i].blockSize >= size
  }

  lemma FitHolds(ts: seq<Tier>, places: seq<Tier>, forbid: bool, size: nat, i: nat, k: nat)
    requires SamePlaces(ts, places) && BestFit(ts, forbid, size, i) && k < ts[i].blockCount
    ensures BlockFor(places, BlockAt(ts[i], k), size)
  {
    assert Starts(places, BlockAt(ts[i], k), i, k);
  }

  /** Every block of every eligible tier is live. */
  ghost predicate Exhausted(places: seq<Tier>, live: set<nat>, forbid: bool, size: nat) {
    forall i: nat, k: nat {:trigger BlockAt(places[i], k)} ::
      Eligible(places, forbid, size, i) && k < places[i].blockCount ==> BlockAt(places[i], k) in live
  }

  /** The counts tell exactly when that is so. */
  lemma ExhaustedIff(ts: seq<Tier>, m: seq<bv8>, history: seq<seq<nat>>, raw: nat, tableTop: nat, metaTop: nat,
                     places: seq<Tier>, forbid: bool, size: nat)
    requires PoolOk(ts, m, history, raw, tableTop, metaTop) && SamePlaces(ts, places)
    ensures MapsInside(ts, m)
    ensures NoRoom(ts, forbid, size) <==> Exhausted(places, Live(ts, m), forbid, size)
  {
    hide Placed, Sorted, Recorded, Bits, Live, Clear, BlockAt, BitmapBytes, Eligible;
    PlacedInside(ts, raw, tableTop, metaTop, m);
    forall i: nat | i < |ts|
      ensures Eligible(ts, forbid, size, i) <==> Eligible(places, forbid, size, i)
      ensures ts[i].freeCount > 0 <==> false in BitsOf(ts[i], m)
      ensures forall k: nat :: k < ts[i].blockCount ==> (BlockAt(places[i], k) in Live(ts, m) <==> BitsOf(ts[i], m)[k])
    {
      SameEligible(ts, places, forbid, size, i);
      assert TierCounted(ts[i], m);
      ClearExists(BitsOf(ts[i], m));
      forall k: nat | k < ts[i].blockCount
        ensures BlockAt(places[i], k) in Live(ts, m) <==> BitsOf(ts[i], m)[k]
      {
        SameBlock(ts[i], places[i], k);
        LiveMeansInUse(ts, m, raw, tableTop, metaTop, i, k);
      }
    }
    if Exhausted(places, Live(ts, m), forbid, size) {
      forall i: nat | i < |ts| && Eligible(ts, forbid, size, i)
        ensures false !in BitsOf(ts[i], m)
      {
        forall k: nat | k < ts[i].blockCount
          ensures BitsOf(ts[i], m)[k]
        {
          assert BlockAt(places[i], k) in Live(ts, m);
        }
      }
    }
    forall i: nat | Eligible(places, forbid, size, i)
      ensures i < |places|
    {
      EligibleInside(places, forbid, size, i);
    }
    if NoRoom(ts, forbid, size) {
      forall i: nat, k: nat | i < |places| && Eligible(places, forbid, size, i) && k < places[i].blockCount
        ensures BlockAt(places[i], k) in Live(ts, m)
      {
        assert !HasRoom(ts, forbid, size, i);
        assert BitsOf(ts[i], m)[k] in BitsOf(ts[i], m);
      }
    }
  }

  lemma SamePlacesStay(ts: seq<Tier>, i: nat, t: Tier, places: seq<Tier>)
    requires SamePlaces(ts, places) && i < |ts| && SamePlace(ts[i], t)
    ensures SamePlaces(ts[i := t], places)
  {}

  lemma EligibleInside(ts: seq<Tier>, forbid: bool, size: nat, i: nat)
    requires Eligible(ts, forbid, size, i)
    ensures i < |ts|
  {}

  /** A tier whose block size wraps to nothing when rounded up passes the size test, since it
      asks for no bytes, and then no request is ever served from it. */
  lemma VanishedTierServesNothing(c: TierCfg, ts: seq<Tier>, i: nat, forbid: bool, size: nat)
    requires SIZE_MAX - (ALIGN - 1) < c.blockSize <= SIZE_MAX
    requires i < |ts| && ts[i] == TierFrom(c, ts[i].base, ts[i].used)
    ensures Seg(c) == 0 && (size > 0 ==> !Eligible(ts, forbid, size, i))
  {
    assert RoundUp(c.blockSize) == 0;
  }

  lemma SameEligible(ts: seq<Tier>, places: seq<Tier>, forbid: bool, size: nat, i: nat)
    requires SamePlaces(ts, places)
    ensures Eligible(ts, forbid, size, i) <==> Eligible(places, forbid, size, i)
  {}

  predicate BestFit(ts: seq<Tier>, forbid: bool, size: nat, i: nat) {
    HasRoom(ts, forbid, size, i) && forall j :: 0 <= j < |ts| && HasRoom(ts, forbid, size, j) ==> ts[i].blockSize <= ts[j].blockSize
  }

  /** What the search knows before looking at tier n. */
  predicate Searched(ts: seq<Tier>, forbid: bool, size: nat, n: nat, ideal: nat) {
    && n <= |ts|
    && (forall j :: 0 <= j < n ==> !HasRoom(ts, forbid, size, j))
    && (ideal == 0 ==> forall j :: 0 <= j < n ==> ts[j].blockSize < size)
    && (ideal != 0 ==>
          && (exists j :: 0 <= j < n && ts[j].blockSize == ideal >= size)
          && (forall j :: 0 <= j < |ts| && ts[j].blockSize >= size ==> ideal <= ts[j].blockSize))
  }

  lemma SearchStart(ts: seq<Tier>, forbid: bool, size: nat)
    ensures Searched(ts, forbid, size, 0, 0)
  {}

  lemma SearchEnd(ts: seq<Tier>, forbid: bool, size: nat, ideal: nat)
    requires Searched(ts, forbid, size, |ts|, ideal)
    ensures NoRoom(ts, forbid, size)
  {}

  /** What looking at tier n decides. */
  lemma AtTier(ts: seq<Tier>, m: seq<bv8>, history: seq<seq<nat>>, raw: nat, tableTop: nat, metaTop: nat,
               forbid: bool, size: nat, n: nat, ideal: nat)
    requires PoolOk(ts, m, history, raw, tableTop, metaTop) && n < |ts| && size > 0
    requires Searched(ts, forbid, size, n, ideal)
    ensures MapsInside(ts, m) && TierCounted(ts[n], m)
    ensures ts[n].blockSize < size ==> Searched(ts, forbid, size, n + 1, ideal)
    ensures ts[n].blockSize >= size ==>
              var ideal' := if ideal == 0 then ts[n].blockSize else ideal;
              && (forbid && ts[n].blockSize > ideal' ==> NoRoom(ts, forbid, size))
              && (!(forbid && ts[n].blockSize > ideal') && ts[n].freeCount > 0 ==> BestFit(ts, forbid, size, n))
              && (ts[n].freeCount == 0 ==> Searched(ts, forbid, size, n + 1, ideal'))
  {
    hide Placed, TierCounted, Recorded;
    PlacedInside(ts, raw, tableTop, metaTop, m);
    SearchStep(ts, forbid, size, n, ideal);
  }

  lemma SearchStep(ts: seq<Tier>, forbid: bool, size: nat, n: nat, ideal: nat)
    requires Sorted(ts) && n < |ts| && size > 0 && Searched(ts, forbid, size, n, ideal)
    ensures ts[n].blockSize < size ==> Searched(ts, forbid, size, n + 1, ideal)
    ensures ts[n].blockSize >= size ==>
              var ideal' := if ideal == 0 then ts[n].blockSize else ideal;
              && (forbid && ts[n].blockSize > ideal' ==> NoRoom(ts, forbid, size))
              && (!(forbid && ts[n].blockSize > ideal') && ts[n].freeCount > 0 ==> BestFit(ts, forbid, size, n))
              && (ts[n].freeCount == 0 ==> Searched(ts, forbid, size, n + 1, ideal'))
  {}

  lemma NoTiers()
    ensures Blocks([]) == 0 && Maps([]) == 0 && InsertAll([]) == []
  {}

  lemma FreshTier(t: Tier, m: seq<bv8>)
    requires t.used + BitmapBytes(t.blockCount) <= |m|
    requires t.freeCount == t.blockCount && t.hint == 0
    requires forall j :: t.used <= j < t.used + BitmapBytes(t.blockCount) ==> m[j] == 0
    ensures TierCounted(t, m) && true !in BitsOf(t, m)
  {
    hide Bits, Clear;
    BitsZero(m, t.used, t.blockCount);
    ClearExists(BitsOf(t, m));
  }

  lemma NothingLive(ts: seq<Tier>, m: seq<bv8>)
    requires MapsInside(ts, m) && forall i :: 0 <= i < |ts| ==> true !in BitsOf(ts[i], m)
    ensures Live(ts, m) == {}
  {}
}
