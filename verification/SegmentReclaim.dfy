/** What evictions do to a segment pool: the free bytes, the largest free stretch
    and the whole-block free bytes they leave, whatever the victim rule
    (evaluation/tensor_simulator/tensor_sim_segment_backend.py). */
module SegmentReclaim {
  import opened Common
  import opened SegmentExtents

  // ------------------------------------------------------------- measures

  /** Bytes of an extent below the weight limit. */
  function Clip(e: Extent, limit: nat): nat {
    if limit <= e.offset then 0
    else if e.offset + e.size <= limit then e.size
    else limit - e.offset
  }

  /** `_free_bytes`. */
  function FreeBelow(es: seq<Extent>, limit: nat): nat {
    if es == [] then 0 else FreeBelow(Front(es), limit) + if Last(es).key.None? then Clip(Last(es), limit) else 0
  }

  /** `_largest_free`. */
  function LargestBelow(es: seq<Extent>, limit: nat): nat {
    if es == [] then 0
    else
      var before := LargestBelow(Front(es), limit);
      if Last(es).key.None? && Clip(Last(es), limit) > before then Clip(Last(es), limit) else before
  }

  /** Every allocation lies below the limit. */
  ghost predicate AllBelow(es: seq<Extent>, limit: nat) {
    es == [] || (AllBelow(Front(es), limit) && (Last(es).key.Some? ==> Last(es).offset + Last(es).size <= limit))
  }

  /** The multiples of the block size in `n` bytes: `(n // block) * block`. */
  function Aligned(n: nat, block: nat): nat
    requires block > 0
  {
    if n < block then 0 else block + Aligned(n - block, block)
  }

  predicate WholeBlocks(n: nat, block: nat)
    requires block > 0
  {
    Aligned(n, block) == n
  }

  /** Bytes of whole KV blocks that fit into the free extents. */
  function BlockBytes(es: seq<Extent>, block: nat): nat
    requires block > 0
  {
    if es == [] then 0
    else BlockBytes(Front(es), block) + if Last(es).key.None? then Aligned(Last(es).size, block) else 0
  }

  lemma {:induction false} AlignedFacts(n: nat, block: nat)
    requires block > 0
    ensures Aligned(n, block) <= n < Aligned(n, block) + block
    ensures WholeBlocks(Aligned(n, block), block)
  {
    if n >= block {
      AlignedFacts(n - block, block);
    }
  }

  lemma {:induction false} AlignedAdds(n: nat, m: nat, block: nat)
    requires block > 0
    ensures Aligned(n, block) + Aligned(m, block) <= Aligned(n + m, block)
    ensures WholeBlocks(n, block) ==> Aligned(n + m, block) == n + Aligned(m, block)
  {
    if n >= block {
      AlignedAdds(n - block, m, block);
    } else {
      AlignedGrows(m, n, block);
    }
  }

  lemma {:induction false} AlignedGrows(m: nat, n: nat, block: nat)
    requires block > 0
    ensures Aligned(m, block) <= Aligned(m + n, block)
  {
    if m >= block {
      AlignedGrows(m - block, n, block);
    }
  }

  /** With no limit short of the pool, clipping changes nothing. */
  lemma {:induction false} NoLimit(es: seq<Extent>, limit: nat)
    requires Tiles(es, 0) && Total(es) <= limit
    ensures FreeBelow(es, limit) == FreeBytes(es)
  {
    if es != [] {
      NoLimit(Front(es), limit);
    }
  }

  /** What lies below the limit is either used or free. */
  lemma {:induction false} BelowLimit(es: seq<Extent>, limit: nat)
    requires Tiles(es, 0) && AllBelow(es, limit)
    ensures FreeBelow(es, limit) + UsedBytes(es) == if Total(es) <= limit then Total(es) else limit
  {
    if es != [] {
      BelowLimit(Front(es), limit);
      if Last(es).key.Some? {
        Snoc(Objects(Front(es)), Object(Last(es).key.value, Last(es).size));
      }
    }
  }

  /** Nothing lies beyond the end of the pool. */
  lemma {:induction false} TilesBelow(es: seq<Extent>, limit: nat)
    requires Tiles(es, 0) && Total(es) <= limit
    ensures AllBelow(es, limit)
  {
    if es != [] {
      TilesBelow(Front(es), limit);
    }
  }

  lemma {:induction false} LargestIsSome(es: seq<Extent>, limit: nat, size: nat)
    requires 0 < size <= LargestBelow(es, limit)
    ensures exists i :: 0 <= i < |es| && es[i].key.None? && Clip(es[i], limit) >= size
  {
    if Last(es).key.None? && Clip(Last(es), limit) >= size {
      assert es[|es| - 1] == Last(es);
    } else {
      LargestIsSome(Front(es), limit, size);
      var i :| 0 <= i < |Front(es)| && Front(es)[i].key.None? && Clip(Front(es)[i], limit) >= size;
      assert es[i] == Front(es)[i];
    }
  }

  // ------------------------------------------------ freeing and coalescing

  lemma {:induction false} MarkFreeGrows(es: seq<Extent>, ks: set<PoolKey>, limit: nat, block: nat)
    requires block > 0
    ensures LargestBelow(es, limit) <= LargestBelow(MarkFree(es, ks), limit)
    ensures BlockBytes(es, block) <= BlockBytes(MarkFree(es, ks), block)
    ensures AllBelow(es, limit) ==> AllBelow(MarkFree(es, ks), limit)
  {
    if es != [] {
      MarkFreeGrows(Front(es), ks, limit, block);
      Snoc(MarkFree(Front(es), ks), Cleared(Last(es), ks));
    }
  }

  /** Adding one extent at the end. */
  lemma {:induction false} MeasuresSnoc(r: seq<Extent>, e: Extent, limit: nat, block: nat)
    requires block > 0
    ensures LargestBelow(r + [e], limit) ==
      if e.key.None? && Clip(e, limit) > LargestBelow(r, limit) then Clip(e, limit) else LargestBelow(r, limit)
    ensures BlockBytes(r + [e], block) == BlockBytes(r, block) + if e.key.None? then Aligned(e.size, block) else 0
    ensures AllBelow(r + [e], limit) <==> AllBelow(r, limit) && (e.key.Some? ==> e.offset + e.size <= limit)
  {
    Snoc(r, e);
  }

  lemma {:induction false} MergingGrows(r: seq<Extent>, f: Extent, e: Extent, limit: nat, block: nat)
    requires block > 0 && f.key.None? && e.key.None? && e.offset == f.offset + f.size
    ensures var apart, merged := r + [f] + [e], r + [f.(size := f.size + e.size)];
      && LargestBelow(apart, limit) <= LargestBelow(merged, limit)
      && BlockBytes(apart, block) <= BlockBytes(merged, block)
      && (AllBelow(apart, limit) ==> AllBelow(merged, limit))
  {
    MeasuresSnoc(r, f, limit, block);
    MeasuresSnoc(r + [f], e, limit, block);
    MeasuresSnoc(r, f.(size := f.size + e.size), limit, block);
    AlignedAdds(f.size, e.size, block);
  }

  lemma {:induction false} PushGrows(r: seq<Extent>, e: Extent, limit: nat, block: nat)
    requires block > 0 && e.offset == Total(r) && Tiles(r, 0)
    ensures LargestBelow(r + [e], limit) <= LargestBelow(Push(r, e), limit)
    ensures BlockBytes(r + [e], block) <= BlockBytes(Push(r, e), block)
    ensures AllBelow(r + [e], limit) ==> AllBelow(Push(r, e), limit)
  {
    if r != [] && Last(r).key.None? && e.key.None? {
      var front, f := Front(r), Last(r);
      assert e.offset == f.offset + f.size;
      MergingGrows(front, f, e, limit, block);
      Rejoin(r);
      assert r + [e] == front + [f] + [e];
      assert Push(r, e) == front + [f.(size := f.size + e.size)];
    } else {
      assert Push(r, e) == r + [e];
    }
  }

  lemma {:induction false} LargerPrefix(r: seq<Extent>, s: seq<Extent>, e: Extent, limit: nat, block: nat)
    requires block > 0
    requires LargestBelow(r, limit) <= LargestBelow(s, limit) && BlockBytes(r, block) <= BlockBytes(s, block)
    requires AllBelow(r, limit) ==> AllBelow(s, limit)
    ensures LargestBelow(r + [e], limit) <= LargestBelow(s + [e], limit)
    ensures BlockBytes(r + [e], block) <= BlockBytes(s + [e], block)
    ensures AllBelow(r + [e], limit) ==> AllBelow(s + [e], limit)
  {
    MeasuresSnoc(r, e, limit, block);
    MeasuresSnoc(s, e, limit, block);
  }

  lemma {:induction false} CoalescingGrows(es: seq<Extent>, limit: nat, block: nat)
    requires block > 0 && Tiles(es, 0)
    ensures LargestBelow(es, limit) <= LargestBelow(Coalesced(es), limit)
    ensures BlockBytes(es, block) <= BlockBytes(Coalesced(es), block)
    ensures AllBelow(es, limit) ==> AllBelow(Coalesced(es), limit)
  {
    if es != [] {
      CoalescingGrows(Front(es), limit, block);
      CoalescedFacts(Front(es), 0);
      LargerPrefix(Front(es), Coalesced(Front(es)), Last(es), limit, block);
      PushGrows(Coalesced(Front(es)), Last(es), limit, block);
      Rejoin(es);
    }
  }

  // ------------------------------------------------------------ evictions

  /** Weights of the models other than the active one. */
  function Evictable(keys: set<PoolKey>, active: int): set<PoolKey> {
    set k | k in keys && k.Weight? && k.group.modelId != active
  }

  /** The pool after freeing some keys and coalescing. */
  function Evict(es: seq<Extent>, ks: set<PoolKey>): seq<Extent> {
    if ks == {} then es else Coalesced(MarkFree(es, ks))
  }

  /** The pool after evicting everything evictable. */
  function Exhausted(es: seq<Extent>, active: int): seq<Extent> {
    Evict(es, Evictable(IndexOf(es).Keys, active))
  }

  lemma {:induction false} EvictFacts(es: seq<Extent>, ks: set<PoolKey>, capacity: nat)
    requires Sound(es, IndexOf(es), capacity)
    ensures Sound(Evict(es, ks), IndexOf(es) - ks, capacity)
    ensures Objects(Evict(es, ks)) == Without(Objects(es), ks)
    ensures UsedBytes(Evict(es, ks)) == UsedBytes(es) - BytesIn(Objects(es), ks)
  {
    MarkFreeFacts(es, ks, 0);
    CoalescedFacts(MarkFree(es, ks), 0);
    WithoutFacts(Objects(es), ks);
    if ks == {} {
      WithoutNone(Objects(es), ks);
    }
  }

  /** Freeing one allocated key, with or without coalescing. */
  lemma {:induction false} FreedKey(es: seq<Extent>, key: PoolKey, capacity: nat)
    requires Sound(es, IndexOf(es), capacity) && key in IndexOf(es)
    ensures Sound(MarkFree(es, {key}), IndexOf(es) - {key}, capacity)
    ensures Sound(Evict(es, {key}), IndexOf(es) - {key}, capacity)
    ensures Objects(MarkFree(es, {key})) == Objects(Evict(es, {key})) == Without(Objects(es), {key})
    ensures UsedBytes(es) == SumSizes(Without(Objects(es), {key})) + IndexOf(es)[key].size
    ensures IndexOf(es)[key].size > 0
  {
    MarkFreeFacts(es, {key}, 0);
    WithoutFacts(Objects(es), {key});
    EvictFacts(es, {key}, capacity);
    IndexedSize(es, 0, key);
  }

  lemma {:induction false} EvictTwice(es: seq<Extent>, ks: set<PoolKey>, more: set<PoolKey>)
    ensures Evict(Evict(es, ks), more) == Evict(es, ks + more)
  {
    CoalesceLate(MarkFree(es, ks), more);
    MarkFreeTwice(es, ks, more);
    assert ks == {} ==> ks + more == more;
    assert more == {} ==> ks + more == ks;
  }

  lemma {:induction false} EvictingGrows(es: seq<Extent>, ks: set<PoolKey>, limit: nat, block: nat)
    requires block > 0 && Tiles(es, 0)
    ensures LargestBelow(es, limit) <= LargestBelow(Evict(es, ks), limit)
    ensures BlockBytes(es, block) <= BlockBytes(Evict(es, ks), block)
    ensures AllBelow(es, limit) ==> AllBelow(Evict(es, ks), limit)
  {
    MarkFreeGrows(es, ks, limit, block);
    MarkFreeFacts(es, ks, 0);
    CoalescingGrows(MarkFree(es, ks), limit, block);
  }

  /** `after` comes from `before` by evicting weights of other models; which ones
      decides the layout, in whatever order they went. */
  ghost predicate AfterEvictions(before: seq<Extent>, after: seq<Extent>, active: int) {
    var ks := IndexOf(before).Keys - IndexOf(after).Keys;
    ks <= Evictable(IndexOf(before).Keys, active) && after == Evict(before, ks)
  }

  lemma {:induction false} NoEvictions(es: seq<Extent>, active: int)
    ensures AfterEvictions(es, es, active)
  {
    assert IndexOf(es).Keys - IndexOf(es).Keys == {};
  }

  lemma {:induction false} OneMoreEviction(
    before: seq<Extent>, after: seq<Extent>, active: int, v: PoolKey, capacity: nat)
    requires Sound(before, IndexOf(before), capacity) && AfterEvictions(before, after, active)
    requires v in Evictable(IndexOf(after).Keys, active)
    ensures AfterEvictions(before, Evict(after, {v}), active)
    ensures Sound(Evict(after, {v}), IndexOf(after) - {v}, capacity)
    ensures UsedBytes(Evict(after, {v})) == UsedBytes(after) - IndexOf(after)[v].size < UsedBytes(after)
  {
    hide Evict, BytesIn, Objects, IndexOf, Without, Tiles, DistinctKeys, Total, SumSizes;
    var ks := IndexOf(before).Keys - IndexOf(after).Keys;
    EvictFacts(before, ks, capacity);
    EvictFacts(after, {v}, capacity);
    EvictTwice(before, ks, {v});
    IndexedSize(after, 0, v);
    assert IndexOf(before).Keys - IndexOf(Evict(after, {v})).Keys == ks + {v};
  }

  lemma {:induction false} EvictionsTwice(start: seq<Extent>, middle: seq<Extent>, end: seq<Extent>, active: int, capacity: nat)
    requires Sound(start, IndexOf(start), capacity)
    requires AfterEvictions(start, middle, active) && AfterEvictions(middle, end, active)
    ensures AfterEvictions(start, end, active)
  {
    var held, kept, left := IndexOf(start).Keys, IndexOf(middle).Keys, IndexOf(end).Keys;
    EvictedKeys(start, middle, active, capacity);
    EvictedKeys(middle, end, active, capacity);
    EvictTwice(start, held - kept, kept - left);
    assert held - left == (held - kept) + (kept - left);
  }

  lemma {:induction false} EvictedKeys(before: seq<Extent>, after: seq<Extent>, active: int, capacity: nat)
    requires Sound(before, IndexOf(before), capacity) && AfterEvictions(before, after, active)
    ensures Sound(after, IndexOf(after), capacity)
    ensures IndexOf(after).Keys <= IndexOf(before).Keys
    ensures Evictable(IndexOf(after).Keys, active) <= Evictable(IndexOf(before).Keys, active)
  {
    EvictFacts(before, IndexOf(before).Keys - IndexOf(after).Keys, capacity);
  }

  /** Evicting the rest always leads to the same pool. */
  lemma {:induction false} SameExhaustion(before: seq<Extent>, after: seq<Extent>, active: int, capacity: nat)
    requires Sound(before, IndexOf(before), capacity) && AfterEvictions(before, after, active)
    ensures Exhausted(after, active) == Exhausted(before, active)
  {
    var ks := IndexOf(before).Keys - IndexOf(after).Keys;
    EvictFacts(before, ks, capacity);
    EvictTwice(before, ks, Evictable(IndexOf(after).Keys, active));
    assert ks + Evictable(IndexOf(after).Keys, active) == Evictable(IndexOf(before).Keys, active);
  }

  /** No eviction reaches more than evicting everything does. */
  lemma {:induction false} ExhaustionIsMost(
    before: seq<Extent>, after: seq<Extent>, active: int, capacity: nat, limit: nat, block: nat)
    requires Sound(before, IndexOf(before), capacity) && AfterEvictions(before, after, active) && block > 0
    ensures LargestBelow(after, limit) <= LargestBelow(Exhausted(before, active), limit)
    ensures BlockBytes(after, block) <= BlockBytes(Exhausted(before, active), block)
    ensures UsedBytes(after) >= UsedBytes(Exhausted(before, active))
    ensures Evictable(IndexOf(after).Keys, active) == {} ==> after == Exhausted(before, active)
  {
    var ks := IndexOf(before).Keys - IndexOf(after).Keys;
    EvictFacts(before, ks, capacity);
    SameExhaustion(before, after, active, capacity);
    EvictFacts(after, Evictable(IndexOf(after).Keys, active), capacity);
    EvictingGrows(after, Evictable(IndexOf(after).Keys, active), limit, block);
  }

  // ------------------------------------------------ what a pool has lost

  /** `after` holds what `before` held, in the same order, less some weights of
      models other than the active one. */
  ghost predicate OnlyLost(before: seq<Extent>, after: seq<Extent>, active: int) {
    var gone := IndexOf(before).Keys - IndexOf(after).Keys;
    gone <= Evictable(IndexOf(before).Keys, active) && Objects(after) == Without(Objects(before), gone)
  }

  /** The same with `key` added, at `size` bytes. */
  ghost predicate LostAndGained(before: seq<Extent>, after: seq<Extent>, active: int, key: PoolKey, size: nat) {
    var gone := IndexOf(before).Keys - IndexOf(after).Keys;
    && gone <= Evictable(IndexOf(before).Keys, active)
    && Without(Objects(after), {key}) == Without(Objects(before), gone)
    && key !in IndexOf(before) && key in IndexOf(after) && IndexOf(after)[key].size == size
  }

  lemma {:induction false} LostByEviction(before: seq<Extent>, after: seq<Extent>, active: int, capacity: nat)
    requires Sound(before, IndexOf(before), capacity) && AfterEvictions(before, after, active)
    ensures OnlyLost(before, after, active)
  {
    EvictFacts(before, IndexOf(before).Keys - IndexOf(after).Keys, capacity);
  }

  /** Moving extents loses nothing more. */
  lemma {:induction false} LostBeforeMoving(before: seq<Extent>, after: seq<Extent>, moved: seq<Extent>, active: int)
    requires OnlyLost(before, after, active) && Objects(moved) == Objects(after)
    ensures OnlyLost(before, moved, active)
  {
    IndexKeys(after);
    IndexKeys(moved);
  }

  lemma {:induction false} LostTwice(before: seq<Extent>, middle: seq<Extent>, after: seq<Extent>, active: int)
    requires OnlyLost(before, middle, active) && OnlyLost(middle, after, active)
    ensures OnlyLost(before, after, active)
  {
    var first, second := IndexOf(before).Keys - IndexOf(middle).Keys, IndexOf(middle).Keys - IndexOf(after).Keys;
    LostKeys(before, middle, active);
    LostKeys(middle, after, active);
    WithoutTwice(Objects(before), first, second);
    assert IndexOf(before).Keys - IndexOf(after).Keys == first + second;
  }

  /** Nothing was gained on the way. */
  lemma {:induction false} LostKeys(before: seq<Extent>, after: seq<Extent>, active: int)
    requires OnlyLost(before, after, active)
    ensures IndexOf(after).Keys <= IndexOf(before).Keys
    ensures UsedBytes(after) + BytesIn(Objects(before), IndexOf(before).Keys - IndexOf(after).Keys) == UsedBytes(before)
  {
    var gone := IndexOf(before).Keys - IndexOf(after).Keys;
    IndexKeys(before);
    IndexKeys(after);
    WithoutFacts(Objects(before), gone);
  }

  // ---------------------------------------------- placing and compacting

  lemma {:induction false} AllBelowAppend(a: seq<Extent>, b: seq<Extent>, limit: nat)
    ensures AllBelow(a + b, limit) <==> AllBelow(a, limit) && AllBelow(b, limit)
  {
    if b == [] {
      assert a + b == a;
    } else {
      FrontAppend(a, b);
      AllBelowAppend(a, Front(b), limit);
    }
  }

  lemma {:induction false} SplitBelow(free: Extent, key: PoolKey, size: nat, limit: nat)
    requires size <= free.size && free.offset + size <= limit
    ensures AllBelow(Split(free, key, size), limit)
  {
    var placed, left := [Extent(free.offset, size, Some(key))], [Extent(free.offset + size, free.size - size, None)];
    Snoc([], placed[0]);
    Snoc([], left[0]);
    AllBelowAppend(placed, left, limit);
  }

  lemma {:induction false} PlacedBelow(es: seq<Extent>, i: nat, key: PoolKey, size: nat, limit: nat)
    requires i < |es| && 0 < size <= es[i].size && Clip(es[i], limit) >= size && AllBelow(es, limit)
    ensures AllBelow(Place(es, i, key, size), limit)
  {
    CutAt(es, i);
    AllBelowAppend(es[..i], [es[i]] + es[i + 1..], limit);
    AllBelowAppend([es[i]], es[i + 1..], limit);
    SplitBelow(es[i], key, size, limit);
    AllBelowAppend(Split(es[i], key, size), es[i + 1..], limit);
    AllBelowAppend(es[..i], Split(es[i], key, size) + es[i + 1..], limit);
  }

  /** One more object, in a sound pool. */
  lemma {:induction false} PlacedSound(es: seq<Extent>, i: nat, key: PoolKey, size: nat, capacity: nat)
    requires i < |es| && es[i].key.None? && 0 < size <= es[i].size
    requires Sound(es, IndexOf(es), capacity) && key !in IndexOf(es)
    ensures var placed := Place(es, i, key, size);
      && Sound(placed, IndexOf(es)[key := Extent(es[i].offset, size, Some(key))], capacity)
      && Without(Objects(placed), {key}) == Objects(es)
      && UsedBytes(placed) == UsedBytes(es) + size && FreeBytes(placed) == FreeBytes(es) - size
      && Objects(placed) == Objects(es[..i]) + [Object(key, size)] + Objects(es[i + 1..])
  {
    PlaceFacts(es, i, key, size);
    IndexKeys(es);
    InsertedDistinct(Objects(es[..i]), Object(key, size), Objects(es[i + 1..]), {key});
    WithoutNone(Objects(es), {key});
  }

  lemma {:induction false} PackedBelow(es: seq<Extent>, from: nat, limit: nat)
    requires Tiles(es, from) && UsedBytes(es) <= limit
    ensures AllBelow(Packed(es, 0), limit) && LargestBelow(Packed(es, 0), limit) == 0
  {
    if es != [] {
      if Last(es).key.Some? {
        Snoc(Objects(Front(es)), Object(Last(es).key.value, Last(es).size));
        Snoc(Packed(Front(es), 0), Extent(UsedBytes(Front(es)), Last(es).size, Last(es).key));
      }
      PackedBelow(Front(es), from, limit);
    }
  }

  /** Compaction turns all free bytes below the limit into one stretch. */
  lemma {:induction false} CompactedBelow(es: seq<Extent>, capacity: nat, limit: nat)
    requires Tiles(es, 0) && UsedBytes(es) <= limit <= capacity
    ensures AllBelow(Compacted(es, capacity), limit)
    ensures LargestBelow(Compacted(es, capacity), limit) == limit - UsedBytes(es)
  {
    PackedBelow(es, 0, limit);
    MeasuresSnoc(Packed(es, 0), Extent(UsedBytes(es), capacity - UsedBytes(es), None), limit, 1);
  }
}
