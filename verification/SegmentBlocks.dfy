/** Pools cut into whole KV blocks: every extent a multiple of the block size, so no
    free byte is too fragmented for a KV block
    (evaluation/tensor_simulator/tensor_sim_segment_backend.py). */
module SegmentBlocks {
  import opened Common
  import opened SegmentExtents
  import opened SegmentReclaim
  import opened SegmentModels
  import opened SegmentPartition
  import opened SegmentPacking
  import opened SegmentSteps
  import opened SegmentPool
  import opened SegmentRequests
  import opened SegmentKv

  ghost predicate AllBlocks(es: seq<Extent>, block: nat)
    requires block > 0
  {
    es == [] || (AllBlocks(Front(es), block) && WholeBlocks(Last(es).size, block))
  }

  /** The pool is cut into whole blocks. */
  ghost predicate Blocked(es: seq<Extent>, block: nat) {
    block > 0 && AllBlocks(es, block)
  }

  ghost predicate BlockSized(objs: seq<Object>, block: nat)
    requires block > 0
  {
    forall i :: 0 <= i < |objs| ==> WholeBlocks(objs[i].size, block)
  }

  /** Every group of every model is a whole number of blocks. */
  ghost predicate WholeModels(models: Models, block: nat)
    requires block > 0
  {
    forall m, g :: m in models && 0 <= g < |models[m].groupBytes| ==> WholeBlocks(models[m].groupBytes[g], block)
  }

  lemma {:induction false} WholeAdds(a: nat, b: nat, block: nat)
    requires block > 0 && WholeBlocks(a, block)
    ensures WholeBlocks(b, block) <==> WholeBlocks(a + b, block)
  {
    AlignedAdds(a, b, block);
  }

  lemma {:induction false} BlocksAppend(a: seq<Extent>, b: seq<Extent>, block: nat)
    requires block > 0
    ensures AllBlocks(a + b, block) <==> AllBlocks(a, block) && AllBlocks(b, block)
  {
    if b == [] {
      assert a + b == a;
    } else {
      FrontAppend(a, b);
      BlocksAppend(a, Front(b), block);
    }
  }

  lemma {:induction false} BlocksOne(e: Extent, block: nat)
    requires block > 0
    ensures AllBlocks([e], block) <==> WholeBlocks(e.size, block)
  {
    Snoc([], e);
  }

  /** A new pool is cut into whole blocks exactly when its capacity is. */
  lemma {:induction false} NewPoolBlocked(capacity: nat, block: nat)
    requires block > 0
    ensures Blocked([Extent(0, capacity, None)], block) <==> WholeBlocks(capacity, block)
  {
    BlocksOne(Extent(0, capacity, None), block);
  }

  /** All free bytes are whole blocks. */
  lemma {:induction false} BlocksFree(es: seq<Extent>, block: nat)
    requires block > 0 && AllBlocks(es, block)
    ensures BlockBytes(es, block) == FreeBytes(es) && WholeBlocks(FreeBytes(es), block)
  {
    if es != [] {
      BlocksFree(Front(es), block);
      WholeAdds(FreeBytes(Front(es)), Last(es).size, block);
    }
  }

  // ----------------------------------------------------- what keeps blocks

  lemma {:induction false} BlocksMarkFree(es: seq<Extent>, ks: set<PoolKey>, block: nat)
    requires block > 0 && AllBlocks(es, block)
    ensures AllBlocks(MarkFree(es, ks), block)
  {
    if es != [] {
      BlocksMarkFree(Front(es), ks, block);
      Snoc(MarkFree(Front(es), ks), Cleared(Last(es), ks));
    }
  }

  lemma {:induction false} BlocksPush(r: seq<Extent>, e: Extent, block: nat)
    requires block > 0 && AllBlocks(r, block) && WholeBlocks(e.size, block)
    ensures AllBlocks(Push(r, e), block)
  {
    Snoc(r, e);
    if r != [] && Last(r).key.None? && e.key.None? {
      Snoc(Front(r), Last(r).(size := Last(r).size + e.size));
      WholeAdds(Last(r).size, e.size, block);
    }
  }

  lemma {:induction false} BlocksCoalesced(es: seq<Extent>, block: nat)
    requires block > 0 && AllBlocks(es, block)
    ensures AllBlocks(Coalesced(es), block)
  {
    if es != [] {
      BlocksCoalesced(Front(es), block);
      BlocksPush(Coalesced(Front(es)), Last(es), block);
    }
  }

  lemma {:induction false} BlocksEvict(es: seq<Extent>, ks: set<PoolKey>, block: nat)
    requires block > 0 && AllBlocks(es, block)
    ensures AllBlocks(Evict(es, ks), block)
  {
    BlocksMarkFree(es, ks, block);
    BlocksCoalesced(MarkFree(es, ks), block);
  }

  lemma {:induction false} BlocksEvictions(before: seq<Extent>, after: seq<Extent>, active: int, block: nat)
    requires block > 0 && AllBlocks(before, block) && AfterEvictions(before, after, active)
    ensures AllBlocks(after, block)
  {
    BlocksEvict(before, IndexOf(before).Keys - IndexOf(after).Keys, block);
  }

  lemma {:induction false} BlocksPacked(es: seq<Extent>, lo: nat, block: nat)
    requires block > 0 && AllBlocks(es, block)
    ensures AllBlocks(Packed(es, lo), block)
  {
    if es != [] {
      BlocksPacked(Front(es), lo, block);
      if Last(es).key.Some? {
        Snoc(Packed(Front(es), lo), Extent(lo + UsedBytes(Front(es)), Last(es).size, Last(es).key));
      }
    }
  }

  /** Merging a stretch keeps blocks whole. */
  lemma {:induction false} BlocksMerged(pre: seq<Extent>, region: seq<Extent>, post: seq<Extent>, block: nat)
    requires block > 0 && region != [] && AllBlocks(pre + region + post, block)
    ensures AllBlocks(pre + Merged(region) + post, block)
  {
    BlocksAppend(pre + region, post, block);
    BlocksAppend(pre, region, block);
    BlocksPacked(region, region[0].offset, block);
    BlocksFree(region, block);
    BlocksOne(Rest(region), block);
    BlocksAppend(Slid(region), [Rest(region)], block);
    BlocksAppend(pre, Merged(region), block);
    BlocksAppend(pre + Merged(region), post, block);
  }

  lemma {:induction false} BlocksSplit(free: Extent, key: PoolKey, size: nat, block: nat)
    requires block > 0 && size <= free.size && WholeBlocks(free.size, block) && WholeBlocks(size, block)
    ensures AllBlocks(Split(free, key, size), block)
  {
    WholeAdds(size, free.size - size, block);
    BlocksOne(Extent(free.offset, size, Some(key)), block);
    BlocksOne(Extent(free.offset + size, free.size - size, None), block);
    BlocksAppend([Extent(free.offset, size, Some(key))], [Extent(free.offset + size, free.size - size, None)], block);
  }

  lemma {:induction false} BlocksPlace(es: seq<Extent>, i: nat, key: PoolKey, size: nat, block: nat)
    requires block > 0 && i < |es| && size <= es[i].size && AllBlocks(es, block) && WholeBlocks(size, block)
    ensures AllBlocks(Place(es, i, key, size), block)
  {
    CutAt(es, i);
    BlocksAppend(es[..i], [es[i]] + es[i + 1..], block);
    BlocksAppend([es[i]], es[i + 1..], block);
    BlocksOne(es[i], block);
    BlocksSplit(es[i], key, size, block);
    BlocksAppend(Split(es[i], key, size), es[i + 1..], block);
    BlocksAppend(es[..i], Split(es[i], key, size) + es[i + 1..], block);
  }

  /** Dealing whole blocks leaves whole blocks. */
  lemma {:induction false} BlocksDealt(es: seq<Extent>, i: nat, key: PoolKey, wanted: nat, block: nat)
    requires block > 0 && i < |es| && AllBlocks(es, block) && WholeBlocks(wanted, block)
    ensures Dealt(es[i].size, wanted, block) <= es[i].size
    ensures AllBlocks(Place(es, i, key, Dealt(es[i].size, wanted, block)), block)
  {
    DealtFacts(es[i].size, wanted, block);
    BlocksPlace(es, i, key, Dealt(es[i].size, wanted, block), block);
  }

  // ---------------------------------------------------------- requests

  lemma {:induction false} WholePermutation(a: seq<Object>, b: seq<Object>, block: nat)
    requires block > 0 && BlockSized(a, block) && multiset(a) == multiset(b)
    ensures BlockSized(b, block)
  {
    forall i | 0 <= i < |b| ensures WholeBlocks(b[i].size, block) {
      assert b[i] in multiset(b);
      assert b[i] in multiset(a);
      var j :| 0 <= j < |a| && a[j] == b[i];
    }
  }

  /** Each partition's share of whole requests is whole. */
  lemma {:induction false} WholePending(groups: seq<Partition>, requests: seq<Object>, keys: set<PoolKey>, i: nat, block: nat)
    requires block > 0 && Divided(groups, requests, keys) && i < |groups| && BlockSized(requests, block)
    ensures BlockSized(groups[i].pending, block)
  {
    WholePermutation(requests, AllPending(groups), block);
    AllAround(groups, i);
    WholeMiddle(AllPending(groups[..i]), groups[i].pending, AllPending(groups[i + 1..]), block);
  }

  lemma {:induction false} WholeMiddle(a: seq<Object>, b: seq<Object>, c: seq<Object>, block: nat)
    requires block > 0 && BlockSized(a + b + c, block)
    ensures BlockSized(b, block)
  {
    forall k | 0 <= k < |b| ensures WholeBlocks(b[k].size, block) {
      assert (a + b + c)[|a| + k] == b[k];
    }
  }

  lemma {:induction false} WholeMissing(models: Models, m: int, objs: seq<Object>, block: nat)
    requires block > 0 && WholeModels(models, block) && GroupObjects(models, m, objs) && m in models
    ensures BlockSized(objs, block)
  {
    forall i | 0 <= i < |objs| ensures WholeBlocks(objs[i].size, block) {
      var g := objs[i].key.group.groupId;
      assert objs[i].size == models[m].groupBytes[g];
    }
  }

  /** Free and evictable bytes together cover `required`. */
  ghost predicate EnoughFor(es: seq<Extent>, active: int, required: nat) {
    FreeBytes(es) + BytesIn(Objects(es), Evictable(IndexOf(es).Keys, active)) >= required
  }

  /** In a pool of whole blocks, evicting everything leaves no fragment unused. */
  lemma {:induction false} WholeEnough(es: seq<Extent>, active: int, capacity: nat, block: nat)
    requires Sound(es, IndexOf(es), capacity) && Blocked(es, block)
    ensures BlockBytes(es, block) == FreeBytes(es)
    ensures forall required: nat :: EnoughFor(es, active, required) <==> BlockBytes(Exhausted(es, active), block) >= required
  {
    BlocksFree(es, block);
    BlocksEvict(es, Evictable(IndexOf(es).Keys, active), block);
    BlocksFree(Exhausted(es, active), block);
    ExhaustedFree(es, active, capacity);
  }

  /** With the whole model resident, everything else is free or evictable. */
  lemma {:induction false} RoomBesideModel(models: Models, es: seq<Extent>, capacity: nat, m: int)
    requires Sound(es, IndexOf(es), capacity) && SizesMatch(models, IndexOf(es))
    requires forall k :: k in IndexOf(es) ==> k.Weight?
    requires AllResident(models, IndexOf(es), m)
    ensures FreeBytes(es) + BytesIn(Objects(es), Evictable(IndexOf(es).Keys, m)) + FullBytes(models, m) == capacity
  {
    PoolParts(models, es, capacity, m);
    ResidentBytes(models, es, capacity, m, GroupCount(models, m));
  }
}
