/** Dealing KV blocks out of the free extents, from low to high addresses
    (evaluation/tensor_simulator/tensor_sim_segment_backend.py). */
module SegmentKv {
  import opened Common
  import opened SegmentExtents
  import opened SegmentReclaim

  /** The KV extents numbered from `lo` up to `hi`. */
  function KvRange(lo: nat, hi: nat): set<PoolKey> {
    set i: nat | lo <= i < hi :: Kv(i)
  }

  lemma {:induction false} KvRangeGrows(lo: nat, hi: nat)
    requires lo <= hi
    ensures KvRange(lo, hi + 1) == KvRange(lo, hi) + {Kv(hi)}
    ensures Kv(hi) !in KvRange(lo, hi)
  {
  }

  lemma {:induction false} BlockBytesAppend(a: seq<Extent>, b: seq<Extent>, block: nat)
    requires block > 0
    ensures BlockBytes(a + b, block) == BlockBytes(a, block) + BlockBytes(b, block)
  {
    if b == [] {
      assert a + b == a;
    } else {
      FrontAppend(a, b);
      BlockBytesAppend(a, Front(b), block);
    }
  }

  lemma {:induction false} BlockBytesFrom(es: seq<Extent>, i: nat, block: nat)
    requires i < |es| && block > 0
    ensures BlockBytes(es[i..], block) ==
      (if es[i].key.None? then Aligned(es[i].size, block) else 0) + BlockBytes(es[i + 1..], block)
  {
    assert es[i..] == [es[i]] + es[i + 1..];
    BlockBytesAppend([es[i]], es[i + 1..], block);
    Snoc([], es[i]);
  }

  ghost predicate AllWhole(index: map<PoolKey, Extent>, keys: set<PoolKey>, block: nat)
    requires block > 0
  {
    forall k :: k in keys ==> k in index && WholeBlocks(index[k].size, block)
  }

  /** KV extents `lo..hi` have been placed below position `i`; `remaining` bytes are
      still wanted and the rest of the pool has blocks for them. */
  ghost predicate Dealing(
    es0: seq<Extent>, es: seq<Extent>, index: map<PoolKey, Extent>, capacity: nat, block: nat,
    i: nat, required: nat, remaining: nat, lo: nat, hi: nat)
    requires block > 0
  {
    && Sound(es, index, capacity) && i <= |es| && lo <= hi
    && remaining <= BlockBytes(es[i..], block)
    && index.Keys == IndexOf(es0).Keys + KvRange(lo, hi)
    && Without(Objects(es), KvRange(lo, hi)) == Objects(es0)
    && UsedBytes(es) + remaining == UsedBytes(es0) + required
    && (WholeBlocks(required, block) ==> WholeBlocks(remaining, block) && AllWhole(index, KvRange(lo, hi), block))
    && Keeps(IndexOf(es0), index)
  }

  ghost predicate Keeps(before: map<PoolKey, Extent>, after: map<PoolKey, Extent>) {
    forall k :: k in before ==> k in after && after[k] == before[k]
  }

  lemma {:induction false} DealStart(es: seq<Extent>, capacity: nat, block: nat, required: nat, lo: nat)
    requires block > 0 && Sound(es, IndexOf(es), capacity) && required <= BlockBytes(es, block)
    ensures Dealing(es, es, IndexOf(es), capacity, block, 0, required, required, lo, lo)
  {
    assert es[0..] == es;
    assert KvRange(lo, lo) == {};
    WithoutNone(Objects(es), {});
  }

  /** An extent without a free block is passed over. */
  lemma {:induction false} DealPast(
    es0: seq<Extent>, es: seq<Extent>, index: map<PoolKey, Extent>, capacity: nat, block: nat,
    i: nat, required: nat, remaining: nat, lo: nat, hi: nat)
    requires block > 0 && Dealing(es0, es, index, capacity, block, i, required, remaining, lo, hi) && i < |es|
    requires es[i].key.Some? || Aligned(es[i].size, block) == 0
    ensures Dealing(es0, es, index, capacity, block, i + 1, required, remaining, lo, hi)
  {
    BlockBytesFrom(es, i, block);
  }

  function Dealt(size: nat, remaining: nat, block: nat): nat
    requires block > 0
  {
    if remaining <= Aligned(size, block) then remaining else Aligned(size, block)
  }

  lemma {:induction false} DealtFacts(size: nat, remaining: nat, block: nat)
    requires block > 0
    ensures Dealt(size, remaining, block) <= size && Dealt(size, remaining, block) <= remaining
    ensures WholeBlocks(remaining, block) ==>
      WholeBlocks(Dealt(size, remaining, block), block) && WholeBlocks(remaining - Dealt(size, remaining, block), block)
  {
    AlignedFacts(size, block);
    var n := Dealt(size, remaining, block);
    AlignedAdds(n, remaining - n, block);
  }

  lemma {:induction false} PlaceTail(es: seq<Extent>, i: nat, key: PoolKey, size: nat)
    requires i < |es| && size <= es[i].size
    ensures var next := Place(es, i, key, size);
      i + |Split(es[i], key, size)| <= |next| && next[i + |Split(es[i], key, size)|..] == es[i + 1..]
    ensures |Place(es, i, key, size)| == |es| - 1 + |Split(es[i], key, size)|
  {
  }

  /** The pool and the next number after dealing blocks from position `i` on. */
  datatype Deal = Deal(extents: seq<Extent>, next: nat)

  function DealtPool(es: seq<Extent>, i: nat, remaining: nat, block: nat, next: nat): Deal
    requires block > 0
    decreases if i <= |es| then |es| - i else 0
  {
    if remaining == 0 || i >= |es| then Deal(es, next)
    else
      var n := Dealt(es[i].size, remaining, block);
      if es[i].key.Some? || n == 0 || n > es[i].size then DealtPool(es, i + 1, remaining, block, next)
      else
        PlaceTail(es, i, Kv(next), n);
        DealtPool(Place(es, i, Kv(next), n), i + |Split(es[i], Kv(next), n)|, remaining - n, block, next + 1)
  }

  lemma {:induction false} DealtPast(es: seq<Extent>, i: nat, remaining: nat, block: nat, next: nat)
    requires block > 0 && remaining > 0 && i < |es|
    requires es[i].key.Some? || Dealt(es[i].size, remaining, block) == 0
    ensures DealtPool(es, i, remaining, block, next) == DealtPool(es, i + 1, remaining, block, next)
  {
  }

  lemma {:induction false} DealtOne(es: seq<Extent>, i: nat, remaining: nat, block: nat, next: nat)
    requires block > 0 && remaining > 0 && i < |es| && es[i].key.None?
    requires 0 < Dealt(es[i].size, remaining, block) <= es[i].size
    ensures var n := Dealt(es[i].size, remaining, block);
      n <= remaining && DealtPool(es, i, remaining, block, next) ==
        DealtPool(Place(es, i, Kv(next), n), i + |Split(es[i], Kv(next), n)|, remaining - n, block, next + 1)
  {
    hide Aligned, Place, Split;
  }

  lemma {:induction false} DealtAll(es: seq<Extent>, i: nat, remaining: nat, block: nat, next: nat)
    requires block > 0 && (remaining == 0 || i >= |es|)
    ensures DealtPool(es, i, remaining, block, next) == Deal(es, next)
  {
  }

  /** Blocks are taken from the low end of a free extent. */
  lemma {:induction false} DealStep(
    es0: seq<Extent>, es: seq<Extent>, index: map<PoolKey, Extent>, capacity: nat, block: nat,
    i: nat, required: nat, remaining: nat, lo: nat, hi: nat)
    requires block > 0 && Dealing(es0, es, index, capacity, block, i, required, remaining, lo, hi) && i < |es|
    requires es[i].key.None? && remaining > 0 && Dealt(es[i].size, remaining, block) > 0
    requires Kv(hi) !in index
    ensures var n := Dealt(es[i].size, remaining, block);
      && n <= es[i].size && n <= remaining
      && Dealing(es0, Place(es, i, Kv(hi), n), index[Kv(hi) := Extent(es[i].offset, n, Some(Kv(hi)))], capacity, block,
                 i + |Split(es[i], Kv(hi), n)|, required, remaining - n, lo, hi + 1)
      && |Place(es, i, Kv(hi), n)| == |es| - 1 + |Split(es[i], Kv(hi), n)|
  {
    hide Place, Split, Aligned, BlockBytes, KvRange, Without, UsedBytes, Objects, Keeps, AllWhole, WholeBlocks, IndexOf, Tiles, Total;
    hide DistinctKeys;
    var n, key := Dealt(es[i].size, remaining, block), Kv(hi);
    DealtFacts(es[i].size, remaining, block);
    BlockBytesFrom(es, i, block);
    PlaceTail(es, i, key, n);
    PlacedSound(es, i, key, n, capacity);
    DealtIndex(IndexOf(es0), index, Extent(es[i].offset, n, Some(key)), lo, hi, block);
    DealtObjects(es0, es, i, key, n, lo, hi);
  }

  lemma {:induction false} DealtIndex(
    before: map<PoolKey, Extent>, index: map<PoolKey, Extent>, e: Extent, lo: nat, hi: nat, block: nat)
    requires block > 0 && lo <= hi && Kv(hi) !in index && Keeps(before, index)
    requires index.Keys == before.Keys + KvRange(lo, hi)
    ensures index[Kv(hi) := e].Keys == before.Keys + KvRange(lo, hi + 1)
    ensures AllWhole(index, KvRange(lo, hi), block) && WholeBlocks(e.size, block) ==>
      AllWhole(index[Kv(hi) := e], KvRange(lo, hi + 1), block)
    ensures Keeps(before, index[Kv(hi) := e])
  {
    KvRangeGrows(lo, hi);
  }

  lemma {:induction false} DealtObjects(es0: seq<Extent>, es: seq<Extent>, i: nat, key: PoolKey, n: nat, lo: nat, hi: nat)
    requires i < |es| && 0 < n <= es[i].size && lo <= hi && key == Kv(hi)
    requires Without(Objects(es), KvRange(lo, hi)) == Objects(es0)
    requires Without(Objects(Place(es, i, key, n)), {key}) == Objects(es)
    ensures Without(Objects(Place(es, i, key, n)), KvRange(lo, hi + 1)) == Objects(es0)
  {
    KvRangeGrows(lo, hi);
    WithoutTwice(Objects(Place(es, i, key, n)), {key}, KvRange(lo, hi));
    assert {key} + KvRange(lo, hi) == KvRange(lo, hi + 1);
  }

  /** At the end of the pool nothing is wanted any more. */
  lemma {:induction false} DealEnd(
    es0: seq<Extent>, es: seq<Extent>, index: map<PoolKey, Extent>, capacity: nat, block: nat,
    i: nat, required: nat, remaining: nat, lo: nat, hi: nat)
    requires block > 0 && Dealing(es0, es, index, capacity, block, i, required, remaining, lo, hi)
    requires remaining == 0 || i == |es|
    ensures remaining == 0
    ensures BytesIn(Objects(es), KvRange(lo, hi)) == required
  {
    if i == |es| {
      assert es[i..] == [];
    }
    WithoutFacts(Objects(es), KvRange(lo, hi));
  }
}
