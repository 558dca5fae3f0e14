/** Where a prefix policy gives up on whole KV blocks although the bytes are there: a
    pool whose last groups lie scattered between the active model's
    (evaluation/tensor_simulator/tensor_sim_segment_backend.py). */
module SegmentFragments {
  import opened Common
  import opened SegmentExtents
  import opened SegmentReclaim
  import opened SegmentModels
  import opened SegmentEvictions
  import opened SegmentSteps
  import opened SegmentPool
  import opened SegmentShape
  import opened SegmentKv
  import opened SegmentPlans
  import opened SegmentBlocks
  import opened SegmentOutcomes
  import opened SegmentPlanner
  import opened SegmentThrift
  import Mckp
  import MckpSole

  // ------------------------------------------------------------- the pool

  /** Model 0: one group of a whole block, then `n` groups of one byte. */
  function Scattered(n: nat, block: nat): SegmentModel {
    SegmentModel([block] + seq(n, i => 1), seq(n + 1, i => i))
  }

  /** Model 1, the active one: `n` groups of one byte. */
  function Active(n: nat): SegmentModel {
    SegmentModel(seq(n, i => 1), seq(n, i => i))
  }

  function TwoModels(n: nat, block: nat): Models {
    map[0 := Scattered(n, block), 1 := Active(n)]
  }

  lemma {:induction false} TwoWellFormed(n: nat, block: nat)
    requires block > 0
    ensures AllWellFormed(TwoModels(n, block))
  {
    forall m | m in TwoModels(n, block) ensures TwoModels(n, block)[m].WellFormed() {
      var model := TwoModels(n, block)[m];
      forall g | 0 <= g < |model.groupBytes| ensures g in model.tensorGroup {
        assert model.tensorGroup[g] == g;
      }
    }
  }

  /** The block group first, then one-byte groups of the two models in turn. */
  function Strip(n: nat, block: nat): seq<Extent> {
    if n == 0 then [Extent(0, block, Some(Key(0, 0)))]
    else
      var at := block + 2 * (n - 1);
      Strip(n - 1, block) + [Extent(at, 1, Some(Key(1, n - 1))), Extent(at + 1, 1, Some(Key(0, n)))]
  }

  /** Prefixes of the two models. */
  function Keeping(q: nat, n: nat): map<int, nat> {
    map[0 := q, 1 := n]
  }

  lemma {:induction false} TwoMore(es: seq<Extent>, x: Extent, y: Extent)
    ensures es + [x, y] == (es + [x]) + [y]
    ensures Front(es + [x, y]) == es + [x] && Last(es + [x, y]) == y
    ensures Front(es + [x]) == es && Last(es + [x]) == x
  {
  }

  lemma {:induction false} StripKeys(n: nat, block: nat)
    ensures forall k :: k in IndexOf(Strip(n, block)) <==>
      k.Weight? && ((k.group.modelId == 0 && k.group.groupId <= n) || (k.group.modelId == 1 && k.group.groupId < n))
    ensures forall k :: k in IndexOf(Strip(n, block)) ==>
      IndexOf(Strip(n, block))[k].size == if k == Key(0, 0) then block else 1
  {
    if n == 0 {
      Snoc([], Extent(0, block, Some(Key(0, 0))));
    } else {
      var at := block + 2 * (n - 1);
      StripKeys(n - 1, block);
      TwoMore(Strip(n - 1, block), Extent(at, 1, Some(Key(1, n - 1))), Extent(at + 1, 1, Some(Key(0, n))));
    }
  }

  lemma {:induction false} StripSound(n: nat, block: nat)
    requires block > 0
    ensures Sound(Strip(n, block), IndexOf(Strip(n, block)), block + 2 * n)
  {
    if n == 0 {
      OneAdded([], Extent(0, block, Some(Key(0, 0))), 0);
      assert [] + Strip(n, block) == Strip(n, block);
    } else {
      var at := block + 2 * (n - 1);
      var shorter, x, y := Strip(n - 1, block), Extent(at, 1, Some(Key(1, n - 1))), Extent(at + 1, 1, Some(Key(0, n)));
      hide Sound, IndexOf;
      StripSound(n - 1, block);
      StripKeys(n - 1, block);
      OneAdded(shorter, x, at);
      OneAdded(shorter + [x], y, at + 1);
      TwoMore(shorter, x, y);
    }
  }

  lemma {:induction false} OneAdded(es: seq<Extent>, e: Extent, capacity: nat)
    requires Sound(es, IndexOf(es), capacity) && e.offset == capacity && e.size > 0
    requires e.key.Some? && e.key.value !in IndexOf(es)
    ensures Sound(es + [e], IndexOf(es + [e]), capacity + e.size)
    ensures IndexOf(es + [e]).Keys == IndexOf(es).Keys + {e.key.value}
  {
    TilesSnoc(es, e, 0);
    Snoc(es, e);
    IndexKeys(es);
    Snoc(Objects(es), Object(e.key.value, e.size));
  }

  lemma {:induction false} StripShape(n: nat, block: nat)
    ensures Known(TwoModels(n, block), IndexOf(Strip(n, block)).Keys)
    ensures Prefixes(TwoModels(n, block), IndexOf(Strip(n, block)).Keys, Keeping(n + 1, n))
    ensures SizesMatch(TwoModels(n, block), IndexOf(Strip(n, block)))
  {
    StripKeys(n, block);
  }

  /** Cut to a prefix of model 0 that keeps the block group, the strip has no free
      block: each free byte lies alone. Cut to nothing, it has one. */
  lemma {:induction false} StripBlocks(n: nat, block: nat, q: nat)
    requires block > 1
    ensures BlockBytes(CutTo(Strip(n, block), Keeping(q, n)), block) == if q == 0 then block else 0
  {
    hide Strip, MarkFree, Coalesced, BlockBytes;
    var ks := Beyond(IndexOf(Strip(n, block)).Keys, Keeping(q, n));
    StripKeys(n, block);
    Alone(n, block, ks);
    if ks == {} {
      MarkNothing(Strip(n, block), ks);
      assert Key(0, 0) !in ks;
    }
    assert Key(0, 0) in ks <==> q == 0;
  }

  /** Without touching the active model's groups, no two extents are freed side by side. */
  lemma {:induction false} Alone(n: nat, block: nat, ks: set<PoolKey>)
    requires block > 1 && forall k :: k in ks ==> k.Weight? && k.group.modelId == 0
    ensures Coalesced(MarkFree(Strip(n, block), ks)) == MarkFree(Strip(n, block), ks)
    ensures BlockBytes(MarkFree(Strip(n, block), ks), block) == if Key(0, 0) in ks then block else 0
  {
    hide MarkFree, Coalesced, BlockBytes, Strip;
    StripFirst(block);
    if n == 0 {
      AloneFirst(Extent(0, block, Some(Key(0, 0))), ks, block);
    } else {
      StripNext(n, block);
      var at := block + 2 * (n - 1);
      var shorter, x, y := Strip(n - 1, block), Extent(at, 1, Some(Key(1, n - 1))), Extent(at + 1, 1, Some(Key(0, n)));
      Alone(n - 1, block, ks);
      AloneStep(shorter, x, y, ks, block);
    }
  }

  lemma {:induction false} StripFirst(block: nat)
    ensures Strip(0, block) == [Extent(0, block, Some(Key(0, 0)))]
  {
  }

  lemma {:induction false} StripNext(n: nat, block: nat)
    requires n > 0
    ensures var at := block + 2 * (n - 1);
      Strip(n, block) == Strip(n - 1, block) + [Extent(at, 1, Some(Key(1, n - 1))), Extent(at + 1, 1, Some(Key(0, n)))]
  {
  }

  lemma {:induction false} AloneFirst(e: Extent, ks: set<PoolKey>, block: nat)
    requires block > 1 && e.size == block && e.key.Some?
    ensures Coalesced(MarkFree([e], ks)) == MarkFree([e], ks)
    ensures BlockBytes(MarkFree([e], ks), block) == if e.key.value in ks then block else 0
  {
    Snoc([], e);
    Snoc([], Cleared(e, ks));
    AlignedOnce(block);
  }

  lemma {:induction false} AloneStep(es: seq<Extent>, x: Extent, y: Extent, ks: set<PoolKey>, block: nat)
    requires block > 1 && x.key.Some? && x.key.value !in ks && y.size == 1
    requires Coalesced(MarkFree(es, ks)) == MarkFree(es, ks)
    ensures Coalesced(MarkFree(es + [x, y], ks)) == MarkFree(es + [x, y], ks)
    ensures BlockBytes(MarkFree(es + [x, y], ks), block) == BlockBytes(MarkFree(es, ks), block)
  {
    TwoMore(es, x, y);
    var freed, last := MarkFree(es, ks), Cleared(y, ks);
    assert MarkFree(es + [x], ks) == freed + [x];
    assert MarkFree(es + [x, y], ks) == freed + [x] + [last];
    Snoc(freed, x);
    Snoc(freed + [x], last);
    assert Coalesced(freed + [x]) == freed + [x];
  }

  lemma {:induction false} AlignedOnce(block: nat)
    requires block > 0
    ensures Aligned(block, block) == block
  {
    assert Aligned(0, block) == 0;
  }

  // -------------------------------------------------------- the reclaims

  /** Every group given up costs one millisecond. */
  function PerGroup(m: int, held: nat, kept: nat): real {
    if kept < held then (held - kept) as real else 0.0
  }

  lemma {:induction false} ScatteredBytes(n: nat, block: nat, p: nat)
    requires p <= n + 1
    ensures PrefixBytes(TwoModels(n, block), 0, p) == if p == 0 then 0 else block + p - 1
  {
    if p > 0 {
      ScatteredBytes(n, block, p - 1);
    }
  }

  lemma {:induction false} ScatteredSize(n: nat, block: nat, g: nat)
    requires 1 <= g <= n
    ensures SizeOf(TwoModels(n, block), 0, g) == 1
  {
  }

  /** The exact policy gives up as many one-byte groups as bytes are required. */
  lemma {:induction false} MckpTakes(n: nat, block: nat, q: nat, required: nat)
    requires 0 < required < q <= n + 1
    ensures var p := ProblemFor(TwoModels(n, block), Keeping(q, n), PerGroup);
      Mckp.Planned(p, 1, required, Keeping(q - required, n))
  {
    hide Mckp.Planned, Mckp.FreedTotal, PrefixBytes, TwoModels;
    var p := ProblemFor(TwoModels(n, block), Keeping(q, n), PerGroup);
    forall r: nat | r <= q ensures Mckp.OptionFor(p, 0, r).freedBytes == if r == 0 then PrefixBytes(TwoModels(n, block), 0, q) else q - r {
      ScatteredBytes(n, block, q);
      ScatteredBytes(n, block, r);
    }
    assert MckpSole.BestCut(p, 0, required, q - required);
    MckpSole.SolePlan(p, 1, 0, required, q - required);
    assert p.resident[0 := q - required] == Keeping(q - required, n);
  }

  /** And so does the least recently used one. */
  lemma {:induction false} LruTakes(n: nat, block: nat, q: nat, required: nat, accesses: map<PoolKey, int>)
    requires required < q <= n + 1
    ensures LruKept(TwoModels(n, block), accesses, Keeping(q, n), 1, required) == Some(Keeping(q - required, n))
    decreases required
  {
    hide LruKept, Recency, TwoModels;
    if required == 0 {
      LruDone(TwoModels(n, block), accesses, Keeping(q, n), 1);
    } else {
      ScatteredSize(n, block, q - 1);
      assert LeastRecentModel(accesses, Keeping(q, n), 1, 0);
      LruNext(TwoModels(n, block), accesses, Keeping(q, n), 1, required, 0);
      assert Keeping(q, n)[0 := q - 1] == Keeping(q - 1, n);
      LruTakes(n, block, q - 1, required - 1, accesses);
    }
  }

  // ------------------------------------------------------------- giving up

  /** Cutting further than the strip was cut before. */
  lemma {:induction false} CutTwice(es: seq<Extent>, kept: map<int, nat>, further: map<int, nat>)
    requires further.Keys == kept.Keys && forall m :: m in kept ==> further[m] <= kept[m]
    ensures CutTo(CutTo(es, kept), further) == CutTo(es, further)
    ensures IndexOf(CutTo(es, kept)).Keys == IndexOf(es).Keys - Beyond(IndexOf(es).Keys, kept)
  {
    var keys := IndexOf(es).Keys;
    var first, second := Beyond(keys, kept), Beyond(keys - Beyond(keys, kept), further);
    EvictedIndex(es, first);
    EvictTwice(es, first, second);
    assert first + second == Beyond(keys, further);
  }

  /** A strip cut to `q` groups of model 0 still holds prefixes. */
  lemma {:induction false} CutShape(n: nat, block: nat, q: nat)
    requires q <= n + 1
    ensures var keys := IndexOf(CutTo(Strip(n, block), Keeping(q, n))).Keys;
      Known(TwoModels(n, block), keys) && Prefixes(TwoModels(n, block), keys, Keeping(q, n))
  {
    StripKeys(n, block);
    CutTwice(Strip(n, block), Keeping(q, n), Keeping(q, n));
  }

  /** Either prefix policy takes exactly the last `required` groups of model 0. */
  lemma {:induction false} PrefixTakes(pol: Policy, accesses: map<PoolKey, int>, n: nat, q: nat, required: nat)
    requires pol.replacement != OneByOne && pol.models == TwoModels(n, pol.block) && pol.damage == PerGroup
    requires 0 < required < q <= n + 1
    ensures ReclaimedPool(pol, accesses, 1, required, CutTo(Strip(n, pol.block), Keeping(q, n)))
      == Some(CutTo(Strip(n, pol.block), Keeping(q - required, n)))
  {
    hide CutTo, Strip, TwoModels, MckpKept, LruKept, Counts, Prefixes, Known, Mckp.Planned, ProblemFor;
    var es := CutTo(Strip(n, pol.block), Keeping(q, n));
    CutShape(n, pol.block, q);
    CountsAre(pol.models, IndexOf(es).Keys, Keeping(q, n));
    if pol.replacement == MckpPrefix {
      MckpTakes(n, pol.block, q, required);
      MckpKeeps(pol, IndexOf(es).Keys, Keeping(q, n), 1, required, Keeping(q - required, n));
    } else {
      LruTakes(n, pol.block, q, required, accesses);
    }
    CutTwice(Strip(n, pol.block), Keeping(q, n), Keeping(q - required, n));
  }

  /** Wanting one block, a prefix policy reclaims a block's worth of scattered bytes
      twice, sees no whole block, and gives up: although the bytes are there, and
      although evicting everything would have freed the block. */
  lemma {:induction false} Scatters(pol: Policy, accesses: map<PoolKey, int>, n: nat)
    requires pol.replacement != OneByOne && pol.models == TwoModels(n, pol.block) && pol.damage == PerGroup
    requires pol.block > 1 && n >= 2 * pol.block
    ensures var es := Strip(n, pol.block);
      && KvPool(pol, accesses, 1, pol.block, es) == NoBlocks
      && EnoughFor(es, 1, pol.block) && BlockBytes(Exhausted(es, 1), pol.block) >= pol.block
  {
    hide CutTo, Strip, TwoModels, ReclaimedPool, BlockBytes, Evict, FreeBytes, BytesIn, BlockReclaim, Beyond, Keeping, IndexOf, Objects;
    var block, es := pol.block, Strip(n, pol.block);
    StripBlocks(n, block, n + 1);
    StripBlocks(n, block, n + 1 - block);
    StripBlocks(n, block, n + 1 - 2 * block);
    StripWhole(n, block);
    PrefixTakes(pol, accesses, n, n + 1, block);
    PrefixTakes(pol, accesses, n, n + 1 - block, block);
    var first := CutTo(es, Keeping(n + 1 - block, n));
    BlockReclaimNext(pol, accesses, 1, block, first, Some(CutTo(es, Keeping(n + 1 - 2 * block, n))));
  }

  /** What emptying the strip of model 0 frees, and that uncut it is the strip. */
  lemma {:induction false} StripWhole(n: nat, block: nat)
    requires block > 1
    ensures CutTo(Strip(n, block), Keeping(n + 1, n)) == Strip(n, block)
    ensures BlockBytes(Exhausted(Strip(n, block), 1), block) == block && EnoughFor(Strip(n, block), 1, block)
  {
    var es := Strip(n, block);
    StripKeys(n, block);
    StripSound(n, block);
    StripBlocks(n, block, 0);
    assert Beyond(IndexOf(es).Keys, Keeping(n + 1, n)) == {};
    assert Beyond(IndexOf(es).Keys, Keeping(0, n)) == Evictable(IndexOf(es).Keys, 1);
    IndexedSize(es, 0, Key(0, 0));
    BytesMonotone(Objects(es), {Key(0, 0)}, Evictable(IndexOf(es).Keys, 1));
  }

  /** A planner over such a pool, asked for one block: the reclaims succeed, and it
      ends with the error of a policy that cannot free whole blocks. */
  method GivesUp(n: nat, block: nat, replacement: Replacement, rule: VictimRule, costs: Costs) returns (r: Reclaim)
    requires block > 1 && n >= 2 * block && replacement != OneByOne && PicksCandidates(rule)
    requires costs.gpuCopyBytesPerMs > 0.0 && costs.h2dBytesPerMs > 0.0
    ensures r == Refused(KvStuck)
  {
    hide Sound, SizesMatch, PicksCandidates, AllWellFormed, Prefixes, KvPool, EnoughFor, BlockBytes, Strip;
    hide BlocksMade, BlocksLacking, KvPlaced, Exhausted;
    TwoWellFormed(n, block);
    StripSound(n, block);
    StripShape(n, block);
    StripKeys(n, block);
    PrefixesAreShaped(TwoModels(n, block), IndexOf(Strip(n, block)).Keys, Keeping(n + 1, n));
    var base := new SegmentMemory(TwoModels(n, block), block + 2 * n, rule, Never, costs);
    var pool := new MockAllocationSegmentMemory(base, replacement, block);
    base.extents := Strip(n, block);
    base.index := IndexOf(base.extents);
    pool.SetPrediction(PerGroup);
    pool.pendingKvBytes := block;
    Scatters(pool.Now(), base.lastAccess, n);
    ghost var room;
    r, room := pool.PlanKv(1);
  }
}
