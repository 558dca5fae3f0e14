/** What a planned request leads to, as a function of the pool it finds: which groups
    its reclaims cut, where its weights go, and what it costs
    (evaluation/tensor_simulator/tensor_sim_segment_backend.py). */
module SegmentOutcomes {
  import opened Common
  import opened SegmentExtents
  import opened SegmentReclaim
  import opened SegmentModels
  import opened SegmentEvictions
  import opened SegmentPartition
  import opened SegmentPacking
  import opened SegmentSteps
  import opened SegmentPool
  import opened SegmentShape
  import opened SegmentKv
  import opened SegmentRequests
  import opened SegmentPlans
  import Mckp

  /** What the planner is set up with, and the damage predicted for the request. */
  datatype Policy = Policy(
    replacement: Replacement, models: Models, rule: VictimRule, capacity: nat, block: nat, damage: Mckp.DamageFunction)

  // ------------------------------------------------------ cutting to prefixes

  /** The resident weights beyond the kept prefixes. */
  function Beyond(keys: set<PoolKey>, kept: map<int, nat>): set<PoolKey> {
    set k | k in keys && k.Weight? && k.group.modelId in kept && k.group.groupId >= kept[k.group.modelId]
  }

  function CutTo(es: seq<Extent>, kept: map<int, nat>): seq<Extent> {
    Evict(es, Beyond(IndexOf(es).Keys, kept))
  }

  /** Weights whose loss leaves these prefixes are the ones beyond them. */
  lemma {:induction false} LeavingIsBeyond(models: Models, keys: set<PoolKey>, gone: set<PoolKey>, kept: map<int, nat>)
    requires Known(models, keys) && gone <= keys && (forall k :: k in gone ==> k.Weight?)
    requires Prefixes(models, keys - gone, kept)
    ensures gone == Beyond(keys, kept)
  {
    forall k | k in keys && k.Weight? ensures k in gone <==> k in Beyond(keys, kept) {
      var m, g := k.group.modelId, k.group.groupId;
      assert k == Key(m, g);
      PrefixesAt(models, keys - gone, kept, m, g);
    }
  }

  lemma {:induction false} CutsTo(models: Models, es: seq<Extent>, gone: set<PoolKey>, kept: map<int, nat>)
    requires Known(models, IndexOf(es).Keys) && gone <= IndexOf(es).Keys && (forall k :: k in gone ==> k.Weight?)
    requires Prefixes(models, IndexOf(es).Keys - gone, kept)
    ensures Evict(es, gone) == CutTo(es, kept)
  {
    hide Evict, Prefixes, Known, Beyond;
    LeavingIsBeyond(models, IndexOf(es).Keys, gone, kept);
  }

  /** How many groups of each model are resident. */
  function Counts(models: Models, keys: set<PoolKey>): map<int, nat> {
    map m | m in models :: |ResidentIds(keys, m)|
  }

  lemma {:induction false} CountsAre(models: Models, keys: set<PoolKey>, prefix: map<int, nat>)
    requires Known(models, keys) && Prefixes(models, keys, prefix)
    ensures prefix == Counts(models, keys)
  {
    PrefixesAreShaped(models, keys, prefix);
    forall m | m in models ensures HoldsPrefix(keys, m, Counts(models, keys)[m]) {
      PrefixCounted(models, keys, m);
    }
    SamePrefixes(models, keys, prefix, Counts(models, keys));
  }

  /** Cutting to what is there cuts nothing. */
  lemma {:induction false} NothingCut(models: Models, es: seq<Extent>)
    requires Known(models, IndexOf(es).Keys) && AllPrefixShaped(models, IndexOf(es).Keys)
    ensures CutTo(es, Counts(models, IndexOf(es).Keys)) == es
  {
    hide Beyond, Known;
    var keys := IndexOf(es).Keys;
    forall m | m in models ensures HoldsPrefix(keys, m, Counts(models, keys)[m]) {
      PrefixCounted(models, keys, m);
    }
    assert keys - {} == keys;
    CutsTo(models, es, {}, Counts(models, keys));
  }

  /** The pool cut to some prefixes, if there are any to cut it to. */
  function CutIf(kept: Option<map<int, nat>>, es: seq<Extent>): Option<seq<Extent>> {
    if kept.None? then None else Some(CutTo(es, kept.value))
  }

  /** A step that succeeds exactly when there is a pool to reach, and reaches it. */
  ghost predicate Led(pool: Option<seq<Extent>>, now: seq<Extent>, ok: bool) {
    (ok <==> pool.Some?) && (ok ==> now == pool.value)
  }

  // ------------------------------------------------------- prefix reclaims

  /** The prefixes an exact plan keeps; nothing when there is none. */
  ghost function MckpKept(pol: Policy, keys: set<PoolKey>, active: int, required: int): Option<map<int, nat>> {
    var p := ProblemFor(pol.models, Counts(pol.models, keys), pol.damage);
    if required <= 0 then Some(Counts(pol.models, keys))
    else if exists choices :: Mckp.Planned(p, active, required, choices) then
      var choices :| Mckp.Planned(p, active, required, choices);
      Some(choices)
    else None
  }

  lemma {:induction false} MckpKeeps(pol: Policy, keys: set<PoolKey>, prefix: map<int, nat>, active: int, required: int, choices: map<int, nat>)
    requires Known(pol.models, keys) && Prefixes(pol.models, keys, prefix) && required > 0
    requires Mckp.Planned(ProblemFor(pol.models, prefix, pol.damage), active, required, choices)
    ensures MckpKept(pol, keys, active, required) == Some(choices)
  {
    hide Mckp.Planned, ProblemFor, Counts;
    CountsAre(pol.models, keys, prefix);
    var p := ProblemFor(pol.models, prefix, pol.damage);
    var other :| MckpKept(pol, keys, active, required) == Some(other) && Mckp.Planned(p, active, required, other);
    Mckp.PlanUnique(p, active, required, choices, other);
  }

  /** Keeping everything is what nothing required asks for. */
  lemma {:induction false} KeepsEverything(pol: Policy, es: seq<Extent>, active: int, required: int)
    requires Known(pol.models, IndexOf(es).Keys) && AllPrefixShaped(pol.models, IndexOf(es).Keys) && required <= 0
    ensures CutIf(MckpKept(pol, IndexOf(es).Keys, active, required), es) == Some(es)
  {
    hide Known, AllPrefixShaped, Counts, CutTo;
    NothingCut(pol.models, es);
  }

  /** What a feasible plan gives the reclaim to carry out. */
  lemma {:induction false} SolvedPlan(
    models: Models, es: seq<Extent>, capacity: nat, prefix: map<int, nat>, damage: Mckp.DamageFunction,
    active: int, required: int, plan: Mckp.Plan)
    requires Sound(es, IndexOf(es), capacity) && SizesMatch(models, IndexOf(es)) && Prefixes(models, IndexOf(es).Keys, prefix)
    requires var p := ProblemFor(models, prefix, damage);
      && Mckp.CheapestCover(p, active, plan.choices, required)
      && plan.plannedFreeBytes == Mckp.FreedTotal(p, active, plan.choices)
      && Mckp.ChosenWithin(p, Mckp.Victims(p, active), plan.choices)
      && plan.victimKeys == Mckp.VictimKeysOf(Mckp.Victims(p, active), p, plan.choices)
    ensures GoodPlan(models, es, plan, active, required)
  {
    hide Sound, SizesMatch, Prefixes, Mckp.FreedTotal, Mckp.VictimKeysOf, Mckp.ChosenWithin, Mckp.Admissible, ProblemFor;
    PlanOccupies(models, es, capacity, prefix, damage, active, plan.choices);
    PlanLeavesChoices(models, IndexOf(es).Keys, prefix, damage, active, plan.choices);
  }

  lemma {:induction false} PlanCuts(models: Models, es: seq<Extent>, plan: Mckp.Plan, active: int, required: int)
    requires SizesMatch(models, IndexOf(es)) && GoodPlan(models, es, plan, active, required)
    ensures Evict(es, WeightSet(plan.victimKeys)) == CutTo(es, plan.choices)
  {
    hide SizesMatch, Prefixes, Evict, CutTo, NoRepeats, WeightSet;
    SizesAreKnown(models, IndexOf(es));
    CutsTo(models, es, WeightSet(plan.victimKeys), plan.choices);
  }

  lemma {:induction false} ShrinkCuts(
    models: Models, es: seq<Extent>, now: seq<Extent>, index: map<PoolKey, Extent>, capacity: nat,
    prefixes: map<int, nat>, gone: set<PoolKey>, active: int, released: nat)
    requires Shrinking(models, es, now, index, capacity, prefixes, gone, active, released)
    ensures Evict(es, gone) == CutTo(es, prefixes)
  {
    hide Sound, SizesMatch, Prefixes, Evict, CutTo;
    SizesAreKnown(models, IndexOf(es));
    assert (IndexOf(es) - gone).Keys == IndexOf(es).Keys - gone;
    CutsTo(models, es, gone, prefixes);
  }

  /** A plan exists only where evicting everything else frees enough. */
  lemma {:induction false} MckpKeepsNothing(pol: Policy, keys: set<PoolKey>, prefix: map<int, nat>, active: int, required: int)
    requires Known(pol.models, keys) && Prefixes(pol.models, keys, prefix) && required > 0
    requires var p := ProblemFor(pol.models, prefix, pol.damage);
      Mckp.FreedTotal(p, active, Mckp.EvictAll(p, active)) < required
    ensures MckpKept(pol, keys, active, required) == None
  {
    hide Mckp.Planned, Counts, Mckp.EvictAll, Mckp.FreedBy;
    CountsAre(pol.models, keys, prefix);
    var p := ProblemFor(pol.models, prefix, pol.damage);
    PlannerBytes(pol.models, prefix, pol.damage);
    forall choices ensures !Mckp.Planned(p, active, required, choices) {
      if Mckp.Planned(p, active, required, choices) {
        Mckp.PlannedIsBest(p, active, required, choices);
        Mckp.EvictAllIsMost(p, active, Mckp.Victims(p, active), choices);
      }
    }
  }

  /** The reclaimable model no other is less recent than, ties to the smaller id. */
  ghost predicate LeastRecentModel(accesses: map<PoolKey, int>, prefixes: map<int, nat>, active: int, v: int) {
    && v in prefixes && v != active && prefixes[v] > 0
    && forall m :: m in prefixes && m != active && prefixes[m] > 0 ==> NoLater(accesses, prefixes, v, m)
  }

  ghost function LruVictimOf(accesses: map<PoolKey, int>, prefixes: map<int, nat>, active: int): Option<int> {
    if exists v :: LeastRecentModel(accesses, prefixes, active, v) then
      var v :| LeastRecentModel(accesses, prefixes, active, v);
      Some(v)
    else None
  }

  lemma {:induction false} LruVictimIs(accesses: map<PoolKey, int>, prefixes: map<int, nat>, active: int, v: int)
    requires LeastRecentModel(accesses, prefixes, active, v)
    ensures LruVictimOf(accesses, prefixes, active) == Some(v)
  {
    var w :| LruVictimOf(accesses, prefixes, active) == Some(w) && LeastRecentModel(accesses, prefixes, active, w);
    assert NoLater(accesses, prefixes, v, w) && NoLater(accesses, prefixes, w, v);
  }

  /** A model used before the victim found so far takes its place. */
  lemma {:induction false} NewLeastRecent(
    accesses: map<PoolKey, int>, prefixes: map<int, nat>, seen: set<int>, active: int, v: Option<int>, m: int)
    requires m in prefixes && seen <= prefixes.Keys
    requires v.None? ==> forall x :: x in seen && x != active ==> prefixes[x] == 0
    requires v.Some? ==>
      && v.value in prefixes && !NoLater(accesses, prefixes, v.value, m)
      && forall x :: x in seen && x != active && prefixes[x] > 0 ==> NoLater(accesses, prefixes, v.value, x)
    ensures forall x :: x in seen + {m} && x != active && prefixes[x] > 0 ==> NoLater(accesses, prefixes, m, x)
  {
    hide Recency;
  }

  /** The prefixes left when least recently used models give up their last groups. */
  ghost function LruKept(models: Models, accesses: map<PoolKey, int>, prefixes: map<int, nat>, active: int, needed: nat)
    : Option<map<int, nat>>
    decreases needed
  {
    if needed == 0 then Some(prefixes)
    else
      var v := LruVictimOf(accesses, prefixes, active);
      if v.None? || v.value !in prefixes || prefixes[v.value] == 0 then None
      else
        var size := SizeOf(models, v.value, prefixes[v.value] - 1);
        if size == 0 then None
        else LruKept(models, accesses, prefixes[v.value := prefixes[v.value] - 1], active, Max(0, needed - size))
  }

  lemma {:induction false} LruNext(models: Models, accesses: map<PoolKey, int>, prefixes: map<int, nat>, active: int, needed: nat, v: int)
    requires needed > 0 && LeastRecentModel(accesses, prefixes, active, v) && SizeOf(models, v, prefixes[v] - 1) > 0
    ensures LruKept(models, accesses, prefixes, active, needed)
      == LruKept(models, accesses, prefixes[v := prefixes[v] - 1], active, Max(0, needed - SizeOf(models, v, prefixes[v] - 1)))
  {
    LruVictimIs(accesses, prefixes, active, v);
  }

  lemma {:induction false} LruDone(models: Models, accesses: map<PoolKey, int>, prefixes: map<int, nat>, active: int)
    ensures LruKept(models, accesses, prefixes, active, 0) == Some(prefixes)
  {
  }

  lemma {:induction false} LruOut(models: Models, accesses: map<PoolKey, int>, prefixes: map<int, nat>, active: int, needed: nat)
    requires needed > 0 && forall m :: m in prefixes && m != active ==> prefixes[m] == 0
    ensures LruKept(models, accesses, prefixes, active, needed) == None
  {
  }

  /** The prefixes a reclaim leaves. */
  ghost function KeptBy(pol: Policy, accesses: map<PoolKey, int>, keys: set<PoolKey>, active: int, required: int)
    : Option<map<int, nat>>
  {
    if pol.replacement == MckpPrefix then MckpKept(pol, keys, active, required)
    else LruKept(pol.models, accesses, Counts(pol.models, keys), active, Max(0, required))
  }

  /** The pool a prefix reclaim leaves. */
  ghost function ReclaimedPool(pol: Policy, accesses: map<PoolKey, int>, active: int, required: int, es: seq<Extent>)
    : Option<seq<Extent>>
  {
    CutIf(KeptBy(pol, accesses, IndexOf(es).Keys, active, required), es)
  }

  /** The pool an eviction loop ends in. */
  ghost function EvictedPool(pol: Policy, accesses: map<PoolKey, int>, active: int, goal: Goal, es: seq<Extent>): Option<seq<Extent>> {
    var e := EvictUntil(pol.rule, accesses, active, goal, es);
    if e.None? then None else Some(e.value.extents)
  }

  // ------------------------------------------------------ room for KV blocks

  /** Reclaiming until whole blocks suffice: enough, or nothing left, or bytes that
      make no block. */
  datatype BlockSearch = Found(extents: seq<Extent>) | TooLittle | NoBlocks

  ghost predicate FoundAs(search: BlockSearch, now: seq<Extent>, r: Reclaim) {
    match search
    case Found(es) => r.Reclaimed? && now == es
    case TooLittle => r == Refused(CannotReclaim)
    case NoBlocks => r == Refused(KvStuck)
  }

  ghost function BlockReclaim(pol: Policy, accesses: map<PoolKey, int>, active: int, required: nat, es: seq<Extent>): BlockSearch
    requires pol.block > 0
    decreases Max(0, required - BlockBytes(es, pol.block))
  {
    var before := BlockBytes(es, pol.block);
    if before >= required then Found(es)
    else
      var after := ReclaimedPool(pol, accesses, active, required - before, es);
      if after.None? then TooLittle
      else if BlockBytes(after.value, pol.block) <= before then NoBlocks
      else BlockReclaim(pol, accesses, active, required, after.value)
  }

  lemma {:induction false} BlockReclaimNext(
    pol: Policy, accesses: map<PoolKey, int>, active: int, required: nat, es: seq<Extent>, after: Option<seq<Extent>>)
    requires pol.block > 0 && BlockBytes(es, pol.block) < required
    requires after == ReclaimedPool(pol, accesses, active, required - BlockBytes(es, pol.block), es)
    ensures BlockReclaim(pol, accesses, active, required, es) ==
      if after.None? then TooLittle
      else if BlockBytes(after.value, pol.block) <= BlockBytes(es, pol.block) then NoBlocks
      else BlockReclaim(pol, accesses, active, required, after.value)
  {
    hide ReclaimedPool, BlockBytes;
  }

  lemma {:induction false} BlocksFound(pol: Policy, accesses: map<PoolKey, int>, active: int, required: nat, es: seq<Extent>)
    requires pol.block > 0 && BlockBytes(es, pol.block) >= required
    ensures BlockReclaim(pol, accesses, active, required, es) == Found(es)
  {
    hide ReclaimedPool, BlockBytes;
  }

  /** The pool the first loop of `_allocate_kv_blocks` ends in. */
  ghost function BlocksFor(pol: Policy, accesses: map<PoolKey, int>, active: int, required: nat, es: seq<Extent>): BlockSearch
    requires pol.block > 0
  {
    if pol.replacement != OneByOne then BlockReclaim(pol, accesses, active, required, es)
    else
      var pool := EvictedPool(pol, accesses, active, Blocks(pol.block, required), es);
      if pool.None? then TooLittle else Found(pool.value)
  }

  /** The pool in which the KV cache is placed: a prefix policy reclaims once before
      the loop. */
  ghost function KvPool(pol: Policy, accesses: map<PoolKey, int>, active: int, required: nat, es: seq<Extent>): BlockSearch
    requires pol.block > 0
  {
    if pol.replacement == OneByOne then BlocksFor(pol, accesses, active, required, es)
    else
      var first := ReclaimedPool(pol, accesses, active, Max(0, required - BlockBytes(es, pol.block)), es);
      if first.None? then TooLittle else BlocksFor(pol, accesses, active, required, first.value)
  }

  // ------------------------------------------------------------- the weights

  /** The missing groups of the first `t` tensors, each once, in order. */
  function MissingList(models: Models, keys: set<PoolKey>, m: int, t: nat): seq<Object>
    requires m in models && models[m].WellFormed() && t <= |models[m].tensorGroup|
  {
    if t == 0 then []
    else
      var before, g := MissingList(models, keys, m, t - 1), models[m].tensorGroup[t - 1];
      if Key(m, g) in KeySet(before) || Key(m, g) in keys then before
      else before + [Object(Key(m, g), models[m].groupBytes[g])]
  }

  /** The groups of a list come in ascending order. */
  ghost predicate Ascending(m: int, objs: seq<Object>) {
    && (forall i :: 0 <= i < |objs| ==> objs[i].key.Weight? && objs[i].key.group.modelId == m)
    && forall i, j :: 0 <= i < j < |objs| ==> objs[i].key.group.groupId < objs[j].key.group.groupId
  }

  lemma {:induction false} MissingAscends(models: Models, keys: set<PoolKey>, m: int, t: nat)
    requires m in models && models[m].WellFormed() && t <= |models[m].tensorGroup|
    ensures var objs := MissingList(models, keys, m, t);
      && Ascending(m, objs)
      && forall i :: 0 <= i < |objs| ==> t > 0 && objs[i].key.group.groupId <= models[m].tensorGroup[t - 1]
  {
    hide KeySet;
    if t > 0 {
      var before, g := MissingList(models, keys, m, t - 1), models[m].tensorGroup[t - 1];
      MissingAscends(models, keys, m, t - 1);
      if Key(m, g) !in KeySet(before) {
        forall i | 0 <= i < |before| ensures before[i].key.group.groupId < g {
          KeyOccurs(before, i);
          assert before[i].key != Key(m, g);
        }
      }
    }
  }

  function AllMissing(models: Models, keys: set<PoolKey>, m: int): seq<Object>
    requires m in models && models[m].WellFormed()
  {
    MissingList(models, keys, m, |models[m].tensorGroup|)
  }

  /** The pool with room for the missing groups, and with a prefix policy for the KV
      cache as well. */
  ghost function RoomyPool(pol: Policy, accesses: map<PoolKey, int>, m: int, size: nat, kvBytes: nat, es: seq<Extent>): Option<seq<Extent>> {
    if pol.replacement == OneByOne then EvictedPool(pol, accesses, m, Room(pol.capacity, size), es)
    else ReclaimedPool(pol, accesses, m, Max(0, size + kvBytes - FreeBytes(es)), es)
  }

  /** What evicting from one pool to another costs. */
  function Loss(before: seq<Extent>, after: seq<Extent>): LoadCost {
    Evicted(Max(0, Held(before) - Held(after)), Lost(before, after))
  }

  lemma {:induction false} ReleaseIsLoss(r: Reclaim, before: seq<Extent>, after: seq<Extent>)
    requires Releases(r, before, after)
    ensures Loss(before, after) == Evicted(r.evictedObjects, r.evictedBytes)
  {
  }

  /** The pool with the weights in place, what was evicted for them and what moved. */
  datatype WeightsStep = WeightsStep(extents: seq<Extent>, evicted: LoadCost, moved: nat)

  ghost function WeightsOf(pol: Policy, accesses: map<PoolKey, int>, m: int, ordered: seq<Object>, kvBytes: nat, es: seq<Extent>)
    : Option<WeightsStep>
  {
    if ordered == [] then Some(WeightsStep(es, NO_COST, 0))
    else
      var room := RoomyPool(pol, accesses, m, SumSizes(ordered), kvBytes, es);
      if room.None? then None
      else Some(WeightsStep(PackedPool(room.value, ordered), Loss(es, room.value), PackedMoves(room.value, ordered)))
  }

  ghost predicate PlacedAs(step: Option<WeightsStep>, now: seq<Extent>, r: Reclaim, moved: nat) {
    && (r.Reclaimed? <==> step.Some?)
    && (r.Reclaimed? ==> step.value == WeightsStep(now, Evicted(r.evictedObjects, r.evictedBytes), moved))
  }

  // --------------------------------------------------------- whole requests

  /** What planning a request leads to. */
  ghost function PlanOf(pol: Policy, accesses: map<PoolKey, int>, m: int, kvBytes: nat, es: seq<Extent>): Planning
    requires pol.block > 0 && m in pol.models && pol.models[m].WellFormed()
  {
    var weights := WeightsOf(pol, accesses, m, AllMissing(pol.models, IndexOf(es).Keys, m), kvBytes, es);
    if weights.None? then Rejected(WeightStage)
    else
      var kv := KvPool(pol, accesses, m, kvBytes, weights.value.extents);
      if !kv.Found? then Rejected(KvStage)
      else Planned(AddCost(weights.value.evicted, Loss(weights.value.extents, kv.extents)), weights.value.moved)
  }

  /** What serving a request leads to, and what it costs. */
  ghost function ServingOf(pol: Policy, accesses: map<PoolKey, int>, m: int, kvBytes: nat, es: seq<Extent>): Serving
    requires pol.block > 0 && m in pol.models && pol.models[m].WellFormed()
  {
    var plan := PlanOf(pol, accesses, m, kvBytes, es);
    if plan.Rejected? then Unserved(plan.stage)
    else Served(plan.cost.(h2dBytes := SumSizes(AllMissing(pol.models, IndexOf(es).Keys, m)), movedBytes := plan.moved))
  }

  /** The pool a planned request leaves, and the next KV extent's number. */
  ghost function PlannedPool(pol: Policy, accesses: map<PoolKey, int>, m: int, kvBytes: nat, es: seq<Extent>, next: nat): Deal
    requires pol.block > 0 && m in pol.models && pol.models[m].WellFormed()
  {
    var weights := WeightsOf(pol, accesses, m, AllMissing(pol.models, IndexOf(es).Keys, m), kvBytes, es);
    if weights.None? then Deal(es, next)
    else
      var kv := KvPool(pol, accesses, m, kvBytes, weights.value.extents);
      if !kv.Found? then Deal(weights.value.extents, next) else DealtPool(kv.extents, 0, kvBytes, pol.block, next)
  }

  /** Everything a request can change. */
  datatype PlannerState = PlannerState(
    pool: PoolState, kvKeys: set<PoolKey>, nextKvExtentId: nat, pendingKvBytes: nat, plannedLoads: map<PoolKey, LoadCost>)

  /** The state a served request leaves. */
  ghost function ServedState(pol: Policy, before: PlannerState, m: int, kvBytes: nat, moved: nat): PlannerState
    requires pol.block > 0 && m in pol.models && pol.models[m].WellFormed()
  {
    var es, groups := Evict(before.pool.extents, before.kvKeys), pol.models[m].tensorGroup;
    var deal := PlannedPool(pol, before.pool.accesses, m, kvBytes, es, before.nextKvExtentId);
    var accesses := TouchedAll(before.pool.accesses, before.pool.clock, m, groups, |groups|);
    PlannerState(
      PoolState(pol.capacity, deal.extents, before.pool.compactions + Compactions(moved), before.pool.clock + |groups|, accesses),
      KvKeysIn(IndexOf(deal.extents).Keys), deal.next, 0, map[])
  }

  /** A request that moves something compacts once. */
  function Compactions(moved: nat): (n: nat)
    ensures n <= 1 && (n == 1 <==> moved > 0)
  {
    if moved > 0 then 1 else 0
  }
}
