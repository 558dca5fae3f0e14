/** The request-level planner on top of the segment pool: partitioned bin packing,
    KV blocks, prefix reclamation and whole requests
    (evaluation/tensor_simulator/tensor_sim_segment_backend.py). */
module SegmentPlanner {
  import opened Common
  import opened SegmentExtents
  import opened SegmentReclaim
  import opened SegmentModels
  import opened SegmentEvictions
  import opened SegmentPartition
  import opened SegmentPacking
  import opened SegmentSteps
  import opened SegmentPool
  import opened SegmentShape
  import opened SegmentKv
  import opened SegmentRequests
  import opened SegmentPlans
  import opened SegmentBlocks
  import opened SegmentOutcomes
  import opened SegmentThrift
  import Mckp

  class MockAllocationSegmentMemory {
    /** The extents and their bookkeeping, inherited from the segment pool. */
    const base: SegmentMemory
    const replacement: Replacement
    const kvBlockBytes: nat

    /** Predicted damage of shortening a model's prefix, set before each request. */
    var damage: Mckp.DamageFunction
    var kvKeys: set<PoolKey>
    var nextKvExtentId: nat
    var pendingKvBytes: nat
    /** Loading costs of the groups a plan has placed, until their tensors come up. */
    var plannedLoads: map<PoolKey, LoadCost>

    /** What holds at every step of a request. */
    ghost predicate Consistent()
      reads this, base
    {
      && base.Valid() && SizesMatch(base.models, base.index)
      && base.weightCapacityBytes == base.capacityBytes
      && kvBlockBytes > 0 && Mckp.Fair(damage)
      && KvNumbered(kvKeys, base.index.Keys, nextKvExtentId)
    }

    /** What the planner is set up with now. */
    ghost function Now(): Policy
      reads this`damage
    {
      Policy(replacement, base.models, base.rule, base.capacityBytes, kvBlockBytes, damage)
    }

    ghost function State(): PlannerState
      reads this, base
    {
      PlannerState(base.State(), kvKeys, nextKvExtentId, pendingKvBytes, plannedLoads)
    }

    constructor (base: SegmentMemory, replacement: Replacement, kvBlockBytes: nat)
      requires base.Ready() && base.weightCapacityBytes == base.capacityBytes && base.index == map[] && kvBlockBytes > 0
      ensures Consistent() && this.base == base && this.replacement == replacement && this.kvBlockBytes == kvBlockBytes
      ensures kvKeys == {} && pendingKvBytes == 0 && plannedLoads == map[]
    {
      this.base, this.replacement, this.kvBlockBytes := base, replacement, kvBlockBytes;
      damage := (m: int, held: nat, kept: nat) => 0.0;
      kvKeys, nextKvExtentId, pendingKvBytes, plannedLoads := {}, 0, 0, map[];
    }

    /** A planner in another one's state, over a pool in the same state. */
    constructor CopyOf(planner: MockAllocationSegmentMemory, base: SegmentMemory)
      requires planner.Consistent() && base.Valid() && base.index == planner.base.index
      requires base.Setup() == planner.base.Setup() && base.State() == planner.base.State()
      ensures Consistent() && this.base == base && Now() == planner.Now() && State() == planner.State()
    {
      this.base, this.replacement, this.kvBlockBytes := base, planner.replacement, planner.kvBlockBytes;
      damage := planner.damage;
      kvKeys, nextKvExtentId, pendingKvBytes := planner.kvKeys, planner.nextKvExtentId, planner.pendingKvBytes;
      plannedLoads := planner.plannedLoads;
    }

    /** `clone`, with the planner's own state and a fresh copy of the pool. */
    method Clone() returns (copy: MockAllocationSegmentMemory)
      requires Consistent()
      ensures fresh(copy) && fresh(copy.base) && copy.Consistent()
      ensures copy.Now() == Now() && copy.State() == State() && copy.base.index == base.index
    {
      var pool := base.Clone();
      copy := new MockAllocationSegmentMemory.CopyOf(this, pool);
    }

    method SetPrediction(damage: Mckp.DamageFunction)
      requires Mckp.Fair(damage)
      modifies this`damage
      ensures this.damage == damage
    {
      this.damage := damage;
    }

    // -------------------------------------------------- resident prefixes

    /** `resident_prefix_count`; nothing for groups that do not form a prefix. */
    method ResidentPrefixCount(m: int) returns (p: Option<nat>)
      requires SizesMatch(base.models, base.index)
      ensures p.Some? <==> PrefixShaped(base.index.Keys, m)
      ensures p.Some? ==> HoldsPrefix(base.index.Keys, m, p.value)
    {
      var ids := ResidentIds(base.index.Keys, m);
      SizesAreKnown(base.models, base.index);
      if ids == Initial(|ids|) {
        forall g: nat ensures Key(m, g) in base.index.Keys <==> g < |ids| {
          ResidentId(base.index.Keys, m, g);
        }
        p := Some(|ids|);
      } else {
        if PrefixShaped(base.index.Keys, m) {
          PrefixCounted(base.models, base.index.Keys, m);
        }
        p := None;
      }
    }

    /** `resident_suffix_start`; nothing for groups that do not form a suffix. */
    method ResidentSuffixStart(m: int) returns (start: Option<nat>)
      requires SizesMatch(base.models, base.index)
      ensures start.Some? ==> ResidentIds(base.index.Keys, m) == Range(start.value, GroupCount(base.models, m))
      ensures SuffixShaped(base.index.Keys, m, GroupCount(base.models, m), base.lastAccess) ==> start.Some?
    {
      var ids, n := ResidentIds(base.index.Keys, m), GroupCount(base.models, m);
      SizesAreKnown(base.models, base.index);
      if |ids| <= n && ids == Range(n - |ids|, n) {
        start := Some(n - |ids|);
      } else {
        if SuffixShaped(base.index.Keys, m, n, base.lastAccess) {
          SuffixCounted(base.models, base.index.Keys, m, base.lastAccess);
        }
        start := None;
      }
    }

    /** `resident_prefixes`, over all models. */
    method ResidentPrefixes() returns (r: Option<map<int, nat>>)
      requires SizesMatch(base.models, base.index)
      ensures r.Some? <==> AllPrefixShaped(base.models, base.index.Keys)
      ensures r.Some? ==> Prefixes(base.models, base.index.Keys, r.value)
    {
      var rest, counts: map<int, nat> := base.models.Keys, map[];
      while rest != {}
        invariant rest <= base.models.Keys && counts.Keys == base.models.Keys - rest
        invariant forall m :: m in counts ==> HoldsPrefix(base.index.Keys, m, counts[m])
        decreases rest
      {
        ghost var some := Member(rest);
        var m :| m in rest;
        var p := ResidentPrefixCount(m);
        if p.None? {
          return None;
        }
        counts := counts[m := p.value];
        rest := rest - {m};
      }
      PrefixesAreShaped(base.models, base.index.Keys, counts);
      r := Some(counts);
    }

    // -------------------------------------------------------- reclamation

    /** Free a list of victims, coalescing once at the end. */
    method FreeVictims(victims: seq<GroupKey>) returns (released: nat)
      requires base.Valid() && NoRepeats(victims) && forall k :: k in victims ==> Weight(k) in base.index
      modifies base`extents, base`index
      ensures base.Valid()
      ensures base.extents == Evict(old(base.extents), WeightSet(victims))
      ensures base.index == old(base.index) - WeightSet(victims)
      ensures released == BytesIn(Objects(old(base.extents)), WeightSet(victims))
    {
      ghost var es := base.extents;
      EvictFacts(es, WeightSet(victims), base.capacityBytes);
      released := FreeEach(victims);
      if released > 0 {
        base.extents := Coalesce(base.extents);
      }
    }

    /** Free a list of victims where they stand. */
    method FreeEach(victims: seq<GroupKey>) returns (released: nat)
      requires base.Valid() && NoRepeats(victims) && forall k :: k in victims ==> Weight(k) in base.index
      modifies base`extents, base`index
      ensures base.Valid()
      ensures base.extents == MarkFree(old(base.extents), WeightSet(victims))
      ensures base.index == old(base.index) - WeightSet(victims)
      ensures released == BytesIn(Objects(old(base.extents)), WeightSet(victims))
      ensures released > 0 <==> WeightSet(victims) != {}
      ensures released == 0 ==> base.extents == old(base.extents)
    {
      ghost var es := base.extents;
      released := 0;
      NoBytes(Objects(es));
      MarkNothing(es, {});
      for i := 0 to |victims|
        invariant base.Valid()
        invariant base.extents == MarkFree(es, WeightSet(victims[..i]))
        invariant base.index == IndexOf(es) - WeightSet(victims[..i])
        invariant released == BytesIn(Objects(es), WeightSet(victims[..i]))
        invariant released > 0 <==> WeightSet(victims[..i]) != {}
      {
        hide Tiles, DistinctKeys, Total, PicksCandidates, WeightSet, BytesIn, MarkFree, Objects, NoRepeats, IndexOf;
        FreedOneMore(es, base.capacityBytes, victims, i);
        var amount := base.Free(Weight(victims[i]), false);
        released := released + amount;
      }
      assert victims[..|victims|] == victims;
    }

    /** `_mckp_reclaim`: one exact plan, previewed and carried out. It fails only
        when the other models hold too little; the plan's bytes and prefixes are
        always what is found afterwards, and which ones is determined. */
    method MckpReclaim(active: int, required: int) returns (r: Reclaim, ghost held: map<int, nat>, ghost kept: map<int, nat>)
      requires Consistent() && AllPrefixShaped(base.models, base.index.Keys)
      modifies base`extents, base`index
      ensures Consistent() && AllPrefixShaped(base.models, base.index.Keys)
      ensures AfterEvictions(old(base.extents), base.extents, active)
      ensures r.Refused? <==> BytesIn(Objects(old(base.extents)), Evictable(old(base.index).Keys, active)) < required
      ensures r.Refused? ==> r.error == CannotReclaim && base.extents == old(base.extents)
      ensures required <= 0 ==> base.extents == old(base.extents)
      ensures r.Reclaimed? ==> r.evictedBytes >= required && Releases(r, old(base.extents), base.extents)
      ensures Led(CutIf(MckpKept(Now(), old(base.index).Keys, active, required), old(base.extents)), base.extents, r.Reclaimed?)
      // no cheaper prefixes would have done
      ensures r.Reclaimed? && required > 0 ==>
        && Prefixes(base.models, old(base.index).Keys, held) && Prefixes(base.models, base.index.Keys, kept)
        && Mckp.CheapestCover(ProblemFor(base.models, held, damage), active, kept, required)
    {
      hide Tiles, DistinctKeys, Total, PicksCandidates, MckpKept, AfterEvictions, CutTo, AllPrefixShaped, Prefixes, Mckp.CheapestCover;
      hide SizesMatch, Counts;
      held, kept := map[], map[];
      NoEvictions(base.extents, active);
      if required <= 0 {
        SizesAreKnown(base.models, base.index);
        KeepsEverything(Now(), base.extents, active, required);
        return Reclaimed(0, 0), held, kept;
      }
      var prefix, plan := PlanReclaim(active, required);
      if !plan.feasible {
        return Refused(CannotReclaim), held, kept;
      }
      held, kept := prefix, plan.choices;
      r := CommitPlan(plan, active, required);
    }

    /** The plan for a reclaim, if there is one. */
    method PlanReclaim(active: int, required: int) returns (prefix: map<int, nat>, plan: Mckp.Plan)
      requires Consistent() && AllPrefixShaped(base.models, base.index.Keys) && required > 0
      ensures Prefixes(base.models, base.index.Keys, prefix)
      ensures plan.feasible <==> BytesIn(Objects(base.extents), Evictable(base.index.Keys, active)) >= required
      ensures plan.feasible ==> GoodPlan(base.models, base.extents, plan, active, required)
      ensures plan.feasible ==> Mckp.CheapestCover(ProblemFor(base.models, prefix, damage), active, plan.choices, required)
      ensures MckpKept(Now(), base.index.Keys, active, required) == if plan.feasible then Some(plan.choices) else None
    {
      hide Tiles, DistinctKeys, Total, PicksCandidates, MckpKept, Prefixes, Mckp.Planned, Mckp.EvictAll, Mckp.FreedTotal, SizesMatch;
      hide Mckp.CheapestCover, Mckp.PreferringChoices, Mckp.AntitoneDamage, Mckp.LongestChoices, BytesIn, AllPrefixShaped;
      var before := ResidentPrefixes();
      prefix := before.value;
      SizesAreKnown(base.models, base.index);
      PlannerBytes(base.models, prefix, damage);
      EvictAllOccupies(base.models, base.extents, base.capacityBytes, prefix, damage, active);
      plan := Mckp.SolveCoveringMckp(ProblemFor(base.models, prefix, damage), active, required);
      if plan.feasible {
        MckpKeeps(Now(), base.index.Keys, prefix, active, required, plan.choices);
        SolvedPlan(base.models, base.extents, base.capacityBytes, prefix, damage, active, required, plan);
      } else {
        MckpKeepsNothing(Now(), base.index.Keys, prefix, active, required);
      }
    }

    /** Carry a plan out and compare the result with its preview. */
    method CommitPlan(plan: Mckp.Plan, ghost active: int, ghost required: int) returns (r: Reclaim)
      requires Consistent() && GoodPlan(base.models, base.extents, plan, active, required)
      modifies base`extents, base`index
      ensures Consistent() && Prefixes(base.models, base.index.Keys, plan.choices)
      ensures AllPrefixShaped(base.models, base.index.Keys)
      ensures AfterEvictions(old(base.extents), base.extents, active)
      ensures r == Reclaimed(|plan.victimKeys|, plan.plannedFreeBytes) && r.evictedBytes >= required
      ensures Releases(r, old(base.extents), base.extents) && base.extents == CutTo(old(base.extents), plan.choices)
    {
      hide Tiles, DistinctKeys, Total, PicksCandidates, Prefixes, SizesMatch, AllPrefixShaped, AfterEvictions, CutTo, Evict;
      hide WeightSet, NoRepeats;
      ghost var es := base.extents;
      PlanEvicts(base.models, es, base.capacityBytes, plan, active, required);
      PlanCuts(base.models, es, plan, active, required);
      var released := FreeVictims(plan.victimKeys);
      PrefixesAreShaped(base.models, base.index.Keys, plan.choices);
      var after := ResidentPrefixes();
      SamePrefixes(base.models, base.index.Keys, after.value, plan.choices);
      r := if released != plan.plannedFreeBytes then Refused(ByteMismatch)
           else if after.value != plan.choices then Refused(PrefixMismatch)
           else Reclaimed(|plan.victimKeys|, released);
    }

    /** The reclaimable model used least recently, ties to the smaller id. */
    method LruVictim(prefixes: map<int, nat>, active: int) returns (v: Option<int>)
      ensures v.None? <==> forall m :: m in prefixes && m != active ==> prefixes[m] == 0
      ensures v.Some? ==> LeastRecentModel(base.lastAccess, prefixes, active, v.value)
    {
      hide NoLater;
      var rest := prefixes.Keys;
      v := None;
      while rest != {}
        invariant rest <= prefixes.Keys
        invariant v.None? <==> forall m :: m in prefixes.Keys - rest && m != active ==> prefixes[m] == 0
        invariant v.Some? ==>
          && v.value in prefixes && v.value != active && prefixes[v.value] > 0
          && forall m :: m in prefixes.Keys - rest && m != active && prefixes[m] > 0 ==>
               NoLater(base.lastAccess, prefixes, v.value, m)
        decreases rest
      {
        ghost var some := Member(rest);
        var m :| m in rest;
        if m != active && prefixes[m] > 0 && (v.None? || !NoLater(base.lastAccess, prefixes, v.value, m)) {
          NewLeastRecent(base.lastAccess, prefixes, prefixes.Keys - rest, active, v, m);
          v := Some(m);
        }
        rest := rest - {m};
      }
    }

    /** `_lru_prefix_reclaim`: the last group of the least recently used model, again
        and again. It fails only when the other models hold too little. */
    method LruPrefixReclaim(active: int, required: int)
      returns (r: Reclaim, ghost held: map<int, nat>, ghost kept: map<int, nat>, ghost last: int)
      requires Consistent() && AllPrefixShaped(base.models, base.index.Keys)
      modifies base`extents, base`index
      ensures r.Refused? <==> BytesIn(Objects(old(base.extents)), Evictable(old(base.index).Keys, active)) < required
      ensures r.Refused? ==> r.error == CannotReclaim
      ensures Consistent() && AllPrefixShaped(base.models, base.index.Keys)
      ensures r.Reclaimed? ==>
        && AfterEvictions(old(base.extents), base.extents, active)
        && r.evictedBytes >= required && Releases(r, old(base.extents), base.extents)
      // the least recently used models give up their groups first
      ensures Prefixes(base.models, old(base.index).Keys, held) && Prefixes(base.models, base.index.Keys, kept)
      ensures LeastRecentFirst(base.lastAccess, held, kept, active)
      // and none of them in vain
      ensures required <= 0 ==> base.extents == old(base.extents)
      ensures r.Reclaimed? && required > 0 ==> LastShrunk(base.models, base.lastAccess, kept, active, r.evictedBytes, required, last)
      ensures r.Refused? <==> LruKept(base.models, base.lastAccess, Counts(base.models, old(base.index).Keys), active, Max(0, required)).None?
      ensures r.Reclaimed? ==>
        && LruKept(base.models, base.lastAccess, Counts(base.models, old(base.index).Keys), active, Max(0, required)) == Some(kept)
        && base.extents == CutTo(old(base.extents), kept)
    {
      hide Tiles, DistinctKeys, Total, PicksCandidates, Prefixes, SizesMatch, AllPrefixShaped, AfterEvictions, CutTo, LruKept, Counts;
      hide LeastRecentFirst, KvKeysIn, Evict, Shrinking, BytesIn, UsedBytes, Held, Evictable, Objects, Coalesced, MarkFree, IndexOf;
      hide HoldsPrefix, Known, PrefixShaped, LastShrunk;
      ghost var es := base.extents;
      var counted := ResidentPrefixes();
      SizesAreKnown(base.models, base.index);
      CountsAre(base.models, base.index.Keys, counted.value);
      ShrinkStart(base.models, es, base.capacityBytes, counted.value, active);
      var enough, objects, released;
      ghost var prefixes, gone;
      enough, objects, released, prefixes, gone, last := ShrinkPrefixes(counted.value, active, Max(0, required));
      held, kept := counted.value, prefixes;
      if !enough {
        ShrunkOut(base.models, es, base.extents, base.index, base.capacityBytes, prefixes, gone, active, released);
        return Refused(CannotReclaim), held, kept, last;
      }
      ShrinkEnd(base.models, es, base.extents, base.index, base.capacityBytes, prefixes, gone, active, released);
      ShrinkCuts(base.models, es, base.extents, base.index, base.capacityBytes, prefixes, gone, active, released);
      if released > 0 {
        base.extents := Coalesce(base.extents);
      }
      r := Reclaimed(objects, released);
    }

    /** Free last groups of least recently used models until enough bytes are free. */
    method ShrinkPrefixes(start: map<int, nat>, active: int, needed: nat)
      returns (enough: bool, objects: nat, released: nat, ghost prefixes: map<int, nat>, ghost gone: set<PoolKey>, ghost last: int)
      requires base.Valid()
      requires Shrinking(base.models, base.extents, base.extents, base.index, base.capacityBytes, start, {}, active, 0)
      modifies base`extents, base`index
      ensures base.Valid()
      ensures Shrinking(base.models, old(base.extents), base.extents, base.index, base.capacityBytes, prefixes, gone, active, released)
      ensures LeastRecentFirst(base.lastAccess, start, prefixes, active) && objects == |gone|
      ensures enough ==> released >= needed
      // nothing leaves when nothing is needed, and the last group that leaves was needed
      ensures needed == 0 ==> base.extents == old(base.extents) && released == 0
      ensures enough && needed > 0 ==> LastShrunk(base.models, base.lastAccess, prefixes, active, released, needed, last)
      ensures !enough ==> released < needed && forall m :: m in prefixes && m != active ==> prefixes[m] == 0
      ensures LruKept(base.models, base.lastAccess, start, active, needed) == if enough then Some(prefixes) else None
    {
      hide Tiles, DistinctKeys, Total, PicksCandidates, LruKept, MarkFree, NoLater, Shrinking, LastShrunk, LeastRecentFirst;
      hide Objects, UsedBytes, Without, Evict, IndexOf;
      ghost var es := base.extents;
      var counts := start;
      released, objects, gone, last := 0, 0, {}, active;
      NothingShrunk(base.lastAccess, start, active);
      while released < needed
        invariant base.Valid() && objects == |gone|
        invariant ShrunkSoFar(base.models, base.lastAccess, es, base.extents, base.index, base.capacityBytes, start, counts,
                              gone, active, needed, released, last)
        decreases needed - released
      {
        hide ShrunkSoFar;
        var victim := LruVictim(counts, active);
        if victim.None? {
          ShrunkDry(base.models, base.lastAccess, es, base.extents, base.index, base.capacityBytes, start, counts,
                    gone, active, needed, released, last);
          return false, objects, released, counts, gone, last;
        }
        var v := victim.value;
        var key := Key(v, counts[v] - 1);
        ShrunkNext(base.models, base.lastAccess, es, base.extents, base.index, base.capacityBytes, start, counts,
                   gone, active, needed, released, last, v);
        last := v;
        var amount := base.Free(key, false);
        counts := counts[v := counts[v] - 1];
        released, objects, gone := released + amount, objects + 1, gone + {key};
      }
      LruDone(base.models, base.lastAccess, counts, active);
      enough, prefixes := true, counts;
    }

    /** `_prefix_reclaim`. */
    method PrefixReclaim(active: int, required: int) returns (r: Reclaim)
      requires Consistent() && AllPrefixShaped(base.models, base.index.Keys) && replacement != OneByOne
      modifies base`extents, base`index
      ensures r.Refused? <==> BytesIn(Objects(old(base.extents)), Evictable(old(base.index).Keys, active)) < required
      ensures r.Refused? ==> r.error == CannotReclaim
      ensures Consistent() && AllPrefixShaped(base.models, base.index.Keys)
      ensures r.Reclaimed? ==>
        && AfterEvictions(old(base.extents), base.extents, active)
        && r.evictedBytes >= required && Releases(r, old(base.extents), base.extents)
      ensures Led(ReclaimedPool(Now(), base.lastAccess, active, required, old(base.extents)), base.extents, r.Reclaimed?)
      // it takes nothing when nothing is required, and nothing it need not take
      ensures r.Reclaimed? ==> Frugal(Now(), base.lastAccess, active, required, old(base.extents), base.extents)
    {
      hide Tiles, DistinctKeys, Total, PicksCandidates, Prefixes, SizesMatch, LruKept, MckpKept, Counts, CutTo, BytesIn, AfterEvictions;
      hide AllPrefixShaped, LeastRecentFirst, Mckp.CheapestCover, LastShrunk, UsedBytes, Held;
      ghost var es := base.extents;
      if replacement == MckpPrefix {
        ghost var held, kept;
        r, held, kept := MckpReclaim(active, required);
        if r.Reclaimed? && required > 0 {
          FrugalCover(Now(), base.lastAccess, active, required, es, base.extents, held, kept);
        }
      } else {
        ghost var held, kept, last;
        r, held, kept, last := LruPrefixReclaim(active, required);
        if r.Reclaimed? && required > 0 {
          FrugalLast(Now(), base.lastAccess, active, required, es, base.extents, held, kept, last);
        }
      }
    }

    // ---------------------------------------------------------- KV blocks

    /** The first loop of `_allocate_kv_blocks`: reclaim until the free extents hold
        enough whole blocks. Evicting object by object it fails exactly when evicting
        everything would not be enough. */
    method FreeForKv(active: int, required: nat) returns (r: Reclaim)
      requires Consistent() && Shaped(replacement, base.rule, base.models, base.index.Keys, base.lastAccess, {active})
      modifies base`extents, base`index
      ensures r.Reclaimed? ==>
        && Consistent() && Shaped(replacement, base.rule, base.models, base.index.Keys, base.lastAccess, {active})
        && AfterEvictions(old(base.extents), base.extents, active)
        && BlockBytes(base.extents, kvBlockBytes) >= required
        && Releases(r, old(base.extents), base.extents)
      ensures FoundAs(BlocksFor(Now(), base.lastAccess, active, required, old(base.extents)), base.extents, r)
      ensures replacement == OneByOne ==>
        (r.Reclaimed? <==> BlockBytes(Exhausted(old(base.extents), active), kvBlockBytes) >= required)
      ensures replacement != OneByOne && BlockBytes(old(base.extents), kvBlockBytes) >= required ==> r.Reclaimed?
      // it evicts while blocks are lacking, and never more than they lack
      ensures r.Reclaimed? && replacement == OneByOne ==>
        BlocksMade(Now(), base.lastAccess, active, required, old(base.extents), base.extents)
      ensures r.Reclaimed? && replacement != OneByOne ==>
        Rounds(Now(), base.lastAccess, active, required, old(base.extents), base.extents)
      ensures r.Refused? && replacement != OneByOne ==>
        RoundsFail(Now(), base.lastAccess, active, required, old(base.extents), r.error)
    {
      hide Tiles, DistinctKeys, Total, PicksCandidates, BlockReclaim, EvictUntil, AfterEvictions, BlockBytes, Exhausted, Releases, AllPrefixShaped;
      hide SizesMatch, LeastRecent, Rounds, RoundsFail, BlocksMade, EvictedPool;
      ghost var es := base.extents;
      if replacement == OneByOne {
        r := EvictForKv(active, required);
        if r.Reclaimed? {
          BlocksEvicted(Now(), base.lastAccess, active, required, es, base.extents);
        }
      } else {
        r := ReclaimForKv(active, required);
      }
    }

    /** Reclaiming by prefixes it fails when too little is held, or when a reclaim
        frees bytes that make no block; which of these, the pool determines. */
    method ReclaimForKv(active: int, required: nat) returns (r: Reclaim)
      requires Consistent() && AllPrefixShaped(base.models, base.index.Keys) && replacement != OneByOne
      modifies base`extents, base`index
      ensures r.Reclaimed? ==>
        && Consistent() && AllPrefixShaped(base.models, base.index.Keys)
        && AfterEvictions(old(base.extents), base.extents, active)
        && BlockBytes(base.extents, kvBlockBytes) >= required
        && Releases(r, old(base.extents), base.extents)
      ensures FoundAs(BlockReclaim(Now(), base.lastAccess, active, required, old(base.extents)), base.extents, r)
      ensures BlockBytes(old(base.extents), kvBlockBytes) >= required ==> r.Reclaimed?
      // every round reclaims exactly what whole blocks lack
      ensures r.Reclaimed? ==> Rounds(Now(), base.lastAccess, active, required, old(base.extents), base.extents)
      ensures r.Refused? ==> RoundsFail(Now(), base.lastAccess, active, required, old(base.extents), r.error)
    {
      hide Tiles, DistinctKeys, Total, PicksCandidates, BlockReclaim, AfterEvictions, BlockBytes, AllPrefixShaped, SizesMatch;
      hide ReclaimedPool, UsedBytes, Held, Frugal, Rounds, RoundsFail, BytesIn, Objects;
      r := Reclaimed(0, 0);
      NoEvictions(base.extents, active);
      NoRounds(Now(), base.lastAccess, active, required, base.extents);
      while BlockBytes(base.extents, kvBlockBytes) < required
        invariant Consistent() && AllPrefixShaped(base.models, base.index.Keys)
        invariant AfterEvictions(old(base.extents), base.extents, active) && Releases(r, old(base.extents), base.extents)
        invariant BlockBytes(old(base.extents), kvBlockBytes) >= required ==> BlockBytes(base.extents, kvBlockBytes) >= required
        invariant BlockReclaim(Now(), base.lastAccess, active, required, old(base.extents)) ==
          BlockReclaim(Now(), base.lastAccess, active, required, base.extents)
        invariant Rounds(Now(), base.lastAccess, active, required, old(base.extents), base.extents)
        decreases required - BlockBytes(base.extents, kvBlockBytes)
      {
        ghost var es := base.extents;
        var before := BlockBytes(base.extents, kvBlockBytes);
        var more := PrefixReclaim(active, required - before);
        BlockReclaimNext(Now(), base.lastAccess, active, required, es, ReclaimedPool(Now(), base.lastAccess, active, required - before, es));
        if more.Refused? {
          TooLittleHeld(Now(), base.lastAccess, active, required, old(base.extents), es);
          return more;
        }
        EvictionsTwice(old(base.extents), es, base.extents, active, base.capacityBytes);
        if BlockBytes(base.extents, kvBlockBytes) <= before {
          NoMoreBlocks(Now(), base.lastAccess, active, required, old(base.extents), es, base.extents);
          return Refused(KvStuck);
        }
        OneMoreRound(Now(), base.lastAccess, active, required, old(base.extents), es, base.extents);
        r := Reclaimed(r.evictedObjects + more.evictedObjects, r.evictedBytes + more.evictedBytes);
      }
      BlocksFound(Now(), base.lastAccess, active, required, base.extents);
    }

    method EvictForKv(active: int, required: nat) returns (r: Reclaim)
      requires Consistent() && Shaped(OneByOne, base.rule, base.models, base.index.Keys, base.lastAccess, {active})
      modifies base`extents, base`index
      ensures Consistent() && Shaped(OneByOne, base.rule, base.models, base.index.Keys, base.lastAccess, {active})
      ensures AfterEvictions(old(base.extents), base.extents, active)
      ensures r.Reclaimed? <==> BlockBytes(Exhausted(old(base.extents), active), kvBlockBytes) >= required
      ensures r.Reclaimed? ==>
        BlockBytes(base.extents, kvBlockBytes) >= required && Releases(r, old(base.extents), base.extents)
      ensures r.Refused? ==> r.error == CannotReclaim
      ensures Led(EvictedPool(Now(), base.lastAccess, active, Blocks(kvBlockBytes, required), old(base.extents)), base.extents, r.Reclaimed?)
    {
      hide Tiles, DistinctKeys, Total, PicksCandidates, EvictUntil, AfterEvictions, BlockBytes, Exhausted, SizesMatch, Shaped;
      ghost var goal := Blocks(kvBlockBytes, required);
      r := Reclaimed(0, 0);
      StepsStart(base.rule, base.lastAccess, base.extents, active, goal, base.capacityBytes);
      while BlockBytes(base.extents, kvBlockBytes) < required
        invariant Consistent() && Shaped(OneByOne, base.rule, base.models, base.index.Keys, base.lastAccess, {active})
        invariant Releases(r, old(base.extents), base.extents)
        invariant Stepping(base.rule, base.lastAccess, old(base.extents), base.extents, active, goal, base.capacityBytes, r.evictedObjects)
        decreases UsedBytes(base.extents)
      {
        ghost var es := base.extents;
        var evicted, released := EvictShaped(active);
        if !evicted {
          StepsFail(base.rule, base.lastAccess, old(base.extents), es, active, goal, base.capacityBytes, r.evictedObjects);
          return Refused(CannotReclaim);
        }
        StepsGoOn(base.rule, base.lastAccess, old(base.extents), es, active, goal, base.capacityBytes, r.evictedObjects);
        r := Reclaimed(r.evictedObjects + 1, r.evictedBytes + released);
      }
      StepsEnd(base.rule, base.lastAccess, old(base.extents), base.extents, active, goal, base.capacityBytes, r.evictedObjects);
      ReachedAtMost(old(base.extents), base.extents, active, base.capacityBytes, goal);
    }

    /** One eviction by the replacement policy; under LRU suffixes stay suffixes. */
    method EvictShaped(active: int) returns (evicted: bool, released: nat)
      requires Consistent() && Shaped(OneByOne, base.rule, base.models, base.index.Keys, base.lastAccess, {active})
      modifies base`extents, base`index
      ensures Consistent() && Shaped(OneByOne, base.rule, base.models, base.index.Keys, base.lastAccess, {active})
      ensures evicted <==> Evictable(old(base.index).Keys, active) != {}
      ensures !evicted ==> base.extents == old(base.extents)
      ensures evicted ==>
        var v := base.rule(old(base.extents), base.lastAccess, Evictable(old(base.index).Keys, active));
        && v in Evictable(old(base.index).Keys, active)
        && base.extents == Evict(old(base.extents), {v}) && released == old(base.index)[v].size
    {
      hide Tiles, DistinctKeys, Total, PicksCandidates, SizesMatch, Shaped, Evict;
      ghost var es, keys := base.extents, base.index.Keys;
      evicted, released := base.EvictOne(active);
      if evicted {
        ghost var v := base.rule(es, base.lastAccess, Evictable(keys, active));
        SizesAfterEvict(base.models, es, {v});
        ShapedAfterVictim(base.rule, base.models, keys, base.lastAccess, active, es);
      }
    }

    /** Allocate what blocks a free extent has, up to what is wanted. */
    method TakeBlocks(i: nat, remaining: nat) returns (n: nat, parts: nat)
      requires kvBlockBytes > 0 && i < |base.extents| && Dealt(base.extents[i].size, remaining, kvBlockBytes) <= base.extents[i].size
      requires KvNumbered(kvKeys, base.index.Keys, nextKvExtentId)
      modifies base`extents, base`index, this`kvKeys, this`nextKvExtentId
      ensures n == Dealt(old(base.extents)[i].size, remaining, kvBlockBytes) <= old(base.extents)[i].size
      ensures nextKvExtentId == old(nextKvExtentId) + 1 && KvNumbered(kvKeys, base.index.Keys, nextKvExtentId)
      ensures var key := Kv(old(nextKvExtentId));
        && base.extents == Place(old(base.extents), i, key, n)
        && base.index == old(base.index)[key := Extent(old(base.extents)[i].offset, n, Some(key))]
        && parts == |Split(old(base.extents)[i], key, n)|
      ensures Blocked(old(base.extents), kvBlockBytes) && WholeBlocks(remaining, kvBlockBytes) ==> Blocked(base.extents, kvBlockBytes)
    {
      if Blocked(base.extents, kvBlockBytes) && WholeBlocks(remaining, kvBlockBytes) {
        BlocksDealt(base.extents, i, Kv(nextKvExtentId), remaining, kvBlockBytes);
      }
      var extent, key := base.extents[i], Kv(nextKvExtentId);
      KvNumberedNext(kvKeys, base.index.Keys, nextKvExtentId);
      n := Dealt(extent.size, remaining, kvBlockBytes);
      nextKvExtentId := nextKvExtentId + 1;
      base.extents := Place(base.extents, i, key, n);
      base.index := base.index[key := Extent(extent.offset, n, Some(key))];
      kvKeys := kvKeys + {key};
      parts := |Split(extent, key, n)|;
    }

    /** The second loop: deal blocks out of the free extents until nothing is wanted. */
    method DealBlocks(required: nat) returns (remaining: nat, i: nat)
      requires Consistent() && required <= BlockBytes(base.extents, kvBlockBytes)
      modifies base`extents, base`index, this`kvKeys, this`nextKvExtentId
      ensures remaining == 0 || i == |base.extents|
      ensures Dealing(old(base.extents), base.extents, base.index, base.capacityBytes, kvBlockBytes, i,
                      required, remaining, old(nextKvExtentId), nextKvExtentId)
      ensures KvNumbered(kvKeys, base.index.Keys, nextKvExtentId)
      ensures Deal(base.extents, nextKvExtentId) == DealtPool(old(base.extents), 0, required, kvBlockBytes, old(nextKvExtentId))
      ensures Blocked(old(base.extents), kvBlockBytes) && WholeBlocks(required, kvBlockBytes) ==> Blocked(base.extents, kvBlockBytes)
    {
      hide Tiles, DistinctKeys, Total, PicksCandidates, SizesMatch, KvNumbered, DealtPool, BlockBytes, AllBlocks;
      ghost var es0, lo := base.extents, nextKvExtentId;
      remaining, i := required, 0;
      DealStart(es0, base.capacityBytes, kvBlockBytes, required, lo);
      while remaining > 0 && i < |base.extents|
        invariant Dealing(es0, base.extents, base.index, base.capacityBytes, kvBlockBytes, i, required, remaining, lo, nextKvExtentId)
        invariant KvNumbered(kvKeys, base.index.Keys, nextKvExtentId)
        invariant DealtPool(es0, 0, required, kvBlockBytes, lo) == DealtPool(base.extents, i, remaining, kvBlockBytes, nextKvExtentId)
        invariant Blocked(es0, kvBlockBytes) && WholeBlocks(required, kvBlockBytes) ==> Blocked(base.extents, kvBlockBytes)
        decreases |base.extents| - i
      {
        remaining, i := DealNext(i, remaining, required, es0, lo);
      }
      DealtAll(base.extents, i, remaining, kvBlockBytes, nextKvExtentId);
    }

    /** Look at one extent: pass over it, or take its blocks. */
    method DealNext(at: nat, wanted: nat, ghost required: nat, ghost es0: seq<Extent>, ghost lo: nat) returns (remaining: nat, i: nat)
      requires kvBlockBytes > 0 && wanted > 0 && at < |base.extents|
      requires Dealing(es0, base.extents, base.index, base.capacityBytes, kvBlockBytes, at, required, wanted, lo, nextKvExtentId)
      requires KvNumbered(kvKeys, base.index.Keys, nextKvExtentId)
      modifies base`extents, base`index, this`kvKeys, this`nextKvExtentId
      ensures Dealing(es0, base.extents, base.index, base.capacityBytes, kvBlockBytes, i, required, remaining, lo, nextKvExtentId)
      ensures KvNumbered(kvKeys, base.index.Keys, nextKvExtentId)
      ensures |base.extents| - i < |old(base.extents)| - at
      ensures DealtPool(old(base.extents), at, wanted, kvBlockBytes, old(nextKvExtentId)) ==
        DealtPool(base.extents, i, remaining, kvBlockBytes, nextKvExtentId)
      ensures Blocked(old(base.extents), kvBlockBytes) && WholeBlocks(required, kvBlockBytes) ==> Blocked(base.extents, kvBlockBytes)
    {
      hide KvNumbered, Dealing, DealtPool, AllBlocks, Aligned;
      var extent := base.extents[at];
      if extent.key.Some? || Dealt(extent.size, wanted, kvBlockBytes) == 0 {
        DealtPast(base.extents, at, wanted, kvBlockBytes, nextKvExtentId);
        DealPast(es0, base.extents, base.index, base.capacityBytes, kvBlockBytes, at, required, wanted, lo, nextKvExtentId);
        remaining, i := wanted, at + 1;
      } else {
        remaining, i := DealFrom(at, wanted, required, es0, lo);
      }
    }

    /** Take the blocks of a free extent. */
    method DealFrom(at: nat, wanted: nat, ghost required: nat, ghost es0: seq<Extent>, ghost lo: nat) returns (remaining: nat, i: nat)
      requires kvBlockBytes > 0 && wanted > 0 && at < |base.extents|
      requires base.extents[at].key.None? && Dealt(base.extents[at].size, wanted, kvBlockBytes) > 0
      requires Dealing(es0, base.extents, base.index, base.capacityBytes, kvBlockBytes, at, required, wanted, lo, nextKvExtentId)
      requires KvNumbered(kvKeys, base.index.Keys, nextKvExtentId)
      modifies base`extents, base`index, this`kvKeys, this`nextKvExtentId
      ensures Dealing(es0, base.extents, base.index, base.capacityBytes, kvBlockBytes, i, required, remaining, lo, nextKvExtentId)
      ensures KvNumbered(kvKeys, base.index.Keys, nextKvExtentId)
      ensures |base.extents| - i < |old(base.extents)| - at
      ensures DealtPool(old(base.extents), at, wanted, kvBlockBytes, old(nextKvExtentId)) ==
        DealtPool(base.extents, i, remaining, kvBlockBytes, nextKvExtentId)
      ensures Blocked(old(base.extents), kvBlockBytes) && WholeBlocks(required, kvBlockBytes) ==> Blocked(base.extents, kvBlockBytes)
    {
      hide KvNumbered, DealtPool, AllBlocks, Aligned, Place, Sound, Keeps, AllWhole;
      KvNumberedNext(kvKeys, base.index.Keys, nextKvExtentId);
      DealtFacts(base.extents[at].size, wanted, kvBlockBytes);
      DealtOne(base.extents, at, wanted, kvBlockBytes, nextKvExtentId);
      DealStep(es0, base.extents, base.index, base.capacityBytes, kvBlockBytes, at, required, wanted, lo, nextKvExtentId);
      var n, parts := TakeBlocks(at, wanted);
      remaining, i := wanted - n, at + parts;
    }

    /** Place the KV cache. It never runs out of blocks. */
    method PlaceKv(required: nat) returns (short: bool)
      requires Consistent() && required <= BlockBytes(base.extents, kvBlockBytes)
      modifies base`extents, base`index, this`kvKeys, this`nextKvExtentId
      ensures !short && Consistent()
      ensures KvPlaced(old(base.extents), base.extents, old(nextKvExtentId), nextKvExtentId, required, kvBlockBytes)
      ensures Deal(base.extents, nextKvExtentId) == DealtPool(old(base.extents), 0, required, kvBlockBytes, old(nextKvExtentId))
      ensures Blocked(old(base.extents), kvBlockBytes) && WholeBlocks(required, kvBlockBytes) ==> Blocked(base.extents, kvBlockBytes)
    {
      hide Tiles, DistinctKeys, Total, PicksCandidates, SizesMatch, KvNumbered, DealtPool, BlockBytes, AllBlocks;
      ghost var es0, lo := base.extents, nextKvExtentId;
      var remaining, i := DealBlocks(required);
      DealEnd(es0, base.extents, base.index, base.capacityBytes, kvBlockBytes, i, required, remaining, lo, nextKvExtentId);
      KvConsistent(base.models, IndexOf(es0), base.index, lo, nextKvExtentId);
      short := remaining > 0;
    }

    // ------------------------------------------------------- one request

    /** `begin_request`: the KV blocks of the previous request are released where
        they are; weights keep the full address range. */
    method BeginRequest(kvBytes: nat)
      requires Consistent()
      modifies base`extents, base`index, this`kvKeys, this`pendingKvBytes
      ensures Consistent() && kvKeys == {} && pendingKvBytes == kvBytes
      ensures base.extents == Evict(old(base.extents), old(kvKeys))
      ensures base.index == old(base.index) - old(kvKeys)
      ensures UsedBytes(base.extents) + BytesIn(Objects(old(base.extents)), old(kvKeys)) == UsedBytes(old(base.extents))
    {
      ghost var es, held := base.extents, kvKeys;
      var rest := kvKeys;
      while rest != {}
        invariant rest <= held && base.Valid()
        invariant base.extents == Evict(es, held - rest) && base.index == IndexOf(es) - (held - rest)
        decreases rest
      {
        ghost var some := Member(rest);
        var k :| k in rest;
        EvictTwice(es, held - rest, {k});
        assert (held - rest) + {k} == held - (rest - {k});
        assert k in IndexOf(es);
        ghost var freed := base.Free(k, true);
        rest := rest - {k};
      }
      assert held - rest == held;
      EvictFacts(es, held, base.capacityBytes);
      SizesAfterEvict(base.models, es, held);
      kvKeys := {};
      pendingKvBytes := kvBytes;
    }

    /** The groups the request's tensors need and the pool does not hold, each once,
        in the order they are needed. */
    method MissingGroups(m: int) returns (ordered: seq<Object>)
      requires base.Valid() && m in base.models
      ensures MissingObjects(base.models, base.index.Keys, m, ordered)
      ensures ordered == AllMissing(base.models, base.index.Keys, m)
      ensures Ascending(m, ordered)
    {
      hide Tiles, Total, PicksCandidates, Ascending;
      MissingAscends(base.models, base.index.Keys, m, |base.models[m].tensorGroup|);
      var model := base.models[m];
      var seen: set<PoolKey> := {};
      ordered := [];
      for t := 0 to |model.tensorGroup|
        invariant Listing(base.models, base.index.Keys, m, ordered, t) && seen == KeySet(ordered)
        invariant ordered == MissingList(base.models, base.index.Keys, m, t)
      {
        hide DistinctKeys;
        var g := model.tensorGroup[t];
        ListOne(base.models, base.index.Keys, m, ordered, t);
        if Key(m, g) !in seen && Key(m, g) !in base.index {
          Snoc(ordered, Object(Key(m, g), model.groupBytes[g]));
          seen := seen + {Key(m, g)};
          ordered := ordered + [Object(Key(m, g), model.groupBytes[g])];
        }
      }
      AllListed(base.models, base.index.Keys, m, ordered);
    }

    /** Evict one by one until the missing groups have room. */
    method EvictForWeights(m: int, required: nat) returns (r: Reclaim)
      requires Consistent() && Shaped(OneByOne, base.rule, base.models, base.index.Keys, base.lastAccess, {m})
      modifies base`extents, base`index
      ensures Consistent() && Shaped(OneByOne, base.rule, base.models, base.index.Keys, base.lastAccess, {m})
      ensures AfterEvictions(old(base.extents), base.extents, m)
      ensures r.Refused? <==>
        FreeBytes(old(base.extents)) + BytesIn(Objects(old(base.extents)), Evictable(old(base.index).Keys, m)) < required
      ensures r.Reclaimed? ==> FreeBytes(base.extents) >= required && Releases(r, old(base.extents), base.extents)
      ensures Led(EvictedPool(Now(), base.lastAccess, m, Room(base.capacityBytes, required), old(base.extents)), base.extents, r.Reclaimed?)
    {
      hide Tiles, DistinctKeys, Total, PicksCandidates, EvictUntil, AfterEvictions, FreeBelow, FreeBytes, Exhausted, SizesMatch, Shaped, BytesIn;
      hide UsedBytes, Held, Objects;
      ghost var goal := Room(base.capacityBytes, required);
      r := Reclaimed(0, 0);
      NoEvictions(base.extents, m);
      StepsStart(base.rule, base.lastAccess, base.extents, m, goal, base.capacityBytes);
      PoolLimit(base.extents, base.capacityBytes);
      while FreeBelow(base.extents, base.weightCapacityBytes) < required
        invariant Consistent() && Shaped(OneByOne, base.rule, base.models, base.index.Keys, base.lastAccess, {m})
        invariant FreeBelow(base.extents, base.weightCapacityBytes) == FreeBytes(base.extents)
        invariant Releases(r, old(base.extents), base.extents)
        invariant Stepping(base.rule, base.lastAccess, old(base.extents), base.extents, m, goal, base.capacityBytes, r.evictedObjects)
        decreases UsedBytes(base.extents)
      {
        ghost var es := base.extents;
        var evicted, released := EvictShaped(m);
        if !evicted {
          StepsFail(base.rule, base.lastAccess, old(base.extents), es, m, goal, base.capacityBytes, r.evictedObjects);
          FreeAfterEvictions(old(base.extents), es, m, base.capacityBytes);
          return Refused(CannotReclaim);
        }
        StepsGoOn(base.rule, base.lastAccess, old(base.extents), es, m, goal, base.capacityBytes, r.evictedObjects);
        PoolLimit(base.extents, base.capacityBytes);
        r := Reclaimed(r.evictedObjects + 1, r.evictedBytes + released);
      }
      StepsEnd(base.rule, base.lastAccess, old(base.extents), base.extents, m, goal, base.capacityBytes, r.evictedObjects);
      FreeAfterEvictions(old(base.extents), base.extents, m, base.capacityBytes);
    }

    /** Room for the missing groups; a prefix policy makes room for the KV cache in
        the same reclaim. */
    method FreeForWeights(m: int, required: nat) returns (r: Reclaim)
      requires Consistent() && Shaped(replacement, base.rule, base.models, base.index.Keys, base.lastAccess, {m})
      modifies base`extents, base`index
      ensures r.Refused? <==>
        FreeBytes(old(base.extents)) + BytesIn(Objects(old(base.extents)), Evictable(old(base.index).Keys, m))
        < required + WithKv(replacement, pendingKvBytes)
      ensures r.Reclaimed? ==>
        && Consistent() && Shaped(replacement, base.rule, base.models, base.index.Keys, base.lastAccess, {m})
        && AfterEvictions(old(base.extents), base.extents, m)
        && FreeBytes(base.extents) >= required
        && Releases(r, old(base.extents), base.extents)
      ensures Led(RoomyPool(Now(), base.lastAccess, m, required, pendingKvBytes, old(base.extents)), base.extents, r.Reclaimed?)
      ensures r.Reclaimed? ==> SpaceMade(Now(), base.lastAccess, m, required, pendingKvBytes, old(base.extents), base.extents)
    {
      hide Tiles, DistinctKeys, Total, PicksCandidates, EvictUntil, AfterEvictions, FreeBelow, FreeBytes, SizesMatch, BytesIn, ReclaimedPool;
      hide AllPrefixShaped, LeastRecent, Frugal, EvictedWhile;
      ghost var es := base.extents;
      if replacement == OneByOne {
        r := EvictForWeights(m, required);
        if r.Reclaimed? {
          SpaceEvicted(Now(), base.lastAccess, m, required, pendingKvBytes, es, base.extents);
        }
      } else {
        PoolLimit(es, base.capacityBytes);
        NoEvictions(es, m);
        FreeAfterEvictions(es, es, m, base.capacityBytes);
        r := PrefixReclaim(m, Max(0, required + pendingKvBytes - FreeBelow(base.extents, base.weightCapacityBytes)));
        if r.Reclaimed? {
          FreeAfterEvictions(es, base.extents, m, base.capacityBytes);
          FrugalFromZero(Now(), base.lastAccess, m, required + pendingKvBytes - FreeBytes(es), es, base.extents);
        }
      }
    }

    /** The weights of a request that misses some groups: make room, then pack them.
        They are placed exactly when the whole model (with the KV cache, under a
        prefix policy) fits into the pool. */
    method PlanWeights(m: int, ordered: seq<Object>, ghost whole: bool) returns (r: Reclaim, moved: nat, ghost room: seq<Extent>)
      requires Consistent() && Shaped(replacement, base.rule, base.models, base.index.Keys, base.lastAccess, {m})
      requires m in base.models && kvKeys == {}
      requires ordered != [] && MissingObjects(base.models, base.index.Keys, m, ordered)
      requires whole ==> Blocked(base.extents, kvBlockBytes) && BlockSized(ordered, kvBlockBytes)
      modifies base`extents, base`index, base`compactionCount
      ensures r.Refused? <==> FullBytes(base.models, m) + WithKv(replacement, pendingKvBytes) > base.capacityBytes
      ensures r.Reclaimed? ==>
        && Consistent() && Shaped(replacement, base.rule, base.models, base.index.Keys, base.lastAccess, {m})
        && AllResident(base.models, base.index, m)
        && AfterEvictions(old(base.extents), room, m) && Completed(room, base.extents, ordered)
        && moved <= WholeMerge(room)
        && UsedBytes(base.extents) + r.evictedBytes == UsedBytes(old(base.extents)) + SumSizes(ordered)
      ensures PlacedAs(WeightsOf(Now(), base.lastAccess, m, ordered, pendingKvBytes, old(base.extents)), base.extents, r, moved)
      ensures r.Reclaimed? ==> base.compactionCount == old(base.compactionCount) + Compactions(moved)
      ensures r.Reclaimed? && whole ==> Blocked(base.extents, kvBlockBytes)
      // what is reclaimed is what the free bytes lack, and nothing where they suffice
      ensures r.Reclaimed? ==>
        && SpaceMade(Now(), base.lastAccess, m, SumSizes(ordered), pendingKvBytes, old(base.extents), room)
        && Releases(r, old(base.extents), room)
      ensures r.Reclaimed? && FreeBytes(old(base.extents)) >= SumSizes(ordered) + WithKv(replacement, pendingKvBytes) ==>
        room == old(base.extents) && r == Reclaimed(0, 0)
    {
      hide SpaceMade, FreeBytes;
      hide Tiles, DistinctKeys, Total, PicksCandidates, SizesMatch, Shaped, AfterEvictions, RoomyPool, PackedPool, PackedMoves, WholeMerge;
      hide AllBlocks, BlockSized, Completed, MissingObjects, KvNumbered, AllResident, FullBytes, UsedBytes, Held, SumSizes, Lost;
      moved := 0;
      r := RoomForMissing(m, ordered);
      room := base.extents;
      if r.Reclaimed? {
        if FreeBytes(old(base.extents)) >= SumSizes(ordered) + WithKv(replacement, pendingKvBytes) {
          SpaceIsThere(Now(), base.lastAccess, m, SumSizes(ordered), pendingKvBytes, old(base.extents), room);
        }
        ReleaseIsLoss(r, old(base.extents), room);
        if whole {
          BlocksEvictions(old(base.extents), room, m, kvBlockBytes);
        }
        moved := PackMissing(m, ordered, whole);
        if moved > 0 {
          base.compactionCount := base.compactionCount + 1;
        }
      }
    }

    /** Make room for the missing groups. */
    method RoomForMissing(m: int, ordered: seq<Object>) returns (r: Reclaim)
      requires Consistent() && Shaped(replacement, base.rule, base.models, base.index.Keys, base.lastAccess, {m})
      requires m in base.models && kvKeys == {} && MissingObjects(base.models, base.index.Keys, m, ordered)
      modifies base`extents, base`index
      ensures r.Refused? <==> FullBytes(base.models, m) + WithKv(replacement, pendingKvBytes) > base.capacityBytes
      ensures r.Reclaimed? ==>
        && Consistent() && Shaped(replacement, base.rule, base.models, base.index.Keys, base.lastAccess, {m})
        && AfterEvictions(old(base.extents), base.extents, m) && MissingObjects(base.models, base.index.Keys, m, ordered)
        && SumSizes(ordered) <= FreeBytes(base.extents)
        && Releases(r, old(base.extents), base.extents)
      ensures Led(RoomyPool(Now(), base.lastAccess, m, SumSizes(ordered), pendingKvBytes, old(base.extents)), base.extents, r.Reclaimed?)
      ensures r.Reclaimed? ==> SpaceMade(Now(), base.lastAccess, m, SumSizes(ordered), pendingKvBytes, old(base.extents), base.extents)
    {
      hide SpaceMade;
      hide Tiles, DistinctKeys, Total, PicksCandidates, SizesMatch, Shaped, AfterEvictions, RoomyPool, MissingObjects, FreeBytes, BytesIn;
      hide Releases, FullBytes, SumSizes;
      WeightsKeys(kvKeys, base.index.Keys, nextKvExtentId);
      PoolParts(base.models, base.extents, base.capacityBytes, m);
      MissingBytes(base.models, base.extents, base.capacityBytes, m, ordered);
      r := FreeForWeights(m, SumSizes(ordered));
      if r.Reclaimed? {
        StillMissing(base.models, old(base.extents), base.extents, base.capacityBytes, m, ordered);
      }
    }

    /** Pack the missing groups of a model into the free bytes. */
    method PackMissing(m: int, ordered: seq<Object>, ghost whole: bool) returns (moved: nat)
      requires Consistent() && Shaped(replacement, base.rule, base.models, base.index.Keys, base.lastAccess, {m})
      requires m in base.models && ordered != [] && MissingObjects(base.models, base.index.Keys, m, ordered)
      requires SumSizes(ordered) <= FreeBytes(base.extents)
      requires whole ==> Blocked(base.extents, kvBlockBytes) && BlockSized(ordered, kvBlockBytes)
      modifies base`extents, base`index
      ensures Consistent() && Shaped(replacement, base.rule, base.models, base.index.Keys, base.lastAccess, {m})
      ensures AllResident(base.models, base.index, m) && Completed(old(base.extents), base.extents, ordered)
      ensures moved <= WholeMerge(old(base.extents))
      ensures base.extents == PackedPool(old(base.extents), ordered) && moved == PackedMoves(old(base.extents), ordered)
      ensures UsedBytes(base.extents) == UsedBytes(old(base.extents)) + SumSizes(ordered)
      ensures whole ==> Blocked(base.extents, kvBlockBytes)
    {
      hide Tiles, DistinctKeys, Total, PicksCandidates, PackedPool, PackedMoves, WholeMerge, Shaped, AllResident;
      ghost var es, keys := base.extents, base.index.Keys;
      MissingAddable(base.models, base.index, m, ordered);
      SizesAreKnown(base.models, base.index);
      ShapedCompleted(replacement, base.rule, base.models, keys, base.lastAccess, m);
      moved := PackRequests(ordered);
      CompletedSizes(base.models, es, base.extents, base.capacityBytes, m, ordered);
      assert base.index.Keys == keys + GroupSet(m, GroupCount(base.models, m));
      KvNumberedSame(kvKeys, keys, base.index.Keys, nextKvExtentId, m, GroupCount(base.models, m));
    }

    /** The KV cache of a request: reclaim for whole blocks if need be, then place it. */
    method PlanKv(m: int) returns (r: Reclaim, ghost room: seq<Extent>)
      requires Consistent() && Shaped(replacement, base.rule, base.models, base.index.Keys, base.lastAccess, {m})
      modifies base`extents, base`index, this`kvKeys, this`nextKvExtentId, this`pendingKvBytes
      ensures r.Reclaimed? ==>
        && Consistent() && Shaped(replacement, base.rule, base.models, base.index.Keys, base.lastAccess, {m})
        && AfterEvictions(old(base.extents), room, m)
        && KvPlaced(room, base.extents, old(nextKvExtentId), nextKvExtentId, old(pendingKvBytes), kvBlockBytes)
        && Releases(r, old(base.extents), room)
        && Deal(base.extents, nextKvExtentId) == DealtPool(room, 0, old(pendingKvBytes), kvBlockBytes, old(nextKvExtentId))
      ensures pendingKvBytes == 0
      // which pool it ends in, or which error it gives up with, is determined
      ensures FoundAs(KvPool(Now(), base.lastAccess, m, old(pendingKvBytes), old(base.extents)), room, r)
      // every reclaim asks for exactly what whole blocks lack, and takes what that needs
      ensures r.Reclaimed? ==> BlocksMade(Now(), base.lastAccess, m, old(pendingKvBytes), old(base.extents), room)
      ensures r.Refused? && replacement != OneByOne ==>
        BlocksLacking(Now(), base.lastAccess, m, old(pendingKvBytes), old(base.extents), r.error)
      // object by object it fails exactly when even an emptied pool lacks whole blocks
      ensures replacement == OneByOne ==>
        (r.Reclaimed? <==> BlockBytes(Exhausted(old(base.extents), m), kvBlockBytes) >= old(pendingKvBytes))
      // in a pool of whole blocks it fails exactly when there is too little to evict
      ensures Blocked(old(base.extents), kvBlockBytes) ==>
        (r.Reclaimed? <==> EnoughFor(old(base.extents), m, old(pendingKvBytes)))
      ensures r.Reclaimed? && Blocked(old(base.extents), kvBlockBytes) && WholeBlocks(old(pendingKvBytes), kvBlockBytes) ==>
        Blocked(base.extents, kvBlockBytes)
    {
      hide Tiles, DistinctKeys, Total, PicksCandidates, SizesMatch, Shaped, AfterEvictions, AllBlocks, EnoughFor, KvPool, BlockBytes;
      hide KvPlaced, KvNumbered, Exhausted, WholeBlocks, Releases, FoundAs, DealtPool, BlocksMade, BlocksLacking;
      var required := pendingKvBytes;
      r := ReclaimBlocks(m, required);
      room := base.extents;
      pendingKvBytes := 0;
      if r.Reclaimed? {
        if Blocked(old(base.extents), kvBlockBytes) {
          BlocksEvictions(old(base.extents), room, m, kvBlockBytes);
        }
        var short := PlaceKv(required);
        if short {
          return Refused(BytesButNotBlocks), room;
        }
        KvKeepsShape(replacement, base.rule, base.models, room, base.extents, base.lastAccess, {m}, old(nextKvExtentId), nextKvExtentId, required, kvBlockBytes);
      }
    }

    /** Everything reclaimed for whole blocks: the extra reclaim of a prefix policy,
        then the loop. */
    method ReclaimBlocks(m: int, required: nat) returns (r: Reclaim)
      requires Consistent() && Shaped(replacement, base.rule, base.models, base.index.Keys, base.lastAccess, {m})
      modifies base`extents, base`index
      ensures r.Reclaimed? ==>
        && Consistent() && Shaped(replacement, base.rule, base.models, base.index.Keys, base.lastAccess, {m})
        && AfterEvictions(old(base.extents), base.extents, m)
        && BlockBytes(base.extents, kvBlockBytes) >= required
        && Releases(r, old(base.extents), base.extents)
      ensures FoundAs(KvPool(Now(), base.lastAccess, m, required, old(base.extents)), base.extents, r)
      ensures replacement == OneByOne ==>
        (r.Reclaimed? <==> BlockBytes(Exhausted(old(base.extents), m), kvBlockBytes) >= required)
      // in a pool of whole blocks it fails exactly when there is too little to evict
      ensures Blocked(old(base.extents), kvBlockBytes) ==>
        (r.Reclaimed? <==> EnoughFor(old(base.extents), m, required))
      // both reclaims ask for exactly what whole blocks lack, and take what that needs
      ensures r.Reclaimed? ==> BlocksMade(Now(), base.lastAccess, m, required, old(base.extents), base.extents)
      ensures r.Refused? && replacement != OneByOne ==>
        BlocksLacking(Now(), base.lastAccess, m, required, old(base.extents), r.error)
    {
      hide Tiles, DistinctKeys, Total, PicksCandidates, SizesMatch, AfterEvictions, AllBlocks, BlockBytes, Exhausted, ReclaimedPool;
      hide AllPrefixShaped, LeastRecent, BlocksFor, UsedBytes, Held, FreeBytes, BytesIn, Objects, IndexOf, KvNumbered;
      hide BlocksMade, BlocksLacking, Rounds, RoundsFail, Frugal;
      if replacement == OneByOne {
        if Blocked(base.extents, kvBlockBytes) {
          WholeEnough(base.extents, m, base.capacityBytes, kvBlockBytes);
        }
        r := FreeForKv(m, required);
      } else {
        r := ReclaimTwice(m, required);
      }
    }

    /** The extra reclaim and the loop of a prefix policy. */
    method ReclaimTwice(m: int, required: nat) returns (r: Reclaim)
      requires Consistent() && AllPrefixShaped(base.models, base.index.Keys) && replacement != OneByOne
      modifies base`extents, base`index
      ensures r.Reclaimed? ==>
        && Consistent() && AllPrefixShaped(base.models, base.index.Keys)
        && AfterEvictions(old(base.extents), base.extents, m)
        && BlockBytes(base.extents, kvBlockBytes) >= required
        && Releases(r, old(base.extents), base.extents)
      ensures FoundAs(KvPool(Now(), base.lastAccess, m, required, old(base.extents)), base.extents, r)
      ensures Blocked(old(base.extents), kvBlockBytes) ==>
        (r.Reclaimed? <==> EnoughFor(old(base.extents), m, required))
      ensures r.Reclaimed? ==> BlocksMade(Now(), base.lastAccess, m, required, old(base.extents), base.extents)
      ensures r.Refused? ==> BlocksLacking(Now(), base.lastAccess, m, required, old(base.extents), r.error)
    {
      hide Tiles, DistinctKeys, Total, PicksCandidates, SizesMatch, AfterEvictions, AllBlocks, BlockBytes, ReclaimedPool, BlockReclaim;
      hide AllPrefixShaped, UsedBytes, Held, FreeBytes, BytesIn, Objects, IndexOf, KvNumbered;
      hide BlocksMade, BlocksLacking, Rounds, RoundsFail, Frugal;
      ghost var es0 := base.extents;
      if Blocked(es0, kvBlockBytes) {
        WholeEnough(es0, m, base.capacityBytes, kvBlockBytes);
      }
      var first := PrefixReclaim(m, Max(0, required - BlockBytes(base.extents, kvBlockBytes)));
      if first.Refused? {
        FirstFails(Now(), base.lastAccess, m, required, es0);
        return first;
      }
      ghost var es := base.extents;
      FrugalFromZero(Now(), base.lastAccess, m, required - BlockBytes(es0, kvBlockBytes), es0, es);
      if Blocked(old(base.extents), kvBlockBytes) {
        BlocksEvictions(old(base.extents), es, m, kvBlockBytes);
        BlocksFree(es, kvBlockBytes);
        FreeAfterEvictions(old(base.extents), es, m, base.capacityBytes);
      }
      r := ReclaimForKv(m, required);
      if r.Refused? {
        LackingLater(Now(), base.lastAccess, m, required, es0, es, r.error);
      }
      if r.Reclaimed? {
        MadeLater(Now(), base.lastAccess, m, required, es0, es, base.extents);
        EvictionsTwice(old(base.extents), es, base.extents, m, base.capacityBytes);
        r := Reclaimed(first.evictedObjects + r.evictedObjects, first.evictedBytes + r.evictedBytes);
      }
    }

    /** `plan_request`: place what the request misses, then its KV cache. */
    method PlanRequest(m: int) returns (r: Planning, ghost ordered: seq<Object>)
      requires Consistent() && Shaped(replacement, base.rule, base.models, base.index.Keys, base.lastAccess, {m})
      requires m in base.models && kvKeys == {} && plannedLoads == map[]
      modifies base`extents, base`index, base`compactionCount
      modifies this`kvKeys, this`nextKvExtentId, this`pendingKvBytes, this`plannedLoads
      ensures r == Rejected(WeightStage) <==>
        && !AllResident(base.models, old(base.index), m)
        && FullBytes(base.models, m) + WithKv(replacement, old(pendingKvBytes)) > base.capacityBytes
      ensures r.Planned? ==>
        && Consistent() && Shaped(replacement, base.rule, base.models, base.index.Keys, base.lastAccess, {m})
        && MissingObjects(base.models, old(base.index).Keys, m, ordered) && plannedLoads == LoadsOf(ordered, r.moved)
        && PlacedFor(base.models, old(base.extents), base.extents, m, kvKeys, old(pendingKvBytes), kvBlockBytes)
        && UsedBytes(base.extents) + r.cost.evictedBytes == UsedBytes(old(base.extents)) + SumSizes(ordered) + old(pendingKvBytes)
        && (ordered == [] ==> r.moved == 0) && r.cost.h2dBytes == r.cost.movedBytes == 0
      ensures ordered == AllMissing(base.models, old(base.index).Keys, m)
      ensures r == PlanOf(Now(), base.lastAccess, m, old(pendingKvBytes), old(base.extents))
      ensures r.Planned? ==>
        && pendingKvBytes == 0 && base.compactionCount == old(base.compactionCount) + Compactions(r.moved)
        && Deal(base.extents, nextKvExtentId) ==
             PlannedPool(Now(), base.lastAccess, m, old(pendingKvBytes), old(base.extents), old(nextKvExtentId))
      ensures old(WholePool()) && WholeBlocks(old(pendingKvBytes), kvBlockBytes) ==>
        (r.Planned? <==> FitsWhole(m, old(pendingKvBytes))) && (r.Planned? ==> WholePool())
      // it evicts what its weights and then its KV cache need, and no more
      ensures r.Planned? ==>
        Thrifty(Now(), base.lastAccess, m, old(pendingKvBytes), ordered, old(base.extents), base.extents,
                old(nextKvExtentId), nextKvExtentId, r.cost.evictedObjects, r.cost.evictedBytes)
    {
      hide Tiles, DistinctKeys, Total, PicksCandidates, SizesMatch, Shaped, AfterEvictions, AllBlocks, BlockBytes, Exhausted, MissingObjects;
      hide KvPlaced, WeightsOf, KvPool, WholeModels, AllResident, PlacedFor, WeightsFor, WholeBlocks, AllMissing, LoadsOf;
      hide Held, Lost, SumSizes, DealtPool, Objects, BytesIn, IndexOf, SpaceMade, BlocksMade, BlocksLacking, Thrifty, Completed;
      ghost var es, lo, kvBytes := base.extents, nextKvExtentId, pendingKvBytes;
      var weights, moved;
      ghost var room;
      weights, moved, ordered, room := PlanMissing(m, WholePool());
      if weights.Refused? {
        return Rejected(WeightStage), ordered;
      }
      ghost var full, spare := base.extents, base.extents;
      WeightsKeys(kvKeys, base.index.Keys, nextKvExtentId);
      RoomBesideModel(base.models, full, base.capacityBytes, m);
      var kv;
      kv, spare := PlanKv(m);
      if kv.Refused? {
        return Rejected(KvStage), ordered;
      }
      ReleaseIsLoss(kv, full, spare);
      RequestPlaced(base.models, es, full, spare, base.extents, base.capacityBytes, m, kvKeys, lo, nextKvExtentId, kvBytes, kvBlockBytes);
      KvUsed(spare, base.extents, lo, nextKvExtentId, kvBytes, kvBlockBytes);
      r := Planned(Evicted(weights.evictedObjects + kv.evictedObjects, weights.evictedBytes + kv.evictedBytes), moved);
      ThroughStages(Now(), base.lastAccess, m, kvBytes, ordered, es, base.extents, lo, nextKvExtentId, weights, kv, room, full, spare);
    }

    /** The weights of a request, if it misses any. */
    method PlanMissing(m: int, ghost whole: bool)
      returns (r: Reclaim, moved: nat, ghost ordered: seq<Object>, ghost room: seq<Extent>)
      requires Consistent() && Shaped(replacement, base.rule, base.models, base.index.Keys, base.lastAccess, {m})
      requires m in base.models && kvKeys == {} && plannedLoads == map[] && (whole ==> WholePool())
      modifies base`extents, base`index, base`compactionCount, this`plannedLoads
      ensures r.Refused? <==>
        && !AllResident(base.models, old(base.index), m)
        && FullBytes(base.models, m) + WithKv(replacement, pendingKvBytes) > base.capacityBytes
      ensures r.Reclaimed? ==>
        && Consistent() && Shaped(replacement, base.rule, base.models, base.index.Keys, base.lastAccess, {m})
        && MissingObjects(base.models, old(base.index).Keys, m, ordered) && plannedLoads == LoadsOf(ordered, moved)
        && WeightsFor(base.models, old(base.index), base.index, m) && AllResident(base.models, base.index, m)
        && (ordered == [] ==> moved == 0)
        && UsedBytes(base.extents) + r.evictedBytes == UsedBytes(old(base.extents)) + SumSizes(ordered)
      ensures ordered == AllMissing(base.models, old(base.index).Keys, m)
      ensures PlacedAs(WeightsOf(Now(), base.lastAccess, m, ordered, pendingKvBytes, old(base.extents)), base.extents, r, moved)
      ensures r.Reclaimed? ==> base.compactionCount == old(base.compactionCount) + Compactions(moved)
      ensures r.Reclaimed? && whole ==> Blocked(base.extents, kvBlockBytes)
      // without missing groups the pool stays as it is, otherwise room is made for them
      ensures r.Reclaimed? ==> Releases(r, old(base.extents), room)
      ensures r.Reclaimed? ==>
        if ordered == [] then room == base.extents == old(base.extents)
        else
          && SpaceMade(Now(), base.lastAccess, m, SumSizes(ordered), pendingKvBytes, old(base.extents), room)
          && Completed(room, base.extents, ordered)
    {
      hide Tiles, DistinctKeys, Total, PicksCandidates, SizesMatch, Shaped, AfterEvictions, RoomyPool, PackedPool, PackedMoves, WholeMerge;
      hide AllBlocks, BlockSized, Completed, KvNumbered, FullBytes, AllMissing, Lost, SpaceMade;
      ghost var es := base.extents;
      var missing := MissingGroups(m);
      ordered, moved := missing, 0;
      NothingMissing(base.models, base.index, m, missing);
      room := es;
      if missing == [] {
        return Reclaimed(0, 0), moved, ordered, room;
      }
      if whole {
        WholeMissing(base.models, m, missing, kvBlockBytes);
      }
      r, moved, room := PlanWeights(m, missing, whole);
      if r.Reclaimed? {
        plannedLoads := LoadsOf(missing, moved);
        WeightsPlaced(base.models, es, room, base.extents, base.capacityBytes, m, missing);
      }
    }

    /** `prepare_tensor`: a planned group costs what its plan says; anything else is
        left to the base class. */
    method PrepareTensor(m: int, tensor: nat) returns (r: Allocation)
      requires Consistent() && m in base.models && tensor < |base.models[m].tensorGroup|
      modifies base`extents, base`index, base`compactionCount, base`clock, base`lastAccess, this`plannedLoads
      ensures var key := Key(m, base.models[m].tensorGroup[tensor]);
        && (key in old(base.index) ==>
          && r == Allocated(if key in old(plannedLoads) then old(plannedLoads)[key] else NO_COST)
          && base.extents == old(base.extents) && base.index == old(base.index) && base.compactionCount == old(base.compactionCount)
          && plannedLoads == old(plannedLoads) - {key})
        && (r.Allocated? ==> base.lastAccess == old(base.lastAccess)[key := base.clock] && base.clock == old(base.clock) + 1)
        && (key !in old(base.index) && key !in old(plannedLoads) ==>
          base.Loaded(old(base.extents), base.extents, m, base.models[m].tensorGroup[tensor], r))
    {
      var key := Key(m, base.models[m].tensorGroup[tensor]);
      if key in plannedLoads {
        r := Allocated(plannedLoads[key]);
        plannedLoads := plannedLoads - {key};
        base.Touch(key);
      } else {
        TilesBelow(base.extents, base.weightCapacityBytes);
        assert plannedLoads - {key} == plannedLoads;
        r := base.PrepareTensor(m, tensor);
      }
    }

    /** A tensor whose group is resident: only its planned load is taken. */
    method PrepareResident(m: int, tensor: nat) returns (load: LoadCost)
      requires Consistent() && m in base.models && tensor < |base.models[m].tensorGroup|
      requires Key(m, base.models[m].tensorGroup[tensor]) in base.index
      modifies base`extents, base`index, base`compactionCount, base`clock, base`lastAccess, this`plannedLoads
      ensures var key := Key(m, base.models[m].tensorGroup[tensor]);
        && load == (if key in old(plannedLoads) then old(plannedLoads)[key] else NO_COST)
        && plannedLoads == old(plannedLoads) - {key}
        && base.lastAccess == old(base.lastAccess)[key := base.clock]
      ensures base.extents == old(base.extents) && base.index == old(base.index) && base.clock == old(base.clock) + 1
      ensures base.compactionCount == old(base.compactionCount)
    {
      var r := PrepareTensor(m, tensor);
      load := r.cost;
    }

    /** The groups of all the model's tensors have been touched, one after the other. */
    ghost predicate Touches(m: int, accesses: map<PoolKey, int>, clock: nat)
      requires m in base.models
      reads base`lastAccess, base`clock
    {
      var groups := base.models[m].tensorGroup;
      base.clock == clock + |groups| && base.lastAccess == TouchedAll(accesses, clock, m, groups, |groups|)
    }

    /** All tensors of a planned request: every group is there already, the planned
        bytes are loaded once, and the groups are touched in order. */
    method PrepareTensors(m: int, ghost ordered: seq<Object>, ghost moved: nat) returns (cost: LoadCost)
      requires Consistent() && m in base.models && AllResident(base.models, base.index, m)
      requires DistinctKeys(ordered) && plannedLoads == LoadsOf(ordered, moved)
      requires KeySet(ordered) <= GroupSet(m, GroupCount(base.models, m))
      modifies base`extents, base`index, base`compactionCount, base`clock, base`lastAccess, this`plannedLoads
      ensures base.extents == old(base.extents) && base.index == old(base.index)
      ensures plannedLoads == map[] && cost == LoadCost(SumSizes(ordered), 0, 0, if ordered == [] then 0 else moved)
      ensures TouchedInOrder(base.lastAccess, base.clock, m, base.models[m].tensorGroup, |base.models[m].tensorGroup|)
      ensures OthersUntouched(old(base.lastAccess), base.lastAccess, m)
      ensures base.compactionCount == old(base.compactionCount) && Touches(m, old(base.lastAccess), old(base.clock))
    {
      hide Tiles, DistinctKeys, Total, PicksCandidates, SizesMatch, Loading, TouchedInOrder, OthersUntouched, LoadsOf, KeySet, SumSizes;
      hide KvNumbered, GroupSet;
      cost := NO_COST;
      LoadStart(ordered, moved);
      PrepareStart(base.models, m, base.lastAccess, base.clock, ordered, moved, plannedLoads);
      for t := 0 to |base.models[m].tensorGroup|
        invariant base.extents == old(base.extents) && base.index == old(base.index) && base.compactionCount == old(base.compactionCount)
        invariant base.clock == old(base.clock) + t
        invariant base.lastAccess == TouchedAll(old(base.lastAccess), old(base.clock), m, base.models[m].tensorGroup, t)
        invariant Preparing(base.models, m, t, old(base.lastAccess), base.lastAccess, base.clock, ordered, moved, plannedLoads, cost)
      {
        PrepareNext(base.models, m, t, old(base.lastAccess), base.lastAccess, base.clock, ordered, moved, plannedLoads, cost);
        var load := PrepareResident(m, t);
        cost := AddCost(cost, load);
      }
      PrepareEnd(base.models, m, old(base.lastAccess), base.lastAccess, base.clock, ordered, moved, plannedLoads, cost);
    }

    /** The pool and all models are cut into whole KV blocks. */
    ghost predicate WholePool()
      reads this, base
    {
      Blocked(base.extents, kvBlockBytes) && WholeModels(base.models, kvBlockBytes)
    }

    /** The whole model and its KV cache fit into the pool. */
    ghost predicate FitsWhole(m: int, kvBytes: nat) {
      FullBytes(base.models, m) + kvBytes <= base.capacityBytes
    }

    /** What holds between requests. */
    ghost predicate Ready()
      reads this, base
    {
      && Consistent() && plannedLoads == map[]
      && Shaped(replacement, base.rule, base.models, base.index.Keys, base.lastAccess, {})
    }

    /** A whole request. If it is served, the model and its KV cache are resident, the
        other models keep the shape of the policy, and no byte is lost; if the model
        (with its KV cache, under a prefix policy) fits into the pool, its weights are
        never what it fails on. */
    method ServeRequest(m: int, kvBytes: nat) returns (r: Serving)
      requires Ready() && m in base.models
      modifies base`extents, base`index, base`compactionCount, base`clock, base`lastAccess
      modifies this`kvKeys, this`nextKvExtentId, this`pendingKvBytes, this`plannedLoads
      ensures r.Served? ==>
        && Ready()
        && PlacedFor(base.models, old(base.extents), base.extents, m, kvKeys, kvBytes, kvBlockBytes)
        && UsedBytes(base.extents) + r.cost.evictedBytes + BytesIn(Objects(old(base.extents)), old(kvKeys)) ==
           UsedBytes(old(base.extents)) + r.cost.h2dBytes + kvBytes
      ensures r == Unserved(WeightStage) <==>
        && !AllResident(base.models, old(base.index), m)
        && FullBytes(base.models, m) + WithKv(replacement, kvBytes) > base.capacityBytes
      // in a pool of whole blocks a request is served exactly when it fits
      ensures old(WholePool()) && WholeBlocks(kvBytes, kvBlockBytes) ==>
        (r.Served? <==> FitsWhole(m, kvBytes)) && (r.Served? ==> WholePool())
      // what it leads to and what it costs is determined by the pool it finds
      ensures r == ServingOf(Now(), old(base.lastAccess), m, kvBytes, Evict(old(base.extents), old(kvKeys)))
      ensures r.Served? ==> State() == ServedState(Now(), old(State()), m, kvBytes, r.cost.movedBytes)
      // and it evicts what its weights and then its KV cache need, and no more
      ensures r.Served? ==>
        var es := Evict(old(base.extents), old(kvKeys));
        Thrifty(Now(), old(base.lastAccess), m, kvBytes, AllMissing(base.models, IndexOf(es).Keys, m), es, base.extents,
                old(nextKvExtentId), nextKvExtentId, r.cost.evictedObjects, r.cost.evictedBytes)
      // in a pool of whole blocks it evicts nothing when the free bytes cover both
      ensures r.Served? && old(WholePool()) && FreeBytes(Evict(old(base.extents), old(kvKeys))) >= r.cost.h2dBytes + kvBytes ==>
        r.cost.evictedObjects == r.cost.evictedBytes == 0 && IndexOf(Evict(old(base.extents), old(kvKeys))).Keys <= base.index.Keys
    {
      hide Thrifty, FreeBytes;
      hide Tiles, DistinctKeys, Total, PicksCandidates, SizesMatch, Shaped, AllBlocks, PlanOf, WholeModels, AllResident;
      hide PlacedFor, WholeBlocks, AllMissing, LoadsOf, Evict, UsedBytes, BytesIn, SumSizes, FullBytes, PlannedPool, TouchedAll;
      hide Compactions;
      var plan;
      ghost var ordered;
      plan, ordered := AdmitRequest(m, kvBytes);
      if plan.Rejected? {
        return Unserved(plan.stage);
      }
      var loaded := FinishRequest(m, ordered, plan.moved);
      r := Served(AddCost(plan.cost, loaded));
    }

    /** Release the old KV blocks and plan the request. */
    method AdmitRequest(m: int, kvBytes: nat) returns (r: Planning, ghost ordered: seq<Object>)
      requires Ready() && m in base.models
      modifies base`extents, base`index, base`compactionCount
      modifies this`kvKeys, this`nextKvExtentId, this`pendingKvBytes, this`plannedLoads
      ensures r == Rejected(WeightStage) <==>
        && !AllResident(base.models, old(base.index), m)
        && FullBytes(base.models, m) + WithKv(replacement, kvBytes) > base.capacityBytes
      ensures r.Planned? ==> Admitted(m, ordered, r.moved) && (ordered == [] ==> r.moved == 0) && r.cost.h2dBytes == r.cost.movedBytes == 0
      ensures r.Planned? ==>
        && PlacedFor(base.models, old(base.extents), base.extents, m, kvKeys, kvBytes, kvBlockBytes)
        && UsedBytes(base.extents) + r.cost.evictedBytes + BytesIn(Objects(old(base.extents)), old(kvKeys)) ==
           UsedBytes(old(base.extents)) + SumSizes(ordered) + kvBytes
      ensures ordered == AllMissing(base.models, IndexOf(Evict(old(base.extents), old(kvKeys))).Keys, m)
      ensures r == PlanOf(Now(), base.lastAccess, m, kvBytes, Evict(old(base.extents), old(kvKeys)))
      ensures r.Planned? ==>
        && pendingKvBytes == 0 && base.compactionCount == old(base.compactionCount) + Compactions(r.moved)
        && Deal(base.extents, nextKvExtentId) ==
             PlannedPool(Now(), base.lastAccess, m, kvBytes, Evict(old(base.extents), old(kvKeys)), old(nextKvExtentId))
      ensures old(WholePool()) && WholeBlocks(kvBytes, kvBlockBytes) ==>
        (r.Planned? <==> FitsWhole(m, kvBytes)) && (r.Planned? ==> WholePool())
      ensures r.Planned? ==>
        Thrifty(Now(), base.lastAccess, m, kvBytes, ordered, Evict(old(base.extents), old(kvKeys)), base.extents,
                old(nextKvExtentId), nextKvExtentId, r.cost.evictedObjects, r.cost.evictedBytes)
      ensures r.Planned? && old(WholePool()) && FreeBytes(Evict(old(base.extents), old(kvKeys))) >= SumSizes(ordered) + kvBytes ==>
        r.cost.evictedObjects == r.cost.evictedBytes == 0 && IndexOf(Evict(old(base.extents), old(kvKeys))).Keys <= base.index.Keys
    {
      hide Thrifty, FreeBytes;
      hide Tiles, DistinctKeys, Total, PicksCandidates, SizesMatch, Shaped, AllBlocks, PlanOf, PlannedPool, WholeModels, PlacedFor, WholeBlocks;
      hide AllMissing, LoadsOf, Evict, UsedBytes, BytesIn, SumSizes, FullBytes, AllResident;
      ghost var es0, kv0 := base.extents, kvKeys;
      if WholePool() {
        BlocksEvict(es0, kv0, kvBlockBytes);
      }
      BeginRequest(kvBytes);
      EvictedIndex(es0, kv0);
      BegunShape(replacement, base.rule, base.models, es0, kv0, base.lastAccess, m);
      ghost var es1 := base.extents;
      r, ordered := PlanRequest(m);
      if r.Planned? {
        PlacedSince(base.models, es0, es1, base.extents, m, kvKeys, kvBytes, kvBlockBytes);
        PlacedMissing(base.models, es0, base.extents, m, kvKeys, kvBytes, kvBlockBytes, IndexOf(es1).Keys, ordered);
        if old(WholePool()) && FreeBytes(es1) >= SumSizes(ordered) + kvBytes {
          NothingEvicted(Now(), base.lastAccess, m, kvBytes, ordered, es1, base.extents, old(nextKvExtentId), nextKvExtentId,
                         r.cost.evictedObjects, r.cost.evictedBytes);
        }
      }
    }

    /** Everything the request needs is in place; its loads are still to be taken. */
    ghost predicate Admitted(m: int, ordered: seq<Object>, moved: nat)
      reads this, base
    {
      && Consistent() && Shaped(replacement, base.rule, base.models, base.index.Keys, base.lastAccess, {m})
      && DistinctKeys(ordered) && KeySet(ordered) <= GroupSet(m, GroupCount(base.models, m))
      && plannedLoads == LoadsOf(ordered, moved)
      && m in base.models && AllResident(base.models, base.index, m)
    }

    /** Take the loads, tensor by tensor. */
    method FinishRequest(m: int, ghost ordered: seq<Object>, ghost moved: nat) returns (cost: LoadCost)
      requires Admitted(m, ordered, moved)
      modifies base`extents, base`index, base`compactionCount, base`clock, base`lastAccess, this`plannedLoads
      ensures Ready() && base.extents == old(base.extents) && base.index == old(base.index)
      ensures cost == LoadCost(SumSizes(ordered), 0, 0, if ordered == [] then 0 else moved)
      ensures base.compactionCount == old(base.compactionCount) && Touches(m, old(base.lastAccess), old(base.clock))
    {
      hide TouchedAll;
      hide Tiles, DistinctKeys, Total, PicksCandidates, SizesMatch, TouchedInOrder, OthersUntouched, LoadsOf;
      ghost var accesses := base.lastAccess;
      cost := PrepareTensors(m, ordered, moved);
      ServedShape(replacement, base.rule, base.models, base.index, accesses, base.lastAccess, base.clock, m);
    }

    // ------------------------------------------- partitioned bin packing

    /** `_merge_partition`: slide the allocations of a stretch to its low end. */
    method MergePartition(
      first: Extent, last: Extent, ghost pre: seq<Extent>, ghost region: seq<Extent>, ghost post: seq<Extent>)
      returns (free: Extent, moved: nat)
      requires Sound(base.extents, base.index, base.capacityBytes)
      requires base.extents == pre + region + post && region != []
      requires region[0] == first && Last(region) == last && first.key.None?
      modifies base`extents, base`index
      ensures Sound(base.extents, base.index, base.capacityBytes)
      ensures base.extents == pre + Merged(region) + post && free == Rest(region)
      ensures base.index.Keys == old(base.index).Keys
      ensures Objects(base.extents) == Objects(old(base.extents))
      ensures moved == UsedBytes(region)
      ensures Blocked(old(base.extents), kvBlockBytes) ==> Blocked(base.extents, kvBlockBytes)
    {
      if Blocked(base.extents, kvBlockBytes) {
        BlocksMerged(pre, region, post, kvBlockBytes);
      }
      RegionSlice(pre, region, post);
      MergeSound(pre, region, post, base.capacityBytes);
      var start, end := FindStretch(base.extents, first, last, |pre|, |pre| + |region| - 1);
      var merged;
      merged, free, moved := MergeStretch(base.extents[start..end + 1]);
      base.extents := base.extents[..start] + merged + base.extents[end + 1..];
      base.index := IndexOf(base.extents);
    }

    /** `_reserve`: allocate the low end of a free extent. */
    method Reserve(free: Extent, key: PoolKey, size: nat, ghost head: seq<Extent>, ghost post: seq<Extent>)
      returns (left: Option<Extent>)
      requires Sound(base.extents, base.index, base.capacityBytes)
      requires Filling(base.extents, head, Some(free), post, free.size)
      requires 0 < size <= free.size && key !in base.index
      modifies base`extents, base`index
      ensures Sound(base.extents, base.index, base.capacityBytes)
      ensures Filling(base.extents, head + [Extent(free.offset, size, Some(key))], left, post, free.size - size)
      ensures base.index == old(base.index)[key := Extent(free.offset, size, Some(key))] && left == Left(free, size)
      ensures Blocked(old(base.extents), kvBlockBytes) && WholeBlocks(size, kvBlockBytes) ==> Blocked(base.extents, kvBlockBytes)
    {
      ReserveStep(base.extents, head, free, post, key, size, base.capacityBytes);
      var i := FindExtent(base.extents, free);
      OnlyOnce(base.extents, i, |head|);
      if Blocked(base.extents, kvBlockBytes) && WholeBlocks(size, kvBlockBytes) {
        BlocksPlace(base.extents, i, key, size, kvBlockBytes);
      }
      base.extents := Place(base.extents, i, key, size);
      base.index := base.index[key := Extent(free.offset, size, Some(key))];
      left := Left(free, size);
    }

    /** Merge one partition and place its requests into the freed end: there is
        always room for the next one. */
    method PackPartition(g: Partition, ghost pre: seq<Extent>, ghost region: seq<Extent>, ghost post: seq<Extent>, ghost blocks: bool)
      returns (moved: nat, ghost head: seq<Extent>)
      requires Sound(base.extents, base.index, base.capacityBytes)
      requires base.extents == pre + region + post && region != [] && g.frees != []
      requires region[0] == g.frees[0] && Last(region) == Last(g.frees) && region[0].key.None?
      requires SumSizes(g.pending) <= FreeBytes(region) && Addable(g.pending, base.index.Keys)
      requires blocks ==> Blocked(base.extents, kvBlockBytes) && BlockSized(g.pending, kvBlockBytes)
      modifies base`extents, base`index
      ensures Sound(base.extents, base.index, base.capacityBytes)
      ensures base.extents == head + post && head == pre + Filled(region, g.pending)
      ensures Objects(head) == Objects(pre) + Objects(region) + g.pending
      ensures base.index.Keys == old(base.index).Keys + KeySet(g.pending)
      ensures moved == UsedBytes(region)
      ensures blocks ==> Blocked(base.extents, kvBlockBytes)
    {
      ghost var keys, room, already := base.index.Keys, FreeBytes(region), Objects(pre) + Objects(region);
      PackingStart(pre, region, post, base.capacityBytes, g.pending);
      var merged;
      merged, moved := MergePartition(g.frees[0], g.frees[|g.frees| - 1], pre, region, post);
      head := pre + Slid(region);
      LaidStart(pre, region, g.pending);
      var free := Some(merged);
      for i := 0 to |g.pending|
        invariant LaidUpTo(pre, region, g.pending, i, head, free)
        invariant blocks ==> Blocked(base.extents, kvBlockBytes)
        invariant Packing(base.extents, base.index, base.capacityBytes, head, free, post, room, already, keys, g.pending, i)
      {
        var o := g.pending[i];
        ghost var es, index := base.extents, base.index;
        PackingRoom(es, index, base.capacityBytes, head, free, post, room, already, keys, g.pending, i);
        ghost var before := free.value;
        free := Reserve(free.value, o.key, o.size, head, post);
        PackingStep(es, index, base.capacityBytes, head, before, post, room, already, keys, g.pending, i, base.extents, free);
        LaidStep(pre, region, g.pending, i, head, before);
        head := head + [Extent(before.offset, o.size, Some(o.key))];
      }
      PackingEnd(base.extents, base.index, base.capacityBytes, head, free, post, room, already, keys, g.pending);
      LaidEnd(pre, region, g.pending, head, free);
      if free.Some? {
        head := head + [free.value];
      }
    }

    /** Partitioned bin packing. Whenever the free bytes cover the requests, all of
        them are placed; every old key keeps its size and the old keys their order;
        and no more bytes move than one merge of the whole pool would move. */
    method PackRequests(requests: seq<Object>) returns (moved: nat)
      requires Sound(base.extents, base.index, base.capacityBytes)
      requires requests != [] && SumSizes(requests) <= FreeBytes(base.extents) && Addable(requests, base.index.Keys)
      modifies base`extents, base`index
      ensures Sound(base.extents, base.index, base.capacityBytes)
      ensures Completed(old(base.extents), base.extents, requests)
      ensures moved <= WholeMerge(old(base.extents))
      ensures base.extents == PackedPool(old(base.extents), requests) && moved == PackedMoves(old(base.extents), requests)
      ensures Blocked(old(base.extents), kvBlockBytes) && BlockSized(requests, kvBlockBytes) ==> Blocked(base.extents, kvBlockBytes)
    {
      PositiveSum(requests);
      AddablePermutation(requests, BySize(requests), base.index.Keys);
      var groups := PartitionRequests(base.extents, BySize(requests));
      AddablePermutation(requests, AllPending(groups), base.index.Keys);
      SomeFree(groups, requests);
      moved := PackPartitions(groups, requests);
    }

    /** A partition without requests stays as it is. */
    method PackPending(g: Partition, ghost pre: seq<Extent>, ghost region: seq<Extent>, ghost post: seq<Extent>, ghost blocks: bool)
      returns (moved: nat, ghost head: seq<Extent>)
      requires Sound(base.extents, base.index, base.capacityBytes)
      requires base.extents == pre + region + post && region != [] && g.frees != []
      requires region[0] == g.frees[0] && Last(region) == Last(g.frees) && region[0].key.None?
      requires SumSizes(g.pending) <= FreeBytes(region) && Addable(g.pending, base.index.Keys)
      requires blocks ==> Blocked(base.extents, kvBlockBytes) && BlockSized(g.pending, kvBlockBytes)
      modifies base`extents, base`index
      ensures Sound(base.extents, base.index, base.capacityBytes)
      ensures base.extents == head + post && head == pre + Fill(region, g.pending)
      ensures Objects(head) == Objects(pre) + Objects(region) + g.pending
      ensures base.index.Keys == old(base.index).Keys + KeySet(g.pending)
      ensures moved == FillMoves(region, g.pending) <= UsedBytes(region)
      ensures g.pending == [] ==> head == pre + region && moved == 0
      ensures blocks ==> Blocked(base.extents, kvBlockBytes)
    {
      if g.pending == [] {
        AppendObjects(pre, region);
        moved, head := 0, pre + region;
      } else {
        moved, head := PackPartition(g, pre, region, post, blocks);
      }
    }

    /** Merge and fill the partition at position `i`. */
    method PackNext(
      groups: seq<Partition>, i: nat, ghost requests: seq<Object>, ghost es0: seq<Extent>, ghost lead: seq<Extent>,
      ghost done: seq<Extent>, ghost head: seq<Extent>, ghost rest: seq<Extent>, ghost blocks: bool)
      returns (moved: nat, ghost nextDone: seq<Extent>, ghost nextHead: seq<Extent>, ghost later: seq<Extent>)
      requires i < |groups| && (blocks ==> Blocked(base.extents, kvBlockBytes) && BlockSized(requests, kvBlockBytes))
      requires Placing(es0, base.extents, base.index, base.capacityBytes, lead, done, head, rest, groups, i, requests)
      modifies base`extents, base`index
      ensures Placing(es0, base.extents, base.index, base.capacityBytes, lead, nextDone, nextHead, later, groups, i + 1, requests)
      ensures UsedBytes(done) + moved <= UsedBytes(nextDone)
      ensures nextHead + FilledPool(later, groups[i + 1..]) == head + FilledPool(rest, groups[i..])
      ensures moved + FilledMoves(later, groups[i + 1..]) == FilledMoves(rest, groups[i..])
      ensures blocks ==> Blocked(base.extents, kvBlockBytes)
    {
      if blocks {
        WholePending(groups, requests, IndexOf(es0).Keys, i, kvBlockBytes);
      }
      ghost var es, index, capacity := base.extents, base.index, base.capacityBytes;
      ghost var gap, region;
      gap, region, later := PlacingNext(es0, es, index, capacity, lead, done, head, rest, groups, i, requests);
      moved, nextHead := PackPending(groups[i], head + gap, region, later, blocks);
      FilledOn(head, rest, groups, i, gap, region, later);
      WholeObjects(head, gap, region, groups[i].pending, nextHead);
      DoneObjects(done, gap, region);
      PlacingStep(es0, es, index, capacity, lead, done, head, rest, groups, i, requests,
                  gap, region, later, nextHead, base.extents, base.index);
      nextDone := done + gap + region;
    }

    /** Merge and fill every partition that has requests, from low to high addresses. */
    method PackPartitions(groups: seq<Partition>, ghost requests: seq<Object>) returns (moved: nat)
      requires Sound(base.extents, base.index, base.capacityBytes)
      requires Divided(groups, requests, base.index.Keys)
      requires AllFrees(groups) == FreeExtents(base.extents) != []
      modifies base`extents, base`index
      ensures Sound(base.extents, base.index, base.capacityBytes)
      ensures Completed(old(base.extents), base.extents, requests)
      ensures moved <= WholeMerge(old(base.extents))
      ensures base.extents == FilledPool(old(base.extents), groups) && moved == FilledMoves(old(base.extents), groups)
      ensures Blocked(old(base.extents), kvBlockBytes) && BlockSized(requests, kvBlockBytes) ==> Blocked(base.extents, kvBlockBytes)
    {
      hide Tiles, DistinctKeys, Total, Placing, Divided, FilledPool, FilledMoves, WholeMerge, FreeExtents, AllFrees, Objects;
      hide IndexOf, Without, KeySet;
      ghost var es0, capacity := base.extents, base.capacityBytes;
      ghost var blocks := Blocked(es0, kvBlockBytes) && BlockSized(requests, kvBlockBytes);
      moved := 0;
      ghost var lead, rest := PlacingStart(es0, capacity, groups, requests);
      ghost var done: seq<Extent>, head := [], lead;
      FilledStart(es0, base.index, capacity, lead, rest, groups, requests);
      for i := 0 to |groups|
        invariant Placing(es0, base.extents, base.index, capacity, lead, done, head, rest, groups, i, requests)
        invariant moved <= UsedBytes(done)
        invariant head + FilledPool(rest, groups[i..]) == FilledPool(es0, groups)
        invariant moved + FilledMoves(rest, groups[i..]) == FilledMoves(es0, groups)
        invariant blocks ==> Blocked(base.extents, kvBlockBytes)
      {
        var local;
        local, done, head, rest := PackNext(groups, i, requests, es0, lead, done, head, rest, blocks);
        moved := moved + local;
      }
      PlacingEnd(es0, base.extents, base.index, capacity, lead, done, head, rest, groups, requests);
      FilledEnd(head, rest, groups);
    }
  }

  /** A routing preview of a planned request: plan and load it on a copy, then commit
      it. The copy leaves the pool alone, the commit ends as the preview did, with
      the same cost or at the same stage, and a served request leaves the same state. */
  method PreviewThenCommit(pool: MockAllocationSegmentMemory, m: int, kvBytes: nat)
    returns (preview: Serving, committed: Serving, ghost untouched: bool, ghost same: bool)
    requires pool.Ready() && m in pool.base.models
    modifies pool, pool.base
    ensures untouched && preview == committed && (committed.Served? ==> same)
  {
    hide Sound, PicksCandidates, SizesMatch, Shaped, KvNumbered, ServingOf, ServedState, AllResident, FullBytes, PlacedFor, Evict;
    hide AllBlocks, WholeModels;
    ghost var before := pool.State();
    var copy := pool.Clone();
    preview := copy.ServeRequest(m, kvBytes);
    untouched := pool.State() == before;
    committed := pool.ServeRequest(m, kvBytes);
    same := copy.State() == pool.State();
  }
}
