/** The segment pool as an object: freeing, eviction, compaction and the
    tensor-by-tensor allocation path
    (evaluation/tensor_simulator/tensor_sim_segment_backend.py). */
module SegmentPool {
  import opened Common
  import opened SegmentExtents
  import opened SegmentReclaim
  import opened SegmentModels
  import opened SegmentEvictions
  import opened SegmentSteps

  lemma {:induction false} EmptyPool(capacity: nat)
    requires capacity > 0
    ensures Sound([Extent(0, capacity, None)], map[], capacity)
  {
    TilesOne(Extent(0, capacity, None), 0);
    Snoc([], Extent(0, capacity, None));
  }

  lemma {:induction false} EmptyBelow(capacity: nat, limit: nat)
    ensures AllBelow([Extent(0, capacity, None)], limit)
  {
    Snoc([], Extent(0, capacity, None));
  }

  /** The cost of evicting from one pool to another: nothing loaded, nothing moved. */
  ghost predicate EvictionCost(cost: LoadCost, before: seq<Extent>, after: seq<Extent>) {
    cost.h2dBytes == 0 && cost.movedBytes == 0 && UsedBytes(after) + cost.evictedBytes == UsedBytes(before)
  }

  // ------------------------------------------------------------- the pool

  class SegmentMemory {
    const models: Models
    const capacityBytes: nat
    const rule: VictimRule
    const compaction: Compaction
    const costs: Costs

    var weightCapacityBytes: nat
    var extents: seq<Extent>
    /** `allocated_extents`: the extent of every key. */
    var index: map<PoolKey, Extent>
    var compactionCount: nat
    var clock: nat
    var lastAccess: map<PoolKey, int>

    ghost predicate Valid()
      reads this
    {
      && Sound(extents, index, capacityBytes)
      && weightCapacityBytes <= capacityBytes
      && PicksCandidates(rule)
      && costs.gpuCopyBytesPerMs > 0.0 && costs.h2dBytesPerMs > 0.0
      && AllWellFormed(models) && capacityBytes > 0
    }

    /** The resident weights are the models' groups, all below the weight limit. */
    ghost predicate Ready()
      reads this
    {
      Valid() && SizesMatch(models, index) && AllBelow(extents, weightCapacityBytes)
    }

    constructor (models: Models, capacityBytes: nat, rule: VictimRule, compaction: Compaction, costs: Costs)
      requires capacityBytes > 0 && PicksCandidates(rule) && AllWellFormed(models)
      requires costs.gpuCopyBytesPerMs > 0.0 && costs.h2dBytesPerMs > 0.0
      ensures Ready() && this.models == models && this.capacityBytes == capacityBytes
      ensures this.rule == rule && this.compaction == compaction && this.costs == costs
      ensures extents == [Extent(0, capacityBytes, None)] && index == map[] && lastAccess == map[] && clock == 0
      ensures weightCapacityBytes == capacityBytes && compactionCount == 0
    {
      this.models, this.capacityBytes, this.rule, this.compaction, this.costs := models, capacityBytes, rule, compaction, costs;
      weightCapacityBytes, extents, index := capacityBytes, [Extent(0, capacityBytes, None)], map[];
      compactionCount, clock, lastAccess := 0, 0, map[];
      EmptyPool(capacityBytes);
      EmptyBelow(capacityBytes, capacityBytes);
    }

    /** `clone`: a copy whose key index is rebuilt from its extents. It is a fresh
        object, so running a request on it cannot change this one. */
    method Clone() returns (copy: SegmentMemory)
      requires Valid()
      ensures fresh(copy) && copy.Valid()
      ensures copy.models == models && copy.capacityBytes == capacityBytes && copy.rule == rule
      ensures copy.compaction == compaction && copy.costs == costs
      ensures copy.weightCapacityBytes == weightCapacityBytes && copy.compactionCount == compactionCount
      ensures copy.extents == extents && copy.index == index
      ensures copy.clock == clock && copy.lastAccess == lastAccess
    {
      copy := new SegmentMemory(models, capacityBytes, rule, compaction, costs);
      copy.weightCapacityBytes, copy.compactionCount := weightCapacityBytes, compactionCount;
      copy.extents, copy.index := extents, IndexOf(extents);
      copy.clock, copy.lastAccess := clock, lastAccess;
    }

    method Touch(key: PoolKey)
      modifies this`clock, this`lastAccess
      ensures clock == old(clock) + 1 && lastAccess == old(lastAccess)[key := clock]
    {
      clock := clock + 1;
      lastAccess := lastAccess[key := clock];
    }

    /** `_free`: nothing happens to a key that is not allocated. */
    method Free(key: PoolKey, coalesce: bool) returns (released: nat)
      requires Valid()
      modifies this`extents, this`index
      ensures Valid()
      ensures key !in old(index) ==> released == 0 && extents == old(extents) && index == old(index)
      ensures key in old(index) ==>
        && released == old(index)[key].size && released > 0
        && extents == (if coalesce then Evict(old(extents), {key}) else MarkFree(old(extents), {key}))
      ensures index == old(index) - {key}
      ensures Objects(extents) == Without(Objects(old(extents)), {key})
      ensures UsedBytes(extents) == UsedBytes(old(extents)) - released
    {
      if key !in index {
        IndexKeys(extents);
        WithoutNone(Objects(extents), {key});
        return 0;
      }
      FreedKey(extents, key, capacityBytes);
      released := index[key].size;
      index := index - {key};
      extents := MarkFree(extents, {key});
      if coalesce {
        extents := Coalesce(extents);
      }
    }

    /** Evict the policy's victim among the weights of the other models. */
    method EvictOne(active: int) returns (evicted: bool, released: nat)
      requires Valid()
      modifies this`extents, this`index
      ensures Valid()
      ensures evicted <==> Evictable(old(index).Keys, active) != {}
      ensures !evicted ==> released == 0 && extents == old(extents) && index == old(index)
      ensures evicted ==>
        var v := rule(old(extents), lastAccess, Evictable(old(index).Keys, active));
        && v in Evictable(old(index).Keys, active)
        && extents == Evict(old(extents), {v}) && index == old(index) - {v}
        && released == old(index)[v].size
    {
      var candidates := Evictable(index.Keys, active);
      if candidates == {} {
        return false, 0;
      }
      Picked(rule, extents, lastAccess, candidates);
      var v := rule(extents, lastAccess, candidates);
      released := Free(v, true);
      evicted := true;
    }

    /** `_compact`: everything allocated moves together at the low end. */
    method Compact() returns (moved: nat)
      requires Valid()
      modifies this`extents, this`index, this`compactionCount
      ensures Valid()
      ensures extents == Compacted(old(extents), capacityBytes) && moved == Moved(old(extents), 0)
      ensures moved == BytesIn(Objects(old(extents)), Relocated(old(extents), extents))
      ensures Objects(extents) == Objects(old(extents))
      ensures compactionCount == old(compactionCount) + 1
    {
      CompactedFacts(extents, capacityBytes);
      CompactedMoves(extents, capacityBytes);
      var packed, cursor;
      packed, cursor, moved := PackFrom(extents, 0);
      if cursor < capacityBytes {
        packed := packed + [Extent(cursor, capacityBytes - cursor, None)];
      }
      extents := packed;
      index := IndexOf(packed);
      compactionCount := compactionCount + 1;
    }

    ghost function Setup(): Settings {
      Settings(models, capacityBytes, rule, compaction, costs)
    }

    ghost function State(): PoolState
      reads this
    {
      PoolState(weightCapacityBytes, extents, compactionCount, clock, lastAccess)
    }

    /** An eviction loop ended where the rule leads, having succeeded if that does. */
    ghost predicate EvictedFor(goal: Goal, active: int, before: seq<Extent>, after: seq<Extent>, ok: bool, cost: LoadCost)
      reads this`lastAccess
    {
      var step := EvictionStep(before, EvictUntil(rule, lastAccess, active, goal, before));
      (ok <==> step.Some?) && (ok ==> step.value == Step(after, 0, cost))
    }

    /** `_eviction_alternative_ms`: what evicting until a fit would cost, found on a
        copy; nothing here changes. */
    method EvictionAlternative(size: nat, active: int) returns (bytes: Option<nat>)
      requires Valid()
      ensures bytes.Some? <==> LargestBelow(Exhausted(extents, active), weightCapacityBytes) >= size
      ensures var e := EvictUntil(rule, lastAccess, active, Stretch(weightCapacityBytes, size), extents);
        bytes == if e.None? then None else Some(Lost(extents, e.value.extents))
    {
      hide EvictUntil, Tiles, DistinctKeys, Total, PicksCandidates, LargestBelow, AfterEvictions, Exhausted;
      ghost var goal, count := Stretch(weightCapacityBytes, size), 0;
      var probe, keys := extents, index;
      var evicted: nat := 0;
      StepsStart(rule, lastAccess, extents, active, goal, capacityBytes);
      while LargestBelow(probe, weightCapacityBytes) < size
        invariant keys == IndexOf(probe) && evicted + UsedBytes(probe) == UsedBytes(extents)
        invariant Stepping(rule, lastAccess, extents, probe, active, goal, capacityBytes, count)
        decreases UsedBytes(probe)
      {
        var candidates := Evictable(keys.Keys, active);
        if candidates == {} {
          StepsFail(rule, lastAccess, extents, probe, active, goal, capacityBytes, count);
          return None;
        }
        StepsGoOn(rule, lastAccess, extents, probe, active, goal, capacityBytes, count);
        var v := rule(probe, lastAccess, candidates);
        var coalesced := Coalesce(MarkFree(probe, {v}));
        evicted, keys, probe := evicted + keys[v].size, keys - {v}, coalesced;
        count := count + 1;
      }
      StepsEnd(rule, lastAccess, extents, probe, active, goal, capacityBytes, count);
      ReachedAtMost(extents, probe, active, capacityBytes, goal);
      bytes := Some(evicted);
    }

    /** Evict until a free stretch is large enough, or nothing is left to evict: the
        victims of the alternative, up to the same point. */
    method EvictForStretch(size: nat, active: int) returns (ok: bool, cost: LoadCost)
      requires Valid()
      modifies this`extents, this`index
      ensures Valid() && AfterEvictions(old(extents), extents, active)
      ensures ok <==> LargestBelow(Exhausted(old(extents), active), weightCapacityBytes) >= size
      ensures EvictedFor(Stretch(weightCapacityBytes, size), active, old(extents), extents, ok, cost)
      ensures EvictionCost(cost, old(extents), extents)
    {
      hide EvictUntil, Tiles, DistinctKeys, Total, PicksCandidates, AfterEvictions;
      ghost var goal := Stretch(weightCapacityBytes, size);
      cost, ok := NO_COST, true;
      StepsStart(rule, lastAccess, extents, active, goal, capacityBytes);
      while LargestBelow(extents, weightCapacityBytes) < size
        invariant Valid() && EvictionCost(cost, old(extents), extents)
        invariant Stepping(rule, lastAccess, old(extents), extents, active, goal, capacityBytes, cost.evictedObjects)
        decreases UsedBytes(extents)
      {
        ghost var before := extents;
        var evicted, released := EvictOne(active);
        if !evicted {
          StepsFail(rule, lastAccess, old(extents), before, active, goal, capacityBytes, cost.evictedObjects);
          return false, cost;
        }
        StepsGoOn(rule, lastAccess, old(extents), before, active, goal, capacityBytes, cost.evictedObjects);
        cost := Evicted(cost.evictedObjects + 1, cost.evictedBytes + released);
      }
      StepsEnd(rule, lastAccess, old(extents), extents, active, goal, capacityBytes, cost.evictedObjects);
      ReachedAtMost(old(extents), extents, active, capacityBytes, goal);
    }

    /** Evict until the pool has `size` free bytes below the limit in all. */
    method MakeRoom(size: nat, active: int) returns (ok: bool, cost: LoadCost)
      requires Valid() && AllBelow(extents, weightCapacityBytes)
      modifies this`extents, this`index
      ensures Valid() && AfterEvictions(old(extents), extents, active) && AllBelow(extents, weightCapacityBytes)
      ensures ok <==> UsedBytes(Exhausted(old(extents), active)) + size <= weightCapacityBytes
      ensures ok ==> UsedBytes(extents) + size <= weightCapacityBytes
      ensures EvictedFor(Room(weightCapacityBytes, size), active, old(extents), extents, ok, cost)
      ensures EvictionCost(cost, old(extents), extents)
    {
      hide EvictUntil, Tiles, DistinctKeys, Total, PicksCandidates, AfterEvictions, AllBelow, FreeBelow, Exhausted, Held, UsedBytes, IndexOf;
      ghost var goal := Room(weightCapacityBytes, size);
      cost, ok := NO_COST, true;
      StepsStart(rule, lastAccess, extents, active, goal, capacityBytes);
      PoolBelow(extents, capacityBytes, weightCapacityBytes);
      while FreeBelow(extents, weightCapacityBytes) < size
        invariant Valid() && AllBelow(extents, weightCapacityBytes)
        invariant FreeBelow(extents, weightCapacityBytes) + UsedBytes(extents) == weightCapacityBytes
        invariant EvictionCost(cost, old(extents), extents)
        invariant Stepping(rule, lastAccess, old(extents), extents, active, goal, capacityBytes, cost.evictedObjects)
        decreases UsedBytes(extents)
      {
        ghost var before := extents;
        var evicted, released := EvictOne(active);
        if !evicted {
          StepsFail(rule, lastAccess, old(extents), before, active, goal, capacityBytes, cost.evictedObjects);
          return false, cost;
        }
        StepsGoOn(rule, lastAccess, old(extents), before, active, goal, capacityBytes, cost.evictedObjects);
        StaysBelow(before, extents, capacityBytes, weightCapacityBytes);
        cost := Evicted(cost.evictedObjects + 1, cost.evictedBytes + released);
      }
      StepsEnd(rule, lastAccess, old(extents), extents, active, goal, capacityBytes, cost.evictedObjects);
      ExhaustionIsMost(old(extents), extents, active, capacityBytes, weightCapacityBytes, 1);
    }

    /** Evict until what is used is within the weight limit. */
    method EvictToLimit(active: int) returns (ok: bool, cost: LoadCost)
      requires Valid()
      modifies this`extents, this`index
      ensures Valid() && AfterEvictions(old(extents), extents, active)
      ensures ok <==> UsedBytes(Exhausted(old(extents), active)) <= weightCapacityBytes
      ensures ok ==> UsedBytes(extents) <= weightCapacityBytes
      ensures EvictedFor(Within(weightCapacityBytes), active, old(extents), extents, ok, cost)
      ensures EvictionCost(cost, old(extents), extents)
    {
      hide EvictUntil, Tiles, DistinctKeys, Total, PicksCandidates, AfterEvictions;
      ghost var goal := Within(weightCapacityBytes);
      cost, ok := NO_COST, true;
      StepsStart(rule, lastAccess, extents, active, goal, capacityBytes);
      while UsedBytes(extents) > weightCapacityBytes
        invariant Valid() && EvictionCost(cost, old(extents), extents)
        invariant Stepping(rule, lastAccess, old(extents), extents, active, goal, capacityBytes, cost.evictedObjects)
        decreases UsedBytes(extents)
      {
        ghost var before := extents;
        var evicted, released := EvictOne(active);
        if !evicted {
          StepsFail(rule, lastAccess, old(extents), before, active, goal, capacityBytes, cost.evictedObjects);
          return false, cost;
        }
        StepsGoOn(rule, lastAccess, old(extents), before, active, goal, capacityBytes, cost.evictedObjects);
        cost := Evicted(cost.evictedObjects + 1, cost.evictedBytes + released);
      }
      StepsEnd(rule, lastAccess, old(extents), extents, active, goal, capacityBytes, cost.evictedObjects);
      ReachedAtMost(old(extents), extents, active, capacityBytes, goal);
    }

    /** `_trim_to_capacity`: evict down to the weight limit, then compact if some
        allocation still lies beyond it. */
    method TrimToCapacity(active: int) returns (ok: bool, cost: LoadCost)
      requires Valid()
      modifies this`extents, this`index, this`compactionCount
      ensures Valid() && OnlyLost(old(extents), extents, active)
      ensures ok <==> UsedBytes(Exhausted(old(extents), active)) <= weightCapacityBytes
      ensures ok ==> AllBelow(extents, weightCapacityBytes)
      ensures cost.h2dBytes == 0 && UsedBytes(extents) + cost.evictedBytes == UsedBytes(old(extents))
      // where it ends is determined by where it began
      ensures StepTaken(TrimStep(Setup(), lastAccess, weightCapacityBytes, active, old(extents)),
                        extents, compactionCount, old(compactionCount), ok, cost)
      // it evicts while too much is in use, and compacts only if it must
      ensures ok ==> TrimmedTo(Setup(), lastAccess, weightCapacityBytes, active, old(extents), extents,
                               compactionCount - old(compactionCount), cost)
    {
      hide EvictUntil, Tiles, DistinctKeys, Total, PicksCandidates, AfterEvictions, OnlyLost, AllBelow, Compacted, TrimmedTo;
      ghost var es, count := extents, compactionCount;
      ok, cost := EvictToLimit(active);
      LostByEviction(old(extents), extents, active, capacityBytes);
      if ok {
        var beyond := AnyBeyond(extents, weightCapacityBytes);
        if beyond {
          ghost var before := extents;
          PoolTiles(extents, capacityBytes);
          CompactedBelow(extents, capacityBytes, weightCapacityBytes);
          var moved := Compact();
          LostBeforeMoving(old(extents), before, extents, active);
          cost := cost.(movedBytes := moved);
        }
        TrimTaken(Setup(), lastAccess, weightCapacityBytes, active, es, extents, count, compactionCount, cost);
      }
    }

    /** Allocate from the first free extent with room below the limit. */
    method PlaceFirst(key: PoolKey, size: nat) returns (i: nat)
      requires Valid() && AllBelow(extents, weightCapacityBytes)
      requires key !in index && 0 < size <= LargestBelow(extents, weightCapacityBytes)
      modifies this`extents, this`index
      ensures Valid() && AllBelow(extents, weightCapacityBytes)
      ensures i < |old(extents)| && Fits(old(extents)[i], weightCapacityBytes, size)
      ensures forall j :: 0 <= j < i ==> !Fits(old(extents)[j], weightCapacityBytes, size)
      ensures extents == Place(old(extents), i, key, size)
      ensures PlacementStep(old(extents), weightCapacityBytes, key, size) == Some(Step(extents, 0, NO_COST.(h2dBytes := size)))
      ensures index == old(index)[key := Extent(old(extents)[i].offset, size, Some(key))]
      ensures Without(Objects(extents), {key}) == Objects(old(extents))
      ensures UsedBytes(extents) == UsedBytes(old(extents)) + size
    {
      LargestIsSome(extents, weightCapacityBytes, size);
      i := 0;
      while !Fits(extents[i], weightCapacityBytes, size)
        invariant i < |extents|
        invariant forall j :: 0 <= j < i ==> !Fits(extents[j], weightCapacityBytes, size)
        decreases |extents| - i
      {
        i := i + 1;
      }
      FirstFitIs(extents, weightCapacityBytes, size, i);
      PlacedSound(extents, i, key, size, capacityBytes);
      PlacedBelow(extents, i, key, size, weightCapacityBytes);
      index := index[key := Extent(extents[i].offset, size, Some(key))];
      extents := Place(extents, i, key, size);
    }

    /** Bring the free bytes together as the compaction policy says. */
    method MakeStretch(size: nat, active: int) returns (ok: bool, cost: LoadCost)
      requires Valid() && AllBelow(extents, weightCapacityBytes)
      requires UsedBytes(extents) + size <= weightCapacityBytes
      modifies this`extents, this`index, this`compactionCount
      ensures Valid() && AllBelow(extents, weightCapacityBytes) && OnlyLost(old(extents), extents, active)
      ensures ok <==> compaction != Never || LargestBelow(Exhausted(old(extents), active), weightCapacityBytes) >= size
      ensures ok ==> LargestBelow(extents, weightCapacityBytes) >= size
      ensures cost.h2dBytes == 0 && UsedBytes(extents) + cost.evictedBytes == UsedBytes(old(extents))
      ensures compaction == Always ==> cost.evictedBytes == 0
      // a cost-aware pool evicts only when that is predicted to be cheaper
      ensures compaction == CostAware && cost.evictedBytes > 0 ==>
        ReloadMs(costs, cost.evictedBytes) < CompactMs(costs, Moved(old(extents), 0))
      ensures StepTaken(StretchStep(Setup(), lastAccess, weightCapacityBytes, active, size, old(extents)),
                        extents, compactionCount, old(compactionCount), ok, cost)
    {
      hide EvictUntil, Tiles, DistinctKeys, Total, PicksCandidates, AfterEvictions, OnlyLost, AllBelow, Compacted, Moved;
      var evict := compaction == Never;
      if compaction == CostAware {
        var _, _, moved := PackFrom(extents, 0);
        var alternative := EvictionAlternative(size, active);
        evict := alternative.Some? && ReloadMs(costs, alternative.value) < CompactMs(costs, moved);
      }
      if evict {
        ok, cost := EvictInstead(size, active);
      } else {
        cost := CompactInstead(size, active);
        ok := true;
      }
    }

    /** Gain a stretch by evicting. */
    method EvictInstead(size: nat, active: int) returns (ok: bool, cost: LoadCost)
      requires Valid() && AllBelow(extents, weightCapacityBytes)
      modifies this`extents, this`index
      ensures Valid() && AllBelow(extents, weightCapacityBytes) && OnlyLost(old(extents), extents, active)
      ensures ok <==> LargestBelow(Exhausted(old(extents), active), weightCapacityBytes) >= size
      ensures ok ==> LargestBelow(extents, weightCapacityBytes) >= size
      ensures EvictionCost(cost, old(extents), extents)
      ensures EvictedFor(Stretch(weightCapacityBytes, size), active, old(extents), extents, ok, cost)
    {
      hide AfterEvictions, OnlyLost, AllBelow, EvictUntil;
      ok, cost := EvictForStretch(size, active);
      EvictedBelow(old(extents), extents, active, capacityBytes, weightCapacityBytes);
      StretchReached(old(extents), extents, active, ok, size, cost);
    }

    /** A loop that succeeded has the stretch it was after. */
    lemma {:induction false} StretchReached(before: seq<Extent>, after: seq<Extent>, active: int, ok: bool, size: nat, cost: LoadCost)
      requires EvictedFor(Stretch(weightCapacityBytes, size), active, before, after, ok, cost)
      ensures ok ==> LargestBelow(after, weightCapacityBytes) >= size
    {
      hide LargestBelow;
      if ok {
        UntilReaches(rule, lastAccess, active, Stretch(weightCapacityBytes, size), before);
      }
    }

    /** Gain a stretch by compacting. */
    method CompactInstead(size: nat, active: int) returns (cost: LoadCost)
      requires Valid() && UsedBytes(extents) + size <= weightCapacityBytes
      modifies this`extents, this`index, this`compactionCount
      ensures Valid() && AllBelow(extents, weightCapacityBytes) && OnlyLost(old(extents), extents, active)
      ensures LargestBelow(extents, weightCapacityBytes) >= size
      ensures cost == NO_COST.(movedBytes := Moved(old(extents), 0)) && UsedBytes(extents) == UsedBytes(old(extents))
      ensures extents == Compacted(old(extents), capacityBytes) && compactionCount == old(compactionCount) + 1
    {
      hide Compacted, Moved, OnlyLost, AllBelow;
      CompactedBelow(extents, capacityBytes, weightCapacityBytes);
      var moved := Compact();
      NothingLost(old(extents), extents, active);
      cost := NO_COST.(movedBytes := moved);
    }

    /** Free enough bytes, in one stretch. It fails exactly when the bytes that cannot
        be evicted leave too little room, or, without compaction, no large enough
        stretch. */
    method MakeReady(size: nat, active: int) returns (failure: Option<AllocationError>, cost: LoadCost)
      requires Valid() && AllBelow(extents, weightCapacityBytes)
      modifies this`extents, this`index, this`compactionCount
      ensures Valid() && AllBelow(extents, weightCapacityBytes) && OnlyLost(old(extents), extents, active)
      ensures failure == Some(CannotFit) <==> UsedBytes(Exhausted(old(extents), active)) + size > weightCapacityBytes
      ensures failure == Some(Fragmented) <==>
        && UsedBytes(Exhausted(old(extents), active)) + size <= weightCapacityBytes
        && compaction == Never && LargestBelow(Exhausted(old(extents), active), weightCapacityBytes) < size
      ensures failure.None? ==> LargestBelow(extents, weightCapacityBytes) >= size
      ensures cost.h2dBytes == 0 && UsedBytes(extents) + cost.evictedBytes == UsedBytes(old(extents))
      ensures StepTaken(ReadyStep(Setup(), lastAccess, weightCapacityBytes, active, size, old(extents)),
                        extents, compactionCount, old(compactionCount), failure.None?, cost)
    {
      hide EvictUntil, Tiles, DistinctKeys, Total, PicksCandidates, AfterEvictions, OnlyLost, AllBelow, StretchStep;
      var ok;
      ok, cost := MakeRoom(size, active);
      RoomMade(old(extents), extents, active, capacityBytes, weightCapacityBytes);
      if !ok {
        return Some(CannotFit), cost;
      }
      if LargestBelow(extents, weightCapacityBytes) < size {
        ghost var roomy := extents;
        var more;
        ok, more := MakeStretch(size, active);
        LostTwice(old(extents), roomy, extents, active);
        cost := AddCost(cost, more);
        if !ok {
          return Some(Fragmented), cost;
        }
      }
      failure := None;
    }

    /** The path of `prepare_tensor` that allocates. After reclamation a place is
        always found. */
    method AllocateTensor(key: PoolKey, size: nat, active: int) returns (r: Allocation)
      requires Valid() && AllBelow(extents, weightCapacityBytes) && key !in index && size > 0
      modifies this`extents, this`index, this`compactionCount
      ensures Valid() && AllBelow(extents, weightCapacityBytes)
      ensures r == Failed(CannotFit) <==> UsedBytes(Exhausted(old(extents), active)) + size > weightCapacityBytes
      ensures r == Failed(Fragmented) <==>
        && UsedBytes(Exhausted(old(extents), active)) + size <= weightCapacityBytes
        && compaction == Never && LargestBelow(Exhausted(old(extents), active), weightCapacityBytes) < size
      ensures r.Allocated? ==>
        && key in index
        && LostAndGained(old(extents), extents, active, key, size)
        && r.cost.h2dBytes == size
        && UsedBytes(extents) + r.cost.evictedBytes == UsedBytes(old(extents)) + size
      ensures StepTaken(AllocationStep(Setup(), lastAccess, weightCapacityBytes, active, key, size, old(extents)),
                        extents, compactionCount, old(compactionCount), r.Allocated?, if r.Allocated? then r.cost else NO_COST)
      // it evicts while too few bytes are free, gains a stretch only if none is large
      // enough then, and takes the first free extent with room
      ensures r.Allocated? ==> AllocatedTo(Setup(), lastAccess, weightCapacityBytes, active, key, size, old(extents), extents,
                                           compactionCount - old(compactionCount), r.cost)
    {
      hide AllocatedTo;
      hide EvictUntil, Tiles, DistinctKeys, Total, PicksCandidates, OnlyLost, AllBelow, ReadyStep, PlacementStep, LostAndGained;
      hide Exhausted, LargestBelow;
      var failure, cost := MakeReady(size, active);
      if failure.Some? {
        return Failed(failure.value);
      }
      LostKeys(old(extents), extents, active);
      ghost var found := extents;
      var i := PlaceFirst(key, size);
      GainedOne(old(extents), found, extents, active, key, size);
      r := Allocated(cost.(h2dBytes := size));
      AllocationTaken(Setup(), lastAccess, weightCapacityBytes, active, key, size, old(extents), extents,
                      old(compactionCount), compactionCount, r.cost);
    }

    /** `prepare_tensor`: a resident group is only touched, a missing one allocated. */
    method PrepareTensor(m: int, tensor: nat) returns (r: Allocation)
      requires Ready() && m in models && tensor < |models[m].tensorGroup|
      modifies this`extents, this`index, this`compactionCount, this`clock, this`lastAccess
      ensures Valid() && AllBelow(extents, weightCapacityBytes) && (r.Allocated? ==> Ready())
      ensures var key := Key(m, models[m].tensorGroup[tensor]);
        && (key in old(index) ==> 
          r == Allocated(NO_COST) && extents == old(extents) && index == old(index) && compactionCount == old(compactionCount))
        && (key !in old(index) ==> Loaded(old(extents), extents, m, models[m].tensorGroup[tensor], r))
        && (r.Allocated? ==> key in index && lastAccess == old(lastAccess)[key := clock] && clock == old(clock) + 1)
      ensures Reaches(TensorStep(Setup(), old(State()), m, tensor), r.Allocated?, if r.Allocated? then r.cost else NO_COST)
      ensures var g := models[m].tensorGroup[tensor];
        r.Allocated? && Key(m, g) !in old(index) ==>
          AllocatedTo(Setup(), old(lastAccess), weightCapacityBytes, m, Key(m, g), models[m].groupBytes[g], old(extents), extents,
                      compactionCount - old(compactionCount), r.cost)
    {
      hide AllocatedTo;
      hide AllocationStep, Tiles, DistinctKeys, Total, PicksCandidates, AllBelow, OnlyLost, LostAndGained;
      var g := models[m].tensorGroup[tensor];
      var key, size := Key(m, g), models[m].groupBytes[g];
      if key in index {
        Touch(key);
        return Allocated(NO_COST);
      }
      r := AllocateTensor(key, size, m);
      if r.Allocated? {
        SizesAfterGain(models, old(extents), extents, m, m, g, capacityBytes);
        Touch(key);
      }
    }

    /** It succeeded if this outcome does, and then this is its state and cost. */
    ghost predicate Reaches(outcome: Option<Outcome>, ok: bool, cost: LoadCost)
      reads this
    {
      (ok <==> outcome.Some?) && (ok ==> outcome.value == Outcome(State(), cost))
    }

    /** What `PrepareTensor` does about a missing group. */
    ghost predicate Loaded(before: seq<Extent>, after: seq<Extent>, m: int, g: nat, r: Allocation)
      requires m in models && g < |models[m].groupBytes|
      reads this`weightCapacityBytes
    {
      var size := models[m].groupBytes[g];
      && (r == Failed(CannotFit) <==> UsedBytes(Exhausted(before, m)) + size > weightCapacityBytes)
      && (r == Failed(Fragmented) ==> compaction == Never)
      && (r.Allocated? ==>
        && LostAndGained(before, after, m, Key(m, g), size)
        && r.cost.h2dBytes == size
        && UsedBytes(after) + r.cost.evictedBytes == UsedBytes(before) + size)
    }

    /** `begin_request` of the base class: KV memory lowers the weight limit. */
    method BeginRequest(kvBytes: nat, active: int) returns (ok: bool, cost: LoadCost)
      requires Valid() && SizesMatch(models, index)
      modifies this`extents, this`index, this`compactionCount, this`weightCapacityBytes
      ensures weightCapacityBytes == Max(0, capacityBytes - kvBytes)
      ensures Valid() && SizesMatch(models, index) && OnlyLost(old(extents), extents, active)
      ensures ok <==> UsedBytes(Exhausted(old(extents), active)) <= weightCapacityBytes
      ensures ok ==> Ready()
      ensures cost.h2dBytes == 0 && UsedBytes(extents) + cost.evictedBytes == UsedBytes(old(extents))
      ensures StepTaken(TrimStep(Setup(), lastAccess, weightCapacityBytes, active, old(extents)),
                        extents, compactionCount, old(compactionCount), ok, cost)
      ensures ok ==> TrimmedTo(Setup(), lastAccess, weightCapacityBytes, active, old(extents), extents,
                               compactionCount - old(compactionCount), cost)
    {
      hide TrimmedTo;
      hide TrimStep, Tiles, DistinctKeys, Total, PicksCandidates, OnlyLost, AllBelow;
      weightCapacityBytes := Max(0, capacityBytes - kvBytes);
      ok, cost := TrimToCapacity(active);
      SizesAfterLoss(models, old(extents), extents, active, capacityBytes);
    }

    /** Only weights live here: KV memory is kept outside by the weight limit. */
    ghost predicate WeightsOnly()
      reads this
    {
      forall k :: k in index ==> k.Weight?
    }

    /** A pool that may be compacted has room for the groups of a model it misses. */
    ghost predicate RoomFor(es: seq<Extent>, m: int, limit: nat) {
      compaction == Always && UsedBytes(es) + FullBytes(models, m) - OwnBytes(models, es, m) <= limit
    }

    /** One request without a plan: trim, then load tensor by tensor. With
        compaction it is served exactly when the model fits beside its KV cache; in
        any case what it does is determined by the state it finds. */
    method ServeRequest(m: int, kvBytes: nat) returns (served: bool, cost: LoadCost)
      requires Valid() && SizesMatch(models, index) && WeightsOnly() && m in models
      modifies this`extents, this`index, this`compactionCount, this`weightCapacityBytes, this`clock, this`lastAccess
      ensures served ==> Ready() && WeightsOnly() && AllResident(models, index, m)
      ensures compaction != Never ==> (served <==> FullBytes(models, m) <= Max(0, capacityBytes - kvBytes))
      ensures served ==> UsedBytes(extents) + cost.evictedBytes == UsedBytes(old(extents)) + cost.h2dBytes
      ensures Reaches(Serving(Setup(), old(State()), m, kvBytes), served, cost)
      // it loads what its model is missing, tensor by tensor
      ensures served ==> cost.h2dBytes + OwnBytes(models, old(extents), m) == FullBytes(models, m)
      ensures served ==> TouchedSince(models[m].tensorGroup, m, |models[m].tensorGroup|, old(lastAccess), lastAccess, old(clock), clock)
      // and a pool that may be compacted loses nothing to it when there is room for that
      ensures served && RoomFor(old(extents), m, weightCapacityBytes) ==> cost.evictedObjects == cost.evictedBytes == 0
    {
      hide TrimStep, LoadingFrom, Tiles, DistinctKeys, Total, PicksCandidates, OnlyLost, AllBelow, AllResident, TrimmedTo, TouchedSince;
      hide OwnBytes, FullBytes, UsedBytes, Exhausted, Objects, BytesIn, GroupSet, SizesMatch, Evictable;
      served, cost := BeginRequest(kvBytes, m);
      ActiveFits(models, old(extents), capacityBytes, m);
      if served {
        LostKeys(old(extents), extents, m);
        OwnKept(models, old(extents), extents, m);
        if UsedBytes(old(extents)) <= weightCapacityBytes {
          NothingToTrim(Setup(), lastAccess, weightCapacityBytes, m, old(extents), extents, compactionCount - old(compactionCount), cost);
        }
        ResidentBytes(models, old(extents), capacityBytes, m, GroupCount(models, m));
        var loading;
        served, loading := LoadModel(m);
        cost := AddCost(cost, loading);
      }
    }

    /** One tensor adds its group's bytes if it was missing, and with room for it, in a
        pool that may be compacted, nothing is evicted. */
    lemma {:induction false} TensorLoads(before: PoolState, m: int, t: nat, now: seq<Extent>, compactions: nat, cost: LoadCost)
      requires Setup().Sane() && m in models && models[m].WellFormed() && t < |models[m].tensorGroup|
      requires Sound(before.extents, IndexOf(before.extents), capacityBytes) && SizesMatch(models, IndexOf(before.extents))
      requires Sound(now, IndexOf(now), capacityBytes) && AllBelow(before.extents, before.limit) && before.limit <= capacityBytes
      requires var key, size := Key(m, models[m].tensorGroup[t]), models[m].groupBytes[models[m].tensorGroup[t]];
        if key in IndexOf(before.extents) then now == before.extents && cost == NO_COST
        else
          && LostAndGained(before.extents, now, m, key, size) && cost.h2dBytes == size
          && AllocatedTo(Setup(), before.accesses, before.limit, m, key, size, before.extents, now, compactions - before.compactions, cost)
      ensures OwnBytes(models, now, m) == OwnBytes(models, before.extents, m) + cost.h2dBytes
      ensures RoomFor(before.extents, m, before.limit) ==> cost.evictedObjects == cost.evictedBytes == 0
    {
      hide Sound, SizesMatch, LostAndGained, AllocatedTo, AllBelow, UsedBytes, FreeBelow, IndexOf, Objects, BytesIn;
      var g := models[m].tensorGroup[t];
      if Key(m, g) !in IndexOf(before.extents) {
        OwnGained(models, before.extents, now, m, g, models[m].groupBytes[g], capacityBytes);
        ResidentBytes(models, before.extents, capacityBytes, m, GroupCount(models, m));
        PoolBelow(before.extents, capacityBytes, before.limit);
        if RoomFor(before.extents, m, before.limit) {
          NothingForTensor(Setup(), before.accesses, before.limit, m, Key(m, g), models[m].groupBytes[g], before.extents,
                           now, compactions - before.compactions, cost);
        }
      }
    }

    /** Load all tensors of a model, one after the other. */
    method LoadModel(m: int) returns (loaded: bool, cost: LoadCost)
      requires Ready() && WeightsOnly() && m in models
      modifies this`extents, this`index, this`compactionCount, this`clock, this`lastAccess
      ensures loaded ==> Ready() && WeightsOnly() && AllResident(models, index, m)
      ensures Valid()
      ensures compaction != Never ==> (loaded <==> FullBytes(models, m) <= weightCapacityBytes)
      ensures loaded ==> UsedBytes(extents) + cost.evictedBytes == UsedBytes(old(extents)) + cost.h2dBytes
      ensures Reaches(LoadingFrom(Setup(), old(State()), m, 0), loaded, cost)
      ensures loaded ==> cost.h2dBytes + OwnBytes(models, old(extents), m) == FullBytes(models, m)
      ensures loaded ==> TouchedSince(models[m].tensorGroup, m, |models[m].tensorGroup|, old(lastAccess), lastAccess, old(clock), clock)
      ensures loaded && RoomFor(old(extents), m, weightCapacityBytes) ==> cost.evictedObjects == cost.evictedBytes == 0
    {
      hide TensorStep, LoadingFrom, Tiles, DistinctKeys, Total, PicksCandidates, OnlyLost, AllBelow, LostAndGained, AllResident;
      hide Exhausted, UsedBytes, FullBytes, SizesMatch, IndexOf, Objects, AllocatedTo, TouchedSince, OwnBytes, Evictable, GroupSet;
      cost := NO_COST;
      ghost var roomy := RoomFor(extents, m, weightCapacityBytes);
      NotTouched(models[m].tensorGroup, m, lastAccess, clock);
      LoadingStart(Setup(), State(), m);
      for t := 0 to |models[m].tensorGroup|
        invariant Ready() && WeightsOnly()
        invariant forall j :: 0 <= j < t ==> Key(m, models[m].tensorGroup[j]) in index
        invariant UsedBytes(extents) + cost.evictedBytes == UsedBytes(old(extents)) + cost.h2dBytes
        invariant LoadingFrom(Setup(), old(State()), m, 0) == Costing(cost, LoadingFrom(Setup(), State(), m, t))
        invariant OwnBytes(models, extents, m) == OwnBytes(models, old(extents), m) + cost.h2dBytes
        invariant TouchedSince(models[m].tensorGroup, m, t, old(lastAccess), lastAccess, old(clock), clock)
        invariant roomy ==> cost.evictedObjects == cost.evictedBytes == 0
      {
        ghost var before, was := extents, State();
        MissingFits(models, before, capacityBytes, m, models[m].tensorGroup[t]);
        LoadingNext(Setup(), was, m, t, cost);
        OneMoreTouch(models[m].tensorGroup, m, t, old(lastAccess), lastAccess, old(clock), clock);
        var r := PrepareTensor(m, t);
        if r.Failed? {
          assert r.error == CannotFit || r.error == Fragmented;
          return false, cost;
        }
        StillThere(models, before, extents, m, models[m].tensorGroup[t], capacityBytes);
        TensorLoads(was, m, t, extents, compactionCount, r.cost);
        cost := AddCost(cost, r.cost);
      }
      LoadingEnd(Setup(), State(), m);
      AllPrepared(models, index, m);
      FullyResident(models, extents, capacityBytes, m);
      ResidentWhole(models, extents, capacityBytes, m);
      BelowLimit(extents, weightCapacityBytes);
      loaded := true;
    }
  }

  /** A routing preview: run the request on a copy, then commit it. The copy leaves
      the pool alone, the commit succeeds and costs as the copy did, and both end in
      the same state. */
  method PreviewThenCommit(pool: SegmentMemory, m: int, kvBytes: nat)
    returns (preview: Option<LoadCost>, committed: Option<LoadCost>, ghost untouched: bool, ghost same: bool)
    requires pool.Valid() && SizesMatch(pool.models, pool.index) && pool.WeightsOnly() && m in pool.models
    modifies pool
    ensures untouched && preview == committed && (committed.Some? ==> same)
  {
    hide Sound, PicksCandidates, SizesMatch, Serving;
    ghost var before := pool.State();
    var copy := pool.Clone();
    var served, cost := copy.ServeRequest(m, kvBytes);
    preview := if served then Some(cost) else None;
    untouched := pool.State() == before;
    served, cost := pool.ServeRequest(m, kvBytes);
    committed := if served then Some(cost) else None;
    same := copy.State() == pool.State();
  }

  lemma {:induction false} PoolTiles(es: seq<Extent>, capacity: nat)
    requires Sound(es, IndexOf(es), capacity)
    ensures Tiles(es, 0) && Total(es) == capacity
  {
  }

  lemma {:induction false} PoolBelow(es: seq<Extent>, capacity: nat, limit: nat)
    requires Sound(es, IndexOf(es), capacity) && AllBelow(es, limit) && limit <= capacity
    ensures FreeBelow(es, limit) + UsedBytes(es) == limit
  {
    BelowLimit(es, limit);
  }

  /** After an eviction everything is still below the limit. */
  lemma {:induction false} StaysBelow(before: seq<Extent>, after: seq<Extent>, capacity: nat, limit: nat)
    requires Sound(before, IndexOf(before), capacity) && Sound(after, IndexOf(after), capacity)
    requires AllBelow(before, limit) && limit <= capacity
    requires exists ks :: after == Evict(before, ks)
    ensures AllBelow(after, limit) && FreeBelow(after, limit) + UsedBytes(after) == limit
  {
    var ks :| after == Evict(before, ks);
    EvictingGrows(before, ks, limit, 1);
    BelowLimit(after, limit);
  }

  ghost predicate AllResident(models: Models, index: map<PoolKey, Extent>, m: int) {
    forall g: nat :: g < GroupCount(models, m) ==> Key(m, g) in index
  }

  lemma {:induction false} AllPrepared(models: Models, index: map<PoolKey, Extent>, m: int)
    requires m in models && models[m].WellFormed()
    requires forall j :: 0 <= j < |models[m].tensorGroup| ==> Key(m, models[m].tensorGroup[j]) in index
    ensures AllResident(models, index, m)
  {
    forall g: nat | g < GroupCount(models, m) ensures Key(m, g) in index {
      assert g in models[m].tensorGroup;
      var j :| 0 <= j < |models[m].tensorGroup| && models[m].tensorGroup[j] == g;
    }
  }

  lemma {:induction false} BytesWithin(objs: seq<Object>, ks: set<PoolKey>)
    ensures BytesIn(objs, ks) <= SumSizes(objs)
  {
    if objs != [] {
      BytesWithin(Front(objs), ks);
    }
  }

  lemma {:induction false} FullyResident(models: Models, es: seq<Extent>, capacity: nat, m: int)
    requires Sound(es, IndexOf(es), capacity) && SizesMatch(models, IndexOf(es))
    requires AllResident(models, IndexOf(es), m)
    ensures FullBytes(models, m) <= UsedBytes(es)
  {
    ResidentBytes(models, es, capacity, m, GroupCount(models, m));
    BytesWithin(Objects(es), GroupSet(m, GroupCount(models, m)));
  }

  lemma {:induction false} ResidentWhole(models: Models, es: seq<Extent>, capacity: nat, m: int)
    requires Sound(es, IndexOf(es), capacity) && SizesMatch(models, IndexOf(es)) && AllResident(models, IndexOf(es), m)
    ensures OwnBytes(models, es, m) == FullBytes(models, m)
  {
    ResidentBytes(models, es, capacity, m, GroupCount(models, m));
  }

  lemma {:induction false} ActiveFits(models: Models, es: seq<Extent>, capacity: nat, m: int)
    requires Sound(es, IndexOf(es), capacity) && SizesMatch(models, IndexOf(es))
    requires forall k :: k in IndexOf(es) ==> k.Weight?
    ensures UsedBytes(Exhausted(es, m)) <= FullBytes(models, m)
  {
    ExhaustedIsActive(models, es, capacity, m);
    ResidentBytes(models, es, capacity, m, GroupCount(models, m));
  }

  lemma {:induction false} MissingFits(models: Models, es: seq<Extent>, capacity: nat, m: int, g: nat)
    requires Sound(es, IndexOf(es), capacity) && SizesMatch(models, IndexOf(es))
    requires forall k :: k in IndexOf(es) ==> k.Weight?
    requires m in models && g < |models[m].groupBytes|
    ensures Key(m, g) !in IndexOf(es) ==>
      UsedBytes(Exhausted(es, m)) + models[m].groupBytes[g] <= FullBytes(models, m)
  {
    ExhaustedIsActive(models, es, capacity, m);
    ResidentBytes(models, es, capacity, m, GroupCount(models, m));
  }

  /** Loading a group takes none of the model's own groups away. */
  lemma {:induction false} StillThere(
    models: Models, before: seq<Extent>, after: seq<Extent>, m: int, g: nat, capacity: nat)
    requires Sound(before, IndexOf(before), capacity) && Sound(after, IndexOf(after), capacity)
    requires SizesMatch(models, IndexOf(before)) && m in models && g < |models[m].groupBytes|
    requires after == before || LostAndGained(before, after, m, Key(m, g), models[m].groupBytes[g])
    ensures forall k :: k in IndexOf(before) && k.Weight? && k.group.modelId == m ==> k in IndexOf(after)
    ensures IndexOf(after).Keys <= IndexOf(before).Keys + {Key(m, g)}
  {
    if after != before {
      SizesAfterGain(models, before, after, m, m, g, capacity);
      var gone := IndexOf(before).Keys - IndexOf(after).Keys;
      forall k | k in IndexOf(before) && k.Weight? && k.group.modelId == m ensures k in IndexOf(after) {
        assert k !in Evictable(IndexOf(before).Keys, m);
        assert k !in gone;
      }
    }
  }

  method AnyBeyond(es: seq<Extent>, limit: nat) returns (beyond: bool)
    ensures !beyond <==> AllBelow(es, limit)
  {
    for i := 0 to |es|
      invariant AllBelow(es[..i], limit)
    {
      FrontSlice(es, i);
      if es[i].key.Some? && es[i].offset + es[i].size > limit {
        BeyondStays(es, i + 1, limit);
        return true;
      }
    }
    assert es[..|es|] == es;
    beyond := false;
  }

  lemma {:induction false} BeyondStays(es: seq<Extent>, i: nat, limit: nat)
    requires i <= |es| && !AllBelow(es[..i], limit)
    ensures !AllBelow(es, limit)
  {
    assert es == es[..i] + es[i..];
    AllBelowAppend(es[..i], es[i..], limit);
  }

  lemma {:induction false} NothingLost(before: seq<Extent>, after: seq<Extent>, active: int)
    requires Objects(after) == Objects(before)
    ensures OnlyLost(before, after, active)
  {
    IndexKeys(before);
    IndexKeys(after);
    WithoutNone(Objects(before), {});
    assert IndexOf(before).Keys - IndexOf(after).Keys == {};
  }

  lemma {:induction false} EvictedBelow(before: seq<Extent>, after: seq<Extent>, active: int, capacity: nat, limit: nat)
    requires Sound(before, IndexOf(before), capacity) && AfterEvictions(before, after, active)
    requires AllBelow(before, limit)
    ensures OnlyLost(before, after, active) && AllBelow(after, limit)
    ensures LargestBelow(after, limit) <= LargestBelow(Exhausted(before, active), limit)
  {
    EvictingGrows(before, IndexOf(before).Keys - IndexOf(after).Keys, limit, 1);
    LostByEviction(before, after, active, capacity);
    LargestReached(before, after, active, capacity, limit);
  }

  lemma {:induction false} RoomMade(before: seq<Extent>, after: seq<Extent>, active: int, capacity: nat, limit: nat)
    requires Sound(before, IndexOf(before), capacity) && AfterEvictions(before, after, active)
    ensures OnlyLost(before, after, active) && Exhausted(after, active) == Exhausted(before, active)
    ensures LargestBelow(after, limit) <= LargestBelow(Exhausted(before, active), limit)
  {
    LostByEviction(before, after, active, capacity);
    SameExhaustion(before, after, active, capacity);
    LargestReached(before, after, active, capacity, limit);
  }

  lemma {:induction false} LargestReached(before: seq<Extent>, after: seq<Extent>, active: int, capacity: nat, limit: nat)
    requires Sound(before, IndexOf(before), capacity) && AfterEvictions(before, after, active)
    ensures LargestBelow(after, limit) <= LargestBelow(Exhausted(before, active), limit)
  {
    ExhaustionIsMost(before, after, active, capacity, limit, 1);
  }

  lemma {:induction false} GainedOne(
    before: seq<Extent>, found: seq<Extent>, after: seq<Extent>, active: int, key: PoolKey, size: nat)
    requires OnlyLost(before, found, active) && key !in IndexOf(before)
    requires Without(Objects(after), {key}) == Objects(found)
    requires IndexOf(after).Keys == IndexOf(found).Keys + {key}
    requires IndexOf(after)[key].size == size
    ensures LostAndGained(before, after, active, key, size)
  {
    LostKeys(before, found, active);
    assert IndexOf(before).Keys - IndexOf(after).Keys == IndexOf(before).Keys - IndexOf(found).Keys;
  }
}
