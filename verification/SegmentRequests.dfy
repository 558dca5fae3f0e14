/** Bookkeeping of one request against the segment pool: what it misses, what it
    may take, and the order in which its groups are touched
    (evaluation/tensor_simulator/tensor_sim_segment_backend.py). */
module SegmentRequests {
  import opened Common
  import opened SegmentExtents
  import opened SegmentReclaim
  import opened SegmentModels
  import opened SegmentPartition
  import opened SegmentPacking
  import opened SegmentShape
  import opened SegmentSteps
  import opened SegmentPool

  // ------------------------------------------------------- missing groups

  /** The objects are groups of the model, each at its group's size. */
  ghost predicate GroupObjects(models: Models, m: int, objs: seq<Object>) {
    forall i :: 0 <= i < |objs| ==>
      && objs[i].key.Weight? && objs[i].key.group.modelId == m
      && objs[i].key.group.groupId < GroupCount(models, m)
      && objs[i].size == SizeOf(models, m, objs[i].key.group.groupId)
  }

  /** Exactly the groups that are not resident. */
  ghost predicate MissingObjects(models: Models, keys: set<PoolKey>, m: int, objs: seq<Object>) {
    && GroupObjects(models, m, objs) && DistinctKeys(objs)
    && KeySet(objs) == GroupSet(m, GroupCount(models, m)) - keys
  }

  /** The groups of the first `t` tensors that are not resident have been listed. */
  ghost predicate Listing(models: Models, keys: set<PoolKey>, m: int, objs: seq<Object>, t: nat)
    requires m in models && t <= |models[m].tensorGroup|
  {
    && GroupObjects(models, m, objs) && DistinctKeys(objs) && KeySet(objs) !! keys
    && (forall i :: 0 <= i < t ==> Key(m, models[m].tensorGroup[i]) in KeySet(objs) + keys)
  }

  lemma {:induction false} ListOne(models: Models, keys: set<PoolKey>, m: int, objs: seq<Object>, t: nat)
    requires m in models && models[m].WellFormed() && t < |models[m].tensorGroup|
    requires Listing(models, keys, m, objs, t)
    ensures var g := models[m].tensorGroup[t];
      if Key(m, g) in KeySet(objs) + keys then Listing(models, keys, m, objs, t + 1)
      else Listing(models, keys, m, objs + [Object(Key(m, g), models[m].groupBytes[g])], t + 1)
  {
    var g := models[m].tensorGroup[t];
    if Key(m, g) !in KeySet(objs) + keys {
      Snoc(objs, Object(Key(m, g), models[m].groupBytes[g]));
    }
  }

  lemma {:induction false} AllListed(models: Models, keys: set<PoolKey>, m: int, objs: seq<Object>)
    requires m in models && models[m].WellFormed()
    requires Listing(models, keys, m, objs, |models[m].tensorGroup|)
    ensures MissingObjects(models, keys, m, objs)
  {
    var own := GroupSet(m, GroupCount(models, m));
    forall k | k in own ensures k in KeySet(objs) + keys {
      GroupSetMember(m, GroupCount(models, m), k);
      assert k.group.groupId in models[m].tensorGroup;
      var i :| 0 <= i < |models[m].tensorGroup| && models[m].tensorGroup[i] == k.group.groupId;
      assert k == Key(m, models[m].tensorGroup[i]);
    }
    forall k | k in KeySet(objs) ensures k in own {
      var i := KeyAt(objs, k);
      GroupSetMember(m, GroupCount(models, m), k);
    }
  }

  lemma {:induction false} KeyAt(objs: seq<Object>, k: PoolKey) returns (i: nat)
    requires k in KeySet(objs)
    ensures i < |objs| && objs[i].key == k
  {
    if Last(objs).key == k {
      i := |objs| - 1;
    } else {
      i := KeyAt(Front(objs), k);
    }
  }

  lemma {:induction false} KeyOccurs(objs: seq<Object>, i: nat)
    requires i < |objs|
    ensures objs[i].key in KeySet(objs)
  {
    if i < |objs| - 1 {
      KeyOccurs(Front(objs), i);
    }
  }

  lemma {:induction false} ObjectBytes(objs: seq<Object>, i: nat)
    requires DistinctKeys(objs) && i < |objs|
    ensures BytesIn(objs, {objs[i].key}) == objs[i].size && objs[i].key in KeySet(objs)
  {
    if i == |objs| - 1 {
      WithoutNone(Front(objs), {objs[i].key});
    } else {
      ObjectBytes(Front(objs), i);
    }
  }

  /** Missing and resident bytes of a model's first groups add up. */
  lemma {:induction false} MissingPlusResident(models: Models, es: seq<Extent>, capacity: nat, m: int, objs: seq<Object>, n: nat)
    requires Sound(es, IndexOf(es), capacity) && SizesMatch(models, IndexOf(es))
    requires MissingObjects(models, IndexOf(es).Keys, m, objs) && n <= GroupCount(models, m)
    ensures BytesIn(objs, GroupSet(m, n)) + BytesIn(Objects(es), GroupSet(m, n)) == PrefixBytes(models, m, n)
  {
    if n == 0 {
      NoBytes(objs);
      NoBytes(Objects(es));
    } else {
      var k := Key(m, n - 1);
      MissingPlusResident(models, es, capacity, m, objs, n - 1);
      GroupSetMember(m, n - 1, k);
      GroupSetMember(m, GroupCount(models, m), k);
      BytesDisjoint(objs, GroupSet(m, n - 1), {k});
      BytesDisjoint(Objects(es), GroupSet(m, n - 1), {k});
      IndexKeys(es);
      if k in IndexOf(es) {
        IndexedSize(es, 0, k);
        WithoutNone(objs, {k});
        assert GroupSized(models, k.group, IndexOf(es)[k]);
      } else {
        WithoutNone(Objects(es), {k});
        var i := KeyAt(objs, k);
        ObjectBytes(objs, i);
      }
    }
  }

  /** What the request misses is the rest of its model. */
  lemma {:induction false} MissingBytes(models: Models, es: seq<Extent>, capacity: nat, m: int, objs: seq<Object>)
    requires Sound(es, IndexOf(es), capacity) && SizesMatch(models, IndexOf(es))
    requires MissingObjects(models, IndexOf(es).Keys, m, objs)
    ensures SumSizes(objs) + BytesIn(Objects(es), GroupSet(m, GroupCount(models, m))) == FullBytes(models, m)
  {
    var n := GroupCount(models, m);
    MissingPlusResident(models, es, capacity, m, objs, n);
    BytesAll(objs, GroupSet(m, n));
  }

  /** Without KV blocks, the pool is the active model, the others and free space. */
  lemma {:induction false} PoolParts(models: Models, es: seq<Extent>, capacity: nat, m: int)
    requires Sound(es, IndexOf(es), capacity) && SizesMatch(models, IndexOf(es))
    requires forall k :: k in IndexOf(es) ==> k.Weight?
    ensures FreeBytes(es) + BytesIn(Objects(es), Evictable(IndexOf(es).Keys, m))
      + BytesIn(Objects(es), GroupSet(m, GroupCount(models, m))) == capacity
  {
    ExhaustedIsActive(models, es, capacity, m);
    EvictFacts(es, Evictable(IndexOf(es).Keys, m), capacity);
    UsedPlusFree(es);
  }

  lemma {:induction false} MissingAddable(models: Models, index: map<PoolKey, Extent>, m: int, objs: seq<Object>)
    requires m in models && models[m].WellFormed() && MissingObjects(models, index.Keys, m, objs)
    ensures Addable(objs, index.Keys)
  {
    forall i | 0 <= i < |objs| ensures objs[i].size > 0 {
      var g := objs[i].key.group.groupId;
      assert objs[i].size == models[m].groupBytes[g];
    }
  }

  /** Evicting other models' groups does not change what is missing. */
  lemma {:induction false} StillMissing(
    models: Models, before: seq<Extent>, after: seq<Extent>, capacity: nat, m: int, objs: seq<Object>)
    requires Sound(before, IndexOf(before), capacity) && AfterEvictions(before, after, m)
    requires MissingObjects(models, IndexOf(before).Keys, m, objs)
    ensures MissingObjects(models, IndexOf(after).Keys, m, objs)
  {
    EvictedKeys(before, after, m, capacity);
    var own := GroupSet(m, GroupCount(models, m));
    forall k | k in own ensures k in IndexOf(before).Keys <==> k in IndexOf(after).Keys {
      GroupSetMember(m, GroupCount(models, m), k);
      assert k !in Evictable(IndexOf(before).Keys, m);
    }
  }

  /** Free bytes before and after evicting everything evictable. */
  lemma {:induction false} ExhaustedFree(es: seq<Extent>, active: int, capacity: nat)
    requires Sound(es, IndexOf(es), capacity)
    ensures FreeBytes(Exhausted(es, active)) == FreeBytes(es) + BytesIn(Objects(es), Evictable(IndexOf(es).Keys, active))
  {
    EvictFacts(es, Evictable(IndexOf(es).Keys, active), capacity);
    UsedPlusFree(es);
    UsedPlusFree(Exhausted(es, active));
  }

  /** With the whole pool as the limit, all free bytes count. */
  lemma {:induction false} PoolLimit(es: seq<Extent>, capacity: nat)
    requires Sound(es, IndexOf(es), capacity)
    ensures FreeBelow(es, capacity) == FreeBytes(es)
  {
    NoLimit(es, capacity);
  }

  /** After any evictions, the pool has at most what exhausting it would free. */
  lemma {:induction false} FreeAfterEvictions(before: seq<Extent>, after: seq<Extent>, active: int, capacity: nat)
    requires Sound(before, IndexOf(before), capacity) && AfterEvictions(before, after, active)
    ensures FreeBytes(after) + UsedBytes(after) == capacity && FreeBytes(before) + UsedBytes(before) == capacity
    ensures FreeBytes(after) <= FreeBytes(before) + BytesIn(Objects(before), Evictable(IndexOf(before).Keys, active))
    ensures Evictable(IndexOf(after).Keys, active) == {} ==>
      FreeBytes(after) == FreeBytes(before) + BytesIn(Objects(before), Evictable(IndexOf(before).Keys, active))
  {
    EvictedKeys(before, after, active, capacity);
    ExhaustionIsMost(before, after, active, capacity, 0, 1);
    ExhaustedFree(before, active, capacity);
    EvictFacts(before, Evictable(IndexOf(before).Keys, active), capacity);
    UsedPlusFree(before);
    UsedPlusFree(after);
    UsedPlusFree(Exhausted(before, active));
  }

  // ------------------------------------------------------- after packing

  /** `after` is `before` with the missing groups of `m` added. */
  ghost predicate Completed(before: seq<Extent>, after: seq<Extent>, objs: seq<Object>) {
    && IndexOf(after).Keys == IndexOf(before).Keys + KeySet(objs)
    && Without(Objects(after), KeySet(objs)) == Objects(before)
    && multiset(Objects(after)) == multiset(Objects(before)) + multiset(objs)
  }

  lemma {:induction false} CompletedSizes(
    models: Models, before: seq<Extent>, after: seq<Extent>, capacity: nat, m: int, objs: seq<Object>)
    requires Sound(before, IndexOf(before), capacity) && Sound(after, IndexOf(after), capacity)
    requires SizesMatch(models, IndexOf(before)) && m in models
    requires MissingObjects(models, IndexOf(before).Keys, m, objs) && Completed(before, after, objs)
    ensures SizesMatch(models, IndexOf(after))
    ensures AllResident(models, IndexOf(after), m)
    ensures UsedBytes(after) == UsedBytes(before) + SumSizes(objs)
  {
    WithoutNone(Objects(before), {});
    forall k | k in IndexOf(after) && k.Weight? ensures GroupSized(models, k.group, IndexOf(after)[k]) {
      if k in KeySet(objs) {
        AddedSize(after, capacity, objs, k, before);
        var i := KeyAt(objs, k);
        ObjectBytes(objs, i);
      } else {
        SizeKept(before, after, {}, KeySet(objs), k, capacity);
        assert GroupSized(models, k.group, IndexOf(before)[k]);
      }
    }
    forall g: nat | g < GroupCount(models, m) ensures Key(m, g) in IndexOf(after) {
      GroupSetMember(m, GroupCount(models, m), Key(m, g));
    }
    CompletedUsed(before, after, objs);
  }

  lemma {:induction false} AddedSize(after: seq<Extent>, capacity: nat, objs: seq<Object>, k: PoolKey, before: seq<Extent>)
    requires Sound(after, IndexOf(after), capacity) && Completed(before, after, objs)
    requires DistinctKeys(objs) && k in KeySet(objs)
    ensures k in IndexOf(after) && IndexOf(after)[k].size == BytesIn(objs, {k})
  {
    var i := KeyAt(objs, k);
    ObjectBytes(objs, i);
    assert objs[i] in multiset(objs);
    assert objs[i] in multiset(Objects(after));
    var j :| 0 <= j < |Objects(after)| && Objects(after)[j] == objs[i];
    ObjectBytes(Objects(after), j);
    IndexedSize(after, 0, k);
  }

  lemma {:induction false} CompletedUsed(before: seq<Extent>, after: seq<Extent>, objs: seq<Object>)
    requires Completed(before, after, objs)
    ensures UsedBytes(after) == UsedBytes(before) + SumSizes(objs)
  {
    assert multiset(Objects(before) + objs) == multiset(Objects(before)) + multiset(objs);
    PermutationFacts(Objects(after), Objects(before) + objs);
    ObjectsAppend(Objects(before), objs, {});
  }

  // ------------------------------------------------------- planned loads

  /** What each missing group costs to load; moved bytes go to the first. */
  function LoadsOf(objs: seq<Object>, moved: nat): map<PoolKey, LoadCost> {
    if objs == [] then map[]
    else LoadsOf(Front(objs), moved)[Last(objs).key := LoadCost(Last(objs).size, 0, 0, if |objs| == 1 then moved else 0)]
  }

  lemma {:induction false} LoadsOfKeys(objs: seq<Object>, moved: nat)
    ensures LoadsOf(objs, moved).Keys == KeySet(objs)
  {
    if objs != [] {
      LoadsOfKeys(Front(objs), moved);
    }
  }

  lemma {:induction false} LoadOf(objs: seq<Object>, moved: nat, k: PoolKey)
    requires DistinctKeys(objs) && k in KeySet(objs)
    ensures k in LoadsOf(objs, moved) && LoadsOf(objs, moved)[k].h2dBytes == BytesIn(objs, {k})
    ensures LoadsOf(objs, moved)[k].evictedObjects == LoadsOf(objs, moved)[k].evictedBytes == 0
    ensures LoadsOf(objs, moved)[k].movedBytes == if k == objs[0].key then moved else 0
  {
    var front := Front(objs);
    if k == Last(objs).key {
      WithoutNone(front, {k});
      if front != [] {
        ObjectBytes(front, 0);
      }
    } else {
      LoadOf(front, moved, k);
    }
  }

  // ---------------------------------------------------------- touch order

  /** The groups of the first `t` tensors were touched in order, none after `clock`. */
  ghost predicate TouchedInOrder(accesses: map<PoolKey, int>, clock: int, m: int, groups: seq<nat>, t: nat)
    requires t <= |groups|
  {
    && (forall i, j :: 0 <= i < t && 0 <= j < t && groups[i] < groups[j] ==>
      Access(accesses, Key(m, groups[i])) < Access(accesses, Key(m, groups[j])))
    && (forall i :: 0 <= i < t ==> Access(accesses, Key(m, groups[i])) <= clock)
  }

  /** The last accesses after touching the groups of the first `t` tensors. */
  function TouchedAll(accesses: map<PoolKey, int>, clock: int, m: int, groups: seq<nat>, t: nat): map<PoolKey, int>
    requires t <= |groups|
  {
    if t == 0 then accesses else TouchedAll(accesses, clock, m, groups, t - 1)[Key(m, groups[t - 1]) := clock + t]
  }

  lemma {:induction false} TouchNext(accesses: map<PoolKey, int>, clock: int, m: int, groups: seq<nat>, t: nat)
    requires t < |groups| && TouchedInOrder(accesses, clock, m, groups, t)
    requires forall i, j :: 0 <= i <= j < |groups| ==> groups[i] <= groups[j]
    ensures TouchedInOrder(accesses[Key(m, groups[t]) := clock + 1], clock + 1, m, groups, t + 1)
  {
  }

  /** Touched from first to last group, a fully resident model is a suffix whose
      first groups are its least recent. */
  lemma {:induction false} TouchedIsSuffix(models: Models, index: map<PoolKey, Extent>, accesses: map<PoolKey, int>, clock: int, m: int)
    requires m in models && models[m].WellFormed() && AllResident(models, index, m)
    requires TouchedInOrder(accesses, clock, m, models[m].tensorGroup, |models[m].tensorGroup|)
    ensures SuffixShaped(index.Keys, m, GroupCount(models, m), accesses)
  {
    var groups, n := models[m].tensorGroup, GroupCount(models, m);
    forall g: nat, h: nat | g < h < n && Key(m, g) in index.Keys
      ensures Key(m, h) in index.Keys && Access(accesses, Key(m, g)) < Access(accesses, Key(m, h))
    {
      assert g in groups && h in groups;
      var i :| 0 <= i < |groups| && groups[i] == g;
      var j :| 0 <= j < |groups| && groups[j] == h;
    }
  }

  lemma {:induction false} OthersKeepSuffix(
    keys: set<PoolKey>, after: set<PoolKey>, m: int, n: nat, accesses: map<PoolKey, int>, touched: map<PoolKey, int>)
    requires SuffixShaped(keys, m, n, accesses)
    requires forall g: nat :: Key(m, g) in keys <==> Key(m, g) in after
    requires forall g: nat :: Access(touched, Key(m, g)) == Access(accesses, Key(m, g))
    ensures SuffixShaped(after, m, n, touched)
  {
    forall g: nat, h: nat | g < h < n && Key(m, g) in after
      ensures Key(m, h) in after && Access(touched, Key(m, g)) < Access(touched, Key(m, h))
    {
      assert Key(m, g) in keys;
      assert Key(m, h) in keys;
    }
  }
}
