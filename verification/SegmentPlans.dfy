/** What the request-level planner of the segment pool decides and keeps: errors and
    results, the shape of residency, and the steps of reclaiming, planning and loading
    (evaluation/tensor_simulator/tensor_sim_segment_backend.py). */
module SegmentPlans {
  import opened Common
  import opened SegmentExtents
  import opened SegmentReclaim
  import opened SegmentModels
  import opened SegmentEvictions
  import opened SegmentPartition
  import opened SegmentPacking
  import opened SegmentSteps
  import opened SegmentPool
  import opened SegmentShape
  import opened SegmentKv
  import opened SegmentRequests
  import Mckp

  datatype Replacement = MckpPrefix | LruPrefix | OneByOne

  /** Why a request cannot be planned. Only the first two ever happen. */
  datatype PlanError =
    CannotReclaim | KvStuck | BrokenPrefix | ByteMismatch | PrefixMismatch | BytesButNotBlocks

  datatype Stage = WeightStage | KvStage
  datatype Planning = Planned(cost: LoadCost, moved: nat) | Rejected(stage: Stage)
  datatype Serving = Served(cost: LoadCost) | Unserved(stage: Stage)

  datatype Reclaim = Reclaimed(evictedObjects: nat, evictedBytes: nat) | Refused(error: PlanError)

  /** A reclaim counts the objects and the bytes it took. */
  ghost predicate Releases(r: Reclaim, before: seq<Extent>, after: seq<Extent>) {
    && r.Reclaimed?
    && UsedBytes(after) + r.evictedBytes == UsedBytes(before)
    && Held(after) + r.evictedObjects == Held(before)
  }

  function KvKeysIn(keys: set<PoolKey>): set<PoolKey> {
    set k | k in keys && k.Kv?
  }

  /** The rule picks a least recently used candidate. */
  ghost predicate LeastRecent(rule: VictimRule) {
    forall es, accesses, keys, k :: k in keys ==> Access(accesses, rule(es, accesses, keys)) <= Access(accesses, k)
  }

  lemma {:induction false} SizesAreKnown(models: Models, index: map<PoolKey, Extent>)
    requires SizesMatch(models, index)
    ensures Known(models, index.Keys)
  {
    forall k | k in index && k.Weight?
      ensures k.group.modelId in models && k.group.groupId < GroupCount(models, k.group.modelId)
    {
      assert GroupSized(models, k.group, index[k]);
    }
  }

  /** Freeing some keys keeps the sizes of the others. */
  lemma {:induction false} SizesAfterEvict(models: Models, es: seq<Extent>, ks: set<PoolKey>)
    requires SizesMatch(models, IndexOf(es))
    ensures SizesMatch(models, IndexOf(es) - ks)
  {
    forall k | k in IndexOf(es) - ks && k.Weight? ensures GroupSized(models, k.group, (IndexOf(es) - ks)[k]) {
      assert GroupSized(models, k.group, IndexOf(es)[k]);
    }
  }

  /** One more victim freed where it stands. */
  lemma {:induction false} FreedOneMore(es: seq<Extent>, capacity: nat, victims: seq<GroupKey>, i: nat)
    requires Sound(es, IndexOf(es), capacity) && i < |victims| && NoRepeats(victims)
    requires forall k :: k in victims ==> Weight(k) in IndexOf(es)
    ensures var done, k := WeightSet(victims[..i]), Weight(victims[i]);
      && WeightSet(victims[..i + 1]) == done + {k}
      && k in IndexOf(es) - done
      && MarkFree(MarkFree(es, done), {k}) == MarkFree(es, done + {k})
      && IndexOf(MarkFree(es, done)) == IndexOf(es) - done
      && BytesIn(Objects(es), done + {k}) == BytesIn(Objects(es), done) + (IndexOf(es) - done)[k].size
  {
    var done, k := WeightSet(victims[..i]), Weight(victims[i]);
    FrontSlice(victims, i);
    NoRepeatsPrefix(victims, i);
    WeightSetMember(victims[..i], k);
    assert victims[i] in victims;
    MarkFreeTwice(es, done, {k});
    MarkFreeFacts(es, done, 0);
    BytesDisjoint(Objects(es), done, {k});
    IndexedSize(es, 0, k);
  }

  lemma {:induction false} NoRepeatsPrefix(victims: seq<GroupKey>, i: nat)
    requires NoRepeats(victims) && i < |victims|
    ensures victims[i] !in victims[..i]
  {
    if i < |victims| - 1 {
      NoRepeatsPrefix(Front(victims), i);
      assert Front(victims)[..i] == victims[..i];
    }
  }

  /** A plan that can be carried out: its victims are resident groups of other
      models, and without them every model holds its chosen prefix. */
  ghost predicate GoodPlan(models: Models, es: seq<Extent>, plan: Mckp.Plan, active: int, required: int) {
    var victims := WeightSet(plan.victimKeys);
    && NoRepeats(plan.victimKeys) && (forall k :: k in plan.victimKeys ==> Weight(k) in IndexOf(es))
    && victims <= Evictable(IndexOf(es).Keys, active)
    && Prefixes(models, IndexOf(es).Keys - victims, plan.choices)
    && plan.plannedFreeBytes == BytesIn(Objects(es), victims) >= required
  }

  lemma {:induction false} PlanEvicts(
    models: Models, es: seq<Extent>, capacity: nat, plan: Mckp.Plan, active: int, required: int)
    requires Sound(es, IndexOf(es), capacity) && SizesMatch(models, IndexOf(es))
    requires GoodPlan(models, es, plan, active, required)
    ensures var victims := WeightSet(plan.victimKeys);
      && SizesMatch(models, IndexOf(es) - victims)
      && AfterEvictions(es, Evict(es, victims), active)
      && UsedBytes(Evict(es, victims)) + BytesIn(Objects(es), victims) == UsedBytes(es)
      && Held(Evict(es, victims)) + |plan.victimKeys| == Held(es)
      && KvKeysIn(IndexOf(es).Keys - victims) == KvKeysIn(IndexOf(es).Keys)
      && (IndexOf(es) - victims).Keys == IndexOf(es).Keys - victims
  {
    hide Sound, SizesMatch, Prefixes, NoRepeats, Evict, BytesIn, Objects, IndexOf, WeightSet;
    var victims := WeightSet(plan.victimKeys);
    EvictedIndex(es, victims);
    SizesAfterEvict(models, es, victims);
    EvictFacts(es, victims, capacity);
    assert IndexOf(es).Keys - IndexOf(Evict(es, victims)).Keys == victims;
    HeldAfter(es, victims);
    VictimCount(plan.victimKeys);
  }

  lemma {:induction false} VictimCount(victims: seq<GroupKey>)
    requires NoRepeats(victims)
    ensures |WeightSet(victims)| == |victims|
  {
    if victims != [] {
      VictimCount(Front(victims));
      WeightSetMember(Front(victims), Weight(Last(victims)));
    }
  }

  predicate NoLater(accesses: map<PoolKey, int>, prefixes: map<int, nat>, v: int, m: int)
    requires v in prefixes && m in prefixes
  {
    var a, b := Recency(accesses, v, prefixes[v]), Recency(accesses, m, prefixes[m]);
    a < b || (a == b && v <= m)
  }

  /** No model has given up a group while a less recently used one still has all of
      its groups: when `v` lost its last group so far, `m` was no less recent. */
  ghost predicate LeastRecentFirst(accesses: map<PoolKey, int>, held: map<int, nat>, kept: map<int, nat>, active: int) {
    && kept.Keys == held.Keys && (forall m :: m in held ==> kept[m] <= held[m])
    && forall v, m :: v in held && m in held && kept[v] < held[v] && m != active && kept[m] == held[m] && held[m] > 0 ==>
      EarlierThan(accesses, v, kept[v] + 1, m, held[m])
  }

  /** Model `v` with `p` groups comes before model `m` with `q` groups. */
  ghost predicate EarlierThan(accesses: map<PoolKey, int>, v: int, p: nat, m: int, q: nat) {
    var a, b := Recency(accesses, v, p), Recency(accesses, m, q);
    a < b || (a == b && v <= m)
  }

  lemma {:induction false} NothingShrunk(accesses: map<PoolKey, int>, held: map<int, nat>, active: int)
    ensures LeastRecentFirst(accesses, held, held, active)
  {
  }

  lemma {:induction false} StillLeastRecent(accesses: map<PoolKey, int>, held: map<int, nat>, kept: map<int, nat>, active: int, w: int)
    requires LeastRecentFirst(accesses, held, kept, active) && w in kept && w != active && kept[w] > 0
    requires forall m :: m in kept && m != active && kept[m] > 0 ==> NoLater(accesses, kept, w, m)
    ensures LeastRecentFirst(accesses, held, kept[w := kept[w] - 1], active)
  {
    hide Recency, NoLater, EarlierThan;
    var next := kept[w := kept[w] - 1];
    forall v, m | v in held && m in held && next[v] < held[v] && m != active && next[m] == held[m] && held[m] > 0
      ensures EarlierThan(accesses, v, next[v] + 1, m, held[m])
    {
      assert m != w && kept[m] == held[m];
      if v == w {
        EarlierByRecency(accesses, kept, w, m);
      } else {
        assert EarlierThan(accesses, v, kept[v] + 1, m, held[m]);
      }
    }
  }

  lemma {:induction false} EarlierByRecency(accesses: map<PoolKey, int>, kept: map<int, nat>, w: int, m: int)
    requires w in kept && m in kept && NoLater(accesses, kept, w, m)
    ensures EarlierThan(accesses, w, kept[w], m, kept[m])
  {
    hide Recency;
  }

  /** Prefixes are being shortened group by group; `gone` is what left so far. */
  ghost predicate Shrinking(
    models: Models, es: seq<Extent>, now: seq<Extent>, index: map<PoolKey, Extent>, capacity: nat,
    prefixes: map<int, nat>, gone: set<PoolKey>, active: int, released: nat)
  {
    && Sound(es, IndexOf(es), capacity) && SizesMatch(models, IndexOf(es))
    && now == MarkFree(es, gone) && index == IndexOf(es) - gone
    && gone <= Evictable(IndexOf(es).Keys, active)
    && Prefixes(models, index.Keys, prefixes)
    && released == BytesIn(Objects(es), gone) && (gone != {} ==> released > 0)
  }

  lemma {:induction false} ShrinkStart(models: Models, es: seq<Extent>, capacity: nat, prefixes: map<int, nat>, active: int)
    requires Sound(es, IndexOf(es), capacity) && SizesMatch(models, IndexOf(es))
    requires Prefixes(models, IndexOf(es).Keys, prefixes)
    ensures Shrinking(models, es, es, IndexOf(es), capacity, prefixes, {}, active, 0)
  {
    MarkNothing(es, {});
    NoBytes(Objects(es));
    assert IndexOf(es) - {} == IndexOf(es);
  }

  lemma {:induction false} ShrinkStep(
    models: Models, es: seq<Extent>, now: seq<Extent>, index: map<PoolKey, Extent>, capacity: nat,
    prefixes: map<int, nat>, gone: set<PoolKey>, active: int, released: nat, v: int)
    requires Shrinking(models, es, now, index, capacity, prefixes, gone, active, released)
    requires v in prefixes && v != active && prefixes[v] > 0
    ensures var key := Key(v, prefixes[v] - 1);
      && key in index
      && Shrinking(models, es, MarkFree(now, {key}), index - {key}, capacity, prefixes[v := prefixes[v] - 1],
                   gone + {key}, active, released + index[key].size)
      && index[key].size == SizeOf(models, v, prefixes[v] - 1) > 0 && key !in gone
  {
    var key := Key(v, prefixes[v] - 1);
    DropLast(models, index.Keys, prefixes, v);
    MarkFreeTwice(es, gone, {key});
    BytesDisjoint(Objects(es), gone, {key});
    IndexedSize(es, 0, key);
    assert GroupSized(models, key.group, IndexOf(es)[key]);
    assert index - {key} == IndexOf(es) - (gone + {key});
    assert (index - {key}).Keys == index.Keys - {key};
  }

  lemma {:induction false} ShrunkOut(
    models: Models, es: seq<Extent>, now: seq<Extent>, index: map<PoolKey, Extent>, capacity: nat,
    prefixes: map<int, nat>, gone: set<PoolKey>, active: int, released: nat)
    requires Shrinking(models, es, now, index, capacity, prefixes, gone, active, released)
    requires forall m :: m in prefixes && m != active ==> prefixes[m] == 0
    ensures released == BytesIn(Objects(es), Evictable(IndexOf(es).Keys, active))
    ensures SizesMatch(models, index) && AllPrefixShaped(models, index.Keys) && Prefixes(models, index.Keys, prefixes)
    ensures KvKeysIn(index.Keys) == KvKeysIn(IndexOf(es).Keys)
  {
    SizesAfterEvict(models, es, gone);
    SizesAreKnown(models, index);
    NothingEvictable(models, index.Keys, prefixes, active);
    assert gone == Evictable(IndexOf(es).Keys, active) by {
      forall k | k in Evictable(IndexOf(es).Keys, active) ensures k in gone {
        assert k !in Evictable(index.Keys, active);
      }
    }
    PrefixesAreShaped(models, index.Keys, prefixes);
  }

  lemma {:induction false} ShrinkEnd(
    models: Models, es: seq<Extent>, now: seq<Extent>, index: map<PoolKey, Extent>, capacity: nat,
    prefixes: map<int, nat>, gone: set<PoolKey>, active: int, released: nat)
    requires Shrinking(models, es, now, index, capacity, prefixes, gone, active, released)
    ensures released <= BytesIn(Objects(es), Evictable(IndexOf(es).Keys, active))
    ensures SizesMatch(models, index) && AllPrefixShaped(models, index.Keys) && Prefixes(models, index.Keys, prefixes)
    ensures KvKeysIn(index.Keys) == KvKeysIn(IndexOf(es).Keys)
    ensures var after := if released > 0 then Coalesced(now) else now;
      && AfterEvictions(es, after, active) && Sound(after, index, capacity) && after == Evict(es, gone)
      && UsedBytes(after) + released == UsedBytes(es) && Held(after) + |gone| == Held(es)
  {
    hide Sound, SizesMatch, Prefixes, BytesIn, Objects, IndexOf, MarkFree, Coalesced;
    SizesAfterEvict(models, es, gone);
    PrefixesAreShaped(models, index.Keys, prefixes);
    BytesMonotone(Objects(es), gone, Evictable(IndexOf(es).Keys, active));
    EvictFacts(es, gone, capacity);
    NoBytes(Objects(es));
    if gone == {} {
      MarkNothing(es, gone);
    }
    HeldAfter(es, gone);
    assert IndexOf(es).Keys - index.Keys == gone;
  }

  /** What the replacement policy keeps true of all models but the skipped ones:
      prefixes under the prefix policies, suffixes under plain LRU. */
  ghost predicate Shaped(
    replacement: Replacement, rule: VictimRule, models: Models, keys: set<PoolKey>, accesses: map<PoolKey, int>, skipped: set<int>)
  {
    && (replacement != OneByOne ==> AllPrefixShaped(models, keys))
    && (replacement == OneByOne && LeastRecent(rule) ==>
      forall m :: m in models && m !in skipped ==> SuffixShaped(keys, m, GroupCount(models, m), accesses))
  }

  lemma {:induction false} ShapedAfterVictim(
    rule: VictimRule, models: Models, keys: set<PoolKey>, accesses: map<PoolKey, int>, active: int, es: seq<Extent>)
    requires Shaped(OneByOne, rule, models, keys, accesses, {active})
    requires PicksCandidates(rule) && Evictable(keys, active) != {}
    ensures Shaped(OneByOne, rule, models, keys - {rule(es, accesses, Evictable(keys, active))}, accesses, {active})
  {
    var v := rule(es, accesses, Evictable(keys, active));
    Picked(rule, es, accesses, Evictable(keys, active));
    if LeastRecent(rule) {
      forall m | m in models && m !in {active} ensures SuffixShaped(keys - {v}, m, GroupCount(models, m), accesses) {
        LeastRecentKeepsSuffix(keys, active, v, m, GroupCount(models, m), accesses);
      }
    }
  }

  /** KV extents `lo..hi` were added, exactly the required bytes in whole blocks,
      and nothing else changed. */
  ghost predicate KvPlaced(before: seq<Extent>, after: seq<Extent>, lo: nat, hi: nat, required: nat, block: nat)
    requires block > 0
  {
    var added := KvRange(lo, hi);
    && lo <= hi
    && IndexOf(after).Keys == IndexOf(before).Keys + added
    && Keeps(IndexOf(before), IndexOf(after))
    && Without(Objects(after), added) == Objects(before)
    && BytesIn(Objects(after), added) == required
    && (WholeBlocks(required, block) ==> AllWhole(IndexOf(after), added, block))
  }

  /** The KV keys among `keys` are recorded and numbered below `next`. */
  ghost predicate KvNumbered(kvKeys: set<PoolKey>, keys: set<PoolKey>, next: nat) {
    kvKeys == KvKeysIn(keys) && forall k :: k in kvKeys ==> k.Kv? && k.id < next
  }

  lemma {:induction false} KvNumberedNext(kvKeys: set<PoolKey>, keys: set<PoolKey>, next: nat)
    requires KvNumbered(kvKeys, keys, next)
    ensures Kv(next) !in keys
    ensures KvNumbered(kvKeys + {Kv(next)}, keys + {Kv(next)}, next + 1)
  {
    assert Kv(next) in keys ==> Kv(next) in kvKeys;
  }

  lemma {:induction false} KvConsistent(
    models: Models, before: map<PoolKey, Extent>, after: map<PoolKey, Extent>, lo: nat, hi: nat)
    requires SizesMatch(models, before) && Keeps(before, after) && after.Keys == before.Keys + KvRange(lo, hi)
    ensures SizesMatch(models, after)
  {
    forall k | k in after && k.Weight? ensures GroupSized(models, k.group, after[k]) {
      assert k in before;
    }
  }

  /** A prefix policy reclaims for the KV cache together with the weights. */
  function WithKv(replacement: Replacement, kvBytes: nat): nat {
    if replacement == OneByOne then 0 else kvBytes
  }

  lemma {:induction false} WeightsKeys(kvKeys: set<PoolKey>, keys: set<PoolKey>, next: nat)
    requires KvNumbered(kvKeys, keys, next) && kvKeys == {}
    ensures forall k :: k in keys ==> k.Weight?
  {
    forall k | k in keys ensures k.Weight? {
      assert k.Kv? ==> k in kvKeys;
    }
  }

  lemma {:induction false} KvNumberedSame(kvKeys: set<PoolKey>, keys: set<PoolKey>, after: set<PoolKey>, next: nat, m: int, n: nat)
    requires KvNumbered(kvKeys, keys, next) && after == keys + GroupSet(m, n)
    ensures KvNumbered(kvKeys, after, next)
  {
    forall k | k in GroupSet(m, n) ensures k.Weight? {
      GroupSetMember(m, n, k);
    }
  }

  lemma {:induction false} KvKeepsShape(
    replacement: Replacement, rule: VictimRule, models: Models, before: seq<Extent>, after: seq<Extent>,
    accesses: map<PoolKey, int>, skipped: set<int>, lo: nat, hi: nat, required: nat, block: nat)
    requires block > 0 && KvPlaced(before, after, lo, hi, required, block)
    requires Shaped(replacement, rule, models, IndexOf(before).Keys, accesses, skipped)
    ensures Shaped(replacement, rule, models, IndexOf(after).Keys, accesses, skipped)
  {
    forall k: PoolKey | k.Weight? ensures k in IndexOf(before).Keys <==> k in IndexOf(after).Keys {
      assert k !in KvRange(lo, hi);
    }
    ShapedSameWeights(replacement, rule, models, IndexOf(before).Keys, IndexOf(after).Keys, accesses, skipped);
  }

  // ------------------------------------------------------- planned requests

  lemma {:induction false} NothingMissing(models: Models, index: map<PoolKey, Extent>, m: int, objs: seq<Object>)
    requires MissingObjects(models, index.Keys, m, objs)
    ensures objs == [] <==> AllResident(models, index, m)
  {
    var n := GroupCount(models, m);
    if objs == [] {
      forall g: nat | g < n ensures Key(m, g) in index {
        GroupSetMember(m, n, Key(m, g));
        assert Key(m, g) !in GroupSet(m, n) - index.Keys;
      }
    } else {
      var k := objs[0].key;
      ObjectBytes(objs, 0);
      GroupSetMember(m, n, k);
      assert k == Key(m, k.group.groupId);
    }
  }

  /** The model is complete and the others have gained nothing. */
  ghost predicate WeightsFor(models: Models, before: map<PoolKey, Extent>, after: map<PoolKey, Extent>, m: int) {
    && AllResident(models, after, m)
    && forall k :: k in after && k.Weight? && k.group.modelId != m ==> k in before
  }

  lemma {:induction false} WeightsPlaced(
    models: Models, es: seq<Extent>, room: seq<Extent>, full: seq<Extent>, capacity: nat, m: int, ordered: seq<Object>)
    requires Sound(es, IndexOf(es), capacity) && AfterEvictions(es, room, m)
    requires Completed(room, full, ordered) && GroupObjects(models, m, ordered) && AllResident(models, IndexOf(full), m)
    ensures WeightsFor(models, IndexOf(es), IndexOf(full), m)
  {
    EvictedKeys(es, room, m, capacity);
    forall k | k in IndexOf(full) && k.Weight? && k.group.modelId != m ensures k in IndexOf(es) {
      if k in KeySet(ordered) {
        var i := KeyAt(ordered, k);
      }
    }
  }

  /** A planned request: its weights are there, and its KV cache in whole blocks. */
  ghost predicate PlacedFor(
    models: Models, before: seq<Extent>, after: seq<Extent>, m: int, kvKeys: set<PoolKey>, kvBytes: nat, block: nat)
    requires block > 0
  {
    && WeightsFor(models, IndexOf(before), IndexOf(after), m)
    && BytesIn(Objects(after), kvKeys) == kvBytes
    && (WholeBlocks(kvBytes, block) ==> AllWhole(IndexOf(after), kvKeys, block))
  }

  lemma {:induction false} PlacedMissing(
    models: Models, before: seq<Extent>, after: seq<Extent>, m: int, kvKeys: set<PoolKey>, kvBytes: nat, block: nat,
    keys: set<PoolKey>, ordered: seq<Object>)
    requires block > 0 && PlacedFor(models, before, after, m, kvKeys, kvBytes, block)
    requires MissingObjects(models, keys, m, ordered)
    ensures AllResident(models, IndexOf(after), m)
    ensures DistinctKeys(ordered) && KeySet(ordered) <= GroupSet(m, GroupCount(models, m))
  {
  }

  lemma {:induction false} RequestPlaced(
    models: Models, es: seq<Extent>, full: seq<Extent>, spare: seq<Extent>, after: seq<Extent>,
    capacity: nat, m: int, kvKeys: set<PoolKey>, lo: nat, hi: nat, kvBytes: nat, block: nat)
    requires block > 0 && Sound(full, IndexOf(full), capacity) && WeightsFor(models, IndexOf(es), IndexOf(full), m)
    requires AfterEvictions(full, spare, m) && KvPlaced(spare, after, lo, hi, kvBytes, block)
    requires kvKeys == KvKeysIn(IndexOf(after).Keys) && KvKeysIn(IndexOf(full).Keys) == {}
    ensures PlacedFor(models, es, after, m, kvKeys, kvBytes, block)
  {
    KeysAfterKv(models, full, spare, after, capacity, m, lo, hi, kvBytes, block);
    forall k | k in IndexOf(after) && k.Weight? && k.group.modelId != m ensures k in IndexOf(es) {
      assert k in IndexOf(full);
    }
  }

  lemma {:induction false} KeysAfterKv(
    models: Models, full: seq<Extent>, spare: seq<Extent>, after: seq<Extent>,
    capacity: nat, m: int, lo: nat, hi: nat, kvBytes: nat, block: nat)
    requires block > 0 && Sound(full, IndexOf(full), capacity) && AllResident(models, IndexOf(full), m)
    requires AfterEvictions(full, spare, m) && KvPlaced(spare, after, lo, hi, kvBytes, block)
    requires KvKeysIn(IndexOf(full).Keys) == {}
    ensures KvKeysIn(IndexOf(after).Keys) == KvRange(lo, hi)
    ensures AllResident(models, IndexOf(after), m)
    ensures forall k :: k in IndexOf(after) && k.Weight? ==> k in IndexOf(full)
  {
    EvictedKeys(full, spare, m, capacity);
    forall k | k in IndexOf(after) ensures k.Kv? <==> k in KvRange(lo, hi) {
      assert k in IndexOf(full) && k.Kv? ==> k in KvKeysIn(IndexOf(full).Keys);
    }
    forall g: nat | g < GroupCount(models, m) ensures Key(m, g) in IndexOf(after) {
      assert Key(m, g) !in Evictable(IndexOf(full).Keys, m);
      assert Key(m, g) in IndexOf(spare);
    }
  }

  lemma {:induction false} KvUsed(before: seq<Extent>, after: seq<Extent>, lo: nat, hi: nat, kvBytes: nat, block: nat)
    requires block > 0 && KvPlaced(before, after, lo, hi, kvBytes, block)
    ensures UsedBytes(after) == UsedBytes(before) + kvBytes
  {
    WithoutFacts(Objects(after), KvRange(lo, hi));
  }

  /** The loads taken so far and the ones still planned. */
  ghost predicate Loading(ordered: seq<Object>, moved: nat, planned: map<PoolKey, LoadCost>, cost: LoadCost) {
    && planned.Keys <= KeySet(ordered) && (forall k :: k in planned ==> k in LoadsOf(ordered, moved) && planned[k] == LoadsOf(ordered, moved)[k])
    && cost == LoadCost(BytesIn(ordered, KeySet(ordered) - planned.Keys), 0, 0,
                        if ordered == [] || ordered[0].key in planned then 0 else moved)
  }

  lemma {:induction false} LoadStart(ordered: seq<Object>, moved: nat)
    ensures Loading(ordered, moved, LoadsOf(ordered, moved), NO_COST)
  {
    LoadsOfKeys(ordered, moved);
    NoBytes(ordered);
    assert KeySet(ordered) - LoadsOf(ordered, moved).Keys == {};
    if ordered != [] {
      FirstKey(ordered);
    }
  }

  lemma {:induction false} FirstKey(objs: seq<Object>)
    requires objs != []
    ensures objs[0].key in KeySet(objs)
  {
    if |objs| > 1 {
      FirstKey(Front(objs));
    }
  }

  /** Taking the load of one group; a group without a planned load costs nothing. */
  lemma {:induction false} LoadNext(ordered: seq<Object>, moved: nat, planned: map<PoolKey, LoadCost>, cost: LoadCost, k: PoolKey)
    requires DistinctKeys(ordered) && Loading(ordered, moved, planned, cost)
    ensures Loading(ordered, moved, planned - {k}, AddCost(cost, if k in planned then planned[k] else NO_COST))
  {
    hide LoadsOf, DistinctKeys, BytesIn;
    if k in planned {
      LoadOf(ordered, moved, k);
      var taken := KeySet(ordered) - planned.Keys;
      assert KeySet(ordered) - (planned - {k}).Keys == taken + {k};
      BytesDisjoint(ordered, taken, {k});
    } else {
      assert planned - {k} == planned;
    }
  }

  lemma {:induction false} LoadEnd(
    models: Models, m: int, ordered: seq<Object>, moved: nat, planned: map<PoolKey, LoadCost>, cost: LoadCost)
    requires m in models && models[m].WellFormed() && Loading(ordered, moved, planned, cost)
    requires KeySet(ordered) <= GroupSet(m, GroupCount(models, m))
    requires forall i :: 0 <= i < |models[m].tensorGroup| ==> Key(m, models[m].tensorGroup[i]) !in planned
    ensures planned == map[] && cost == LoadCost(SumSizes(ordered), 0, 0, if ordered == [] then 0 else moved)
  {
    forall k | k in planned ensures false {
      GroupSetMember(m, GroupCount(models, m), k);
      Visited(models, m, k.group.groupId, planned);
    }
    assert planned.Keys == {};
    BytesAll(ordered, KeySet(ordered));
    assert KeySet(ordered) - planned.Keys == KeySet(ordered);
  }

  lemma {:induction false} Visited(models: Models, m: int, g: nat, planned: map<PoolKey, LoadCost>)
    requires m in models && models[m].WellFormed() && g < |models[m].groupBytes|
    requires forall i :: 0 <= i < |models[m].tensorGroup| ==> Key(m, models[m].tensorGroup[i]) !in planned
    ensures Key(m, g) !in planned
  {
    assert g in models[m].tensorGroup;
    var i :| 0 <= i < |models[m].tensorGroup| && models[m].tensorGroup[i] == g;
  }

  ghost predicate OthersUntouched(before: map<PoolKey, int>, after: map<PoolKey, int>, m: int) {
    forall k: PoolKey :: !(k.Weight? && k.group.modelId == m) ==> Access(after, k) == Access(before, k)
  }

  /** The first `t` tensors have been prepared. */
  ghost predicate Preparing(
    models: Models, m: int, t: nat, before: map<PoolKey, int>, accesses: map<PoolKey, int>, clock: int,
    ordered: seq<Object>, moved: nat, planned: map<PoolKey, LoadCost>, cost: LoadCost)
    requires m in models && t <= |models[m].tensorGroup|
  {
    && TouchedInOrder(accesses, clock, m, models[m].tensorGroup, t)
    && OthersUntouched(before, accesses, m)
    && Loading(ordered, moved, planned, cost)
    && forall i :: 0 <= i < t ==> Key(m, models[m].tensorGroup[i]) !in planned
  }

  lemma {:induction false} PrepareStart(
    models: Models, m: int, accesses: map<PoolKey, int>, clock: int, ordered: seq<Object>, moved: nat, planned: map<PoolKey, LoadCost>)
    requires m in models && Loading(ordered, moved, planned, NO_COST)
    ensures Preparing(models, m, 0, accesses, accesses, clock, ordered, moved, planned, NO_COST)
  {
    hide Loading;
  }

  lemma {:induction false} PrepareEnd(
    models: Models, m: int, before: map<PoolKey, int>, accesses: map<PoolKey, int>, clock: int,
    ordered: seq<Object>, moved: nat, planned: map<PoolKey, LoadCost>, cost: LoadCost)
    requires m in models && models[m].WellFormed() && KeySet(ordered) <= GroupSet(m, GroupCount(models, m))
    requires Preparing(models, m, |models[m].tensorGroup|, before, accesses, clock, ordered, moved, planned, cost)
    ensures TouchedInOrder(accesses, clock, m, models[m].tensorGroup, |models[m].tensorGroup|)
    ensures OthersUntouched(before, accesses, m)
    ensures planned == map[] && cost == LoadCost(SumSizes(ordered), 0, 0, if ordered == [] then 0 else moved)
  {
    hide Loading, TouchedInOrder, OthersUntouched, SumSizes, KeySet, GroupSet;
    LoadEnd(models, m, ordered, moved, planned, cost);
  }

  lemma {:induction false} PrepareNext(
    models: Models, m: int, t: nat, before: map<PoolKey, int>, accesses: map<PoolKey, int>, clock: int,
    ordered: seq<Object>, moved: nat, planned: map<PoolKey, LoadCost>, cost: LoadCost)
    requires m in models && models[m].WellFormed() && t < |models[m].tensorGroup| && DistinctKeys(ordered)
    requires Preparing(models, m, t, before, accesses, clock, ordered, moved, planned, cost)
    ensures var key := Key(m, models[m].tensorGroup[t]);
      var load := if key in planned then planned[key] else NO_COST;
      Preparing(models, m, t + 1, before, accesses[key := clock + 1], clock + 1, ordered, moved, planned - {key}, AddCost(cost, load))
  {
    hide Loading, TouchedInOrder, DistinctKeys, LoadsOf;
    TouchNext(accesses, clock, m, models[m].tensorGroup, t);
    LoadNext(ordered, moved, planned, cost, Key(m, models[m].tensorGroup[t]));
  }

  /** Releasing KV blocks leaves the weights alone. */
  lemma {:induction false} BegunShape(
    replacement: Replacement, rule: VictimRule, models: Models, es: seq<Extent>, kvKeys: set<PoolKey>, accesses: map<PoolKey, int>, m: int)
    requires kvKeys == KvKeysIn(IndexOf(es).Keys)
    requires Shaped(replacement, rule, models, IndexOf(es).Keys, accesses, {})
    ensures Shaped(replacement, rule, models, (IndexOf(es) - kvKeys).Keys, accesses, {m})
    ensures AllResident(models, IndexOf(es) - kvKeys, m) <==> AllResident(models, IndexOf(es), m)
  {
    var keys, left := IndexOf(es).Keys, (IndexOf(es) - kvKeys).Keys;
    ShapedSameWeights(replacement, rule, models, keys, left, accesses, {});
    forall g: nat ensures Key(m, g) in IndexOf(es) - kvKeys <==> Key(m, g) in IndexOf(es) {
    }
  }

  lemma {:induction false} PlacedSince(
    models: Models, es0: seq<Extent>, es1: seq<Extent>, after: seq<Extent>, m: int, kvKeys: set<PoolKey>, kvBytes: nat, block: nat)
    requires block > 0 && IndexOf(es1).Keys <= IndexOf(es0).Keys
    requires PlacedFor(models, es1, after, m, kvKeys, kvBytes, block)
    ensures PlacedFor(models, es0, after, m, kvKeys, kvBytes, block)
  {
  }

  /** Once its groups were touched in order, the served model has the shape too. */
  lemma {:induction false} ServedShape(
    replacement: Replacement, rule: VictimRule, models: Models, index: map<PoolKey, Extent>,
    before: map<PoolKey, int>, accesses: map<PoolKey, int>, clock: int, m: int)
    requires m in models && models[m].WellFormed() && AllResident(models, index, m)
    requires Shaped(replacement, rule, models, index.Keys, before, {m})
    requires TouchedInOrder(accesses, clock, m, models[m].tensorGroup, |models[m].tensorGroup|)
    requires OthersUntouched(before, accesses, m)
    ensures Shaped(replacement, rule, models, index.Keys, accesses, {})
  {
    if replacement == OneByOne && LeastRecent(rule) {
      forall x | x in models ensures SuffixShaped(index.Keys, x, GroupCount(models, x), accesses) {
        if x == m {
          TouchedIsSuffix(models, index, accesses, clock, m);
        } else {
          OthersKeepSuffix(index.Keys, index.Keys, x, GroupCount(models, x), before, accesses);
        }
      }
    }
  }

  /** Only the weights matter for the shape. */
  lemma {:induction false} ShapedSameWeights(
    replacement: Replacement, rule: VictimRule, models: Models, keys: set<PoolKey>, after: set<PoolKey>,
    accesses: map<PoolKey, int>, skipped: set<int>)
    requires Shaped(replacement, rule, models, keys, accesses, skipped)
    requires forall k: PoolKey :: k.Weight? ==> (k in keys <==> k in after)
    ensures Shaped(replacement, rule, models, after, accesses, skipped)
  {
    forall m | m in models ensures PrefixShaped(keys, m) ==> PrefixShaped(after, m) {
    }
    forall m | m in models && SuffixShaped(keys, m, GroupCount(models, m), accesses)
      ensures SuffixShaped(after, m, GroupCount(models, m), accesses)
    {
      OthersKeepSuffix(keys, after, m, GroupCount(models, m), accesses, accesses);
    }
  }

  /** Completing one model keeps the shape of all others, and a complete model is a
      prefix of itself. */
  lemma {:induction false} ShapedCompleted(
    replacement: Replacement, rule: VictimRule, models: Models, keys: set<PoolKey>, accesses: map<PoolKey, int>, m: int)
    requires Shaped(replacement, rule, models, keys, accesses, {m}) && Known(models, keys)
    ensures Shaped(replacement, rule, models, keys + GroupSet(m, GroupCount(models, m)), accesses, {m})
  {
    var own := GroupSet(m, GroupCount(models, m));
    var after := keys + own;
    forall x: int, g: nat ensures Key(x, g) in after <==> Key(x, g) in keys || (x == m && g < GroupCount(models, m)) {
      GroupSetMember(m, GroupCount(models, m), Key(x, g));
    }
    forall x | x in models && PrefixShaped(keys, x) ensures PrefixShaped(after, x) {
      forall g: nat, h: nat | h < g && Key(x, g) in after ensures Key(x, h) in after {
        assert Key(x, g) in keys ==> Key(x, h) in keys;
      }
    }
    forall x | x in models && x != m && SuffixShaped(keys, x, GroupCount(models, x), accesses)
      ensures SuffixShaped(after, x, GroupCount(models, x), accesses)
    {
      OthersKeepSuffix(keys, after, x, GroupCount(models, x), accesses, accesses);
    }
  }
}
