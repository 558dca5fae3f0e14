/** The weight groups of the models in a segment pool and the bytes they take
    (evaluation/tensor_simulator/tensor_sim_segment_backend.py). */
module SegmentModels {
  import opened Common
  import opened SegmentExtents
  import opened SegmentReclaim

  /** A model's group sizes and the group of each of its tensors, in compute order. */
  datatype SegmentModel = SegmentModel(groupBytes: seq<nat>, tensorGroup: seq<nat>) {
    ghost predicate WellFormed() {
      && (forall g :: 0 <= g < |groupBytes| ==> groupBytes[g] > 0)
      && (forall i :: 0 <= i < |tensorGroup| ==> tensorGroup[i] < |groupBytes|)
      && (forall i, j :: 0 <= i <= j < |tensorGroup| ==> tensorGroup[i] <= tensorGroup[j])
      && (forall g :: 0 <= g < |groupBytes| ==> g in tensorGroup)
    }
  }

  type Models = map<int, SegmentModel>

  ghost predicate AllWellFormed(models: Models) {
    forall m :: m in models ==> models[m].WellFormed()
  }

  function SizeOf(models: Models, m: int, g: nat): nat {
    if m in models && g < |models[m].groupBytes| then models[m].groupBytes[g] else 0
  }

  /** Bytes of the first `p` groups. */
  function PrefixBytes(models: Models, m: int, p: nat): nat {
    if p == 0 then 0 else PrefixBytes(models, m, p - 1) + SizeOf(models, m, p - 1)
  }

  function GroupCount(models: Models, m: int): nat {
    if m in models then |models[m].groupBytes| else 0
  }

  function FullBytes(models: Models, m: int): nat {
    PrefixBytes(models, m, GroupCount(models, m))
  }

  function Key(m: int, g: nat): PoolKey {
    Weight(GroupKey(m, g))
  }

  /** The first `n` groups of a model, resident or not. */
  function GroupSet(m: int, n: nat): set<PoolKey> {
    if n == 0 then {} else GroupSet(m, n - 1) + {Key(m, n - 1)}
  }

  lemma {:induction false} GroupSetMember(m: int, n: nat, k: PoolKey)
    ensures k in GroupSet(m, n) <==> k.Weight? && k.group.modelId == m && k.group.groupId < n
  {
    if n > 0 {
      GroupSetMember(m, n - 1, k);
    }
  }

  /** Every resident weight is a group of some model, at that group's size. */
  ghost predicate SizesMatch(models: Models, index: map<PoolKey, Extent>) {
    forall k :: k in index && k.Weight? ==> GroupSized(models, k.group, index[k])
  }

  ghost predicate GroupSized(models: Models, group: GroupKey, e: Extent) {
    && group.modelId in models && group.groupId < |models[group.modelId].groupBytes|
    && e.size == models[group.modelId].groupBytes[group.groupId]
  }

  // --------------------------------------------------------- byte counts

  lemma {:induction false} BytesDisjoint(objs: seq<Object>, a: set<PoolKey>, b: set<PoolKey>)
    requires a !! b
    ensures BytesIn(objs, a + b) == BytesIn(objs, a) + BytesIn(objs, b)
  {
    if objs != [] {
      BytesDisjoint(Front(objs), a, b);
    }
  }

  lemma {:induction false} BytesMonotone(objs: seq<Object>, a: set<PoolKey>, b: set<PoolKey>)
    requires a <= b
    ensures BytesIn(objs, a) <= BytesIn(objs, b)
  {
    if objs != [] {
      BytesMonotone(Front(objs), a, b);
    }
  }

  lemma {:induction false} BytesAll(objs: seq<Object>, ks: set<PoolKey>)
    requires KeySet(objs) <= ks
    ensures BytesIn(objs, ks) == SumSizes(objs)
  {
    if objs != [] {
      BytesAll(Front(objs), ks);
    }
  }

  lemma {:induction false} BytesKept(objs: seq<Object>, ks: set<PoolKey>, left: set<PoolKey>)
    requires ks !! left
    ensures BytesIn(Without(objs, left), ks) == BytesIn(objs, ks)
  {
    if objs != [] {
      BytesKept(Front(objs), ks, left);
      Snoc(Without(Front(objs), left), Last(objs));
    }
  }

  /** A key that stays keeps its size. */
  lemma {:induction false} SizeKept(
    before: seq<Extent>, after: seq<Extent>, left: set<PoolKey>, gained: set<PoolKey>, k: PoolKey, capacity: nat)
    requires Sound(before, IndexOf(before), capacity) && Sound(after, IndexOf(after), capacity)
    requires Without(Objects(after), gained) == Without(Objects(before), left)
    requires k in IndexOf(after) && k in IndexOf(before) && k !in left && k !in gained
    ensures IndexOf(after)[k].size == IndexOf(before)[k].size
  {
    BytesKept(Objects(before), {k}, left);
    BytesKept(Objects(after), {k}, gained);
    IndexedSize(before, 0, k);
    IndexedSize(after, 0, k);
  }

  /** Resident bytes of a model's first groups; a missing group leaves its size out. */
  /** The bytes of a model's own groups that are resident. */
  function OwnBytes(models: Models, es: seq<Extent>, m: int): nat {
    BytesIn(Objects(es), GroupSet(m, GroupCount(models, m)))
  }

  lemma {:induction false} OwnKept(models: Models, before: seq<Extent>, after: seq<Extent>, m: int)
    requires OnlyLost(before, after, m)
    ensures OwnBytes(models, after, m) == OwnBytes(models, before, m)
  {
    var own, gone := GroupSet(m, GroupCount(models, m)), IndexOf(before).Keys - IndexOf(after).Keys;
    forall k | k in own ensures k !in gone {
      GroupSetMember(m, GroupCount(models, m), k);
    }
    BytesKept(Objects(before), own, gone);
  }

  lemma {:induction false} OwnGained(
    models: Models, before: seq<Extent>, after: seq<Extent>, m: int, g: nat, size: nat, capacity: nat)
    requires Sound(after, IndexOf(after), capacity) && g < GroupCount(models, m)
    requires LostAndGained(before, after, m, Key(m, g), size)
    ensures OwnBytes(models, after, m) == OwnBytes(models, before, m) + size
  {
    var own, gone, key := GroupSet(m, GroupCount(models, m)), IndexOf(before).Keys - IndexOf(after).Keys, Key(m, g);
    forall k | k in own ensures k !in gone {
      GroupSetMember(m, GroupCount(models, m), k);
    }
    GroupSetMember(m, GroupCount(models, m), key);
    IndexKeys(before);
    BytesKept(Objects(before), own, gone);
    BytesDisjoint(Objects(after), own - {key}, {key});
    assert own - {key} + {key} == own;
    BytesKept(Objects(after), own - {key}, {key});
    BytesDisjoint(Without(Objects(after), {key}), own - {key}, {key});
    WithoutFacts(Objects(after), {key});
    WithoutNone(Without(Objects(after), {key}), {key});
    IndexedSize(after, 0, key);
  }

  lemma {:induction false} ResidentBytes(models: Models, es: seq<Extent>, capacity: nat, m: int, n: nat)
    requires Sound(es, IndexOf(es), capacity) && SizesMatch(models, IndexOf(es))
    ensures BytesIn(Objects(es), GroupSet(m, n)) <= PrefixBytes(models, m, n)
    ensures (forall g: nat :: g < n ==> Key(m, g) in IndexOf(es)) ==>
      BytesIn(Objects(es), GroupSet(m, n)) == PrefixBytes(models, m, n)
    ensures forall g: nat :: g < n && Key(m, g) !in IndexOf(es) ==>
      BytesIn(Objects(es), GroupSet(m, n)) + SizeOf(models, m, g) <= PrefixBytes(models, m, n)
  {
    if n == 0 {
      NoBytes(Objects(es));
    } else {
      ResidentBytes(models, es, capacity, m, n - 1);
      var k := Key(m, n - 1);
      GroupSetMember(m, n - 1, k);
      BytesDisjoint(Objects(es), GroupSet(m, n - 1), {k});
      if k in IndexOf(es) {
        IndexedSize(es, 0, k);
      } else {
        IndexKeys(es);
        WithoutNone(Objects(es), {k});
      }
    }
  }

  lemma {:induction false} NoBytes(objs: seq<Object>)
    ensures BytesIn(objs, {}) == 0
  {
    if objs != [] {
      NoBytes(Front(objs));
    }
  }

  /** With only weights in the pool, what cannot be evicted is the active model. */
  lemma {:induction false} ExhaustedIsActive(models: Models, es: seq<Extent>, capacity: nat, m: int)
    requires Sound(es, IndexOf(es), capacity) && SizesMatch(models, IndexOf(es))
    requires forall k :: k in IndexOf(es) ==> k.Weight?
    ensures UsedBytes(Exhausted(es, m)) == BytesIn(Objects(es), GroupSet(m, GroupCount(models, m)))
  {
    var others, own := Evictable(IndexOf(es).Keys, m), GroupSet(m, GroupCount(models, m));
    EvictFacts(es, others, capacity);
    IndexKeys(es);
    forall k | k in others ensures k !in own {
      GroupSetMember(m, GroupCount(models, m), k);
    }
    forall k | k in IndexOf(es) ensures k in others + own {
      GroupSetMember(m, GroupCount(models, m), k);
    }
    BytesAll(Objects(es), others + own);
    BytesDisjoint(Objects(es), others, own);
  }

  /** Losing weights and gaining one of a model's groups keeps every size right. */
  lemma {:induction false} SizesAfterGain(
    models: Models, before: seq<Extent>, after: seq<Extent>, active: int, m: int, g: nat, capacity: nat)
    requires Sound(before, IndexOf(before), capacity) && Sound(after, IndexOf(after), capacity)
    requires SizesMatch(models, IndexOf(before))
    requires m in models && g < |models[m].groupBytes|
    requires LostAndGained(before, after, active, Key(m, g), models[m].groupBytes[g])
    ensures SizesMatch(models, IndexOf(after))
    ensures IndexOf(after).Keys <= IndexOf(before).Keys + {Key(m, g)}
  {
    var gone, key := IndexOf(before).Keys - IndexOf(after).Keys, Key(m, g);
    IndexKeys(before);
    IndexKeys(after);
    WithoutFacts(Objects(after), {key});
    WithoutFacts(Objects(before), gone);
    assert forall k :: k in IndexOf(after).Keys - {key} ==> k in IndexOf(before);
    forall k | k in IndexOf(after) && k.Weight? ensures GroupSized(models, k.group, IndexOf(after)[k]) {
      if k != key {
        SizeKept(before, after, gone, {key}, k, capacity);
      }
    }
  }

  lemma {:induction false} SizesAfterLoss(
    models: Models, before: seq<Extent>, after: seq<Extent>, active: int, capacity: nat)
    requires Sound(before, IndexOf(before), capacity) && Sound(after, IndexOf(after), capacity)
    requires SizesMatch(models, IndexOf(before)) && OnlyLost(before, after, active)
    ensures SizesMatch(models, IndexOf(after))
    ensures IndexOf(after).Keys <= IndexOf(before).Keys
  {
    LostKeys(before, after, active);
    WithoutNone(Objects(after), {});
    forall k | k in IndexOf(after) && k.Weight? ensures GroupSized(models, k.group, IndexOf(after)[k]) {
      SizeKept(before, after, IndexOf(before).Keys - IndexOf(after).Keys, {}, k, capacity);
    }
  }
}
