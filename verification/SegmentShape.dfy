/** Which groups of each model stay resident: prefixes under the prefix policies,
    suffixes under plain LRU
    (evaluation/tensor_simulator/tensor_sim_segment_backend.py,
    evaluation/tensor_simulator/tensor_sim_memory_common.py). */
module SegmentShape {
  import opened Common
  import opened SegmentExtents
  import opened SegmentReclaim
  import opened SegmentModels
  import Mckp

  // -------------------------------------------------------- resident groups

  /** `resident_group_ids`. */
  function ResidentIds(keys: set<PoolKey>, m: int): set<nat> {
    set k | k in keys && k.Weight? && k.group.modelId == m :: k.group.groupId
  }

  lemma {:induction false} ResidentId(keys: set<PoolKey>, m: int, g: nat)
    ensures g in ResidentIds(keys, m) <==> Key(m, g) in keys
  {
    if Key(m, g) in keys {
      assert Key(m, g).group.groupId == g;
    }
  }

  /** Every resident weight is one of the model's groups. */
  ghost predicate Known(models: Models, keys: set<PoolKey>) {
    forall k :: k in keys && k.Weight? ==> k.group.modelId in models && k.group.groupId < GroupCount(models, k.group.modelId)
  }

  /** The first `p` groups are resident and no others. */
  ghost predicate HoldsPrefix(keys: set<PoolKey>, m: int, p: nat) {
    forall g: nat :: Key(m, g) in keys <==> g < p
  }

  /** No group is resident without all those before it. */
  ghost predicate PrefixShaped(keys: set<PoolKey>, m: int) {
    forall g: nat, h: nat :: h < g && Key(m, g) in keys ==> Key(m, h) in keys
  }

  /** No group is resident without all those after it, and later groups were
      accessed later. */
  ghost predicate SuffixShaped(keys: set<PoolKey>, m: int, n: nat, accesses: map<PoolKey, int>) {
    forall g: nat, h: nat :: g < h < n && Key(m, g) in keys ==>
      Key(m, h) in keys && Access(accesses, Key(m, g)) < Access(accesses, Key(m, h))
  }

  function Access(accesses: map<PoolKey, int>, k: PoolKey): int {
    if k in accesses then accesses[k] else -1
  }

  lemma {:induction false} DownwardIsInitial(ids: set<nat>, n: nat)
    requires forall g :: g in ids ==> g < n
    requires forall g: nat, h: nat :: h < g && g in ids ==> h in ids
    ensures ids == Initial(|ids|)
  {
    if n == 0 {
      assert ids == {};
    } else if n - 1 in ids {
      assert ids == Initial(n);
      InitialSize(n);
    } else {
      DownwardIsInitial(ids, n - 1);
    }
  }

  lemma {:induction false} UpwardIsRange(ids: set<nat>, n: nat)
    requires forall g :: g in ids ==> g < n
    requires forall g: nat, h: nat :: g < h < n && g in ids ==> h in ids
    ensures |ids| <= n && ids == Range(n - |ids|, n)
  {
    if n == 0 {
      assert ids == {};
    } else if n - 1 in ids {
      var rest := ids - {n - 1};
      UpwardIsRange(rest, n - 1);
      assert ids == rest + {n - 1};
    } else {
      assert ids == {};
    }
  }

  /** A prefix shape passes the check of `resident_prefix_count`. */
  lemma {:induction false} PrefixCounted(models: Models, keys: set<PoolKey>, m: int)
    requires Known(models, keys) && PrefixShaped(keys, m)
    ensures ResidentIds(keys, m) == Initial(|ResidentIds(keys, m)|)
    ensures HoldsPrefix(keys, m, |ResidentIds(keys, m)|) && |ResidentIds(keys, m)| <= GroupCount(models, m)
  {
    var ids := ResidentIds(keys, m);
    forall g: nat, h: nat | h < g && g in ids ensures h in ids {
      ResidentId(keys, m, g);
      ResidentId(keys, m, h);
    }
    DownwardIsInitial(ids, GroupCount(models, m));
    forall g: nat ensures Key(m, g) in keys <==> g < |ids| {
      ResidentId(keys, m, g);
    }
    if |ids| > 0 {
      ResidentId(keys, m, |ids| - 1);
    }
  }

  /** A suffix shape passes the check of `resident_suffix_start`. */
  lemma {:induction false} SuffixCounted(models: Models, keys: set<PoolKey>, m: int, accesses: map<PoolKey, int>)
    requires Known(models, keys) && SuffixShaped(keys, m, GroupCount(models, m), accesses)
    ensures |ResidentIds(keys, m)| <= GroupCount(models, m)
    ensures ResidentIds(keys, m) == Range(GroupCount(models, m) - |ResidentIds(keys, m)|, GroupCount(models, m))
  {
    var ids, n := ResidentIds(keys, m), GroupCount(models, m);
    forall g: nat, h: nat | g < h < n && g in ids ensures h in ids {
      ResidentId(keys, m, g);
      ResidentId(keys, m, h);
    }
    UpwardIsRange(ids, n);
  }

  /** Evicting the least recently used weight of the other models takes the first
      resident group of some model: suffixes stay suffixes. */
  lemma {:induction false} LeastRecentKeepsSuffix(
    keys: set<PoolKey>, active: int, v: PoolKey, m: int, n: nat, accesses: map<PoolKey, int>)
    requires v in Evictable(keys, active) && SuffixShaped(keys, m, n, accesses)
    requires forall k :: k in Evictable(keys, active) ==> Access(accesses, v) <= Access(accesses, k)
    ensures SuffixShaped(keys - {v}, m, n, accesses)
  {
    forall g: nat, h: nat | g < h < n && Key(m, g) in keys - {v}
      ensures Key(m, h) in keys - {v} && Access(accesses, Key(m, g)) < Access(accesses, Key(m, h))
    {
      assert Key(m, h) in keys;
      assert Key(m, h) == v ==> Key(m, g) in Evictable(keys, active);
    }
  }

  // ------------------------------------------------------------ prefix maps

  ghost predicate Prefixes(models: Models, keys: set<PoolKey>, prefix: map<int, nat>) {
    prefix.Keys == models.Keys && forall m :: m in models ==> HoldsPrefix(keys, m, prefix[m])
  }

  lemma {:induction false} PrefixesAt(models: Models, keys: set<PoolKey>, prefix: map<int, nat>, m: int, g: nat)
    requires Prefixes(models, keys, prefix) && m in models
    ensures Key(m, g) in keys <==> g < prefix[m]
  {
    assert HoldsPrefix(keys, m, prefix[m]);
  }

  lemma {:induction false} SamePrefixes(models: Models, keys: set<PoolKey>, prefix: map<int, nat>, other: map<int, nat>)
    requires Prefixes(models, keys, prefix) && Prefixes(models, keys, other)
    ensures prefix == other
  {
    forall m | m in models ensures prefix[m] == other[m] {
      PrefixesAt(models, keys, prefix, m, prefix[m]);
      PrefixesAt(models, keys, prefix, m, other[m]);
      PrefixesAt(models, keys, other, m, prefix[m]);
      PrefixesAt(models, keys, other, m, other[m]);
    }
  }

  ghost predicate AllPrefixShaped(models: Models, keys: set<PoolKey>) {
    forall m :: m in models ==> PrefixShaped(keys, m)
  }

  lemma {:induction false} PrefixesAreShaped(models: Models, keys: set<PoolKey>, prefix: map<int, nat>)
    requires Prefixes(models, keys, prefix)
    ensures AllPrefixShaped(models, keys)
  {
    forall m | m in models ensures PrefixShaped(keys, m) {
      assert HoldsPrefix(keys, m, prefix[m]);
    }
  }

  /** Dropping a model's last resident group shortens its prefix by one. */
  lemma {:induction false} DropLast(models: Models, keys: set<PoolKey>, prefix: map<int, nat>, v: int)
    requires Prefixes(models, keys, prefix) && v in models && prefix[v] > 0
    ensures Key(v, prefix[v] - 1) in keys
    ensures Prefixes(models, keys - {Key(v, prefix[v] - 1)}, prefix[v := prefix[v] - 1])
  {
    var key, next := Key(v, prefix[v] - 1), prefix[v := prefix[v] - 1];
    PrefixesAt(models, keys, prefix, v, prefix[v] - 1);
    forall m | m in models ensures HoldsPrefix(keys - {key}, m, next[m]) {
      forall g: nat ensures Key(m, g) in keys - {key} <==> g < next[m] {
        PrefixesAt(models, keys, prefix, m, g);
      }
    }
  }

  /** With no prefix left but the active model's, nothing is evictable. */
  lemma {:induction false} NothingEvictable(models: Models, keys: set<PoolKey>, prefix: map<int, nat>, active: int)
    requires Prefixes(models, keys, prefix) && Known(models, keys)
    requires forall m :: m in prefix && m != active ==> prefix[m] == 0
    ensures Evictable(keys, active) == {}
  {
    forall k | k in Evictable(keys, active) ensures false {
      var m, g := k.group.modelId, k.group.groupId;
      PrefixesAt(models, keys, prefix, m, g);
      NoneBelowZero(k, m, g, keys, prefix);
    }
  }

  lemma {:induction false} NoneBelowZero(k: PoolKey, m: int, g: nat, keys: set<PoolKey>, prefix: map<int, nat>)
    requires k in keys && k == Key(m, g) && m in prefix && (Key(m, g) in keys <==> g < prefix[m])
    ensures prefix[m] > 0
  {
  }

  /** `max(last_access ..., default=-1)` over the first `p` groups. */
  function Recency(accesses: map<PoolKey, int>, m: int, p: nat): int {
    if p == 0 then -1 else Max(Recency(accesses, m, p - 1), Access(accesses, Key(m, p - 1)))
  }

  /** It is the latest access of those groups, or -1. */
  lemma {:induction false} RecencyIsLatest(accesses: map<PoolKey, int>, m: int, p: nat)
    ensures Recency(accesses, m, p) >= -1 && forall g: nat :: g < p ==> Access(accesses, Key(m, g)) <= Recency(accesses, m, p)
    ensures Recency(accesses, m, p) == -1 || exists g: nat :: g < p && Access(accesses, Key(m, g)) == Recency(accesses, m, p)
  {
    if p > 0 {
      RecencyIsLatest(accesses, m, p - 1);
    }
  }

  // ---------------------------------------------------- what the solver asks

  lemma {:induction false} PrefixBytesGrow(models: Models, m: int, p: nat, q: nat)
    requires p <= q
    ensures PrefixBytes(models, m, p) <= PrefixBytes(models, m, q)
  {
    if p < q {
      PrefixBytesGrow(models, m, p, q - 1);
    }
  }

  function ProblemFor(models: Models, prefix: map<int, nat>, damage: Mckp.DamageFunction): Mckp.Problem {
    Mckp.Problem(damage, (m: int, p: nat) => PrefixBytes(models, m, p), prefix)
  }

  lemma {:induction false} PlannerBytes(models: Models, prefix: map<int, nat>, damage: Mckp.DamageFunction)
    ensures Mckp.MonotoneBytes(ProblemFor(models, prefix, damage))
  {
    forall m: int, a: nat, b: nat | a <= b ensures PrefixBytes(models, m, a) <= PrefixBytes(models, m, b) {
      PrefixBytesGrow(models, m, a, b);
    }
  }

  /** The pool keys of a list of groups. */
  function WeightSet(groups: seq<GroupKey>): set<PoolKey> {
    if groups == [] then {} else WeightSet(Front(groups)) + {Weight(Last(groups))}
  }

  lemma {:induction false} WeightSetMember(groups: seq<GroupKey>, k: PoolKey)
    ensures k in WeightSet(groups) <==> k.Weight? && k.group in groups
  {
    if groups != [] {
      WeightSetMember(Front(groups), k);
      Rejoin(groups);
    }
  }

  ghost predicate NoRepeats(groups: seq<GroupKey>) {
    groups == [] || (NoRepeats(Front(groups)) && Last(groups) !in Front(groups))
  }

  lemma {:induction false} NoRepeatsAppend(a: seq<GroupKey>, b: seq<GroupKey>)
    requires NoRepeats(a) && NoRepeats(b) && forall k :: k in a ==> k !in b
    ensures NoRepeats(a + b)
  {
    if b == [] {
      assert a + b == a;
    } else {
      FrontAppend(a, b);
      NoRepeatsAppend(a, Front(b));
    }
  }

  lemma {:induction false} RangeNoRepeats(m: int, lo: nat, hi: nat)
    requires lo <= hi
    ensures NoRepeats(Mckp.GroupRange(m, lo, hi))
  {
    if lo < hi {
      RangeNoRepeats(m, lo, hi - 1);
      var keys := Mckp.GroupRange(m, lo, hi);
      assert Front(keys) == Mckp.GroupRange(m, lo, hi - 1);
      Mckp.GroupRangeMember(m, lo, hi - 1, Last(keys));
    }
  }

  /** A plan names no victim twice. */
  lemma {:induction false} VictimsNoRepeats(ids: seq<int>, p: Mckp.Problem, choices: map<int, nat>)
    requires Mckp.ChosenWithin(p, ids, choices) && StrictlyIncreasing(ids)
    ensures NoRepeats(Mckp.VictimKeysOf(ids, p, choices))
  {
    if ids != [] {
      var shorter, m := ids[..|ids| - 1], ids[|ids| - 1];
      VictimsNoRepeats(shorter, p, choices);
      var a, b := Mckp.VictimKeysOf(shorter, p, choices), Mckp.GroupRange(m, choices[m], p.resident[m]);
      RangeNoRepeats(m, choices[m], p.resident[m]);
      forall k | k in a ensures k !in b {
        Mckp.VictimKeyMember(shorter, p, choices, k);
        Mckp.GroupRangeMember(m, choices[m], p.resident[m], k);
      }
      NoRepeatsAppend(a, b);
    }
  }

  /** The bytes the plan counts for its victims are the bytes they occupy. */
  lemma {:induction false} VictimsOccupy(
    models: Models, prefix: map<int, nat>, damage: Mckp.DamageFunction, es: seq<Extent>, capacity: nat, groups: seq<GroupKey>)
    requires Sound(es, IndexOf(es), capacity) && SizesMatch(models, IndexOf(es))
    requires NoRepeats(groups) && forall k :: k in groups ==> Weight(k) in IndexOf(es)
    ensures Mckp.GroupBytes(ProblemFor(models, prefix, damage), groups) == BytesIn(Objects(es), WeightSet(groups))
  {
    if groups == [] {
      NoBytes(Objects(es));
    } else {
      var rest, k := Front(groups), Last(groups);
      Rejoin(groups);
      VictimsOccupy(models, prefix, damage, es, capacity, rest);
      WeightSetMember(rest, Weight(k));
      BytesDisjoint(Objects(es), WeightSet(rest), {Weight(k)});
      IndexedSize(es, 0, Weight(k));
      assert k in groups;
      assert GroupSized(models, k, IndexOf(es)[Weight(k)]);
    }
  }

  /** The groups a plan names are resident, none belongs to the active model, and
      without them every model holds exactly its chosen prefix. */
  lemma {:induction false} PlanLeavesChoices(
    models: Models, keys: set<PoolKey>, prefix: map<int, nat>, damage: Mckp.DamageFunction, active: int, choices: map<int, nat>)
    requires Prefixes(models, keys, prefix)
    requires Mckp.Admissible(ProblemFor(models, prefix, damage), active, choices)
    requires Mckp.ChosenWithin(ProblemFor(models, prefix, damage), Mckp.Victims(ProblemFor(models, prefix, damage), active), choices)
    ensures var p := ProblemFor(models, prefix, damage);
      var victims := WeightSet(Mckp.VictimKeysOf(Mckp.Victims(p, active), p, choices));
      victims <= Evictable(keys, active) && Prefixes(models, keys - victims, choices)
  {
    var p := ProblemFor(models, prefix, damage);
    var ids := Mckp.Victims(p, active);
    var list := Mckp.VictimKeysOf(ids, p, choices);
    forall m: int, g: nat | m in models
      ensures Weight(GroupKey(m, g)) in WeightSet(list) <==> m != active && choices[m] <= g < prefix[m]
      ensures Key(m, g) in keys <==> g < prefix[m]
    {
      VictimOf(p, active, choices, GroupKey(m, g));
      WeightSetMember(list, Weight(GroupKey(m, g)));
      PrefixesAt(models, keys, prefix, m, g);
    }
    forall k | k in WeightSet(list) ensures k in Evictable(keys, active) {
      WeightSetMember(list, k);
      VictimOf(p, active, choices, k.group);
      PrefixesAt(models, keys, prefix, k.group.modelId, k.group.groupId);
    }
    forall m | m in models ensures HoldsPrefix(keys - WeightSet(list), m, choices[m]) {
      forall g: nat ensures Key(m, g) in keys - WeightSet(list) <==> g < choices[m] {
      }
    }
  }

  /** A group is a victim exactly when it lies between the two prefixes. */
  lemma {:induction false} VictimOf(p: Mckp.Problem, active: int, choices: map<int, nat>, k: GroupKey)
    requires Mckp.Admissible(p, active, choices) && Mckp.ChosenWithin(p, Mckp.Victims(p, active), choices)
    ensures k in Mckp.VictimKeysOf(Mckp.Victims(p, active), p, choices) <==>
      k.modelId in p.resident && k.modelId != active && choices[k.modelId] <= k.groupId < p.resident[k.modelId]
  {
    var ids := Mckp.Victims(p, active);
    Mckp.VictimKeyMember(ids, p, choices, k);
    if k.modelId in p.resident && k.modelId != active {
      assert k.modelId in ids;
      var i :| 0 <= i < |ids| && ids[i] == k.modelId;
    }
    if k in Mckp.VictimKeysOf(ids, p, choices) {
      var i :| 0 <= i < |ids| && ids[i] == k.modelId && choices[ids[i]] <= k.groupId < p.resident[ids[i]];
      var m := ids[i];
      assert m in ids;
    }
  }

  /** A plan frees exactly the bytes its victims occupy. */
  lemma {:induction false} PlanOccupies(
    models: Models, es: seq<Extent>, capacity: nat, prefix: map<int, nat>, damage: Mckp.DamageFunction, active: int, choices: map<int, nat>)
    requires Sound(es, IndexOf(es), capacity) && SizesMatch(models, IndexOf(es))
    requires Prefixes(models, IndexOf(es).Keys, prefix)
    requires Mckp.Admissible(ProblemFor(models, prefix, damage), active, choices)
    requires Mckp.ChosenWithin(ProblemFor(models, prefix, damage), Mckp.Victims(ProblemFor(models, prefix, damage), active), choices)
    ensures var p := ProblemFor(models, prefix, damage);
      var list := Mckp.VictimKeysOf(Mckp.Victims(p, active), p, choices);
      && NoRepeats(list)
      && (forall k :: k in list ==> Weight(k) in IndexOf(es))
      && Mckp.GroupBytes(p, list) == BytesIn(Objects(es), WeightSet(list)) == Mckp.FreedTotal(p, active, choices)
  {
    var p := ProblemFor(models, prefix, damage);
    var ids := Mckp.Victims(p, active);
    var list := Mckp.VictimKeysOf(ids, p, choices);
    PlanLeavesChoices(models, IndexOf(es).Keys, prefix, damage, active, choices);
    assert StrictlyIncreasing(ids);
    VictimsNoRepeats(ids, p, choices);
    forall k | k in list ensures Weight(k) in IndexOf(es) {
      WeightSetMember(list, Weight(k));
    }
    VictimsOccupy(models, prefix, damage, es, capacity, list);
    Mckp.VictimBytes(p, ids, choices);
  }

  /** Dropping every other model frees exactly what is evictable. */
  lemma {:induction false} EvictAllOccupies(
    models: Models, es: seq<Extent>, capacity: nat, prefix: map<int, nat>, damage: Mckp.DamageFunction, active: int)
    requires Sound(es, IndexOf(es), capacity) && SizesMatch(models, IndexOf(es))
    requires Prefixes(models, IndexOf(es).Keys, prefix)
    ensures var p := ProblemFor(models, prefix, damage);
      Mckp.FreedTotal(p, active, Mckp.EvictAll(p, active)) == BytesIn(Objects(es), Evictable(IndexOf(es).Keys, active))
  {
    var p := ProblemFor(models, prefix, damage);
    var choices, ids, keys := Mckp.EvictAll(p, active), Mckp.Victims(p, active), IndexOf(es).Keys;
    forall i | 0 <= i < |ids| ensures ids[i] in p.resident && choices[ids[i]] <= p.resident[ids[i]] {
      var m := ids[i];
      assert m in ids;
    }
    PlanOccupies(models, es, capacity, prefix, damage, active, choices);
    PlanLeavesChoices(models, keys, prefix, damage, active, choices);
    var list := Mckp.VictimKeysOf(ids, p, choices);
    forall k | k in Evictable(keys, active) ensures k in WeightSet(list) {
      assert GroupSized(models, k.group, IndexOf(es)[k]);
      PrefixesAt(models, keys, prefix, k.group.modelId, k.group.groupId);
      assert k == Key(k.group.modelId, k.group.groupId);
      VictimOf(p, active, choices, k.group);
      WeightSetMember(list, k);
    }
    assert WeightSet(list) == Evictable(keys, active);
  }
}
