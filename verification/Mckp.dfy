/** Exact covering reclamation: the multiple-choice knapsack solver of the
    prefix policies (evaluation/tensor_simulator/tensor_sim_mckp.py). */
module Mckp {
  import opened Common

  datatype PrefixOption = PrefixOption(
    modelId: int, prefixCount: nat, freedBytes: int, damageMs: real, evictedGroups: int)

  datatype Choice = Choice(modelId: int, prefixCount: nat)

  /** A partial plan of the frontier search. */
  datatype State = State(freed: int, cost: real, evicted: int, choices: seq<Choice>)

  /** Predicted damage of cutting a model's resident prefix down to a shorter one. */
  type DamageFunction = (int, nat, nat) -> real

  /** What the solver is given: damage, every model's byte curve, the prefixes. */
  datatype Problem = Problem(
    damage: DamageFunction,
    prefixBytes: (int, nat) -> int,
    resident: map<int, nat>)

  /** A missing damage stands for the infinite cost of an infeasible plan. */
  datatype Plan = Plan(
    feasible: bool,
    requiredFreeBytes: int,
    plannedFreeBytes: int,
    predictedDamageMs: Option<real>,
    choices: map<int, nat>,
    victimKeys: seq<GroupKey>)

  // ---------------------------------------------------------------- ranking

  predicate ChoicesLess(a: seq<Choice>, b: seq<Choice>) {
    if b == [] then false
    else if a == [] then true
    else if a[0] == b[0] then ChoicesLess(a[1..], b[1..])
    else a[0].modelId < b[0].modelId
         || (a[0].modelId == b[0].modelId && a[0].prefixCount < b[0].prefixCount)
  }

  /** `_state_rank(a) < _state_rank(b)`: cost, over-release, evicted groups and
      then the choice tuple, compared lexicographically. */
  predicate RankLess(a: State, b: State, required: int) {
    var overA, overB := Max(0, a.freed - required), Max(0, b.freed - required);
    || a.cost < b.cost
    || (a.cost == b.cost
        && (|| overA < overB
            || (overA == overB
                && (|| a.evicted < b.evicted
                    || (a.evicted == b.evicted && ChoicesLess(a.choices, b.choices))))))
  }

  lemma {:induction false} ChoicesLessTransitive(a: seq<Choice>, b: seq<Choice>, c: seq<Choice>)
    requires ChoicesLess(a, b) && ChoicesLess(b, c)
    ensures ChoicesLess(a, c)
  {
    if a != [] && a[0] == b[0] && b[0] == c[0] {
      ChoicesLessTransitive(a[1..], b[1..], c[1..]);
    }
  }

  /** Choices of the same models are compared where they first differ. */
  lemma {:induction false} ChoicesLessMeans(a: seq<Choice>, b: seq<Choice>)
    requires |a| == |b| && forall i :: 0 <= i < |a| ==> a[i].modelId == b[i].modelId
    ensures ChoicesLess(a, b) <==> exists i :: 0 <= i < |a| && a[..i] == b[..i] && a[i].prefixCount < b[i].prefixCount
  {
    if a != [] {
      ChoicesLessMeans(a[1..], b[1..]);
      if a[0].prefixCount < b[0].prefixCount {
        assert a[..0] == b[..0];
      }
      if a[0] == b[0] {
        if ChoicesLess(a[1..], b[1..]) {
          var i :| 0 <= i < |a| - 1 && a[1..][..i] == b[1..][..i] && a[1..][i].prefixCount < b[1..][i].prefixCount;
          assert a[..i + 1] == [a[0]] + a[1..][..i] && b[..i + 1] == [b[0]] + b[1..][..i];
        }
        if i :| 0 <= i < |a| && a[..i] == b[..i] && a[i].prefixCount < b[i].prefixCount {
          assert a[1..][..i - 1] == a[..i][1..] && b[1..][..i - 1] == b[..i][1..];
        }
      } else {
        forall i | 0 < i < |a| ensures a[..i] != b[..i] {
          assert a[..i][0] == a[0] && b[..i][0] == b[0];
        }
      }
    }
  }

  lemma {:induction false} ChoicesLessTotal(a: seq<Choice>, b: seq<Choice>)
    ensures ChoicesLess(a, b) || ChoicesLess(b, a) || a == b
  {
    if a != [] && b != [] && a[0] == b[0] {
      ChoicesLessTotal(a[1..], b[1..]);
      assert a == [a[0]] + a[1..] && b == [b[0]] + b[1..];
    }
  }

  lemma {:induction false} RankLessTransitive(a: State, b: State, c: State, required: int)
    requires RankLess(a, b, required) && RankLess(b, c, required)
    ensures RankLess(a, c, required)
  {
    if ChoicesLess(a.choices, b.choices) && ChoicesLess(b.choices, c.choices) {
      ChoicesLessTransitive(a.choices, b.choices, c.choices);
    }
  }

  /** Two states that free equally much, or both enough, are ordered or equal. */
  lemma {:induction false} RankLessTotal(a: State, b: State, required: int)
    requires a.freed == b.freed || (a.freed >= required && b.freed >= required)
    ensures RankLess(a, b, required) || RankLess(b, a, required) || a == b
  {
    ChoicesLessTotal(a.choices, b.choices);
  }

  // ------------------------------------------------------- pruning a frontier

  /** No state freeing exactly as much ranks below `s`. */
  ghost predicate BestForItsFreed(s: State, states: seq<State>, required: int) {
    forall t :: t in states && t.freed == s.freed ==> !RankLess(t, s, required)
  }

  /** What pruning keeps: among the states that free enough only the best one,
      among the others those no state freeing more (but still too little) matches
      in cost. */
  ghost predicate Survives(s: State, states: seq<State>, required: int) {
    && s in states
    && if s.freed >= required then
         forall t :: t in states && t.freed >= required ==> !RankLess(t, s, required)
       else
         && BestForItsFreed(s, states, required)
         && forall t :: t in states && s.freed < t.freed < required ==> s.cost < t.cost
  }

  lemma {:induction false} SurvivorIsState(s: State, states: seq<State>, required: int)
    ensures Survives(s, states, required) ==> s in states
  {
  }

  method BestByFreed(states: seq<State>, required: int) returns (best: map<int, State>)
    ensures forall s :: s in states ==> s.freed in best
    ensures forall f :: f in best ==>
      best[f] in states && best[f].freed == f && BestForItsFreed(best[f], states, required)
  {
    best := map[];
    for i := 0 to |states|
      invariant forall j :: 0 <= j < i ==> states[j].freed in best
      invariant forall f :: f in best ==>
        best[f] in states && best[f].freed == f && BestForItsFreed(best[f], states[..i], required)
    {
      var s := states[i];
      assert states[..i + 1] == states[..i] + [s];
      if s.freed !in best || RankLess(s, best[s.freed], required) {
        if s.freed in best {
          forall t | t in states[..i] && t.freed == s.freed ensures !RankLess(t, s, required) {
            if RankLess(t, s, required) {
              RankLessTransitive(t, s, best[s.freed], required);
            }
          }
        } else {
          assert forall t :: t in states[..i] ==> t.freed in best;
        }
        assert !RankLess(s, s, required) by { RankIrreflexive(s, required); }
        best := best[s.freed := s];
      }
    }
    assert states[..|states|] == states;
  }

  lemma {:induction false} ChoicesLessIrreflexive(a: seq<Choice>)
    ensures !ChoicesLess(a, a)
  {
    if a != [] {
      ChoicesLessIrreflexive(a[1..]);
    }
  }

  lemma {:induction false} RankIrreflexive(s: State, required: int)
    ensures !RankLess(s, s, required)
  {
    ChoicesLessIrreflexive(s.choices);
  }

  /** `min(states, key=rank)`: the first state no other ranks below. */
  method MinimumRank(states: seq<State>, required: int) returns (best: State)
    requires states != []
    ensures best in states
    ensures forall t :: t in states ==> !RankLess(t, best, required)
  {
    best := states[0];
    RankIrreflexive(best, required);
    for i := 1 to |states|
      invariant best in states
      invariant forall j :: 0 <= j < i ==> !RankLess(states[j], best, required)
    {
      if RankLess(states[i], best, required) {
        forall j | 0 <= j < i ensures !RankLess(states[j], states[i], required) {
          if RankLess(states[j], states[i], required) {
            RankLessTransitive(states[j], states[i], best, required);
          }
        }
        best := states[i];
        RankIrreflexive(best, required);
      }
    }
  }

  /** Whatever pruning drops, a surviving state frees at least as much of what is
      required at no higher cost. */
  ghost predicate Dominates(s: State, t: State, required: int) {
    s.cost <= t.cost && (s.freed >= required || s.freed >= t.freed)
  }

  /** One best state for every amount of freed bytes that occurs, by increasing
      freed bytes. */
  ghost predicate Representatives(ordered: seq<State>, states: seq<State>, required: int) {
    && (forall k :: 0 <= k < |ordered| ==>
          ordered[k] in states && BestForItsFreed(ordered[k], states, required))
    && (forall a, b :: 0 <= a < b < |ordered| ==> ordered[a].freed < ordered[b].freed)
    && (forall s :: s in states ==> Covered(ordered, s.freed))
  }

  /** Some state of the listing frees exactly `f` bytes. */
  ghost predicate Covered(ordered: seq<State>, f: int) {
    ordered != [] && (ordered[0].freed == f || Covered(ordered[1..], f))
  }

  lemma {:induction false} CoveredBy(ordered: seq<State>, k: nat)
    requires k < |ordered|
    ensures Covered(ordered, ordered[k].freed)
  {
    if k > 0 {
      CoveredBy(ordered[1..], k - 1);
    }
  }

  lemma {:induction false} CoveringIndex(ordered: seq<State>, f: int) returns (k: nat)
    requires Covered(ordered, f)
    ensures k < |ordered| && ordered[k].freed == f
  {
    if ordered[0].freed == f {
      k := 0;
    } else {
      k := CoveringIndex(ordered[1..], f);
      k := k + 1;
    }
  }

  /** Listing the best states by their sorted freed bytes represents all states. */
  lemma {:induction false} BestListed(
    ordered: seq<State>, best: map<int, State>, states: seq<State>, required: int)
    requires forall s :: s in states ==> s.freed in best
    requires forall f :: f in best ==>
      best[f] in states && best[f].freed == f && BestForItsFreed(best[f], states, required)
    requires Listed(ordered, best, Sorted(best.Keys)) && |ordered| == |Sorted(best.Keys)|
    ensures Representatives(ordered, states, required)
  {
    hide RankLess, BestForItsFreed, Sorted;
    var keys := Sorted(best.Keys);
    forall k | 0 <= k < |ordered| ensures ordered[k].freed == keys[k] {
      assert ordered[k] == best[keys[k]];
    }
    forall s | s in states ensures Covered(ordered, s.freed) {
      assert s.freed in keys;
      var k :| 0 <= k < |keys| && keys[k] == s.freed;
      CoveredBy(ordered, k);
    }
  }

  ghost predicate Listed(ordered: seq<State>, best: map<int, State>, keys: seq<int>) {
    && |ordered| <= |keys|
    && forall k :: 0 <= k < |ordered| ==> keys[k] in best && ordered[k] == best[keys[k]]
  }

  method SortedBest(states: seq<State>, required: int) returns (ordered: seq<State>)
    ensures Representatives(ordered, states, required)
  {
    hide BestForItsFreed, Sorted, Representatives;
    var best := BestByFreed(states, required);
    var keys := Sorted(best.Keys);
    ordered := [];
    for i := 0 to |keys|
      invariant |ordered| == i && Listed(ordered, best, keys)
    {
      var f := keys[i];
      assert f in keys;
      ordered := ordered + [best[f]];
    }
    BestListed(ordered, best, states, required);
  }

  /** A representative undercut by none above it, below the requirement. */
  ghost predicate Undercut(ordered: seq<State>, k: nat, cut: nat)
    requires k < cut <= |ordered|
  {
    exists l :: k < l < cut && ordered[l].cost <= ordered[k].cost
  }

  /** `kept` lists, by increasing freed bytes, exactly the representatives at the
      positions below `cut` that nothing above undercuts. */
  ghost predicate KeptAt(kept: seq<State>, ordered: seq<State>, cut: nat, at: seq<nat>) {
    && cut <= |ordered| && |at| == |kept|
    && (forall a :: 0 <= a < |at| ==> at[a] < cut && kept[a] == ordered[at[a]])
    && (forall a, b :: 0 <= a < b < |at| ==> at[a] < at[b])
    && (forall k :: 0 <= k < cut ==> (k in at <==> !Undercut(ordered, k, cut)))
  }

  /** The descending scan over the states that free too little. */
  method ScanBelow(ordered: seq<State>, cut: nat) returns (kept: seq<State>, ghost at: seq<nat>)
    requires cut <= |ordered|
    ensures KeptAt(kept, ordered, cut, at)
  {
    kept, at := [], [];
    var bestCost: Option<real> := None;
    for i := cut downto 0
      invariant |at| == |kept|
      invariant forall a :: 0 <= a < |at| ==> i <= at[a] < cut && kept[a] == ordered[at[a]]
      invariant forall a, b :: 0 <= a < b < |at| ==> at[a] < at[b]
      invariant forall k :: i <= k < cut ==> (k in at <==> !Undercut(ordered, k, cut))
      invariant bestCost.Some? ==> at != [] && bestCost.value == kept[0].cost
      invariant forall k :: i <= k < cut ==> bestCost.Some? && bestCost.value <= ordered[k].cost
    {
      var s := ordered[i];
      if bestCost == None || s.cost < bestCost.value {
        kept := [s] + kept;
        at := [i] + at;
        bestCost := Some(s.cost);
      } else {
        assert ordered[at[0]].cost <= s.cost;
      }
    }
  }

  method PruneFrontier(states: seq<State>, required: int) returns (result: seq<State>)
    ensures forall s :: s in result <==> Survives(s, states, required)
    ensures forall i, j :: 0 <= i < j < |result| ==> result[i].freed < result[j].freed
    // of those that free too little, each is cheaper than the ones that free more; at
    // most one frees enough
    ensures forall i, j :: 0 <= i < j < |result| ==>
      result[i].freed < required && (result[j].freed < required ==> result[i].cost < result[j].cost)
  {
    var ordered := SortedBest(states, required);
    var cut := FirstFeasible(ordered, required);
    ghost var at: seq<nat>;
    result, at := ScanBelow(ordered, cut);
    KeptAreSurvivors(states, required, ordered, cut, result, at);
    if cut < |ordered| {
      var top := MinimumRank(ordered[cut..], required);
      BestFeasibleSurvives(states, required, ordered, cut, top);
      result := result + [top];
    } else {
      NoFeasibleSurvivor(states, required, ordered);
    }
  }

  method FirstFeasible(ordered: seq<State>, required: int) returns (cut: nat)
    requires forall a, b :: 0 <= a < b < |ordered| ==> ordered[a].freed < ordered[b].freed
    ensures cut <= |ordered|
    ensures forall k :: 0 <= k < |ordered| ==> (k < cut <==> ordered[k].freed < required)
  {
    cut := 0;
    while cut < |ordered| && ordered[cut].freed < required
      invariant 0 <= cut <= |ordered|
      invariant forall k :: 0 <= k < cut ==> ordered[k].freed < required
    {
      cut := cut + 1;
    }
  }

  /** The scan keeps exactly the survivors below the requirement. */
  lemma {:induction false} KeptAreSurvivors(
    states: seq<State>, required: int, ordered: seq<State>, cut: nat, kept: seq<State>, at: seq<nat>)
    requires Representatives(ordered, states, required)
    requires KeptAt(kept, ordered, cut, at)
    requires forall k :: 0 <= k < |ordered| ==> (k < cut <==> ordered[k].freed < required)
    ensures forall s :: s in kept <==> s.freed < required && Survives(s, states, required)
    ensures forall i, j :: 0 <= i < j < |kept| ==> kept[i].freed < kept[j].freed
    ensures forall i :: 0 <= i < |kept| ==> kept[i].freed < required
  {
    forall s ensures s in kept <==> s.freed < required && Survives(s, states, required) {
      if s in kept {
        var a :| 0 <= a < |kept| && kept[a] == s;
        assert at[a] in at;
        NotUndercutSurvives(states, required, ordered, cut, at[a]);
      }
      if s.freed < required && Survives(s, states, required) {
        var k := SurvivorPosition(s, states, required, ordered, cut);
        var a :| 0 <= a < |at| && at[a] == k;
        assert kept[a] == s;
      }
    }
    forall i, j | 0 <= i < j < |kept| ensures kept[i].freed < kept[j].freed {
      assert at[i] < at[j];
    }
  }

  lemma {:induction false} NotUndercutSurvives(
    states: seq<State>, required: int, ordered: seq<State>, cut: nat, k: nat)
    requires Representatives(ordered, states, required)
    requires k < cut <= |ordered| && !Undercut(ordered, k, cut)
    requires forall j :: 0 <= j < |ordered| ==> (j < cut <==> ordered[j].freed < required)
    ensures Survives(ordered[k], states, required)
  {
    forall t | t in states && ordered[k].freed < t.freed < required ensures ordered[k].cost < t.cost {
      var l := CoveringIndex(ordered, t.freed);
      assert !RankLess(t, ordered[l], required);
    }
  }

  lemma {:induction false} SurvivorPosition(
    s: State, states: seq<State>, required: int, ordered: seq<State>, cut: nat) returns (k: nat)
    requires Representatives(ordered, states, required)
    requires s.freed < required && Survives(s, states, required)
    requires cut <= |ordered|
    requires forall j :: 0 <= j < |ordered| ==> (j < cut <==> ordered[j].freed < required)
    ensures k < cut && ordered[k] == s && !Undercut(ordered, k, cut)
  {
    k := CoveringIndex(ordered, s.freed);
    RankLessTotal(s, ordered[k], required);
    assert s == ordered[k];
    assert forall l :: k < l < cut ==> s.cost < ordered[l].cost;
  }

  lemma {:induction false} NoFeasibleSurvivor(states: seq<State>, required: int, ordered: seq<State>)
    requires Representatives(ordered, states, required)
    requires forall k :: 0 <= k < |ordered| ==> ordered[k].freed < required
    ensures forall s :: Survives(s, states, required) ==> s.freed < required
  {
    forall s | Survives(s, states, required) ensures s.freed < required {
      var k := CoveringIndex(ordered, s.freed);
    }
  }

  lemma {:induction false} BestFeasibleSurvives(
    states: seq<State>, required: int, ordered: seq<State>, cut: nat, top: State)
    requires Representatives(ordered, states, required)
    requires cut < |ordered|
    requires forall k :: 0 <= k < |ordered| ==> (k < cut <==> ordered[k].freed < required)
    requires top in ordered[cut..] && forall t :: t in ordered[cut..] ==> !RankLess(t, top, required)
    ensures top.freed >= required
    ensures forall s: State :: s.freed >= required ==> (s == top <==> Survives(s, states, required))
  {
    var j :| 0 <= j < |ordered[cut..]| && top == ordered[cut..][j];
    assert top == ordered[cut + j];
    forall s: State | s.freed >= required ensures s == top <==> Survives(s, states, required) {
      BestFeasible(s, states, required, ordered, cut, top);
    }
  }

  lemma {:induction false} BestFeasible(
    s: State, states: seq<State>, required: int, ordered: seq<State>, cut: nat, top: State)
    requires s.freed >= required
    requires Representatives(ordered, states, required)
    requires cut < |ordered|
    requires forall k :: 0 <= k < |ordered| ==> (k < cut <==> ordered[k].freed < required)
    requires top in ordered[cut..] && forall t :: t in ordered[cut..] ==> !RankLess(t, top, required)
    ensures s == top <==> Survives(s, states, required)
  {
    forall t | t in states && t.freed >= required ensures !RankLess(t, top, required) {
      var k := CoveringIndex(ordered, t.freed);
      assert ordered[k] == ordered[cut..][k - cut];
      RankLessTotal(t, ordered[k], required);
      if RankLess(t, top, required) && t != ordered[k] {
        RankLessTransitive(ordered[k], t, top, required);
      }
    }
    var j :| 0 <= j < |ordered[cut..]| && top == ordered[cut..][j];
    assert top == ordered[cut + j];
    if Survives(s, states, required) {
      RankLessTotal(s, top, required);
    }
  }

  ghost predicate Better(u: State, t: State, required: int) {
    if t.freed >= required then u.freed >= required && RankLess(u, t, required)
    else
      && u.freed < required
      && (u.freed > t.freed || (u.freed == t.freed && RankLess(u, t, required)))
  }

  ghost function BetterStates(t: State, states: seq<State>, required: int): set<State> {
    set u | u in states && Better(u, t, required)
  }

  lemma {:induction false} BetterTransitive(u: State, v: State, w: State, required: int)
    requires Better(u, v, required) && Better(v, w, required)
    ensures Better(u, w, required)
  {
    if RankLess(u, v, required) && RankLess(v, w, required) {
      RankLessTransitive(u, v, w, required);
    }
  }

  /** Pruning never loses: every state has a survivor that dominates it. */
  lemma {:induction false} SurvivorDominating(t: State, states: seq<State>, required: int) returns (s: State)
    requires t in states
    ensures Survives(s, states, required) && Dominates(s, t, required)
    decreases BetterStates(t, states, required)
  {
    if Survives(t, states, required) {
      return t;
    }
    var v :| v in states && Better(v, t, required) && v.cost <= t.cost;
    forall u | u in BetterStates(v, states, required) ensures u in BetterStates(t, states, required) {
      BetterTransitive(u, v, t, required);
    }
    assert v !in BetterStates(v, states, required) by { RankIrreflexive(v, required); }
    assert BetterStates(v, states, required) < BetterStates(t, states, required);
    s := SurvivorDominating(v, states, required);
  }

  // ---------------------------------------------------------- model options

  /** Damage is never negative, and cutting nothing does none. */
  ghost predicate Fair(damage: DamageFunction) {
    && (forall m, held, prefix :: damage(m, held, prefix) >= 0.0)
    && (forall m, held :: damage(m, held, held) == 0.0)
  }

  ghost predicate FairDamage(p: Problem) {
    Fair(p.damage)
  }

  /** Keeping more of a model never does more damage. */
  ghost predicate AntitoneDamage(p: Problem) {
    forall m, a: nat, b: nat :: m in p.resident && a <= b <= p.resident[m] ==>
      p.damage(m, p.resident[m], b) <= p.damage(m, p.resident[m], a)
  }

  function OptionFor(p: Problem, m: int, prefix: nat): PrefixOption
    requires m in p.resident && prefix <= p.resident[m]
  {
    var held := p.resident[m];
    PrefixOption(
      m, prefix,
      p.prefixBytes(m, held) - p.prefixBytes(m, prefix),
      p.damage(m, held, prefix),
      held - prefix)
  }

  /** All suffix releases of one model, from keeping everything to keeping nothing. */
  function BuildModelOptions(p: Problem, m: int): seq<PrefixOption>
    requires m in p.resident
  {
    var held := p.resident[m];
    seq(held + 1, i requires 0 <= i <= held => OptionFor(p, m, held - i))
  }

  /** Longer prefixes occupy at least as many bytes. */
  ghost predicate MonotoneBytes(p: Problem) {
    forall m, a: nat, b: nat :: m in p.resident && a <= b <= p.resident[m] ==>
      p.prefixBytes(m, a) <= p.prefixBytes(m, b)
  }

  // --------------------------------------------------- selections and totals

  /** One prefix for each of the listed models, none longer than what is held. */
  predicate Selection(p: Problem, models: seq<int>, sel: seq<Choice>) {
    && |sel| == |models|
    && forall i :: 0 <= i < |sel| ==>
         sel[i].modelId == models[i] && models[i] in p.resident && sel[i].prefixCount <= p.resident[models[i]]
  }

  predicate WithinResident(p: Problem, sel: seq<Choice>) {
    forall i :: 0 <= i < |sel| ==> sel[i].modelId in p.resident && sel[i].prefixCount <= p.resident[sel[i].modelId]
  }

  function FreedBy(p: Problem, sel: seq<Choice>): int
    requires WithinResident(p, sel)
  {
    if sel == [] then 0
    else
      var c := sel[|sel| - 1];
      FreedBy(p, sel[..|sel| - 1]) + OptionFor(p, c.modelId, c.prefixCount).freedBytes
  }

  function DamageBy(p: Problem, sel: seq<Choice>): real
    requires WithinResident(p, sel)
  {
    if sel == [] then 0.0
    else
      var c := sel[|sel| - 1];
      DamageBy(p, sel[..|sel| - 1]) + OptionFor(p, c.modelId, c.prefixCount).damageMs
  }

  /** A frontier state is the exact account of the choices it carries. */
  ghost predicate Accounts(p: Problem, models: seq<int>, s: State) {
    && Selection(p, models, s.choices)
    && s.freed == FreedBy(p, s.choices)
    && s.cost == DamageBy(p, s.choices)
  }

  ghost predicate Matches(p: Problem, s: State, sel: seq<Choice>, required: int)
    requires WithinResident(p, sel)
  {
    s.cost <= DamageBy(p, sel) && (s.freed >= required || s.freed >= FreedBy(p, sel))
  }

  /** Every selection is matched by some state of the frontier. */
  ghost predicate Complete(p: Problem, models: seq<int>, frontier: seq<State>, required: int) {
    forall sel :: Selection(p, models, sel) ==> exists s :: s in frontier && Matches(p, s, sel, required)
  }

  /** The choice is the longest prefix that occupies as many bytes. */
  ghost predicate LongestForItsBytes(p: Problem, c: Choice)
    requires c.modelId in p.resident
  {
    forall q: nat :: c.prefixCount < q <= p.resident[c.modelId] ==>
      p.prefixBytes(c.modelId, q) != p.prefixBytes(c.modelId, c.prefixCount)
  }

  /** Every longer prefix that occupies as many bytes would do more damage. */
  ghost predicate PrefersLonger(p: Problem, c: Choice)
    requires c.modelId in p.resident
  {
    var m, held := c.modelId, p.resident[c.modelId];
    forall q: nat :: c.prefixCount < q <= held && p.prefixBytes(m, q) == p.prefixBytes(m, c.prefixCount) ==>
      p.damage(m, held, c.prefixCount) < p.damage(m, held, q)
  }

  ghost predicate AllPreferLonger(p: Problem, s: State) {
    && WithinResident(p, s.choices)
    && forall i :: 0 <= i < |s.choices| ==> PrefersLonger(p, s.choices[i])
  }

  /** When damage falls with the prefix, preferring longer ones keeps the longest. */
  lemma {:induction false} PreferredIsLongest(p: Problem, c: Choice)
    requires c.modelId in p.resident && AntitoneDamage(p) && PrefersLonger(p, c)
    ensures LongestForItsBytes(p, c)
  {
    var m, held := c.modelId, p.resident[c.modelId];
    forall q: nat | c.prefixCount < q <= held ensures p.prefixBytes(m, q) != p.prefixBytes(m, c.prefixCount) {
      assert p.damage(m, held, q) <= p.damage(m, held, c.prefixCount);
    }
  }

  // -------------------------------------------------------- expanding a step

  function Extend(s: State, o: PrefixOption): State {
    State(s.freed + o.freedBytes, s.cost + o.damageMs, s.evicted + o.evictedGroups,
          s.choices + [Choice(o.modelId, o.prefixCount)])
  }

  /** `e` is some state of the frontier extended by some option. */
  ghost predicate ExtensionOf(e: State, frontier: seq<State>, options: seq<PrefixOption>) {
    && frontier != []
    && (|| (exists k :: 0 <= k < |options| && e == Extend(frontier[0], options[k]))
        || ExtensionOf(e, frontier[1..], options))
  }

  lemma {:induction false} ExtensionIntro(frontier: seq<State>, i: nat, options: seq<PrefixOption>, k: nat)
    requires i < |frontier| && k < |options|
    ensures ExtensionOf(Extend(frontier[i], options[k]), frontier, options)
  {
    if i > 0 {
      ExtensionIntro(frontier[1..], i - 1, options, k);
    }
  }

  lemma {:induction false} ExtensionSource(e: State, frontier: seq<State>, options: seq<PrefixOption>)
    returns (s: State, k: nat)
    requires ExtensionOf(e, frontier, options)
    ensures s in frontier && k < |options| && e == Extend(s, options[k])
  {
    if exists j :: 0 <= j < |options| && e == Extend(frontier[0], options[j]) {
      s := frontier[0];
      k :| 0 <= k < |options| && e == Extend(frontier[0], options[k]);
    } else {
      s, k := ExtensionSource(e, frontier[1..], options);
    }
  }

  method ExpandState(s: State, options: seq<PrefixOption>) returns (expanded: seq<State>)
    ensures |expanded| == |options|
    ensures forall k :: 0 <= k < |options| ==> expanded[k] == Extend(s, options[k])
  {
    expanded := [];
    for j := 0 to |options|
      invariant |expanded| == j
      invariant forall k :: 0 <= k < j ==> expanded[k] == Extend(s, options[k])
    {
      expanded := expanded + [Extend(s, options[j])];
    }
  }

  method ExpandFrontier(frontier: seq<State>, options: seq<PrefixOption>) returns (expanded: seq<State>)
    ensures forall e :: e in expanded ==> ExtensionOf(e, frontier, options)
    ensures forall i, k :: 0 <= i < |frontier| && 0 <= k < |options| ==> Extend(frontier[i], options[k]) in expanded
  {
    expanded := [];
    for i := 0 to |frontier|
      invariant forall e :: e in expanded ==> ExtensionOf(e, frontier, options)
      invariant forall a, k :: 0 <= a < i && 0 <= k < |options| ==> Extend(frontier[a], options[k]) in expanded
    {
      var added := ExpandState(frontier[i], options);
      forall e | e in added ensures ExtensionOf(e, frontier, options) {
        var k :| 0 <= k < |added| && added[k] == e;
        ExtensionIntro(frontier, i, options, k);
      }
      expanded := expanded + added;
    }
  }

  lemma {:induction false} SelectionAppend(p: Problem, models: seq<int>, sel: seq<Choice>, m: int, prefix: nat)
    requires Selection(p, models, sel)
    requires m in p.resident && prefix <= p.resident[m]
    ensures Selection(p, models + [m], sel + [Choice(m, prefix)])
    ensures FreedBy(p, sel + [Choice(m, prefix)]) == FreedBy(p, sel) + OptionFor(p, m, prefix).freedBytes
    ensures DamageBy(p, sel + [Choice(m, prefix)]) == DamageBy(p, sel) + OptionFor(p, m, prefix).damageMs
  {
    var longer := sel + [Choice(m, prefix)];
    assert longer[..|longer| - 1] == sel;
  }

  /** Extending a state keeps its account exact. */
  lemma {:induction false} AccountsStep(p: Problem, models: seq<int>, m: int, frontier: seq<State>, e: State)
    requires m in p.resident
    requires forall s :: s in frontier ==> Accounts(p, models, s)
    requires ExtensionOf(e, frontier, BuildModelOptions(p, m))
    ensures Accounts(p, models + [m], e)
  {
    hide ExtensionOf;
    var s, k := ExtensionSource(e, frontier, BuildModelOptions(p, m));
    assert BuildModelOptions(p, m)[k] == OptionFor(p, m, p.resident[m] - k);
    SelectionAppend(p, models, s.choices, m, p.resident[m] - k);
  }

  /** One expansion followed by pruning still matches every selection. */
  lemma {:induction false} CompleteStep(
    p: Problem, models: seq<int>, m: int, required: int,
    frontier: seq<State>, expanded: seq<State>, pruned: seq<State>)
    requires m in p.resident
    requires MonotoneBytes(p)
    requires Complete(p, models, frontier, required)
    requires ExpandedFully(p, m, frontier, expanded)
    requires forall s :: s in pruned <==> Survives(s, expanded, required)
    ensures Complete(p, models + [m], pruned, required)
  {
    forall sel: seq<Choice> | Selection(p, models + [m], sel)
      ensures exists s :: s in pruned && Matches(p, s, sel, required)
    {
      var n := |models|;
      assert Selection(p, models, sel[..n]);
      var s :| s in frontier && Matches(p, s, sel[..n], required);
      var i :| 0 <= i < |frontier| && frontier[i] == s;
      assert Extend(frontier[i], OptionFor(p, m, sel[n].prefixCount)) in expanded;
      var t := MatchedSurvivor(p, models, m, required, s, expanded, sel);
      assert t in pruned;
    }
  }

  lemma {:induction false} MatchedSurvivor(
    p: Problem, models: seq<int>, m: int, required: int, s: State, expanded: seq<State>, sel: seq<Choice>)
    returns (t: State)
    requires MonotoneBytes(p)
    requires Selection(p, models + [m], sel) && Selection(p, models, sel[..|models|])
    requires Matches(p, s, sel[..|models|], required)
    requires sel[|models|].modelId == m && m in p.resident && sel[|models|].prefixCount <= p.resident[m]
    requires Extend(s, OptionFor(p, m, sel[|models|].prefixCount)) in expanded
    ensures Survives(t, expanded, required) && Matches(p, t, sel, required)
  {
    var shorter, c := sel[..|models|], sel[|models|];
    assert sel == shorter + [c];
    SelectionAppend(p, models, shorter, m, c.prefixCount);
    t := SurvivorDominating(Extend(s, OptionFor(p, m, c.prefixCount)), expanded, required);
  }

  /** A survivor of the step for `m` keeps no prefix when a longer one of the same
      byte class does no more damage: that one evicts fewer groups. */
  lemma {:induction false} PreferenceStep(
    p: Problem, m: int, required: int, s: State, prefix: nat, expanded: seq<State>)
    requires m in p.resident && prefix <= p.resident[m]
    requires AllPreferLonger(p, s)
    requires forall q: nat :: q <= p.resident[m] ==> Extend(s, OptionFor(p, m, q)) in expanded
    requires Survives(Extend(s, OptionFor(p, m, prefix)), expanded, required)
    ensures AllPreferLonger(p, Extend(s, OptionFor(p, m, prefix)))
  {
    var e, held := Extend(s, OptionFor(p, m, prefix)), p.resident[m];
    forall q: nat | prefix < q <= held && p.prefixBytes(m, q) == p.prefixBytes(m, prefix)
      ensures p.damage(m, held, prefix) < p.damage(m, held, q)
    {
      if p.damage(m, held, q) <= p.damage(m, held, prefix) {
        LongerRanksBelow(p, m, s, prefix, q, required);
      }
    }
    assert forall j :: 0 <= j < |s.choices| ==> e.choices[j] == s.choices[j];
  }

  lemma {:induction false} LongerRanksBelow(p: Problem, m: int, s: State, prefix: nat, q: nat, required: int)
    requires m in p.resident && prefix < q <= p.resident[m]
    requires p.prefixBytes(m, q) == p.prefixBytes(m, prefix)
    requires p.damage(m, p.resident[m], q) <= p.damage(m, p.resident[m], prefix)
    ensures Extend(s, OptionFor(p, m, q)).freed == Extend(s, OptionFor(p, m, prefix)).freed
    ensures RankLess(Extend(s, OptionFor(p, m, q)), Extend(s, OptionFor(p, m, prefix)), required)
  {
  }

  // ------------------------------------------------------------- the solver

  /** The models the solver may reclaim from, in processing order. */
  function Victims(p: Problem, active: int): (models: seq<int>)
    ensures forall m :: m in models <==> m in p.resident && m != active
    ensures forall i, j :: 0 <= i < j < |models| ==> models[i] < models[j]
  {
    Sorted(p.resident.Keys - {active})
  }

  /** Choices for every model that leave the active one alone. */
  ghost predicate Admissible(p: Problem, active: int, choices: map<int, nat>) {
    && choices.Keys == p.resident.Keys
    && (forall m :: m in choices ==> choices[m] <= p.resident[m])
    && (active in choices ==> choices[active] == p.resident[active])
  }

  function ChoicesOf(models: seq<int>, choices: map<int, nat>): (sel: seq<Choice>)
    requires forall i :: 0 <= i < |models| ==> models[i] in choices
    ensures |sel| == |models|
  {
    seq(|models|, i requires 0 <= i < |models| && models[i] in choices => Choice(models[i], choices[models[i]]))
  }

  /** Bytes freed and stall added by moving every model to its chosen prefix. */
  ghost function FreedTotal(p: Problem, active: int, choices: map<int, nat>): int
    requires Admissible(p, active, choices)
  {
    FreedBy(p, ChoicesOf(Victims(p, active), choices))
  }

  ghost function DamageTotal(p: Problem, active: int, choices: map<int, nat>): real
    requires Admissible(p, active, choices)
  {
    DamageBy(p, ChoicesOf(Victims(p, active), choices))
  }

  /** Dropping every group of every model but the active one. */
  function EvictAll(p: Problem, active: int): (choices: map<int, nat>)
    ensures Admissible(p, active, choices)
  {
    map m | m in p.resident :: if m == active then p.resident[m] else 0
  }

  predicate ChosenWithin(p: Problem, models: seq<int>, choices: map<int, nat>) {
    forall i :: 0 <= i < |models| ==>
      models[i] in p.resident && models[i] in choices && choices[models[i]] <= p.resident[models[i]]
  }

  /** The groups that leave when the models move to their chosen prefixes. */
  function VictimKeysOf(models: seq<int>, p: Problem, choices: map<int, nat>): seq<GroupKey>
    requires ChosenWithin(p, models, choices)
  {
    if models == [] then []
    else
      var m := models[|models| - 1];
      VictimKeysOf(models[..|models| - 1], p, choices) + GroupRange(m, choices[m], p.resident[m])
  }

  function GroupRange(m: int, lo: nat, hi: nat): (keys: seq<GroupKey>)
    requires lo <= hi
    ensures |keys| == hi - lo && forall i :: 0 <= i < |keys| ==> keys[i] == GroupKey(m, lo + i)
  {
    seq(hi - lo, i requires 0 <= i => GroupKey(m, lo + i))
  }

  lemma {:induction false} GroupRangeMember(m: int, lo: nat, hi: nat, key: GroupKey)
    requires lo <= hi
    ensures key in GroupRange(m, lo, hi) <==> key.modelId == m && lo <= key.groupId < hi
  {
    if key.modelId == m && lo <= key.groupId < hi {
      assert GroupRange(m, lo, hi)[key.groupId - lo] == key;
    }
  }

  /** Exactly the groups at or above the kept prefix and below the held one leave. */
  lemma {:induction false} VictimKeyMember(models: seq<int>, p: Problem, choices: map<int, nat>, key: GroupKey)
    requires ChosenWithin(p, models, choices)
    ensures key in VictimKeysOf(models, p, choices) <==>
      exists i :: 0 <= i < |models| && models[i] == key.modelId
                  && choices[models[i]] <= key.groupId < p.resident[models[i]]
  {
    if models != [] {
      var rest, m := models[..|models| - 1], models[|models| - 1];
      VictimKeyMember(rest, p, choices, key);
      GroupRangeMember(m, choices[m], p.resident[m], key);
      if key in VictimKeysOf(rest, p, choices) {
        var i :| 0 <= i < |rest| && rest[i] == key.modelId && choices[rest[i]] <= key.groupId < p.resident[rest[i]];
        assert models[i] == key.modelId;
      }
      if exists i :: 0 <= i < |models| && models[i] == key.modelId
                     && choices[models[i]] <= key.groupId < p.resident[models[i]] {
        var i :| 0 <= i < |models| && models[i] == key.modelId
                 && choices[models[i]] <= key.groupId < p.resident[models[i]];
        assert i < |rest| ==> rest[i] == key.modelId;
      }
    }
  }

  /** Bytes of a list of groups, each the step of its model's byte curve. */
  function GroupBytes(p: Problem, keys: seq<GroupKey>): int {
    if keys == [] then 0
    else
      var key := keys[|keys| - 1];
      GroupBytes(p, keys[..|keys| - 1]) + p.prefixBytes(key.modelId, key.groupId + 1) - p.prefixBytes(key.modelId, key.groupId)
  }

  /** An extension is a frontier state extended by one prefix of the model. */
  lemma {:induction false} ExtensionByPrefix(p: Problem, m: int, frontier: seq<State>, e: State)
    returns (i: nat, q: nat)
    requires m in p.resident && ExtensionOf(e, frontier, BuildModelOptions(p, m))
    ensures i < |frontier| && q <= p.resident[m] && e == Extend(frontier[i], OptionFor(p, m, q))
  {
    var s, k := ExtensionSource(e, frontier, BuildModelOptions(p, m));
    i :| 0 <= i < |frontier| && frontier[i] == s;
    q := p.resident[m] - k;
  }

  lemma {:induction false} PreferringSurvivor(
    p: Problem, m: int, required: int, frontier: seq<State>, expanded: seq<State>, e: State)
    requires m in p.resident
    requires forall i :: 0 <= i < |frontier| ==> AllPreferLonger(p, frontier[i])
    requires ExtensionOf(e, frontier, BuildModelOptions(p, m))
    requires ExpandedFully(p, m, frontier, expanded)
    requires Survives(e, expanded, required)
    ensures AllPreferLonger(p, e)
  {
    var i, q := ExtensionByPrefix(p, m, frontier, e);
    PreferenceStep(p, m, required, frontier[i], q, expanded);
  }

  /** Every state of the frontier was extended by every prefix of the model. */
  ghost predicate ExpandedFully(p: Problem, m: int, frontier: seq<State>, expanded: seq<State>)
    requires m in p.resident
  {
    forall i, q: nat :: 0 <= i < |frontier| && q <= p.resident[m] ==> Extend(frontier[i], OptionFor(p, m, q)) in expanded
  }

  lemma {:induction false} ExpandedByPrefix(p: Problem, m: int, frontier: seq<State>, expanded: seq<State>)
    requires m in p.resident
    requires forall i, k :: 0 <= i < |frontier| && 0 <= k < |BuildModelOptions(p, m)| ==>
      Extend(frontier[i], BuildModelOptions(p, m)[k]) in expanded
    ensures ExpandedFully(p, m, frontier, expanded)
  {
    forall i, q: nat | 0 <= i < |frontier| && q <= p.resident[m]
      ensures Extend(frontier[i], OptionFor(p, m, q)) in expanded
    {
      var k := p.resident[m] - q;
      assert Extend(frontier[i], BuildModelOptions(p, m)[k]) in expanded;
    }
  }

  /** One model processed: accounts stay exact, nothing is lost, and the new
      choices prefer longer prefixes. */
  lemma {:induction false} SolverStep(
    p: Problem, models: seq<int>, m: int, required: int,
    frontier: seq<State>, expanded: seq<State>, pruned: seq<State>)
    requires m in p.resident && MonotoneBytes(p)
    requires forall s :: s in frontier ==> Accounts(p, models, s)
    requires Complete(p, models, frontier, required)
    requires forall s :: s in frontier ==> AllPreferLonger(p, s)
    requires forall x :: x in expanded ==> ExtensionOf(x, frontier, BuildModelOptions(p, m))
    requires ExpandedFully(p, m, frontier, expanded)
    requires forall s :: s in pruned <==> Survives(s, expanded, required)
    ensures forall s :: s in pruned ==> Accounts(p, models + [m], s)
    ensures Complete(p, models + [m], pruned, required)
    ensures forall s :: s in pruned ==> AllPreferLonger(p, s)
  {
    hide Accounts, AllPreferLonger, ExtensionOf, Complete, Survives, ExpandedFully, BuildModelOptions;
    forall s | s in pruned ensures Accounts(p, models + [m], s) && s in expanded {
      SurvivorIsState(s, expanded, required);
      AccountsStep(p, models, m, frontier, s);
    }
    CompleteStep(p, models, m, required, frontier, expanded, pruned);
    forall s | s in pruned ensures AllPreferLonger(p, s) {
      assert s in expanded;
      PreferringSurvivor(p, m, required, frontier, expanded, s);
    }
  }

  /** `choices.update(dict(selected))`. */
  function ApplyChoices(base: map<int, nat>, sel: seq<Choice>): map<int, nat> {
    if sel == [] then base
    else
      var c := sel[|sel| - 1];
      ApplyChoices(base, sel[..|sel| - 1])[c.modelId := c.prefixCount]
  }

  lemma {:induction false} ApplyChoicesKeys(base: map<int, nat>, sel: seq<Choice>)
    requires forall i :: 0 <= i < |sel| ==> sel[i].modelId in base
    ensures ApplyChoices(base, sel).Keys == base.Keys
  {
    if sel != [] {
      ApplyChoicesKeys(base, sel[..|sel| - 1]);
    }
  }

  lemma {:induction false} ApplyChoicesAt(base: map<int, nat>, sel: seq<Choice>)
    requires forall i, j :: 0 <= i < j < |sel| ==> sel[i].modelId < sel[j].modelId
    ensures forall i :: 0 <= i < |sel| ==>
      sel[i].modelId in ApplyChoices(base, sel) && ApplyChoices(base, sel)[sel[i].modelId] == sel[i].prefixCount
    ensures forall m :: (forall i :: 0 <= i < |sel| ==> sel[i].modelId != m) ==>
      (m in ApplyChoices(base, sel) <==> m in base) && (m in base ==> ApplyChoices(base, sel)[m] == base[m])
  {
    if sel != [] {
      var shorter := sel[..|sel| - 1];
      ApplyChoicesAt(base, shorter);
      assert forall i :: 0 <= i < |shorter| ==> shorter[i] == sel[i];
    }
  }

  /** Recording the selection of the final state gives admissible choices that
      stand for exactly that selection. */
  lemma {:induction false} RecordedSelection(p: Problem, active: int, sel: seq<Choice>)
    requires Selection(p, Victims(p, active), sel)
    ensures Admissible(p, active, ApplyChoices(p.resident, sel))
    ensures ChoicesOf(Victims(p, active), ApplyChoices(p.resident, sel)) == sel
  {
    var models, choices := Victims(p, active), ApplyChoices(p.resident, sel);
    ApplyChoicesAt(p.resident, sel);
    ApplyChoicesKeys(p.resident, sel);
    forall m | m in choices ensures choices[m] <= p.resident[m] {
      if m in models {
        var i :| 0 <= i < |models| && models[i] == m;
        assert sel[i].modelId == m;
      }
    }
  }

  lemma {:induction false} EvictAllIsMost(p: Problem, active: int, models: seq<int>, choices: map<int, nat>)
    requires MonotoneBytes(p) && Admissible(p, active, choices)
    requires forall i :: 0 <= i < |models| ==> models[i] in p.resident && models[i] != active
    ensures 0 <= FreedBy(p, ChoicesOf(models, choices)) <= FreedBy(p, ChoicesOf(models, EvictAll(p, active)))
  {
    if models != [] {
      var shorter := models[..|models| - 1];
      EvictAllIsMost(p, active, shorter, choices);
      var sel, all := ChoicesOf(models, choices), ChoicesOf(models, EvictAll(p, active));
      assert sel[..|sel| - 1] == ChoicesOf(shorter, choices);
      assert all[..|all| - 1] == ChoicesOf(shorter, EvictAll(p, active));
    }
  }

  lemma {:induction false} DamageNonNegative(p: Problem, sel: seq<Choice>)
    requires FairDamage(p) && WithinResident(p, sel)
    ensures DamageBy(p, sel) >= 0.0
  {
    if sel != [] {
      DamageNonNegative(p, sel[..|sel| - 1]);
    }
  }

  lemma {:induction false} KeepingFreesNothing(p: Problem, models: seq<int>)
    requires FairDamage(p)
    requires forall i :: 0 <= i < |models| ==> models[i] in p.resident
    ensures FreedBy(p, ChoicesOf(models, p.resident)) == 0
    ensures DamageBy(p, ChoicesOf(models, p.resident)) == 0.0
    ensures VictimKeysOf(models, p, p.resident) == []
  {
    if models != [] {
      var shorter, m := models[..|models| - 1], models[|models| - 1];
      var sel := ChoicesOf(models, p.resident);
      assert sel[..|sel| - 1] == ChoicesOf(shorter, p.resident);
      KeepingFreesNothing(p, shorter);
    }
  }

  lemma {:induction false} GroupBytesSnoc(p: Problem, a: seq<GroupKey>, key: GroupKey)
    ensures GroupBytes(p, a + [key]) ==
      GroupBytes(p, a) + p.prefixBytes(key.modelId, key.groupId + 1) - p.prefixBytes(key.modelId, key.groupId)
  {
    var longer := a + [key];
    assert longer[..|longer| - 1] == a;
  }

  lemma {:induction false} GroupBytesAppend(p: Problem, a: seq<GroupKey>, b: seq<GroupKey>)
    ensures GroupBytes(p, a + b) == GroupBytes(p, a) + GroupBytes(p, b)
  {
    if b == [] {
      assert a + b == a;
    } else {
      var rest, key := b[..|b| - 1], b[|b| - 1];
      GroupBytesAppend(p, a, rest);
      GroupBytesSnoc(p, a + rest, key);
      assert a + b == (a + rest) + [key];
    }
  }

  lemma {:induction false} GroupRangeBytes(p: Problem, m: int, lo: nat, keys: seq<GroupKey>)
    requires forall i :: 0 <= i < |keys| ==> keys[i] == GroupKey(m, lo + i)
    ensures GroupBytes(p, keys) == p.prefixBytes(m, lo + |keys|) - p.prefixBytes(m, lo)
  {
    if keys != [] {
      GroupRangeBytes(p, m, lo, keys[..|keys| - 1]);
    }
  }

  /** The victims' bytes add up to what the choices free. */
  lemma {:induction false} VictimBytes(p: Problem, models: seq<int>, choices: map<int, nat>)
    requires ChosenWithin(p, models, choices)
    ensures GroupBytes(p, VictimKeysOf(models, p, choices)) == FreedBy(p, ChoicesOf(models, choices))
  {
    if models != [] {
      hide GroupBytes, GroupRange;
      var shorter, m := models[..|models| - 1], models[|models| - 1];
      var sel := ChoicesOf(models, choices);
      assert sel[..|sel| - 1] == ChoicesOf(shorter, choices);
      VictimBytes(p, shorter, choices);
      GroupBytesAppend(p, VictimKeysOf(shorter, p, choices), GroupRange(m, choices[m], p.resident[m]));
      GroupRangeBytes(p, m, choices[m], GroupRange(m, choices[m], p.resident[m]));
    }
  }

  // ------------------------------------------------ the plan is determined

  /** The states the search holds after the given models, whatever the order it
      finds them in: those extensions of its states that survive pruning. */
  ghost predicate InFrontier(p: Problem, models: seq<int>, required: int, s: State)
    requires forall i :: 0 <= i < |models| ==> models[i] in p.resident
    decreases |models|, 0
  {
    if models == [] then s == State(0, 0.0, 0, [])
    else
      && InExpansion(p, models, required, s)
      && if s.freed >= required then
           forall t :: InExpansion(p, models, required, t) && t.freed >= required ==> !RankLess(t, s, required)
         else
           && (forall t :: InExpansion(p, models, required, t) && t.freed == s.freed ==> !RankLess(t, s, required))
           && (forall t :: InExpansion(p, models, required, t) && s.freed < t.freed < required ==> s.cost < t.cost)
  }

  ghost predicate InExpansion(p: Problem, models: seq<int>, required: int, e: State)
    requires models != [] && forall i :: 0 <= i < |models| ==> models[i] in p.resident
    decreases |models| - 1, 1
  {
    var m := models[|models| - 1];
    exists s: State, q: nat ::
      q <= p.resident[m] && InFrontier(p, models[..|models| - 1], required, s) && e == Extend(s, OptionFor(p, m, q))
  }

  /** The frontier is exactly those states. */
  ghost predicate IsFrontier(p: Problem, models: seq<int>, required: int, frontier: seq<State>)
    requires forall i :: 0 <= i < |models| ==> models[i] in p.resident
  {
    forall s :: s in frontier <==> InFrontier(p, models, required, s)
  }

  lemma {:induction false} ExpandedIsExpansion(
    p: Problem, models: seq<int>, m: int, required: int, frontier: seq<State>, e: State)
    requires m in p.resident && forall i :: 0 <= i < |models| ==> models[i] in p.resident
    requires IsFrontier(p, models, required, frontier)
    requires ExtensionOf(e, frontier, BuildModelOptions(p, m))
    ensures InExpansion(p, models + [m], required, e)
  {
    var longer := models + [m];
    assert longer[..|longer| - 1] == models && longer[|longer| - 1] == m;
    var i, q := ExtensionByPrefix(p, m, frontier, e);
    assert frontier[i] in frontier;
    assert InFrontier(p, models, required, frontier[i]);
  }

  lemma {:induction false} ExpansionIsExpanded(
    p: Problem, models: seq<int>, m: int, required: int, frontier: seq<State>, expanded: seq<State>, e: State)
    requires m in p.resident && forall i :: 0 <= i < |models| ==> models[i] in p.resident
    requires IsFrontier(p, models, required, frontier)
    requires ExpandedFully(p, m, frontier, expanded)
    requires InExpansion(p, models + [m], required, e)
    ensures e in expanded
  {
    var longer := models + [m];
    assert longer[..|longer| - 1] == models && longer[|longer| - 1] == m;
    var s: State, q: nat :| q <= p.resident[m] && InFrontier(p, models, required, s) && e == Extend(s, OptionFor(p, m, q));
    assert s in frontier;
    var i :| 0 <= i < |frontier| && frontier[i] == s;
  }

  lemma {:induction false} FrontierStep(
    p: Problem, models: seq<int>, m: int, required: int, frontier: seq<State>, expanded: seq<State>, pruned: seq<State>)
    requires m in p.resident && forall i :: 0 <= i < |models| ==> models[i] in p.resident
    requires IsFrontier(p, models, required, frontier)
    requires forall x :: x in expanded ==> ExtensionOf(x, frontier, BuildModelOptions(p, m))
    requires ExpandedFully(p, m, frontier, expanded)
    requires forall s :: s in pruned <==> Survives(s, expanded, required)
    ensures IsFrontier(p, models + [m], required, pruned)
  {
    forall e ensures e in expanded <==> InExpansion(p, models + [m], required, e) {
      if e in expanded {
        ExpandedIsExpansion(p, models, m, required, frontier, e);
      }
      if InExpansion(p, models + [m], required, e) {
        ExpansionIsExpanded(p, models, m, required, frontier, expanded, e);
      }
    }
    SurvivorsAreFrontier(p, models + [m], required, expanded);
  }

  lemma {:induction false} SurvivorsAreFrontier(p: Problem, models: seq<int>, required: int, expanded: seq<State>)
    requires models != [] && forall i :: 0 <= i < |models| ==> models[i] in p.resident
    requires forall e :: e in expanded <==> InExpansion(p, models, required, e)
    ensures forall s :: Survives(s, expanded, required) <==> InFrontier(p, models, required, s)
  {
  }

  /** The state a plan is read from. */
  ghost predicate BestState(p: Problem, active: int, required: int, best: State) {
    && InFrontier(p, Victims(p, active), required, best) && best.freed >= required
    && forall s :: InFrontier(p, Victims(p, active), required, s) && s.freed >= required ==> !RankLess(s, best, required)
  }

  /** These are the choices the solver returns for a positive requirement. */
  ghost predicate Planned(p: Problem, active: int, required: int, choices: map<int, nat>) {
    exists best :: BestState(p, active, required, best) && choices == ApplyChoices(p.resident, best.choices)
  }

  lemma {:induction false} BestIsPlanned(p: Problem, active: int, required: int, frontier: seq<State>, best: State)
    requires IsFrontier(p, Victims(p, active), required, frontier)
    requires best in frontier && best.freed >= required
    requires forall s :: s in frontier && s.freed >= required ==> !RankLess(s, best, required)
    ensures Planned(p, active, required, ApplyChoices(p.resident, best.choices))
  {
    hide InFrontier, RankLess, ApplyChoices;
    assert BestState(p, active, required, best);
  }

  /** The solver has no freedom: two solutions of one problem are the same. */
  lemma {:induction false} PlanUnique(p: Problem, active: int, required: int, a: map<int, nat>, b: map<int, nat>)
    requires Planned(p, active, required, a) && Planned(p, active, required, b)
    ensures a == b
  {
    var s :| BestState(p, active, required, s) && a == ApplyChoices(p.resident, s.choices);
    var t :| BestState(p, active, required, t) && b == ApplyChoices(p.resident, t.choices);
    RankLessTotal(s, t, required);
  }

  /** Before any model the frontier is the one state that has decided nothing. */
  lemma {:induction false} EmptySearch(p: Problem, required: int)
    ensures var frontier := [State(0, 0.0, 0, [])];
      && (forall s :: s in frontier ==> Accounts(p, [], s) && AllPreferLonger(p, s))
      && Complete(p, [], frontier, required)
      && IsFrontier(p, [], required, frontier)
  {
    var frontier := [State(0, 0.0, 0, [])];
    forall sel | Selection(p, [], sel) ensures Matches(p, frontier[0], sel, required) {
    }
  }

  /** The frontier search over all reclaimable models. */
  method SearchFrontier(p: Problem, models: seq<int>, required: int) returns (frontier: seq<State>)
    requires MonotoneBytes(p)
    requires forall i :: 0 <= i < |models| ==> models[i] in p.resident
    ensures forall s :: s in frontier ==> Accounts(p, models, s)
    ensures Complete(p, models, frontier, required)
    ensures forall s :: s in frontier ==> AllPreferLonger(p, s)
    ensures IsFrontier(p, models, required, frontier)
  {
    hide Accounts, Complete, AllPreferLonger, IsFrontier, Survives, ExtensionOf, ExpandedFully, BuildModelOptions;
    frontier := [State(0, 0.0, 0, [])];
    EmptySearch(p, required);
    for i := 0 to |models|
      invariant forall s :: s in frontier ==> Accounts(p, models[..i], s)
      invariant Complete(p, models[..i], frontier, required)
      invariant forall s :: s in frontier ==> AllPreferLonger(p, s)
      invariant IsFrontier(p, models[..i], required, frontier)
    {
      var m := models[i];
      var expanded := ExpandFrontier(frontier, BuildModelOptions(p, m));
      var pruned := PruneFrontier(expanded, required);
      ExpandedByPrefix(p, m, frontier, expanded);
      SolverStep(p, models[..i], m, required, frontier, expanded, pruned);
      FrontierStep(p, models[..i], m, required, frontier, expanded, pruned);
      assert models[..i + 1] == models[..i] + [m];
      frontier := pruned;
    }
    assert models[..|models|] == models;
  }

  /** The choices free enough, at the least damage of all that do. */
  ghost predicate CheapestCover(p: Problem, active: int, choices: map<int, nat>, required: int) {
    && Admissible(p, active, choices)
    && FreedTotal(p, active, choices) >= required
    && forall alt :: Admissible(p, active, alt) && FreedTotal(p, active, alt) >= required ==>
         DamageTotal(p, active, choices) <= DamageTotal(p, active, alt)
  }

  /** Each model but the active one keeps the longest prefix its bytes can hold. */
  ghost predicate LongestChoices(p: Problem, active: int, choices: map<int, nat>)
    requires choices.Keys == p.resident.Keys
  {
    forall m :: m in p.resident && m != active ==> LongestForItsBytes(p, Choice(m, choices[m]))
  }

  lemma {:induction false} AdmissibleWithin(p: Problem, active: int, choices: map<int, nat>)
    requires Admissible(p, active, choices)
    ensures ChosenWithin(p, Victims(p, active), choices)
  {
    var models := Victims(p, active);
    forall i | 0 <= i < |models|
      ensures models[i] in p.resident && models[i] in choices && choices[models[i]] <= p.resident[models[i]]
    {
      assert models[i] in models;
    }
  }

  /** The best state of a complete frontier is an optimal covering plan. */
  lemma {:induction false} BestPlan(p: Problem, active: int, required: int, frontier: seq<State>, best: State)
    requires MonotoneBytes(p)
    requires best in frontier && best.freed >= required
    requires Accounts(p, Victims(p, active), best)
    requires Complete(p, Victims(p, active), frontier, required)
    requires forall s :: s in frontier && s.freed >= required ==> !RankLess(s, best, required)
    ensures var choices := ApplyChoices(p.resident, best.choices);
      && CheapestCover(p, active, choices, required)
      && best.freed == FreedTotal(p, active, choices)
      && best.cost == DamageTotal(p, active, choices)
      && FreedTotal(p, active, EvictAll(p, active)) >= required
      && ChosenWithin(p, Victims(p, active), choices)
      && GroupBytes(p, VictimKeysOf(Victims(p, active), p, choices)) == best.freed
  {
    hide FreedBy, DamageBy, GroupBytes, VictimKeysOf, RankLess, Complete, ApplyChoices;
    var models, choices := Victims(p, active), ApplyChoices(p.resident, best.choices);
    RecordedSelection(p, active, best.choices);
    AdmissibleWithin(p, active, choices);
    EvictAllIsMost(p, active, models, choices);
    VictimBytes(p, models, choices);
    forall alt | Admissible(p, active, alt) && FreedTotal(p, active, alt) >= required
      ensures best.cost <= DamageTotal(p, active, alt)
    {
      NothingCheaper(p, active, required, frontier, best, alt);
    }
  }

  /** Each model but the active one keeps no prefix when a longer one of the same
      bytes does no more damage. */
  ghost predicate PreferringChoices(p: Problem, active: int, choices: map<int, nat>)
    requires choices.Keys == p.resident.Keys
  {
    forall m :: m in p.resident && m != active ==> PrefersLonger(p, Choice(m, choices[m]))
  }

  lemma {:induction false} PreferredAreLongest(p: Problem, active: int, choices: map<int, nat>)
    requires choices.Keys == p.resident.Keys && PreferringChoices(p, active, choices) && AntitoneDamage(p)
    ensures LongestChoices(p, active, choices)
  {
    forall m | m in p.resident && m != active ensures LongestForItsBytes(p, Choice(m, choices[m])) {
      PreferredIsLongest(p, Choice(m, choices[m]));
    }
  }

  lemma {:induction false} BestPlanPrefersLonger(p: Problem, active: int, best: State)
    requires Accounts(p, Victims(p, active), best) && AllPreferLonger(p, best)
    ensures var choices := ApplyChoices(p.resident, best.choices);
      choices.Keys == p.resident.Keys && PreferringChoices(p, active, choices)
  {
    var models, choices := Victims(p, active), ApplyChoices(p.resident, best.choices);
    RecordedSelection(p, active, best.choices);
    forall m | m in p.resident && m != active ensures PrefersLonger(p, Choice(m, choices[m])) {
      var i :| 0 <= i < |models| && models[i] == m;
      assert best.choices[i] == ChoicesOf(models, choices)[i];
    }
  }

  /** Changing the choice of one model changes the totals by that model's figures. */
  lemma {:induction false} OneChoiceChanged(p: Problem, active: int, choices: map<int, nat>, m: int, r: nat)
    requires Admissible(p, active, choices) && m in p.resident && m != active && r <= p.resident[m]
    ensures Admissible(p, active, choices[m := r])
    ensures FreedTotal(p, active, choices[m := r])
      == FreedTotal(p, active, choices) + p.prefixBytes(m, choices[m]) - p.prefixBytes(m, r)
    ensures DamageTotal(p, active, choices[m := r])
      == DamageTotal(p, active, choices) - p.damage(m, p.resident[m], choices[m]) + p.damage(m, p.resident[m], r)
  {
    hide FreedBy, DamageBy;
    AdmissibleWithin(p, active, choices);
    ChangedWithin(p, Victims(p, active), choices, m, r);
    assert m in Victims(p, active);
  }

  lemma {:induction false} ChangedWithin(p: Problem, models: seq<int>, choices: map<int, nat>, m: int, r: nat)
    requires ChosenWithin(p, models, choices) && m in p.resident && r <= p.resident[m] && m in choices
    requires choices[m] <= p.resident[m]
    requires forall i, j :: 0 <= i < j < |models| ==> models[i] < models[j]
    ensures ChosenWithin(p, models, choices[m := r])
    ensures var before, after := ChoicesOf(models, choices), ChoicesOf(models, choices[m := r]);
      && FreedBy(p, after) == FreedBy(p, before)
           + (if m in models then p.prefixBytes(m, choices[m]) - p.prefixBytes(m, r) else 0)
      && DamageBy(p, after) == DamageBy(p, before)
           + (if m in models then p.damage(m, p.resident[m], r) - p.damage(m, p.resident[m], choices[m]) else 0.0)
  {
    if models != [] {
      var shorter, last := models[..|models| - 1], models[|models| - 1];
      ChangedWithin(p, shorter, choices, m, r);
      var before, after := ChoicesOf(models, choices), ChoicesOf(models, choices[m := r]);
      assert before[..|before| - 1] == ChoicesOf(shorter, choices);
      assert after[..|after| - 1] == ChoicesOf(shorter, choices[m := r]);
      assert models == shorter + [last];
      assert m in models <==> m in shorter || m == last;
      assert m in shorter ==> m < last;
    }
  }

  lemma {:induction false} ActiveKept(p: Problem, active: int, choices: map<int, nat>, required: int)
    requires CheapestCover(p, active, choices, required) && active in p.resident
    ensures active in choices && choices[active] == p.resident[active]
  {
  }

  /** Asked for nothing, keeping everything is the cheapest cover. */
  lemma {:induction false} KeepingIsCheapest(p: Problem, active: int, required: int)
    requires MonotoneBytes(p) && FairDamage(p) && required <= 0
    ensures CheapestCover(p, active, p.resident, required)
    ensures FreedTotal(p, active, p.resident) == 0 && DamageTotal(p, active, p.resident) == 0.0
    ensures FreedTotal(p, active, EvictAll(p, active)) >= required
    ensures ChosenWithin(p, Victims(p, active), p.resident)
    ensures VictimKeysOf(Victims(p, active), p, p.resident) == []
  {
    var models := Victims(p, active);
    KeepingFreesNothing(p, models);
    EvictAllIsMost(p, active, models, p.resident);
    forall alt | Admissible(p, active, alt) ensures 0.0 <= DamageTotal(p, active, alt) {
      TotalDamageNonNegative(p, active, alt);
    }
  }

  lemma {:induction false} TotalDamageNonNegative(p: Problem, active: int, choices: map<int, nat>)
    requires FairDamage(p) && Admissible(p, active, choices)
    ensures DamageTotal(p, active, choices) >= 0.0
  {
    DamageNonNegative(p, ChoicesOf(Victims(p, active), choices));
  }

  // ------------------------------------------------- what a plan always is

  lemma {:induction false} SomeExpansion(frontier: seq<State>, options: seq<PrefixOption>) returns (expanded: seq<State>)
    ensures forall e :: e in expanded ==> ExtensionOf(e, frontier, options)
    ensures forall i, k :: 0 <= i < |frontier| && 0 <= k < |options| ==> Extend(frontier[i], options[k]) in expanded
  {
    if frontier == [] {
      expanded := [];
    } else {
      var first := seq(|options|, k requires 0 <= k < |options| => Extend(frontier[0], options[k]));
      var rest := SomeExpansion(frontier[1..], options);
      expanded := first + rest;
      forall i, k | 0 <= i < |frontier| && 0 <= k < |options| ensures Extend(frontier[i], options[k]) in expanded {
        if i == 0 {
          assert first[k] in first;
        } else {
          assert frontier[i] == frontier[1..][i - 1];
        }
      }
    }
  }

  lemma {:induction false} SomeSurvivors(states: seq<State>, all: seq<State>, required: int) returns (kept: seq<State>)
    ensures forall s :: s in kept <==> s in states && Survives(s, all, required)
  {
    hide Survives;
    if states == [] {
      kept := [];
    } else {
      kept := SomeSurvivors(states[1..], all, required);
      assert states == [states[0]] + states[1..];
      if Survives(states[0], all, required) {
        kept := [states[0]] + kept;
      }
    }
  }

  /** Some sequence lists the frontier. */
  lemma {:induction false} SomeFrontier(p: Problem, models: seq<int>, required: int) returns (frontier: seq<State>)
    requires MonotoneBytes(p)
    requires forall i :: 0 <= i < |models| ==> models[i] in p.resident
    ensures forall s :: s in frontier ==> Accounts(p, models, s) && AllPreferLonger(p, s)
    ensures Complete(p, models, frontier, required) && IsFrontier(p, models, required, frontier)
  {
    hide Accounts, Complete, AllPreferLonger, IsFrontier, Survives, ExtensionOf, ExpandedFully, BuildModelOptions, MonotoneBytes;
    if models == [] {
      frontier := [State(0, 0.0, 0, [])];
      EmptySearch(p, required);
    } else {
      var shorter, m := models[..|models| - 1], models[|models| - 1];
      var before := SomeFrontier(p, shorter, required);
      var expanded := SomeExpansion(before, BuildModelOptions(p, m));
      frontier := SomeSurvivors(expanded, expanded, required);
      forall s ensures s in frontier <==> Survives(s, expanded, required) {
        SurvivorIsState(s, expanded, required);
      }
      ExpandedByPrefix(p, m, before, expanded);
      SolverStep(p, shorter, m, required, before, expanded, frontier);
      FrontierStep(p, shorter, m, required, before, expanded, frontier);
      assert models == shorter + [m];
    }
  }

  /** What the solver returns covers the requirement at the least damage, and prefers
      longer prefixes where that costs nothing. */
  lemma {:induction false} PlannedIsBest(p: Problem, active: int, required: int, choices: map<int, nat>)
    requires MonotoneBytes(p) && Planned(p, active, required, choices)
    ensures CheapestCover(p, active, choices, required) && choices.Keys == p.resident.Keys
    ensures PreferringChoices(p, active, choices)
  {
    hide InFrontier, RankLess, Accounts, AllPreferLonger, Complete, ApplyChoices, MonotoneBytes;
    var best :| BestState(p, active, required, best) && choices == ApplyChoices(p.resident, best.choices);
    var frontier := SomeFrontier(p, Victims(p, active), required);
    BestPlan(p, active, required, frontier, best);
    BestPlanPrefersLonger(p, active, best);
  }

  /** How ties are broken: given what the plan keeps of the others, no other prefix of
      the last model covers at less damage, or at the same damage with fewer bytes
      freed, or with as many freed and fewer groups evicted. */
  lemma {:induction false} LastModelTight(p: Problem, active: int, required: int, choices: map<int, nat>, m: int, q: nat)
    requires MonotoneBytes(p) && Planned(p, active, required, choices)
    requires Victims(p, active) != [] && m == Victims(p, active)[|Victims(p, active)| - 1] && q <= p.resident[m]
    ensures Admissible(p, active, choices) && Admissible(p, active, choices[m := q])
    ensures var other := choices[m := q];
      FreedTotal(p, active, other) >= required ==>
        || DamageTotal(p, active, choices) < DamageTotal(p, active, other)
        || (DamageTotal(p, active, choices) == DamageTotal(p, active, other)
            && (|| FreedTotal(p, active, choices) < FreedTotal(p, active, other)
                || (FreedTotal(p, active, choices) == FreedTotal(p, active, other) && choices[m] >= q)))
  {
    hide InFrontier, RankLess, Accounts, AllPreferLonger, Complete, ApplyChoices, MonotoneBytes, FreedTotal, DamageTotal;
    var models := Victims(p, active);
    var best :| BestState(p, active, required, best) && choices == ApplyChoices(p.resident, best.choices);
    var frontier := SomeFrontier(p, models, required);
    BestPlan(p, active, required, frontier, best);
    var before, k := LastExtension(p, models, required, best);
    LastChoice(p.resident, before, OptionFor(p, m, k));
    OneChoiceChanged(p, active, choices, m, q);
    var other := Extend(before, OptionFor(p, m, q));
    if other.freed >= required {
      NotBeaten(p, models, required, best, before, q);
      RankMeans(other, best, required);
    }
  }

  /** A frontier state is the extension of an earlier one. */
  lemma {:induction false} LastExtension(p: Problem, models: seq<int>, required: int, s: State) returns (before: State, k: nat)
    requires models != [] && (forall i :: 0 <= i < |models| ==> models[i] in p.resident) && InFrontier(p, models, required, s)
    ensures var m := models[|models| - 1];
      && k <= p.resident[m] && InFrontier(p, models[..|models| - 1], required, before) && s == Extend(before, OptionFor(p, m, k))
  {
    hide RankLess, OptionFor;
    assert InExpansion(p, models, required, s);
    var m := models[|models| - 1];
    var b: State, q: nat :|
      q <= p.resident[m] && InFrontier(p, models[..|models| - 1], required, b) && s == Extend(b, OptionFor(p, m, q));
    before, k := b, q;
  }

  lemma {:induction false} NotBeaten(p: Problem, models: seq<int>, required: int, s: State, before: State, q: nat)
    requires models != [] && (forall i :: 0 <= i < |models| ==> models[i] in p.resident) && q <= p.resident[models[|models| - 1]]
    requires InFrontier(p, models, required, s) && s.freed >= required && InFrontier(p, models[..|models| - 1], required, before)
    requires Extend(before, OptionFor(p, models[|models| - 1], q)).freed >= required
    ensures !RankLess(Extend(before, OptionFor(p, models[|models| - 1], q)), s, required)
  {
    hide RankLess, OptionFor;
    assert InExpansion(p, models, required, Extend(before, OptionFor(p, models[|models| - 1], q)));
  }

  lemma {:induction false} LastChoice(base: map<int, nat>, before: State, o: PrefixOption)
    ensures ApplyChoices(base, Extend(before, o).choices)[o.modelId] == o.prefixCount
  {
    assert (before.choices + [Choice(o.modelId, o.prefixCount)])[..|before.choices|] == before.choices;
  }

  /** Of two states that free enough, the one no other beats costs less, or frees less,
      or evicts less, or its choices come first. */
  lemma {:induction false} RankMeans(other: State, best: State, required: int)
    requires !RankLess(other, best, required) && other.freed >= required && best.freed >= required
    ensures best.cost <= other.cost && (best.cost == other.cost ==> best.freed <= other.freed)
    ensures best.cost == other.cost && best.freed == other.freed ==> best.evicted <= other.evicted
    ensures best.cost == other.cost && best.freed == other.freed && best.evicted == other.evicted ==>
      !ChoicesLess(other.choices, best.choices)
  {
    hide ChoicesLess;
  }

  method SolveCoveringMckp(p: Problem, active: int, requiredFreeBytes: int) returns (plan: Plan)
    requires MonotoneBytes(p) && FairDamage(p)
    ensures plan.requiredFreeBytes == Max(0, requiredFreeBytes)
    // feasible exactly when dropping every other model frees enough
    ensures plan.feasible <==> FreedTotal(p, active, EvictAll(p, active)) >= requiredFreeBytes
    ensures !plan.feasible ==>
      plan.choices == p.resident && plan.victimKeys == [] && plan.plannedFreeBytes == 0 && plan.predictedDamageMs == None
    // the plan covers, no covering choice costs less, and its figures are exact
    ensures plan.feasible ==>
      && CheapestCover(p, active, plan.choices, requiredFreeBytes)
      && plan.plannedFreeBytes == FreedTotal(p, active, plan.choices)
      && plan.predictedDamageMs == Some(DamageTotal(p, active, plan.choices))
      && ChosenWithin(p, Victims(p, active), plan.choices)
      && plan.victimKeys == VictimKeysOf(Victims(p, active), p, plan.choices)
      && GroupBytes(p, plan.victimKeys) == plan.plannedFreeBytes
    // no model keeps a prefix when a longer one of the same bytes does no more damage;
    // when damage falls with the prefix, each keeps the longest its bytes can hold
    ensures plan.feasible && requiredFreeBytes > 0 ==> PreferringChoices(p, active, plan.choices)
    ensures plan.feasible && requiredFreeBytes > 0 && AntitoneDamage(p) ==> LongestChoices(p, active, plan.choices)
    // and the choices are determined by the problem
    ensures plan.feasible && requiredFreeBytes > 0 ==> Planned(p, active, requiredFreeBytes, plan.choices)
  {
    hide InFrontier, RankLess, Accounts, AllPreferLonger, Complete, IsFrontier, ApplyChoices, MonotoneBytes, FairDamage;
    hide PreferringChoices, LongestChoices, AntitoneDamage, ChosenWithin, FreedTotal, DamageTotal, VictimKeysOf;
    var required := Max(0, requiredFreeBytes);
    var models := Victims(p, active);
    if required == 0 {
      KeepingIsCheapest(p, active, requiredFreeBytes);
      return Plan(true, 0, 0, Some(0.0), p.resident, []);
    }
    var frontier := SearchFrontier(p, models, required);
    var feasible := Feasible(frontier, required);
    if feasible == [] {
      InfeasibleFrontier(p, active, required, frontier);
      return Plan(false, required, 0, None, p.resident, []);
    }
    var best := MinimumRank(feasible, required);
    var choices := ApplyChoices(p.resident, best.choices);
    BestPlan(p, active, required, frontier, best);
    BestIsPlanned(p, active, required, frontier, best);
    BestPlanPrefersLonger(p, active, best);
    if AntitoneDamage(p) {
      PreferredAreLongest(p, active, choices);
    }
    plan := Plan(true, required, best.freed, Some(best.cost), choices, VictimKeysOf(models, p, choices));
  }

  /** The states of the final frontier that free enough. */
  method Feasible(frontier: seq<State>, required: int) returns (feasible: seq<State>)
    ensures forall s :: s in feasible <==> s in frontier && s.freed >= required
  {
    feasible := [];
    for i := 0 to |frontier|
      invariant forall s :: s in feasible <==> s in frontier[..i] && s.freed >= required
    {
      assert frontier[..i + 1] == frontier[..i] + [frontier[i]];
      if frontier[i].freed >= required {
        feasible := feasible + [frontier[i]];
      }
    }
    assert frontier[..|frontier|] == frontier;
  }

  /** No covering choice is cheaper than the best state of a complete frontier. */
  lemma {:induction false} NothingCheaper(
    p: Problem, active: int, required: int, frontier: seq<State>, best: State, alt: map<int, nat>)
    requires Complete(p, Victims(p, active), frontier, required)
    requires forall s :: s in frontier && s.freed >= required ==> !RankLess(s, best, required)
    requires Admissible(p, active, alt) && FreedTotal(p, active, alt) >= required
    ensures best.cost <= DamageTotal(p, active, alt)
  {
    assert Selection(p, Victims(p, active), ChoicesOf(Victims(p, active), alt));
  }

  lemma {:induction false} InfeasibleFrontier(p: Problem, active: int, required: int, frontier: seq<State>)
    requires Complete(p, Victims(p, active), frontier, required)
    requires forall s :: s in frontier ==> s.freed < required
    ensures FreedTotal(p, active, EvictAll(p, active)) < required
  {
    assert Selection(p, Victims(p, active), ChoicesOf(Victims(p, active), EvictAll(p, active)));
  }
}
