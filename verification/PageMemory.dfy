/** The page backends under prefix-MCKP replacement, over either layout's
    precomputed dictionaries: what one reclaim does, and what every request leaves
    behind (evaluation/tensor_simulator/tensor_sim_page_backends.py). */
module PageMemory {
  import opened Common
  import opened PageLayout
  import opened Mckp

  /** The mapped units of every model. */
  type Mapped = map<int, set<nat>>

  // ------------------------------------------------------- bytes of unit sets

  /** Bytes of the units of `s` below `n`. */
  function BytesBelow(unitBytes: seq<nat>, s: set<nat>, n: nat): nat
    requires n <= |unitBytes|
  {
    if n == 0 then 0 else BytesBelow(unitBytes, s, n - 1) + if n - 1 in s then unitBytes[n - 1] else 0
  }

  function Bytes(layout: ModelLayout, s: set<nat>): nat {
    BytesBelow(layout.unitBytes, s, |layout.unitBytes|)
  }

  /** Physical bytes of a prefix of `p` groups. */
  function PrefixBytes(layout: ModelLayout, p: nat): nat {
    if p < |layout.unitCounts| && layout.unitCounts[p] <= |layout.unitBytes|
    then SumTo(layout.unitBytes, layout.unitCounts[p]) else 0
  }

  function FullBytes(layout: ModelLayout): nat {
    SumTo(layout.unitBytes, |layout.unitBytes|)
  }

  lemma {:induction false} BytesSplit(unitBytes: seq<nat>, s: set<nat>, t: set<nat>, n: nat)
    requires n <= |unitBytes|
    ensures BytesBelow(unitBytes, s, n) == BytesBelow(unitBytes, s * t, n) + BytesBelow(unitBytes, s - t, n)
  {
    if n > 0 {
      BytesSplit(unitBytes, s, t, n - 1);
    }
  }

  lemma {:induction false} BytesOfRun(unitBytes: seq<nat>, k: nat, n: nat)
    requires n <= |unitBytes|
    ensures BytesBelow(unitBytes, Initial(k), n) == SumTo(unitBytes, if k <= n then k else n)
  {
    if n > 0 {
      BytesOfRun(unitBytes, k, n - 1);
    }
  }

  lemma {:induction false} SumToMonotone(unitBytes: seq<nat>, j: nat, k: nat)
    requires j <= k <= |unitBytes|
    ensures SumTo(unitBytes, j) <= SumTo(unitBytes, k)
  {
    if j < k {
      SumToMonotone(unitBytes, j, k - 1);
    }
  }

  lemma {:induction false} PrefixBytesMonotone(layout: ModelLayout, p: nat, q: nat)
    requires layout.Valid() && p <= q < |layout.unitCounts|
    ensures PrefixBytes(layout, p) <= PrefixBytes(layout, q) <= FullBytes(layout)
    ensures PrefixBytes(layout, |layout.groupUnits|) == FullBytes(layout)
  {
    assert layout.unitCounts[p] <= layout.unitCounts[q] <= layout.unitCounts[|layout.groupUnits|];
    SumToMonotone(layout.unitBytes, layout.unitCounts[p], layout.unitCounts[q]);
    SumToMonotone(layout.unitBytes, layout.unitCounts[q], |layout.unitBytes|);
  }

  // -------------------------------------------------------- resident prefixes

  /** The units are exactly those of a prefix of `p` groups. */
  ghost predicate RunsPrefix(layout: ModelLayout, units: set<nat>, p: nat) {
    p < |layout.unitCounts| && units == Initial(layout.unitCounts[p])
  }

  /** And no longer prefix has the same units. */
  ghost predicate HoldsPrefix(layout: ModelLayout, units: set<nat>, p: nat) {
    RunsPrefix(layout, units, p) && Longest(layout, p)
  }

  ghost predicate Longest(layout: ModelLayout, p: nat)
    requires p < |layout.unitCounts|
  {
    forall q :: p < q < |layout.unitCounts| ==> layout.unitCounts[q] != layout.unitCounts[p]
  }

  ghost predicate HoldsNoPrefix(layout: ModelLayout, units: set<nat>) {
    forall p :: 0 <= p < |layout.unitCounts| ==> units != Initial(layout.unitCounts[p])
  }

  lemma {:induction false} SomePrefixHeld(layout: ModelLayout, units: set<nat>, p: nat)
    requires RunsPrefix(layout, units, p)
    ensures !HoldsNoPrefix(layout, units)
  {
  }

  /** The longest resident prefix is unique. */
  lemma {:induction false} PrefixUnique(layout: ModelLayout, units: set<nat>, p: nat, q: nat)
    requires HoldsPrefix(layout, units, p) && HoldsPrefix(layout, units, q)
    ensures p == q
  {
    InitialSize(layout.unitCounts[p]);
    InitialSize(layout.unitCounts[q]);
  }

  lemma {:induction false} RunBytes(layout: ModelLayout, units: set<nat>, p: nat)
    requires layout.Valid() && RunsPrefix(layout, units, p)
    ensures Bytes(layout, units) == PrefixBytes(layout, p)
  {
    BytesOfRun(layout.unitBytes, layout.unitCounts[p], |layout.unitBytes|);
    assert layout.unitCounts[p] <= layout.unitCounts[|layout.groupUnits|];
  }

  /** Unmapping the units between two prefixes frees the difference of their bytes. */
  lemma {:induction false} RunDifference(layout: ModelLayout, held: nat, kept: nat)
    requires layout.Valid() && kept <= held < |layout.unitCounts|
    ensures var before, keep := Initial(layout.unitCounts[held]), Initial(layout.unitCounts[kept]);
      && Bytes(layout, before - keep) == PrefixBytes(layout, held) - PrefixBytes(layout, kept)
      && before - (before - keep) == keep
  {
    var before, keep := Initial(layout.unitCounts[held]), Initial(layout.unitCounts[kept]);
    RunBytes(layout, before, held);
    RunBytes(layout, keep, kept);
    assert layout.unitCounts[kept] <= layout.unitCounts[held];
    assert before * keep == keep;
    BytesSplit(layout.unitBytes, before, keep, |layout.unitBytes|);
  }

  // ------------------------------------------------------------ configuration

  /** What the run is configured with; it never changes. */
  datatype Config = Config(layout: Layout, capacityBytes: nat, models: map<int, ModelLayout>, order: seq<int>) {
    /** `order` lists the models once each; every model's dictionaries are sound. */
    ghost predicate WellFormed() {
      Ordered() && EachWellFormed(order)
    }

    ghost predicate Ordered() {
      StrictlyIncreasing(order) && forall m :: m in order <==> m in models
    }

    ghost predicate EachWellFormed(ids: seq<int>) {
      ids == [] || (ModelWellFormed(ids[|ids| - 1]) && EachWellFormed(ids[..|ids| - 1]))
    }

    ghost predicate ModelWellFormed(m: int) {
      && m in models && models[m].Valid()
      && (layout == TensorPage ==> models[m].DistinctPrefixes())
      && (layout == CompactPage ==> models[m].PositiveUnits())
    }
  }

  lemma {:induction false} WellFormedAt(cfg: Config, ids: seq<int>, i: nat)
    requires cfg.EachWellFormed(ids) && i < |ids|
    ensures cfg.ModelWellFormed(ids[i])
  {
    if i < |ids| - 1 {
      WellFormedAt(cfg, ids[..|ids| - 1], i);
    }
  }

  lemma {:induction false} WellFormedModel(cfg: Config, m: int)
    requires cfg.WellFormed() && m in cfg.models
    ensures cfg.ModelWellFormed(m)
  {
    var i :| 0 <= i < |cfg.order| && cfg.order[i] == m;
    WellFormedAt(cfg, cfg.order, i);
  }

  lemma {:induction false} EachWellFormedIntro(cfg: Config, ids: seq<int>)
    requires forall m :: m in ids ==> cfg.ModelWellFormed(m)
    ensures cfg.EachWellFormed(ids)
  {
    if ids != [] {
      assert ids[|ids| - 1] in ids;
      EachWellFormedIntro(cfg, ids[..|ids| - 1]);
    }
  }

  /** The configuration a run is built with. */
  function BuildConfig(layout: Layout, pageSize: int, capacityBytes: nat, models: map<int, TensorModel>): Config
    requires pageSize > 0
  {
    Config(layout, capacityBytes, map m | m in models :: BuildLayout(layout, pageSize, models[m]), Sorted(models.Keys))
  }

  /** Whatever the models, the dictionaries built for them are sound. */
  lemma {:induction false} BuildConfigWellFormed(layout: Layout, pageSize: int, capacityBytes: nat, models: map<int, TensorModel>)
    requires pageSize > 0 && forall m :: m in models ==> models[m].WellFormed()
    ensures BuildConfig(layout, pageSize, capacityBytes, models).WellFormed()
  {
    var cfg := BuildConfig(layout, pageSize, capacityBytes, models);
    forall m | m in models ensures cfg.ModelWellFormed(m) {
      BuildLayoutValid(layout, pageSize, models[m]);
    }
    EachWellFormedIntro(cfg, cfg.order);
  }

  // -------------------------------------------------------- whole-pool bytes

  function ModelBytes(cfg: Config, resident: Mapped): (w: map<int, int>)
    requires resident.Keys == cfg.models.Keys
  {
    map m | m in cfg.models :: Bytes(cfg.models[m], resident[m])
  }

  /** `used_bytes`: everything mapped, over all models. */
  function UsedBytes(cfg: Config, resident: Mapped): int
    requires cfg.Ordered() && resident.Keys == cfg.models.Keys
  {
    InOrder(cfg, ModelBytes(cfg, resident));
    SumOver(cfg.order, ModelBytes(cfg, resident))
  }

  lemma {:induction false} InOrder(cfg: Config, w: map<int, int>)
    requires cfg.Ordered()
    requires forall m :: m in cfg.models ==> m in w
    ensures forall i :: 0 <= i < |cfg.order| ==> cfg.order[i] in w
  {
    forall i | 0 <= i < |cfg.order| ensures cfg.order[i] in w {
      var m := cfg.order[i];
      assert m in cfg.order;
    }
  }

  /** Changing one model's units changes the pool by that model's bytes. */
  lemma {:induction false} UsedUpdate(cfg: Config, resident: Mapped, m: int, units: set<nat>)
    requires cfg.Ordered()
    requires resident.Keys == cfg.models.Keys && m in cfg.models
    ensures UsedBytes(cfg, resident[m := units]) ==
      UsedBytes(cfg, resident) - Bytes(cfg.models[m], resident[m]) + Bytes(cfg.models[m], units)
  {
    var all, rest := cfg.order, Sorted(cfg.models.Keys - {m});
    var before, after := ModelBytes(cfg, resident), ModelBytes(cfg, resident[m := units]);
    InOrder(cfg, before);
    InOrder(cfg, after);
    SumWithout(all, rest, m, before);
    SumWithout(all, rest, m, after);
    forall i | 0 <= i < |rest| ensures before[rest[i]] == after[rest[i]] {
      var x := rest[i];
      assert x in rest;
    }
    SumSame(rest, before, after);
  }

  // ---------------------------------------------------- pools of run prefixes

  /** Every model holds exactly the units of the given prefix. */
  ghost predicate Runs(cfg: Config, resident: Mapped, prefix: map<int, nat>) {
    && cfg.Ordered()
    && resident.Keys == cfg.models.Keys
    && prefix.Keys == cfg.models.Keys
    && EachRuns(cfg, resident, prefix, cfg.order)
  }

  ghost predicate EachRuns(cfg: Config, resident: Mapped, prefix: map<int, nat>, ids: seq<int>)
    requires resident.Keys == prefix.Keys == cfg.models.Keys
  {
    ids == [] ||
    var m := ids[|ids| - 1];
    m in cfg.models && RunsPrefix(cfg.models[m], resident[m], prefix[m]) && EachRuns(cfg, resident, prefix, ids[..|ids| - 1])
  }

  lemma {:induction false} EachRunsAt(cfg: Config, resident: Mapped, prefix: map<int, nat>, ids: seq<int>, i: nat)
    requires resident.Keys == prefix.Keys == cfg.models.Keys && i < |ids|
    requires EachRuns(cfg, resident, prefix, ids)
    ensures ids[i] in cfg.models && RunsPrefix(cfg.models[ids[i]], resident[ids[i]], prefix[ids[i]])
  {
    if i < |ids| - 1 {
      EachRunsAt(cfg, resident, prefix, ids[..|ids| - 1], i);
    }
  }

  lemma {:induction false} RunsAt(cfg: Config, resident: Mapped, prefix: map<int, nat>, m: int)
    requires Runs(cfg, resident, prefix) && m in cfg.models
    ensures RunsPrefix(cfg.models[m], resident[m], prefix[m])
  {
    var i :| 0 <= i < |cfg.order| && cfg.order[i] == m;
    EachRunsAt(cfg, resident, prefix, cfg.order, i);
  }

  lemma {:induction false} EachRunsIntro(cfg: Config, resident: Mapped, prefix: map<int, nat>, ids: seq<int>)
    requires resident.Keys == prefix.Keys == cfg.models.Keys
    requires forall m :: m in ids ==> m in cfg.models
    requires forall m :: m in cfg.models ==> RunsPrefix(cfg.models[m], resident[m], prefix[m])
    ensures EachRuns(cfg, resident, prefix, ids)
  {
    if ids != [] {
      var m := ids[|ids| - 1];
      assert m in ids;
      EachRunsIntro(cfg, resident, prefix, ids[..|ids| - 1]);
    }
  }

  /** No model's prefix could be counted longer from the same units. */
  ghost predicate EachLongest(cfg: Config, prefix: map<int, nat>, ids: seq<int>)
    requires prefix.Keys == cfg.models.Keys
  {
    ids == [] ||
    var m := ids[|ids| - 1];
    m in cfg.models && prefix[m] < |cfg.models[m].unitCounts| && Longest(cfg.models[m], prefix[m])
    && EachLongest(cfg, prefix, ids[..|ids| - 1])
  }

  lemma {:induction false} EachLongestAt(cfg: Config, prefix: map<int, nat>, ids: seq<int>, i: nat)
    requires prefix.Keys == cfg.models.Keys && i < |ids| && EachLongest(cfg, prefix, ids)
    ensures ids[i] in cfg.models && prefix[ids[i]] < |cfg.models[ids[i]].unitCounts|
    ensures Longest(cfg.models[ids[i]], prefix[ids[i]])
  {
    if i < |ids| - 1 {
      EachLongestAt(cfg, prefix, ids[..|ids| - 1], i);
    }
  }

  lemma {:induction false} EachLongestIntro(cfg: Config, prefix: map<int, nat>, ids: seq<int>)
    requires prefix.Keys == cfg.models.Keys
    requires forall m :: m in ids ==> m in cfg.models
    requires forall m :: m in cfg.models ==> prefix[m] < |cfg.models[m].unitCounts| && Longest(cfg.models[m], prefix[m])
    ensures EachLongest(cfg, prefix, ids)
  {
    if ids != [] {
      assert ids[|ids| - 1] in ids;
      EachLongestIntro(cfg, prefix, ids[..|ids| - 1]);
    }
  }

  /** Every model holds exactly the units of its longest resident prefix. */
  ghost predicate Holds(cfg: Config, resident: Mapped, prefix: map<int, nat>) {
    Runs(cfg, resident, prefix) && EachLongest(cfg, prefix, cfg.order)
  }

  lemma {:induction false} HoldsAt(cfg: Config, resident: Mapped, prefix: map<int, nat>, m: int)
    requires Holds(cfg, resident, prefix) && m in cfg.models
    ensures HoldsPrefix(cfg.models[m], resident[m], prefix[m])
  {
    RunsAt(cfg, resident, prefix, m);
    var i :| 0 <= i < |cfg.order| && cfg.order[i] == m;
    EachLongestAt(cfg, prefix, cfg.order, i);
  }

  lemma {:induction false} HoldsIntro(cfg: Config, resident: Mapped, prefix: map<int, nat>)
    requires cfg.Ordered() && resident.Keys == prefix.Keys == cfg.models.Keys
    requires forall m :: m in cfg.models ==> HoldsPrefix(cfg.models[m], resident[m], prefix[m])
    ensures Holds(cfg, resident, prefix)
  {
    EachRunsIntro(cfg, resident, prefix, cfg.order);
    EachLongestIntro(cfg, prefix, cfg.order);
  }

  lemma {:induction false} SamePrefixes(cfg: Config, resident: Mapped, prefix: map<int, nat>, other: map<int, nat>)
    requires Holds(cfg, resident, prefix) && Holds(cfg, resident, other)
    ensures prefix == other
  {
    forall m | m in cfg.models ensures prefix[m] == other[m] {
      HoldsAt(cfg, resident, prefix, m);
      HoldsAt(cfg, resident, other, m);
      PrefixUnique(cfg.models[m], resident[m], prefix[m], other[m]);
    }
  }

  /** Bytes of the given prefixes, model by model. */
  function BytesOf(cfg: Config, m: int, p: nat): int {
    if m in cfg.models then PrefixBytes(cfg.models[m], p) else 0
  }

  function HeldBytes(cfg: Config, prefix: map<int, nat>): (w: map<int, int>) {
    map m | m in prefix :: BytesOf(cfg, m, prefix[m])
  }

  function HeldTotal(cfg: Config, prefix: map<int, nat>): int
    requires cfg.Ordered() && prefix.Keys == cfg.models.Keys
  {
    InOrder(cfg, HeldBytes(cfg, prefix));
    SumOver(cfg.order, HeldBytes(cfg, prefix))
  }

  lemma {:induction false} UsedIsHeld(cfg: Config, resident: Mapped, prefix: map<int, nat>)
    requires cfg.WellFormed() && Runs(cfg, resident, prefix)
    ensures UsedBytes(cfg, resident) == HeldTotal(cfg, prefix)
  {
    var used, held := ModelBytes(cfg, resident), HeldBytes(cfg, prefix);
    InOrder(cfg, used);
    InOrder(cfg, held);
    forall i | 0 <= i < |cfg.order| ensures used[cfg.order[i]] == held[cfg.order[i]] {
      var m := cfg.order[i];
      assert m in cfg.order;
      RunsAt(cfg, resident, prefix, m);
      WellFormedModel(cfg, m);
      RunBytes(cfg.models[m], resident[m], prefix[m]);
    }
    SumSame(cfg.order, used, held);
  }

  // ------------------------------------------------------------- the planner

  /** What the solver is asked, with the layout's own byte curve. */
  function ProblemFor(cfg: Config, prefix: map<int, nat>, damage: DamageFunction): Problem {
    Problem(damage, (m: int, p: nat) => BytesOf(cfg, m, p), prefix)
  }

  lemma {:induction false} PlannerBytes(cfg: Config, resident: Mapped, prefix: map<int, nat>, damage: DamageFunction)
    requires cfg.WellFormed() && Runs(cfg, resident, prefix)
    ensures MonotoneBytes(ProblemFor(cfg, prefix, damage))
  {
    forall m, a: nat, b: nat | m in prefix && a <= b <= prefix[m] ensures BytesOf(cfg, m, a) <= BytesOf(cfg, m, b) {
      RunsAt(cfg, resident, prefix, m);
      WellFormedModel(cfg, m);
      PrefixBytesMonotone(cfg.models[m], a, b);
    }
  }

  /** What a list of choices frees is the difference of the held bytes. */
  lemma {:induction false} FreedIsDifference(cfg: Config, p: Problem, models: seq<int>, choices: map<int, nat>)
    requires p == ProblemFor(cfg, p.resident, p.damage)
    requires ChosenWithin(p, models, choices)
    ensures forall i :: 0 <= i < |models| ==> models[i] in HeldBytes(cfg, p.resident) && models[i] in HeldBytes(cfg, choices)
    ensures FreedBy(p, ChoicesOf(models, choices)) ==
      SumOver(models, HeldBytes(cfg, p.resident)) - SumOver(models, HeldBytes(cfg, choices))
  {
    if models != [] {
      var shorter := models[..|models| - 1];
      FreedIsDifference(cfg, p, shorter, choices);
      var sel := ChoicesOf(models, choices);
      assert sel[..|sel| - 1] == ChoicesOf(shorter, choices);
    }
  }

  /** Over the whole pool, the solver's total is the drop in used bytes. */
  lemma {:induction false} FreedTotalIsDrop(
    cfg: Config, resident: Mapped, prefix: map<int, nat>, damage: DamageFunction, active: int, choices: map<int, nat>)
    requires cfg.WellFormed() && Runs(cfg, resident, prefix)
    requires Admissible(ProblemFor(cfg, prefix, damage), active, choices)
    ensures FreedTotal(ProblemFor(cfg, prefix, damage), active, choices) == UsedBytes(cfg, resident) - HeldTotal(cfg, choices)
  {
    var p := ProblemFor(cfg, prefix, damage);
    var all, rest := cfg.order, Victims(p, active);
    UsedIsHeld(cfg, resident, prefix);
    InOrder(cfg, HeldBytes(cfg, prefix));
    InOrder(cfg, HeldBytes(cfg, choices));
    assert ChosenWithin(p, rest, choices) by {
      forall i | 0 <= i < |rest| ensures rest[i] in p.resident && rest[i] in choices && choices[rest[i]] <= p.resident[rest[i]] {
        var m := rest[i];
        assert m in rest;
      }
    }
    FreedIsDifference(cfg, p, rest, choices);
    SumWithout(all, rest, active, HeldBytes(cfg, prefix));
    SumWithout(all, rest, active, HeldBytes(cfg, choices));
  }

  /** Evicting everything else would leave only the active model's prefix. */
  lemma {:induction false} EvictAllLeavesActive(
    cfg: Config, resident: Mapped, prefix: map<int, nat>, damage: DamageFunction, active: int)
    requires cfg.WellFormed() && Runs(cfg, resident, prefix) && active in cfg.models
    ensures FreedTotal(ProblemFor(cfg, prefix, damage), active, EvictAll(ProblemFor(cfg, prefix, damage), active)) ==
      UsedBytes(cfg, resident) - BytesOf(cfg, active, prefix[active])
  {
    var p := ProblemFor(cfg, prefix, damage);
    var none := EvictAll(p, active);
    FreedTotalIsDrop(cfg, resident, prefix, damage, active, none);
    InOrder(cfg, HeldBytes(cfg, none));
    var all, rest := cfg.order, Victims(p, active);
    SumWithout(all, rest, active, HeldBytes(cfg, none));
    NothingHeld(cfg, p, active, rest);
  }

  lemma {:induction false} NothingHeld(cfg: Config, p: Problem, active: int, rest: seq<int>)
    requires cfg.WellFormed()
    requires forall i :: 0 <= i < |rest| ==> rest[i] != active && rest[i] in HeldBytes(cfg, EvictAll(p, active))
    ensures SumOver(rest, HeldBytes(cfg, EvictAll(p, active))) == 0
  {
    if rest != [] {
      NothingHeld(cfg, p, active, rest[..|rest| - 1]);
      var m := rest[|rest| - 1];
      if m in cfg.models {
        WellFormedModel(cfg, m);
      }
    }
  }

  /** The pool maps at least the active model's prefix. */
  lemma {:induction false} ActiveWithinUsed(cfg: Config, resident: Mapped, prefix: map<int, nat>, damage: DamageFunction, active: int)
    requires cfg.WellFormed() && Runs(cfg, resident, prefix) && active in cfg.models
    ensures UsedBytes(cfg, resident) >= BytesOf(cfg, active, prefix[active])
  {
    var p := ProblemFor(cfg, prefix, damage);
    PlannerBytes(cfg, resident, prefix, damage);
    EvictAllLeavesActive(cfg, resident, prefix, damage, active);
    EvictAllIsMost(p, active, Victims(p, active), EvictAll(p, active));
  }

  /** The other models hold at least what is required. */
  ghost predicate Enough(cfg: Config, held: map<int, nat>, active: int, required: int)
    requires cfg.Ordered() && held.Keys == cfg.models.Keys && active in cfg.models
  {
    HeldTotal(cfg, held) - BytesOf(cfg, active, held[active]) >= required
  }

  /** The plan for this reclaim names a prefix that shares all its units with a
      longer one, which is what counting finds after the commit. */
  ghost predicate Misses(cfg: Config, held: map<int, nat>, damage: DamageFunction, active: int, required: int)
    requires cfg.Ordered() && held.Keys == cfg.models.Keys && active in cfg.models
  {
    && required > 0 && Enough(cfg, held, active, required)
    && exists choices: map<int, nat> ::
         && Planned(ProblemFor(cfg, held, damage), active, required, choices)
         && choices.Keys == cfg.models.Keys && !EachLongest(cfg, choices, cfg.order)
  }

  /** A feasible reclaim misses exactly when its plan is not made of longest prefixes. */
  lemma {:induction false} MissesByPlan(
    cfg: Config, held: map<int, nat>, damage: DamageFunction, active: int, required: int, choices: map<int, nat>)
    requires cfg.Ordered() && held.Keys == choices.Keys == cfg.models.Keys && active in cfg.models
    requires required > 0 && Enough(cfg, held, active, required)
    requires Planned(ProblemFor(cfg, held, damage), active, required, choices)
    ensures Misses(cfg, held, damage, active, required) <==> !EachLongest(cfg, choices, cfg.order)
  {
    hide Planned, EachLongest, Enough, ProblemFor;
    if Misses(cfg, held, damage, active, required) {
      var other: map<int, nat> :|
        && Planned(ProblemFor(cfg, held, damage), active, required, other)
        && other.Keys == cfg.models.Keys && !EachLongest(cfg, other, cfg.order);
      PlanUnique(ProblemFor(cfg, held, damage), active, required, choices, other);
    }
  }

  /** What the committing side relies on of a feasible plan. */
  ghost predicate Covers(cfg: Config, held: map<int, nat>, active: int, plan: Plan, required: int) {
    && cfg.Ordered()
    && Lowered(cfg, held, plan.choices)
    && active in held && plan.choices[active] == held[active]
    && plan.plannedFreeBytes == HeldTotal(cfg, held) - HeldTotal(cfg, plan.choices) >= required
  }

  ghost predicate Lowered(cfg: Config, held: map<int, nat>, choices: map<int, nat>) {
    && held.Keys == cfg.models.Keys
    && choices.Keys == cfg.models.Keys
    && (forall m :: m in choices ==> choices[m] <= held[m])
  }

  /** At least the required bytes left the other models' tails. */
  ghost predicate Reclaimed(
    cfg: Config, before: Mapped, held: map<int, nat>, after: Mapped, kept: map<int, nat>,
    active: int, required: int, evicted: int)
  {
    && Holds(cfg, before, held) && Holds(cfg, after, kept)
    && Lowered(cfg, held, kept)
    && active in kept && kept[active] == held[active]
    && evicted == UsedBytes(cfg, before) - UsedBytes(cfg, after)
    && evicted >= required
  }

  /** The chosen prefixes are the longest ones their units can hold: always when
      prefixes never share all units, and whenever each is the longest of its bytes. */
  lemma {:induction false} ChoicesAreLongest(
    cfg: Config, before: Mapped, prefix: map<int, nat>, damage: DamageFunction, active: int, choices: map<int, nat>)
    requires cfg.WellFormed() && Holds(cfg, before, prefix)
    requires Admissible(ProblemFor(cfg, prefix, damage), active, choices)
    requires cfg.layout == TensorPage || LongestChoices(ProblemFor(cfg, prefix, damage), active, choices)
    ensures EachLongest(cfg, choices, cfg.order)
  {
    forall m | m in cfg.models ensures choices[m] < |cfg.models[m].unitCounts| && Longest(cfg.models[m], choices[m]) {
      HoldsAt(cfg, before, prefix, m);
      WellFormedModel(cfg, m);
      if cfg.layout == CompactPage && m != active {
        LongestChoice(cfg, prefix, damage, m, choices[m]);
      }
    }
    EachLongestIntro(cfg, choices, cfg.order);
  }

  lemma {:induction false} LongestChoice(cfg: Config, prefix: map<int, nat>, damage: DamageFunction, m: int, p: nat)
    requires m in cfg.models && cfg.models[m].Valid() && m in prefix
    requires p <= prefix[m] < |cfg.models[m].unitCounts| && Longest(cfg.models[m], prefix[m])
    requires LongestForItsBytes(ProblemFor(cfg, prefix, damage), Choice(m, p))
    ensures Longest(cfg.models[m], p)
  {
    var layout, held, problem := cfg.models[m], prefix[m], ProblemFor(cfg, prefix, damage);
    forall q | p < q < |layout.unitCounts| ensures layout.unitCounts[q] != layout.unitCounts[p] {
      if q > held {
        assert layout.unitCounts[p] <= layout.unitCounts[held] <= layout.unitCounts[q];
      } else {
        assert problem.prefixBytes(m, q) != problem.prefixBytes(m, p);
        assert PrefixBytes(layout, q) != PrefixBytes(layout, p);
      }
    }
  }

  // ------------------------------------------------------------- the backend

  datatype Error =
    | PrefixInvariantFailed
    | CannotReclaim
    | MissingResident
    | NonCanonical
    | ByteMismatch
    | PrefixMismatch
    | CannotFit

  datatype Result<+T> = Ok(value: T) | Err(error: Error)

  /** What comparing a commit with its preview reports. */
  ghost function CommitOutcome(cfg: Config, after: Mapped, evicted: int, planned: int, choices: map<int, nat>): Result<int> {
    if evicted != planned then Err(ByteMismatch)
    else if Holds(cfg, after, choices) then Ok(evicted)
    else Err(PrefixMismatch)
  }

  /** A feasible plan is one the committing side can rely on. */
  lemma {:induction false} PlanCovers(
    cfg: Config, resident: Mapped, prefix: map<int, nat>, damage: DamageFunction, active: int, plan: Plan, required: int)
    requires cfg.WellFormed() && Holds(cfg, resident, prefix) && active in cfg.models
    requires CheapestCover(ProblemFor(cfg, prefix, damage), active, plan.choices, required)
    requires plan.plannedFreeBytes == FreedTotal(ProblemFor(cfg, prefix, damage), active, plan.choices)
    ensures Covers(cfg, prefix, active, plan, required)
  {
    FreedTotalIsDrop(cfg, resident, prefix, damage, active, plan.choices);
    UsedIsHeld(cfg, resident, prefix);
  }

  /** The commit unmaps the planned bytes, and reproduces the planned prefixes
      exactly when each is the longest its units can hold. */
  lemma {:induction false} Committed(
    cfg: Config, before: Mapped, after: Mapped, held: map<int, nat>,
    active: int, plan: Plan, required: int, evicted: int, r: Result<int>)
    requires cfg.WellFormed() && Holds(cfg, before, held)
    requires Covers(cfg, held, active, plan, required)
    requires Runs(cfg, after, plan.choices)
    requires evicted == UsedBytes(cfg, before) - UsedBytes(cfg, after)
    requires r == CommitOutcome(cfg, after, evicted, plan.plannedFreeBytes, plan.choices)
    ensures r.Ok? ==> Reclaimed(cfg, before, held, after, plan.choices, active, required, r.value)
    ensures r.Ok? <==> EachLongest(cfg, plan.choices, cfg.order)
    ensures r.Err? ==> r == Err(PrefixMismatch)
  {
    UsedIsHeld(cfg, before, held);
    UsedIsHeld(cfg, after, plan.choices);
  }

  /** Counting finds the prefixes every model is known to hold. */
  lemma {:induction false} CountsArePrefix(cfg: Config, resident: Mapped, prefix: map<int, nat>, r: Result<map<int, nat>>)
    requires Holds(cfg, resident, prefix)
    requires r.Ok? ==> Holds(cfg, resident, r.value)
    requires r.Err? ==> exists m :: m in cfg.models && HoldsNoPrefix(cfg.models[m], resident[m])
    ensures r == Ok(prefix)
  {
    CountsSucceed(cfg, resident, prefix, r);
    SamePrefixes(cfg, resident, prefix, r.value);
  }

  /** Counting succeeds while every model holds some prefix. */
  lemma {:induction false} CountsSucceed(cfg: Config, resident: Mapped, prefix: map<int, nat>, r: Result<map<int, nat>>)
    requires Runs(cfg, resident, prefix)
    requires r.Err? ==> exists m :: m in cfg.models && HoldsNoPrefix(cfg.models[m], resident[m])
    ensures r.Ok?
  {
    forall m | m in cfg.models ensures !HoldsNoPrefix(cfg.models[m], resident[m]) {
      RunsAt(cfg, resident, prefix, m);
      SomePrefixHeld(cfg.models[m], resident[m], prefix[m]);
    }
  }

  lemma {:induction false} CountsDecide(cfg: Config, resident: Mapped, choices: map<int, nat>, found: map<int, nat>)
    requires Holds(cfg, resident, found)
    ensures found == choices <==> Holds(cfg, resident, choices)
  {
    if Holds(cfg, resident, choices) {
      SamePrefixes(cfg, resident, found, choices);
    }
  }

  function Members(models: seq<int>): set<int> {
    set m | m in models
  }

  lemma {:induction false} OrderMembers(cfg: Config)
    requires cfg.Ordered()
    ensures Members(cfg.order) == cfg.models.Keys
  {
    assert forall m :: m in Members(cfg.order) <==> m in cfg.models.Keys;
  }

  /** The longest prefix is known for every model but the `rest`. */
  ghost predicate PartlyFound(cfg: Config, resident: Mapped, found: map<int, nat>, rest: seq<int>) {
    && cfg.Ordered()
    && resident.Keys == cfg.models.Keys
    && StrictlyIncreasing(rest)
    && (forall m :: m in rest ==> m in cfg.models)
    && found.Keys == cfg.models.Keys - Members(rest)
    && (forall m :: m in found ==> HoldsPrefix(cfg.models[m], resident[m], found[m]))
  }

  lemma {:induction false} FoundStep(cfg: Config, resident: Mapped, found: map<int, nat>, rest: seq<int>, p: nat)
    requires PartlyFound(cfg, resident, found, rest) && rest != []
    requires var m := rest[|rest| - 1]; m in cfg.models && HoldsPrefix(cfg.models[m], resident[m], p)
    ensures PartlyFound(cfg, resident, found[rest[|rest| - 1] := p], rest[..|rest| - 1])
  {
    var m := rest[|rest| - 1];
    assert m in rest;
    MembersWithoutLast(rest);
    assert Members(rest[..|rest| - 1]) == Members(rest) - {m};
  }

  lemma {:induction false} AllFound(cfg: Config, resident: Mapped, found: map<int, nat>)
    requires PartlyFound(cfg, resident, found, [])
    ensures Holds(cfg, resident, found)
  {
    assert Members([]) == {};
    HoldsIntro(cfg, resident, found);
  }

  /** Every model but the `rest` has moved to its chosen prefix. */
  ghost predicate PartlyCommitted(
    cfg: Config, resident: Mapped, held: map<int, nat>, choices: map<int, nat>, rest: seq<int>)
  {
    && cfg.Ordered()
    && Lowered(cfg, held, choices)
    && resident.Keys == cfg.models.Keys
    && StrictlyIncreasing(rest)
    && (forall m :: m in rest ==> m in cfg.models)
    && (forall m :: m in cfg.models ==>
          && held[m] < |cfg.models[m].unitCounts|
          && RunsPrefix(cfg.models[m], resident[m], if m in rest then held[m] else choices[m]))
  }

  lemma {:induction false} NothingCommitted(cfg: Config, resident: Mapped, held: map<int, nat>, choices: map<int, nat>)
    requires Runs(cfg, resident, held) && Lowered(cfg, held, choices)
    ensures PartlyCommitted(cfg, resident, held, choices, cfg.order)
  {
    forall m | m in cfg.models ensures RunsPrefix(cfg.models[m], resident[m], held[m]) {
      RunsAt(cfg, resident, held, m);
    }
  }

  lemma {:induction false} CommitStep(
    cfg: Config, resident: Mapped, held: map<int, nat>, choices: map<int, nat>, rest: seq<int>)
    requires PartlyCommitted(cfg, resident, held, choices, rest) && rest != []
    ensures var m := rest[|rest| - 1];
      && m in cfg.models && choices[m] <= held[m] < |cfg.models[m].unitCounts|
      && RunsPrefix(cfg.models[m], resident[m], held[m])
      && PartlyCommitted(
           cfg, resident[m := Initial(cfg.models[m].unitCounts[choices[m]])], held, choices, rest[..|rest| - 1])
  {
    var m := rest[|rest| - 1];
    assert m in rest;
    MembersWithoutLast(rest);
  }

  lemma {:induction false} AllCommitted(cfg: Config, resident: Mapped, held: map<int, nat>, choices: map<int, nat>)
    requires PartlyCommitted(cfg, resident, held, choices, [])
    ensures Runs(cfg, resident, choices)
  {
    EachRunsIntro(cfg, resident, choices, cfg.order);
  }

  /** The prefixes counted in an empty pool: leading groups without units. */
  ghost function EmptyPrefixes(cfg: Config): (prefix: map<int, nat>)
    requires cfg.WellFormed()
    ensures prefix.Keys == cfg.models.Keys
    ensures forall m :: m in cfg.models ==> HoldsPrefix(cfg.models[m], {}, prefix[m])
  {
    map m | m in cfg.models :: WellFormedModel(cfg, m); LongestEmpty(cfg.models[m], |cfg.models[m].unitCounts|)
  }

  ghost function LongestEmpty(layout: ModelLayout, p: nat): (r: nat)
    requires layout.Valid() && 0 < p <= |layout.unitCounts|
    requires forall q :: p <= q < |layout.unitCounts| ==> layout.unitCounts[q] != 0
    ensures HoldsPrefix(layout, {}, r)
  {
    if layout.unitCounts[p - 1] == 0 then p - 1 else LongestEmpty(layout, p - 1)
  }

  /** Damage never grows with the prefix kept, whatever is held. */
  ghost predicate FallingDamage(cfg: Config, damage: DamageFunction) {
    forall m, held: nat, a: nat, b: nat :: m in cfg.models && a <= b <= held < |cfg.models[m].unitCounts| ==>
      damage(m, held, b) <= damage(m, held, a)
  }

  /** No prefix that frees at least as much does less damage. */
  ghost predicate CheapestFreeing(cfg: Config, damage: DamageFunction, m: int, held: nat, q: nat) {
    forall r: nat :: r <= held && BytesOf(cfg, m, r) <= BytesOf(cfg, m, q) ==> damage(m, held, q) <= damage(m, held, r)
  }

  /** Cutting `held` groups of a model: a prefix that is cheapest among those freeing
      at least as much is no cheaper than the longest prefix with the same units. */
  ghost predicate KeepsLongest(cfg: Config, damage: DamageFunction, m: int, held: nat)
    requires m in cfg.models && held < |cfg.models[m].unitCounts|
  {
    forall q: nat, l: nat {:trigger CheapestFreeing(cfg, damage, m, held, q), Longest(cfg.models[m], l)} ::
      && q < l <= held && cfg.models[m].unitCounts[l] == cfg.models[m].unitCounts[q]
      && Longest(cfg.models[m], l) && CheapestFreeing(cfg, damage, m, held, q) ==>
        damage(m, held, l) <= damage(m, held, q)
  }

  /** That holds for every model and every prefix it can hold. */
  ghost predicate ReclaimsExactly(cfg: Config, damage: DamageFunction) {
    forall m, held: nat :: m in cfg.models && held < |cfg.models[m].unitCounts| && Longest(cfg.models[m], held) ==>
      KeepsLongest(cfg, damage, m, held)
  }

  /** When prefixes never share all their units, as in the tensor-page layout and
      with page-aligned groups, or when damage falls with the prefix, it always holds. */
  lemma {:induction false} AlwaysExact(cfg: Config, damage: DamageFunction)
    requires cfg.WellFormed()
    ensures cfg.layout == TensorPage ==> ReclaimsExactly(cfg, damage)
    ensures (forall m :: m in cfg.models ==> cfg.models[m].DistinctPrefixes()) ==> ReclaimsExactly(cfg, damage)
    ensures FallingDamage(cfg, damage) ==> ReclaimsExactly(cfg, damage)
  {
    hide CheapestFreeing, Longest;
    if cfg.layout == TensorPage {
      forall m | m in cfg.models ensures cfg.models[m].DistinctPrefixes() {
        WellFormedModel(cfg, m);
      }
    }
  }

  /** With the other prefixes left alone, the chosen prefix of one model is cheapest
      among those freeing at least as much. */
  lemma {:induction false} ChosenIsCheapest(
    cfg: Config, prefix: map<int, nat>, damage: DamageFunction, active: int, choices: map<int, nat>, required: int, m: int)
    requires m in prefix && m != active
    requires CheapestCover(ProblemFor(cfg, prefix, damage), active, choices, required)
    ensures choices[m] <= prefix[m] && CheapestFreeing(cfg, damage, m, prefix[m], choices[m])
  {
    var p, q := ProblemFor(cfg, prefix, damage), choices[m];
    forall r: nat | r <= prefix[m] && BytesOf(cfg, m, r) <= BytesOf(cfg, m, q)
      ensures damage(m, prefix[m], q) <= damage(m, prefix[m], r)
    {
      OneChoiceChanged(p, active, choices, m, r);
      assert p.prefixBytes(m, r) == BytesOf(cfg, m, r) && p.prefixBytes(m, q) == BytesOf(cfg, m, q);
    }
  }

  /** The longest prefix with as many units. */
  lemma {:induction false} LongestAlike(layout: ModelLayout, q: nat, held: nat) returns (l: nat)
    requires layout.Valid() && q <= held < |layout.unitCounts| && Longest(layout, held)
    ensures q <= l <= held && layout.unitCounts[l] == layout.unitCounts[q] && Longest(layout, l)
    decreases held - q
  {
    if Longest(layout, q) {
      l := q;
    } else {
      var n :| q < n < |layout.unitCounts| && layout.unitCounts[n] == layout.unitCounts[q];
      assert layout.unitCounts[q] <= layout.unitCounts[held];
      assert held <= n ==> layout.unitCounts[held] <= layout.unitCounts[n];
      l := LongestAlike(layout, n, held);
    }
  }

  /** A plan keeps the longest prefix of a model whose cut is never cheaper shorter. */
  lemma {:induction false} KeptIsLongest(
    cfg: Config, resident: Mapped, prefix: map<int, nat>, damage: DamageFunction,
    active: int, choices: map<int, nat>, required: int, m: int)
    requires cfg.WellFormed() && Holds(cfg, resident, prefix) && m in cfg.models && m != active
    requires choices.Keys == prefix.Keys
    requires CheapestCover(ProblemFor(cfg, prefix, damage), active, choices, required)
    requires PrefersLonger(ProblemFor(cfg, prefix, damage), Choice(m, choices[m]))
    requires prefix[m] < |cfg.models[m].unitCounts| && KeepsLongest(cfg, damage, m, prefix[m])
    ensures choices[m] < |cfg.models[m].unitCounts| && Longest(cfg.models[m], choices[m])
  {
    hide CheapestCover, CheapestFreeing, EachRuns, EachLongest;
    var p, layout, q, held := ProblemFor(cfg, prefix, damage), cfg.models[m], choices[m], prefix[m];
    WellFormedModel(cfg, m);
    HoldsAt(cfg, resident, prefix, m);
    ChosenIsCheapest(cfg, prefix, damage, active, choices, required, m);
    var l := LongestAlike(layout, q, held);
    assert p.prefixBytes(m, l) == p.prefixBytes(m, q);
    assert q < l ==> damage(m, held, l) <= damage(m, held, q) && damage(m, held, q) < damage(m, held, l);
  }

  /** So no reclaim misses where that holds for every other model. */
  lemma {:induction false} PlansLongest(
    cfg: Config, resident: Mapped, prefix: map<int, nat>, damage: DamageFunction, active: int, choices: map<int, nat>, required: int)
    requires cfg.WellFormed() && Holds(cfg, resident, prefix)
    requires CheapestCover(ProblemFor(cfg, prefix, damage), active, choices, required)
    requires choices.Keys == prefix.Keys && PreferringChoices(ProblemFor(cfg, prefix, damage), active, choices)
    requires forall m :: m in cfg.models && m != active && prefix[m] < |cfg.models[m].unitCounts| ==>
      KeepsLongest(cfg, damage, m, prefix[m])
    ensures EachLongest(cfg, choices, cfg.order)
  {
    hide CheapestCover, KeepsLongest, EachRuns, EachLongest, Longest, PrefersLonger;
    forall m | m in cfg.models ensures choices[m] < |cfg.models[m].unitCounts| && Longest(cfg.models[m], choices[m]) {
      HoldsAt(cfg, resident, prefix, m);
      if m == active {
        ActiveKept(ProblemFor(cfg, prefix, damage), active, choices, required);
      } else {
        KeptIsLongest(cfg, resident, prefix, damage, active, choices, required, m);
      }
    }
    EachLongestIntro(cfg, choices, cfg.order);
  }

  lemma {:induction false} PlansExact(
    cfg: Config, resident: Mapped, prefix: map<int, nat>, damage: DamageFunction, active: int, choices: map<int, nat>, required: int)
    requires cfg.WellFormed() && Holds(cfg, resident, prefix) && ReclaimsExactly(cfg, damage)
    requires CheapestCover(ProblemFor(cfg, prefix, damage), active, choices, required)
    requires choices.Keys == prefix.Keys && PreferringChoices(ProblemFor(cfg, prefix, damage), active, choices)
    ensures EachLongest(cfg, choices, cfg.order)
  {
    hide CheapestCover, KeepsLongest, EachRuns, EachLongest, Longest, PrefersLonger;
    forall m | m in cfg.models && m != active && prefix[m] < |cfg.models[m].unitCounts|
      ensures KeepsLongest(cfg, damage, m, prefix[m])
    {
      HoldsAt(cfg, resident, prefix, m);
    }
    PlansLongest(cfg, resident, prefix, damage, active, choices, required);
  }

  /** Units needed by the first `i` tensors of a model. */
  function UnitsOf(layout: ModelLayout, i: nat): set<nat>
    requires i <= |layout.tensorGroup|
    requires forall k :: 0 <= k < |layout.tensorGroup| ==> layout.tensorGroup[k] < |layout.groupUnits|
  {
    if i == 0 then {} else UnitsOf(layout, i - 1) + layout.groupUnits[layout.tensorGroup[i - 1]]
  }

  function AllUnits(layout: ModelLayout): set<nat> {
    Initial(|layout.unitBytes|)
  }

  lemma {:induction false} UnitsOfMember(layout: ModelLayout, i: nat, k: nat)
    requires layout.Valid() && k < i <= |layout.tensorGroup|
    ensures layout.groupUnits[layout.tensorGroup[k]] <= UnitsOf(layout, i)
  {
    if k < i - 1 {
      UnitsOfMember(layout, i - 1, k);
    }
  }

  lemma {:induction false} UnitsOfBelow(layout: ModelLayout, i: nat)
    requires layout.Valid() && i <= |layout.tensorGroup|
    ensures UnitsOf(layout, i) <= AllUnits(layout)
  {
    if i > 0 {
      UnitsOfBelow(layout, i - 1);
      var g := layout.tensorGroup[i - 1];
      assert Reaches(layout.groupUnits[g], layout.unitCounts[g], layout.unitCounts[g + 1]);
      assert layout.unitCounts[g + 1] <= layout.unitCounts[|layout.groupUnits|];
    }
  }

  /** Running all tensors of a model needs exactly all of its units. */
  lemma {:induction false} RequestNeedsAll(layout: ModelLayout)
    requires layout.Valid()
    ensures UnitsOf(layout, |layout.tensorGroup|) == AllUnits(layout)
  {
    UnitsOfBelow(layout, |layout.tensorGroup|);
    forall u | u in AllUnits(layout) ensures u in UnitsOf(layout, |layout.tensorGroup|) {
      var g := UnitOwner(layout, |layout.groupUnits|, u);
      assert g in layout.tensorGroup;
      var k :| 0 <= k < |layout.tensorGroup| && layout.tensorGroup[k] == g;
      UnitsOfMember(layout, |layout.tensorGroup|, k);
    }
  }

  /** What a resident prefix leaves missing. */
  lemma {:induction false} MissingBytes(cfg: Config, resident: Mapped, prefix: map<int, nat>, m: int)
    requires cfg.WellFormed() && Runs(cfg, resident, prefix) && m in cfg.models
    ensures Bytes(cfg.models[m], AllUnits(cfg.models[m]) - resident[m]) ==
      FullBytes(cfg.models[m]) - BytesOf(cfg, m, prefix[m])
    ensures 0 <= BytesOf(cfg, m, prefix[m]) <= FullBytes(cfg.models[m])
  {
    var layout := cfg.models[m];
    WellFormedModel(cfg, m);
    RunsAt(cfg, resident, prefix, m);
    RunDifference(layout, |layout.groupUnits|, prefix[m]);
    PrefixBytesMonotone(layout, prefix[m], |layout.groupUnits|);
  }

  /** Disjoint units of a model take no more bytes together than all of them. */
  lemma {:induction false} BytesUnion(layout: ModelLayout, s: set<nat>, t: set<nat>)
    requires s !! t
    ensures Bytes(layout, s + t) == Bytes(layout, s) + Bytes(layout, t)
  {
    BytesSplit(layout.unitBytes, s + t, s, |layout.unitBytes|);
    assert (s + t) * s == s && (s + t) - s == t;
  }

  lemma {:induction false} NothingMissing(layout: ModelLayout, held: set<nat>, units: set<nat>)
    requires units - held == {}
    ensures held + units == held && Bytes(layout, units - held) == 0
  {
    BytesOfRun(layout.unitBytes, 0, |layout.unitBytes|);
    forall u | u in units ensures u in held {
      assert u in held || u in units - held;
    }
  }

  lemma {:induction false} HeldBelow(layout: ModelLayout, units: set<nat>, p: nat)
    requires layout.Valid() && RunsPrefix(layout, units, p)
    ensures units <= AllUnits(layout)
  {
    assert layout.unitCounts[p] <= layout.unitCounts[|layout.groupUnits|];
  }

  /** The next tensor's missing units, on top of what is loaded already, are among
      the units the request was missing from the start. */
  lemma {:induction false} NextTensorFits(layout: ModelLayout, held: set<nat>, i: nat)
    requires layout.Valid() && i < |layout.tensorGroup| && held <= AllUnits(layout)
    ensures var next := layout.groupUnits[layout.tensorGroup[i]] - (held + UnitsOf(layout, i));
      && Bytes(layout, UnitsOf(layout, i) - held) + Bytes(layout, next) == Bytes(layout, UnitsOf(layout, i + 1) - held)
      && Bytes(layout, UnitsOf(layout, i + 1) - held) <= Bytes(layout, AllUnits(layout) - held)
      && held + UnitsOf(layout, i) + layout.groupUnits[layout.tensorGroup[i]] == held + UnitsOf(layout, i + 1)
  {
    var loaded, next := UnitsOf(layout, i) - held, layout.groupUnits[layout.tensorGroup[i]] - (held + UnitsOf(layout, i));
    BytesUnion(layout, loaded, next);
    assert loaded + next == UnitsOf(layout, i + 1) - held;
    UnitsOfBelow(layout, i + 1);
    var rest := AllUnits(layout) - held - (UnitsOf(layout, i + 1) - held);
    BytesUnion(layout, UnitsOf(layout, i + 1) - held, rest);
    assert (UnitsOf(layout, i + 1) - held) + rest == AllUnits(layout) - held;
  }

  /** `i` tensors of the model are loaded, for `mapped` new bytes. */
  ghost predicate Loading(cfg: Config, before: Mapped, now: Mapped, m: int, i: nat, mapped: int) {
    && cfg.WellFormed() && before.Keys == cfg.models.Keys && m in cfg.models
    && cfg.models[m].Valid() && i <= |cfg.models[m].tensorGroup|
    && before[m] <= AllUnits(cfg.models[m])
    && now == before[m := before[m] + UnitsOf(cfg.models[m], i)]
    && mapped == Bytes(cfg.models[m], UnitsOf(cfg.models[m], i) - before[m])
    && UsedBytes(cfg, now) == UsedBytes(cfg, before) + mapped
  }

  lemma {:induction false} NothingLoaded(cfg: Config, before: Mapped, m: int)
    requires cfg.WellFormed() && before.Keys == cfg.models.Keys && m in cfg.models
    requires cfg.models[m].Valid() && before[m] <= AllUnits(cfg.models[m])
    ensures Loading(cfg, before, before, m, 0, 0)
  {
    NothingMissing(cfg.models[m], before[m], UnitsOf(cfg.models[m], 0));
    assert before == before[m := before[m] + UnitsOf(cfg.models[m], 0)];
  }

  /** The next tensor fits where the whole request does, and loading it advances. */
  lemma {:induction false} LoadingStep(cfg: Config, before: Mapped, now: Mapped, m: int, i: nat, mapped: int)
    requires Loading(cfg, before, now, m, i, mapped) && i < |cfg.models[m].tensorGroup|
    ensures var layout := cfg.models[m];
      var units := layout.groupUnits[layout.tensorGroup[i]];
      && UsedBytes(cfg, now) + Bytes(layout, units - now[m])
         <= UsedBytes(cfg, before) + Bytes(layout, AllUnits(layout) - before[m])
      && now[m := now[m] + units] == before[m := before[m] + UnitsOf(layout, i + 1)]
      && mapped + Bytes(layout, units - now[m]) == Bytes(layout, UnitsOf(layout, i + 1) - before[m])
  {
    NextTensorFits(cfg.models[m], before[m], i);
  }

  lemma {:induction false} EverythingLoaded(
    cfg: Config, before: Mapped, now: Mapped, prefix: map<int, nat>, m: int, mapped: int)
    requires Holds(cfg, before, prefix) && m in cfg.models
    requires Loading(cfg, before, now, m, |cfg.models[m].tensorGroup|, mapped)
    ensures now == before[m := AllUnits(cfg.models[m])]
    ensures mapped == Bytes(cfg.models[m], AllUnits(cfg.models[m]) - before[m])
    ensures Holds(cfg, now, prefix[m := |cfg.models[m].groupUnits|])
  {
    RequestNeedsAll(cfg.models[m]);
    assert before[m] + AllUnits(cfg.models[m]) == AllUnits(cfg.models[m]);
    FullyLoaded(cfg, before, now, prefix, m);
  }

  /** The requested model is loaded whole; no other prefix has grown. */
  ghost predicate Served(cfg: Config, before: map<int, nat>, after: map<int, nat>, m: int) {
    && before.Keys == after.Keys == cfg.models.Keys
    && m in cfg.models && after[m] == |cfg.models[m].groupUnits|
    && forall x :: x in cfg.models && x != m ==> after[x] <= before[x]
  }

  /** The choices are a cheapest cover, and the one the solver returns. */
  ghost predicate BestReclaim(p: Problem, active: int, choices: map<int, nat>, required: int) {
    CheapestCover(p, active, choices, required) && Planned(p, active, required, choices)
  }

  /** One reclaim leaves no freedom: nothing changes, or the one plan is carried out. */
  ghost predicate Decides(
    cfg: Config, before: map<int, nat>, after: map<int, nat>, damage: DamageFunction, active: int, required: int)
  {
    if required <= 0 then after == before else Planned(ProblemFor(cfg, before, damage), active, required, after)
  }

  /** What the two reclaims of a request require, by the prefixes held. */
  ghost function TrimShortage(cfg: Config, prefix: map<int, nat>, limit: int): int
    requires cfg.Ordered() && prefix.Keys == cfg.models.Keys
  {
    HeldTotal(cfg, prefix) - limit
  }

  ghost function RequestShortage(cfg: Config, prefix: map<int, nat>, m: int, limit: int): int
    requires cfg.Ordered() && prefix.Keys == cfg.models.Keys && m in cfg.models
  {
    HeldTotal(cfg, prefix) + FullBytes(cfg.models[m]) - BytesOf(cfg, m, prefix[m]) - limit
  }

  /** The prefixes a request leaves behind, by way of `kept` and `room`. */
  ghost predicate Passes(
    cfg: Config, before: map<int, nat>, kept: map<int, nat>, room: map<int, nat>, damage: DamageFunction, m: int, limit: int)
    requires cfg.Ordered() && m in cfg.models
  {
    && before.Keys == kept.Keys == cfg.models.Keys
    && Decides(cfg, before, kept, damage, m, TrimShortage(cfg, before, limit))
    && Decides(cfg, kept, room, damage, m, RequestShortage(cfg, kept, m, limit))
  }

  /** The outcome of serving a request on these prefixes. */
  ghost predicate ServesTo(
    cfg: Config, before: map<int, nat>, after: map<int, nat>, damage: DamageFunction, m: int, limit: int)
    requires cfg.Ordered() && m in cfg.models
  {
    exists kept: map<int, nat>, room: map<int, nat> ::
      Passes(cfg, before, kept, room, damage, m, limit) && after == room[m := |cfg.models[m].groupUnits|]
  }

  /** One of the two reclaims of a request misses its preview. */
  ghost predicate ServeMisses(cfg: Config, before: map<int, nat>, damage: DamageFunction, m: int, limit: int)
    requires cfg.Ordered() && before.Keys == cfg.models.Keys && m in cfg.models
  {
    || Misses(cfg, before, damage, m, TrimShortage(cfg, before, limit))
    || exists kept: map<int, nat> ::
         && Trimmed(cfg, before, kept, damage, m, limit)
         && Misses(cfg, kept, damage, m, RequestShortage(cfg, kept, m, limit))
  }

  /** The trim of a request goes through and leaves these prefixes. */
  ghost predicate Trimmed(
    cfg: Config, before: map<int, nat>, kept: map<int, nat>, damage: DamageFunction, m: int, limit: int)
    requires cfg.Ordered() && before.Keys == cfg.models.Keys && m in cfg.models
  {
    && kept.Keys == cfg.models.Keys
    && (HeldTotal(cfg, before) <= limit || BytesOf(cfg, m, before[m]) <= limit)
    && Decides(cfg, before, kept, damage, m, TrimShortage(cfg, before, limit))
  }

  /** A trim that goes through decides which second reclaim a request makes. */
  lemma {:induction false} SecondReclaim(
    cfg: Config, before: map<int, nat>, kept: map<int, nat>, damage: DamageFunction, m: int, limit: int)
    requires cfg.Ordered() && before.Keys == cfg.models.Keys && m in cfg.models
    requires Trimmed(cfg, before, kept, damage, m, limit)
    requires !Misses(cfg, before, damage, m, TrimShortage(cfg, before, limit))
    ensures ServeMisses(cfg, before, damage, m, limit) <==>
      Misses(cfg, kept, damage, m, RequestShortage(cfg, kept, m, limit))
  {
    hide Misses, Decides;
    if ServeMisses(cfg, before, damage, m, limit) {
      var other: map<int, nat> :|
        && Trimmed(cfg, before, other, damage, m, limit)
        && Misses(cfg, other, damage, m, RequestShortage(cfg, other, m, limit));
      DecidesUnique(cfg, before, kept, other, damage, m, TrimShortage(cfg, before, limit));
    }
  }

  /** A trim that cannot free enough leaves nothing for a second reclaim. */
  lemma {:induction false} NoSecondReclaim(
    cfg: Config, before: map<int, nat>, damage: DamageFunction, m: int, limit: int)
    requires cfg.Ordered() && before.Keys == cfg.models.Keys && m in cfg.models
    requires HeldTotal(cfg, before) > limit && BytesOf(cfg, m, before[m]) > limit
    ensures !ServeMisses(cfg, before, damage, m, limit)
  {
  }

  lemma {:induction false} DecidesUnique(
    cfg: Config, before: map<int, nat>, a: map<int, nat>, b: map<int, nat>, damage: DamageFunction, active: int, required: int)
    requires Decides(cfg, before, a, damage, active, required) && Decides(cfg, before, b, damage, active, required)
    ensures a == b
  {
    if required > 0 {
      PlanUnique(ProblemFor(cfg, before, damage), active, required, a, b);
    }
  }

  /** Serving the same request from the same prefixes has one outcome. */
  lemma {:induction false} ServedUnique(
    cfg: Config, before: map<int, nat>, a: map<int, nat>, b: map<int, nat>, damage: DamageFunction, m: int, limit: int)
    requires cfg.Ordered() && m in cfg.models
    requires ServesTo(cfg, before, a, damage, m, limit) && ServesTo(cfg, before, b, damage, m, limit)
    ensures a == b
  {
    var keptA: map<int, nat>, roomA: map<int, nat> :|
      Passes(cfg, before, keptA, roomA, damage, m, limit) && a == roomA[m := |cfg.models[m].groupUnits|];
    var keptB: map<int, nat>, roomB: map<int, nat> :|
      Passes(cfg, before, keptB, roomB, damage, m, limit) && b == roomB[m := |cfg.models[m].groupUnits|];
    DecidesUnique(cfg, before, keptA, keptB, damage, m, TrimShortage(cfg, before, limit));
    DecidesUnique(cfg, keptA, roomA, roomB, damage, m, RequestShortage(cfg, keptA, m, limit));
  }

  lemma {:induction false} LowersTwice(cfg: Config, a: map<int, nat>, b: map<int, nat>, c: map<int, nat>, m: int)
    requires Lowered(cfg, a, b) && Lowered(cfg, b, c) && m in cfg.models
    ensures Served(cfg, a, c[m := |cfg.models[m].groupUnits|], m)
  {
  }

  /** A fully loaded model holds its longest prefix: all groups. */
  lemma {:induction false} FullyLoaded(cfg: Config, before: Mapped, after: Mapped, prefix: map<int, nat>, m: int)
    requires cfg.WellFormed() && Holds(cfg, before, prefix) && m in cfg.models
    requires after == before[m := AllUnits(cfg.models[m])]
    ensures Holds(cfg, after, prefix[m := |cfg.models[m].groupUnits|])
  {
    var full := prefix[m := |cfg.models[m].groupUnits|];
    WellFormedModel(cfg, m);
    forall x | x in cfg.models ensures HoldsPrefix(cfg.models[x], after[x], full[x]) {
      HoldsAt(cfg, before, prefix, x);
    }
    HoldsIntro(cfg, after, full);
  }

  /** Bytes unmapped from other models and mapped for the request. */
  datatype Cost = Cost(evictedBytes: int, mappedBytes: int)

  /** A page backend under the mckp-prefix policy. */
  class PagePrefixMemory {
    const cfg: Config
    var resident: Mapped
    var weightCapacityBytes: int
    var damage: DamageFunction
    /** The resident prefix of every model, as `resident_prefix_count` finds it. */
    ghost var prefix: map<int, nat>

    ghost predicate Valid()
      reads this
    {
      && cfg.WellFormed()
      && Holds(cfg, resident, prefix)
      && Fair(damage)
    }

    constructor (cfg: Config)
      requires cfg.WellFormed()
      ensures Valid() && this.cfg == cfg
      ensures forall m :: m in cfg.models ==> resident[m] == {}
    {
      this.cfg := cfg;
      resident := map m | m in cfg.models :: {};
      weightCapacityBytes := cfg.capacityBytes;
      damage := (m, held, kept) => 0.0;
      prefix := EmptyPrefixes(cfg);
      new;
      HoldsIntro(cfg, resident, prefix);
    }

    /** `clone`: a new pool in the same state. */
    method Clone() returns (copy: PagePrefixMemory)
      requires Valid()
      ensures fresh(copy) && copy.Valid() && copy.cfg == cfg
      ensures copy.resident == resident && copy.prefix == prefix
      ensures copy.weightCapacityBytes == weightCapacityBytes && copy.damage == damage
    {
      copy := new PagePrefixMemory(cfg);
      copy.resident, copy.weightCapacityBytes, copy.damage := resident, weightCapacityBytes, damage;
      copy.prefix := prefix;
    }

    /** Install the damage predicted from the current samples. */
    method SetPrediction(predicted: DamageFunction)
      requires Valid() && Fair(predicted)
      modifies this`damage
      ensures Valid() && damage == predicted
    {
      damage := predicted;
    }

    /** The longest prefix whose units are exactly the resident ones. */
    method ResidentPrefixCount(m: int) returns (r: Result<nat>)
      requires m in cfg.models && m in resident
      ensures r.Ok? ==> HoldsPrefix(cfg.models[m], resident[m], r.value)
      ensures r.Err? ==> r.error == PrefixInvariantFailed && HoldsNoPrefix(cfg.models[m], resident[m])
    {
      var counts := cfg.models[m].unitCounts;
      var canonical := resident[m] == Initial(|resident[m]|);
      for p := |counts| downto 0
        invariant forall q :: p <= q < |counts| ==> !(canonical && |resident[m]| == counts[q])
      {
        if canonical && |resident[m]| == counts[p] {
          return Ok(p);
        }
      }
      forall p | 0 <= p < |counts| ensures resident[m] != Initial(counts[p]) {
        InitialSize(counts[p]);
      }
      return Err(PrefixInvariantFailed);
    }

    method ResidentPrefixes() returns (r: Result<map<int, nat>>)
      requires cfg.Ordered() && resident.Keys == cfg.models.Keys
      ensures r.Ok? ==> Holds(cfg, resident, r.value)
      ensures r.Err? ==> r.error == PrefixInvariantFailed
      ensures r.Err? ==> exists m :: m in cfg.models && HoldsNoPrefix(cfg.models[m], resident[m])
    {
      var found: map<int, nat> := map[];
      var rest := cfg.order;
      OrderMembers(cfg);
      while rest != []
        invariant PartlyFound(cfg, resident, found, rest)
      {
        var m := rest[|rest| - 1];
        assert m in rest;
        var count := ResidentPrefixCount(m);
        if count.Err? {
          return Err(count.error);
        }
        FoundStep(cfg, resident, found, rest, count.value);
        found := found[m := count.value];
        rest := rest[..|rest| - 1];
      }
      AllFound(cfg, resident, found);
      return Ok(found);
    }

    /** Unmap the units between two prefixes of one model. */
    method CommitPrefix(m: int, held: nat, kept: nat) returns (r: Result<int>)
      requires resident.Keys == cfg.models.Keys && m in cfg.models && cfg.models[m].Valid()
      requires kept <= held < |cfg.models[m].unitCounts|
      modifies this`resident
      ensures old(resident[m]) == Initial(cfg.models[m].unitCounts[held]) ==>
        && r == Ok(PrefixBytes(cfg.models[m], held) - PrefixBytes(cfg.models[m], kept))
        && resident == old(resident)[m := Initial(cfg.models[m].unitCounts[kept])]
    {
      var counts := cfg.models[m].unitCounts;
      var keep := Initial(counts[kept]);
      var expected := Initial(counts[held]) - keep;
      if cfg.layout == TensorPage {
        if !(expected <= resident[m]) {
          return Err(MissingResident);
        }
      } else if resident[m] - keep != expected {
        return Err(NonCanonical);
      }
      RunDifference(cfg.models[m], held, kept);
      resident := resident[m := resident[m] - expected];
      return Ok(Bytes(cfg.models[m], expected));
    }

    /** Move one model to its chosen prefix, if that gives anything up. */
    method CommitModel(m: int, held: nat, kept: nat) returns (evicted: int)
      requires cfg.Ordered() && resident.Keys == cfg.models.Keys && m in cfg.models && cfg.models[m].Valid()
      requires kept <= held && RunsPrefix(cfg.models[m], resident[m], held)
      modifies this`resident
      ensures resident == old(resident)[m := Initial(cfg.models[m].unitCounts[kept])]
      ensures evicted == old(UsedBytes(cfg, resident)) - UsedBytes(cfg, resident)
    {
      evicted := 0;
      if kept < held {
        var freed := CommitPrefix(m, held, kept);
        evicted := freed.value;
        UsedUpdate(cfg, old(resident), m, resident[m]);
        RunBytes(cfg.models[m], old(resident)[m], held);
        RunBytes(cfg.models[m], resident[m], kept);
      } else {
        assert resident == old(resident)[m := Initial(cfg.models[m].unitCounts[kept])];
      }
    }

    /** Commit the planned prefixes; the bytes unmapped are counted as they go. */
    method CommitChoices(held: map<int, nat>, choices: map<int, nat>) returns (evicted: int)
      requires cfg.WellFormed() && Runs(cfg, resident, held)
      requires Lowered(cfg, held, choices)
      modifies this`resident
      ensures Runs(cfg, resident, choices)
      ensures evicted == old(UsedBytes(cfg, resident)) - UsedBytes(cfg, resident)
    {
      evicted := 0;
      var rest := cfg.order;
      NothingCommitted(cfg, resident, held, choices);
      while rest != []
        invariant PartlyCommitted(cfg, resident, held, choices, rest)
        invariant evicted == old(UsedBytes(cfg, resident)) - UsedBytes(cfg, resident)
      {
        var m := rest[|rest| - 1];
        CommitStep(cfg, resident, held, choices, rest);
        WellFormedModel(cfg, m);
        var freed := CommitModel(m, held[m], choices[m]);
        evicted := evicted + freed;
        rest := rest[..|rest| - 1];
      }
      AllCommitted(cfg, resident, held, choices);
    }

    /** Carry a plan out and compare the result with its preview. */
    method CommitPlan(planned: int, held: map<int, nat>, choices: map<int, nat>) returns (r: Result<int>, evicted: int)
      requires cfg.WellFormed() && Runs(cfg, resident, held) && Lowered(cfg, held, choices)
      modifies this`resident
      ensures Runs(cfg, resident, choices)
      ensures evicted == old(UsedBytes(cfg, resident)) - UsedBytes(cfg, resident)
      ensures r == CommitOutcome(cfg, resident, evicted, planned, choices)
    {
      evicted := CommitChoices(held, choices);
      var after := ResidentPrefixes();
      CountsSucceed(cfg, resident, choices, after);
      CountsDecide(cfg, resident, choices, after.value);
      r := if evicted != planned then Err(ByteMismatch)
           else if after.value != choices then Err(PrefixMismatch)
           else Ok(evicted);
    }

    /** The plan for a reclaim that is not empty, if there is one. */
    method PlanReclaim(active: int, required: int) returns (held: map<int, nat>, plan: Plan)
      requires Valid() && active in cfg.models && required > 0
      ensures held == prefix
      ensures plan.feasible ==> Covers(cfg, prefix, active, plan, required)
      ensures plan.feasible ==> BestReclaim(ProblemFor(cfg, prefix, damage), active, plan.choices, required)
      ensures plan.feasible ==> PreferringChoices(ProblemFor(cfg, prefix, damage), active, plan.choices)
      ensures plan.feasible <==> Enough(cfg, prefix, active, required)
    {
      hide CheapestCover, Planned, PreferringChoices, MonotoneBytes, FreedTotal, Covers, EachRuns, EachLongest, EvictAll;
      var before := ResidentPrefixes();
      CountsArePrefix(cfg, resident, prefix, before);
      held := before.value;
      PlannerBytes(cfg, resident, prefix, damage);
      EvictAllLeavesActive(cfg, resident, prefix, damage, active);
      UsedIsHeld(cfg, resident, prefix);
      plan := SolveCoveringMckp(ProblemFor(cfg, held, damage), active, required);
      if plan.feasible {
        PlanCovers(cfg, resident, prefix, damage, active, plan, required);
      }
    }

    /** Carry out a plan that covers the requirement. */
    method CommitFeasible(active: int, required: int, held: map<int, nat>, plan: Plan) returns (r: Result<int>)
      requires cfg.WellFormed() && Holds(cfg, resident, held) && held == prefix
      requires Covers(cfg, held, active, plan, required)
      modifies this`resident, this`prefix
      ensures r.Ok? ==> prefix == plan.choices
      ensures r.Ok? ==> Reclaimed(cfg, old(resident), held, resident, plan.choices, active, required, r.value)
      ensures r.Ok? <==> EachLongest(cfg, plan.choices, cfg.order)
      ensures r.Err? ==> r == Err(PrefixMismatch)
    {
      hide EachRuns, EachLongest, Reclaimed, BytesOf, HeldTotal, UsedBytes, CommitOutcome;
      var evicted;
      r, evicted := CommitPlan(plan.plannedFreeBytes, held, plan.choices);
      Committed(cfg, old(resident), resident, held, active, plan, required, evicted, r);
      if r.Ok? {
        prefix := plan.choices;
      }
    }

    /** A reclaim that has something to do. */
    method ReclaimSome(active: int, required: int) returns (r: Result<int>)
      requires Valid() && active in cfg.models && required > 0
      modifies this`resident, this`prefix
      ensures r.Ok? ==> Reclaimed(cfg, old(resident), old(prefix), resident, prefix, active, required, r.value)
      ensures r.Ok? ==> BestReclaim(ProblemFor(cfg, old(prefix), damage), active, prefix, required)
      ensures r == Err(CannotReclaim) ==> resident == old(resident) && prefix == old(prefix)
      ensures r == Err(CannotReclaim) <==> !Enough(cfg, old(prefix), active, required)
      ensures r == Err(PrefixMismatch) <==> Misses(cfg, old(prefix), damage, active, required)
      ensures r.Err? ==> r.error == CannotReclaim || r.error == PrefixMismatch
      ensures r == Err(PrefixMismatch) ==> !ReclaimsExactly(cfg, damage)
    {
      hide EachRuns, EachLongest, CheapestCover, Planned, PreferringChoices, Enough, ProblemFor, UsedBytes;
      var held, plan := PlanReclaim(active, required);
      if !plan.feasible {
        return Err(CannotReclaim);
      }
      MissesByPlan(cfg, prefix, damage, active, required, plan.choices);
      if ReclaimsExactly(cfg, damage) {
        PlansExact(cfg, resident, prefix, damage, active, plan.choices, required);
      }
      r := CommitFeasible(active, required, held, plan);
    }

    /** Reclaim at least the required bytes from the other models by one exact
        plan. Nothing is asked of the solver when nothing is required. */
    method MckpReclaim(active: int, required: int) returns (r: Result<int>)
      requires active in cfg.models && (required > 0 ==> Valid())
      modifies this`resident, this`prefix
      ensures required <= 0 ==> r == Ok(0) && resident == old(resident) && prefix == old(prefix)
      ensures r.Ok? && required > 0 ==>
        Reclaimed(cfg, old(resident), old(prefix), resident, prefix, active, required, r.value)
      // no cheaper prefixes would have done, and there was no choice between them
      ensures r.Ok? && required > 0 ==> CheapestCover(ProblemFor(cfg, old(prefix), damage), active, prefix, required)
      ensures r.Ok? ==> Decides(cfg, old(prefix), prefix, damage, active, required)
      // it fails exactly when the other models hold too little, or when the plan
      // names a prefix that counting takes for a longer one
      ensures r == Err(CannotReclaim) ==> resident == old(resident) && prefix == old(prefix)
      ensures required > 0 ==> (r == Err(CannotReclaim) <==> !Enough(cfg, old(prefix), active, required))
      ensures required > 0 ==> (r == Err(PrefixMismatch) <==> Misses(cfg, old(prefix), damage, active, required))
      ensures r.Err? ==> r.error == CannotReclaim || r.error == PrefixMismatch
      ensures r == Err(PrefixMismatch) ==> !ReclaimsExactly(cfg, damage)
    {
      hide Misses, Enough, Planned, CheapestCover, ReclaimsExactly, Reclaimed, ProblemFor;
      if required <= 0 {
        r := Ok(0);
      } else {
        r := ReclaimSome(active, required);
      }
    }

    /** Make the pool fit the weight capacity again, around the active model. */
    method TrimToCapacity(active: int) returns (r: Result<int>)
      requires Valid() && active in cfg.models
      modifies this`resident, this`prefix
      ensures r.Ok? ==> Reclaimed(cfg, old(resident), old(prefix), resident, prefix, active, 0, r.value)
      ensures r.Ok? ==> UsedBytes(cfg, resident) <= weightCapacityBytes
      ensures r.Ok? ==> Decides(cfg, old(prefix), prefix, damage, active, TrimShortage(cfg, old(prefix), weightCapacityBytes))
      ensures r == Err(CannotReclaim) <==>
        old(UsedBytes(cfg, resident)) > weightCapacityBytes && BytesOf(cfg, active, old(prefix)[active]) > weightCapacityBytes
      ensures r == Err(PrefixMismatch) <==>
        Misses(cfg, old(prefix), damage, active, TrimShortage(cfg, old(prefix), weightCapacityBytes))
      ensures r.Err? ==> r.error == CannotReclaim || r.error == PrefixMismatch
      ensures r == Err(PrefixMismatch) ==> !ReclaimsExactly(cfg, damage)
    {
      hide CheapestCover, ReclaimsExactly, Planned, EachLongest, EachRuns, ProblemFor;
      var shortage := CapacityShortage();
      r := MckpReclaim(active, shortage);
    }

    /** Bytes by which the pool exceeds its capacity. */
    method CapacityShortage() returns (shortage: int)
      requires Valid()
      ensures shortage == UsedBytes(cfg, resident) - weightCapacityBytes == TrimShortage(cfg, prefix, weightCapacityBytes)
    {
      UsedIsHeld(cfg, resident, prefix);
      shortage := UsedBytes(cfg, resident) - weightCapacityBytes;
    }

    /** Units the request still has to map, over all its tensors. */
    method MissingRequestUnits(m: int) returns (missing: set<nat>)
      requires cfg.WellFormed() && resident.Keys == cfg.models.Keys && m in cfg.models
      ensures missing == AllUnits(cfg.models[m]) - resident[m]
    {
      var layout := cfg.models[m];
      WellFormedModel(cfg, m);
      var required: set<nat> := {};
      for i := 0 to |layout.tensorGroup|
        invariant required == UnitsOf(layout, i)
      {
        required := required + layout.groupUnits[layout.tensorGroup[i]];
      }
      RequestNeedsAll(layout);
      missing := required - resident[m];
    }

    /** One batch reclaim for everything the request is missing. */
    method PlanRequest(m: int) returns (r: Result<int>)
      requires Valid() && m in cfg.models
      modifies this`resident, this`prefix
      ensures r.Ok? ==> Reclaimed(cfg, old(resident), old(prefix), resident, prefix, m, 0, r.value)
      ensures r.Ok? ==> UsedBytes(cfg, resident) + FullBytes(cfg.models[m]) - BytesOf(cfg, m, prefix[m]) <= weightCapacityBytes
      ensures r.Ok? ==> Decides(cfg, old(prefix), prefix, damage, m, RequestShortage(cfg, old(prefix), m, weightCapacityBytes))
      ensures r == Err(CannotReclaim) <==>
        && old(UsedBytes(cfg, resident)) + FullBytes(cfg.models[m]) - BytesOf(cfg, m, old(prefix)[m]) > weightCapacityBytes
        && FullBytes(cfg.models[m]) > weightCapacityBytes
      ensures r == Err(PrefixMismatch) <==>
        Misses(cfg, old(prefix), damage, m, RequestShortage(cfg, old(prefix), m, weightCapacityBytes))
      ensures r.Err? ==> r.error == CannotReclaim || r.error == PrefixMismatch
      ensures r == Err(PrefixMismatch) ==> !ReclaimsExactly(cfg, damage)
    {
      hide CheapestCover, ReclaimsExactly, Planned, EachLongest, EachRuns, ProblemFor;
      var shortage := MissingShortage(m);
      r := MckpReclaim(m, shortage);
    }

    /** Bytes by which the pool would exceed its capacity with the request loaded. */
    method MissingShortage(m: int) returns (shortage: int)
      requires Valid() && m in cfg.models
      ensures shortage == UsedBytes(cfg, resident) + FullBytes(cfg.models[m]) - BytesOf(cfg, m, prefix[m]) - weightCapacityBytes
      ensures shortage == RequestShortage(cfg, prefix, m, weightCapacityBytes)
    {
      var missing := MissingRequestUnits(m);
      MissingBytes(cfg, resident, prefix, m);
      UsedIsHeld(cfg, resident, prefix);
      shortage := UsedBytes(cfg, resident) + Bytes(cfg.models[m], missing) - weightCapacityBytes;
    }

    /** Map what one tensor's group is missing; the returned bytes are the newly
        mapped ones. With room for them nothing is reclaimed. */
    method PrepareTensor(m: int, tensor: nat) returns (r: Result<int>)
      requires cfg.WellFormed() && resident.Keys == cfg.models.Keys && m in cfg.models
      requires tensor < |cfg.models[m].tensorGroup| && cfg.models[m].tensorGroup[tensor] < |cfg.models[m].groupUnits|
      requires UsedBytes(cfg, resident) + Bytes(cfg.models[m], cfg.models[m].groupUnits[cfg.models[m].tensorGroup[tensor]] - resident[m])
        <= weightCapacityBytes
      modifies this`resident, this`prefix
      ensures prefix == old(prefix)
      ensures r == Ok(Bytes(cfg.models[m],
        cfg.models[m].groupUnits[cfg.models[m].tensorGroup[tensor]] - old(resident)[m]))
      ensures resident ==
        old(resident)[m := old(resident)[m] + cfg.models[m].groupUnits[cfg.models[m].tensorGroup[tensor]]]
      ensures UsedBytes(cfg, resident) == old(UsedBytes(cfg, resident)) + r.value
    {
      var layout := cfg.models[m];
      var missing := layout.groupUnits[layout.tensorGroup[tensor]] - resident[m];
      if missing == {} {
        NothingMissing(layout, resident[m], layout.groupUnits[layout.tensorGroup[tensor]]);
        return Ok(0);
      }
      var needed := Bytes(layout, missing);
      var reclaimed := MckpReclaim(m, UsedBytes(cfg, resident) + needed - weightCapacityBytes);
      r := if reclaimed.Err? then reclaimed
           else if UsedBytes(cfg, resident) + needed > weightCapacityBytes then Err(CannotFit)
           else Ok(needed);
      if r.Ok? {
        UsedUpdate(cfg, resident, m, resident[m] + missing);
        BytesUnion(layout, resident[m], missing);
        assert resident[m] + missing == resident[m] + layout.groupUnits[layout.tensorGroup[tensor]];
        resident := resident[m := resident[m] + missing];
      }
    }

    /** Load all tensors of a model that has room for what it is missing. */
    method PrepareModel(m: int) returns (r: Result<int>)
      requires Valid() && m in cfg.models
      requires UsedBytes(cfg, resident) + FullBytes(cfg.models[m]) - BytesOf(cfg, m, prefix[m]) <= weightCapacityBytes
      modifies this`resident, this`prefix
      ensures Valid()
      ensures r == Ok(FullBytes(cfg.models[m]) - BytesOf(cfg, m, old(prefix)[m]))
      ensures resident == old(resident)[m := AllUnits(cfg.models[m])]
      ensures prefix == old(prefix)[m := |cfg.models[m].groupUnits|]
      ensures UsedBytes(cfg, resident) == old(UsedBytes(cfg, resident)) + r.value
    {
      hide EachRuns, EachLongest, Bytes, BytesOf, FullBytes, UsedBytes, AllUnits, Longest;
      var layout := cfg.models[m];
      WellFormedModel(cfg, m);
      MissingBytes(cfg, resident, prefix, m);
      RunsAt(cfg, resident, prefix, m);
      HeldBelow(layout, resident[m], prefix[m]);
      NothingLoaded(cfg, resident, m);
      var mapped := 0;
      for i := 0 to |layout.tensorGroup|
        invariant prefix == old(prefix)
        invariant Loading(cfg, old(resident), resident, m, i, mapped)
      {
        LoadingStep(cfg, old(resident), resident, m, i, mapped);
        var load := PrepareTensor(m, i);
        mapped := mapped + load.value;
      }
      EverythingLoaded(cfg, old(resident), resident, prefix, m, mapped);
      prefix := prefix[m := |layout.groupUnits|];
      r := Ok(mapped);
    }

    /** Trim, reclaim once for the whole request, then load it tensor by tensor. */
    method ServeRequest(m: int, kvBytes: nat) returns (r: Result<Cost>)
      requires Valid() && m in cfg.models
      modifies this`resident, this`prefix, this`weightCapacityBytes
      ensures weightCapacityBytes == Max(0, cfg.capacityBytes - kvBytes)
      // a served request leaves its model loaded in a pool that fits, having taken
      // only tails of other models; bytes are conserved
      ensures r.Ok? ==>
        && Valid() && Served(cfg, old(prefix), prefix, m)
        && UsedBytes(cfg, resident) <= weightCapacityBytes
        && UsedBytes(cfg, resident) == old(UsedBytes(cfg, resident)) + r.value.mappedBytes - r.value.evictedBytes
        && r.value.evictedBytes >= 0
      // what it maps and the prefixes it leaves are determined by those it found
      ensures r.Ok? ==>
        && r.value.mappedBytes == FullBytes(cfg.models[m]) - BytesOf(cfg, m, old(prefix)[m])
        && ServesTo(cfg, old(prefix), prefix, damage, m, weightCapacityBytes)
      // it is served exactly when the model fits beside its KV cache and neither of
      // its two reclaims misses its preview
      ensures r.Ok? <==>
        FullBytes(cfg.models[m]) <= weightCapacityBytes && !ServeMisses(cfg, old(prefix), damage, m, weightCapacityBytes)
      ensures r == Err(PrefixMismatch) <==> ServeMisses(cfg, old(prefix), damage, m, weightCapacityBytes)
      ensures r.Err? ==> r.error == CannotReclaim || r.error == PrefixMismatch
      ensures ReclaimsExactly(cfg, damage) ==>
        (r.Ok? <==> FullBytes(cfg.models[m]) <= weightCapacityBytes) && r != Err(PrefixMismatch)
    {
      hide Misses, EachRuns, EachLongest, ReclaimsExactly, Planned, ProblemFor, UsedBytes;
      weightCapacityBytes := Max(0, cfg.capacityBytes - kvBytes);
      MissingBytes(cfg, resident, prefix, m);
      UsedIsHeld(cfg, resident, prefix);
      var trimmed := TrimToCapacity(m);
      if trimmed.Err? {
        if trimmed.error == CannotReclaim {
          NoSecondReclaim(cfg, old(prefix), damage, m, weightCapacityBytes);
        }
        return Err(trimmed.error);
      }
      ghost var kept := prefix;
      SecondReclaim(cfg, old(prefix), kept, damage, m, weightCapacityBytes);
      ActiveWithinUsed(cfg, resident, prefix, damage, m);
      var planned := PlanRequest(m);
      if planned.Err? {
        return Err(planned.error);
      }
      ghost var room := prefix;
      var loaded := PrepareModel(m);
      LowersTwice(cfg, old(prefix), kept, room, m);
      assert Passes(cfg, old(prefix), kept, room, damage, m, weightCapacityBytes);
      r := Ok(Cost(trimmed.value + planned.value, loaded.value));
    }
  }
}
