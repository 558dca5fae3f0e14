/** When a page reclaim commits what its preview planned: the exact condition on the
    predicted damage, and a run on which a preview is missed
    (evaluation/tensor_simulator/tensor_sim_page_backends.py). */
module PagePreviews {
  import opened Common
  import opened PageLayout
  import opened StallTable
  import opened Prediction
  import opened Mckp
  import opened MckpSole
  import opened PageMemory
  import opened PageRuns

  // ------------------------------------------------------ bytes and units

  lemma {:induction false} SumToStrict(unitBytes: seq<nat>, j: nat, k: nat)
    requires j < k <= |unitBytes| && forall u :: 0 <= u < |unitBytes| ==> unitBytes[u] > 0
    ensures SumTo(unitBytes, j) < SumTo(unitBytes, k)
  {
    SumToMonotone(unitBytes, j, k - 1);
  }

  /** Where every unit takes memory, as many bytes means as many units. */
  lemma {:induction false} SameBytesSameUnits(cfg: Config, m: int, a: nat, b: nat)
    requires m in cfg.models && cfg.models[m].Valid() && cfg.models[m].PositiveUnits()
    requires a < |cfg.models[m].unitCounts| && b < |cfg.models[m].unitCounts|
    ensures BytesOf(cfg, m, a) == BytesOf(cfg, m, b) <==> cfg.models[m].unitCounts[a] == cfg.models[m].unitCounts[b]
  {
    hide SumTo;
    var layout := cfg.models[m];
    assert layout.unitCounts[a] <= layout.unitCounts[|layout.groupUnits|];
    assert layout.unitCounts[b] <= layout.unitCounts[|layout.groupUnits|];
    if layout.unitCounts[a] < layout.unitCounts[b] {
      SumToStrict(layout.unitBytes, layout.unitCounts[a], layout.unitCounts[b]);
    }
    if layout.unitCounts[b] < layout.unitCounts[a] {
      SumToStrict(layout.unitBytes, layout.unitCounts[b], layout.unitCounts[a]);
    }
  }

  /** The longest prefix with as many bytes and no more damage. */
  lemma {:induction false} LongestTie(cfg: Config, damage: DamageFunction, m: int, held: nat, q: nat, top: nat) returns (r: nat)
    requires q <= top <= held
    requires forall k: nat :: top < k <= held ==>
      !(BytesOf(cfg, m, k) == BytesOf(cfg, m, q) && damage(m, held, k) == damage(m, held, q))
    ensures q <= r <= held && BytesOf(cfg, m, r) == BytesOf(cfg, m, q) && damage(m, held, r) == damage(m, held, q)
    ensures forall k: nat :: r < k <= held ==>
      !(BytesOf(cfg, m, k) == BytesOf(cfg, m, q) && damage(m, held, k) == damage(m, held, q))
  {
    hide BytesOf;
    if top == q || (BytesOf(cfg, m, top) == BytesOf(cfg, m, q) && damage(m, held, top) == damage(m, held, q)) {
      r := top;
    } else {
      r := LongestTie(cfg, damage, m, held, q, top - 1);
    }
  }

  lemma {:induction false} TieIsBestCut(cfg: Config, prefix: map<int, nat>, damage: DamageFunction, m: int, q: nat, r: nat)
    requires m in prefix && q <= r <= prefix[m] && CheapestFreeing(cfg, damage, m, prefix[m], q)
    requires BytesOf(cfg, m, r) == BytesOf(cfg, m, q) && damage(m, prefix[m], r) == damage(m, prefix[m], q)
    requires forall k: nat :: r < k <= prefix[m] ==>
      !(BytesOf(cfg, m, k) == BytesOf(cfg, m, q) && damage(m, prefix[m], k) == damage(m, prefix[m], q))
    ensures BestCut(ProblemFor(cfg, prefix, damage), m, BytesOf(cfg, m, prefix[m]) - BytesOf(cfg, m, q), r)
  {
    hide BytesOf;
  }

  /** A model that maps nothing frees nothing. */
  lemma {:induction false} EmptyIsQuiet(cfg: Config, resident: Mapped, prefix: map<int, nat>, damage: DamageFunction, x: int)
    requires cfg.WellFormed() && Holds(cfg, resident, prefix) && x in cfg.models && BytesOf(cfg, x, prefix[x]) == 0
    ensures Quiet(ProblemFor(cfg, prefix, damage), x)
  {
    hide EachRuns, EachLongest;
    HoldsAt(cfg, resident, prefix, x);
    WellFormedModel(cfg, x);
    forall q: nat | q <= prefix[x] ensures BytesOf(cfg, x, q) == 0 {
      PrefixBytesMonotone(cfg.models[x], q, prefix[x]);
    }
  }

  // ---------------------------------------------- the condition is necessary

  /** Only model `m` and the active one map anything. */
  ghost predicate SoleVictim(cfg: Config, resident: Mapped, prefix: map<int, nat>, active: int, m: int) {
    && cfg.WellFormed() && Holds(cfg, resident, prefix)
    && active in cfg.models && m in cfg.models && active != m
    && forall x :: x in cfg.models && x != m && x != active ==> BytesOf(cfg, x, prefix[x]) == 0
  }

  /** A cut whose longest version is dearer is what some requirement plans. */
  lemma {:induction false} DearerLongestMisses(
    cfg: Config, resident: Mapped, prefix: map<int, nat>, damage: DamageFunction, active: int, m: int, q: nat, l: nat)
    requires SoleVictim(cfg, resident, prefix, active, m) && Fair(damage) && cfg.layout == CompactPage
    requires q < l <= prefix[m] < |cfg.models[m].unitCounts| && cfg.models[m].unitCounts[l] == cfg.models[m].unitCounts[q]
    requires Longest(cfg.models[m], l) && Longest(cfg.models[m], prefix[m])
    requires CheapestFreeing(cfg, damage, m, prefix[m], q) && damage(m, prefix[m], l) > damage(m, prefix[m], q)
    ensures Misses(cfg, prefix, damage, active, BytesOf(cfg, m, prefix[m]) - BytesOf(cfg, m, q))
  {
    hide EachRuns, EachLongest, BytesOf, Planned, Quiet, CheapestFreeing, Longest, BestCut, Fair, FreedTotal;
    var p, held, layout := ProblemFor(cfg, prefix, damage), prefix[m], cfg.models[m];
    var required := BytesOf(cfg, m, held) - BytesOf(cfg, m, q);
    WellFormedModel(cfg, m);
    DearerFreesSome(cfg, damage, m, held, q, l);
    var r := LongestTie(cfg, damage, m, held, q, held);
    TieIsBestCut(cfg, prefix, damage, m, q, r);
    forall x | x in prefix && x != m && x != active ensures Quiet(p, x) {
      EmptyIsQuiet(cfg, resident, prefix, damage, x);
    }
    SolePlan(p, active, m, required, r);
    SameBytesSameUnits(cfg, m, r, l);
    SameBytesSameUnits(cfg, m, q, l);
    ShorterNotLongest(cfg, prefix[m := r], m, l);
    RequirementMet(cfg, resident, prefix, damage, active, prefix[m := r], required);
  }

  /** The longest prefix with those units is not the held one, so the cut frees something. */
  lemma {:induction false} DearerFreesSome(cfg: Config, damage: DamageFunction, m: int, held: nat, q: nat, l: nat)
    requires m in cfg.models && cfg.models[m].Valid() && cfg.models[m].PositiveUnits() && Fair(damage)
    requires q < l <= held < |cfg.models[m].unitCounts| && cfg.models[m].unitCounts[l] == cfg.models[m].unitCounts[q]
    requires Longest(cfg.models[m], l) && damage(m, held, l) > damage(m, held, q)
    ensures BytesOf(cfg, m, held) > BytesOf(cfg, m, q)
  {
    assert damage(m, held, held) == 0.0 && damage(m, held, q) >= 0.0;
    assert l != held;
    PrefixBytesMonotone(cfg.models[m], q, held);
    SameBytesSameUnits(cfg, m, q, held);
  }

  lemma {:induction false} ShorterNotLongest(cfg: Config, choices: map<int, nat>, m: int, l: nat)
    requires cfg.Ordered() && choices.Keys == cfg.models.Keys && m in cfg.models
    requires choices[m] != l && choices[m] < |cfg.models[m].unitCounts| && l < |cfg.models[m].unitCounts|
    requires cfg.models[m].unitCounts[choices[m]] == cfg.models[m].unitCounts[l] && Longest(cfg.models[m], l)
    ensures !EachLongest(cfg, choices, cfg.order)
  {
    hide EachLongest;
    if EachLongest(cfg, choices, cfg.order) {
      var i :| 0 <= i < |cfg.order| && cfg.order[i] == m;
      EachLongestAt(cfg, choices, cfg.order, i);
    }
  }

  /** What some choices free, the other models hold. */
  lemma {:induction false} RequirementMet(
    cfg: Config, resident: Mapped, prefix: map<int, nat>, damage: DamageFunction, active: int, choices: map<int, nat>, required: int)
    requires cfg.WellFormed() && Holds(cfg, resident, prefix) && active in cfg.models
    requires Admissible(ProblemFor(cfg, prefix, damage), active, choices)
    requires FreedTotal(ProblemFor(cfg, prefix, damage), active, choices) >= required
    ensures Enough(cfg, prefix, active, required)
  {
    hide EachRuns, EachLongest, FreedBy, BytesOf;
    var p := ProblemFor(cfg, prefix, damage);
    PlannerBytes(cfg, resident, prefix, damage);
    EvictAllLeavesActive(cfg, resident, prefix, damage, active);
    EvictAllIsMost(p, active, Victims(p, active), choices);
    UsedIsHeld(cfg, resident, prefix);
  }

  /** Models of the tensor-page layout, and models that map nothing, keep their longest
      prefix whatever is required. */
  lemma {:induction false} KeptAnyway(
    cfg: Config, resident: Mapped, prefix: map<int, nat>, damage: DamageFunction, x: int)
    requires cfg.WellFormed() && Holds(cfg, resident, prefix) && x in cfg.models && Fair(damage)
    requires cfg.layout == TensorPage || BytesOf(cfg, x, prefix[x]) == 0
    ensures prefix[x] < |cfg.models[x].unitCounts| && KeepsLongest(cfg, damage, x, prefix[x])
  {
    hide EachRuns, EachLongest, CheapestFreeing, BytesOf;
    HoldsAt(cfg, resident, prefix, x);
    WellFormedModel(cfg, x);
    if cfg.layout == CompactPage {
      EmptyPrefixes0(cfg, x, prefix[x]);
      assert damage(x, prefix[x], prefix[x]) == 0.0;
      assert forall q: nat :: damage(x, prefix[x], q) >= 0.0;
    }
  }

  lemma {:induction false} EmptyPrefixes0(cfg: Config, x: int, held: nat)
    requires x in cfg.models && cfg.models[x].Valid() && cfg.models[x].PositiveUnits()
    requires held < |cfg.models[x].unitCounts| && BytesOf(cfg, x, held) == 0
    ensures forall l: nat :: l <= held ==> cfg.models[x].unitCounts[l] == cfg.models[x].unitCounts[held]
  {
    forall l: nat | l <= held ensures cfg.models[x].unitCounts[l] == cfg.models[x].unitCounts[held] {
      PrefixBytesMonotone(cfg.models[x], l, held);
      SameBytesSameUnits(cfg, x, l, held);
    }
  }

  /** A plan of longest prefixes cannot be missed. */
  lemma {:induction false} NeverMisses(
    cfg: Config, resident: Mapped, prefix: map<int, nat>, damage: DamageFunction, active: int, required: int)
    requires cfg.WellFormed() && Holds(cfg, resident, prefix) && active in cfg.models
    requires forall x :: x in cfg.models && x != active && prefix[x] < |cfg.models[x].unitCounts| ==>
      KeepsLongest(cfg, damage, x, prefix[x])
    ensures !Misses(cfg, prefix, damage, active, required)
  {
    hide EachRuns, EachLongest, KeepsLongest, Planned, Enough, MonotoneBytes, CheapestCover, PreferringChoices;
    if Misses(cfg, prefix, damage, active, required) {
      var choices: map<int, nat> :|
        && Planned(ProblemFor(cfg, prefix, damage), active, required, choices)
        && choices.Keys == cfg.models.Keys && !EachLongest(cfg, choices, cfg.order);
      PlannerBytes(cfg, resident, prefix, damage);
      PlannedIsBest(ProblemFor(cfg, prefix, damage), active, required, choices);
      PlansLongest(cfg, resident, prefix, damage, active, choices, required);
    }
  }

  /** With one model to reclaim from, no required amount makes a reclaim miss its
      preview if and only if that model's cuts are never cheaper than their longest
      version. */
  lemma {:induction false} SoleVictimExact(
    cfg: Config, resident: Mapped, prefix: map<int, nat>, damage: DamageFunction, active: int, m: int)
    requires SoleVictim(cfg, resident, prefix, active, m) && Fair(damage) && prefix[m] < |cfg.models[m].unitCounts|
    ensures (forall required: int :: !Misses(cfg, prefix, damage, active, required)) <==> KeepsLongest(cfg, damage, m, prefix[m])
  {
    hide EachRuns, EachLongest, Misses, CheapestFreeing, BytesOf, Fair;
    if cfg.layout == TensorPage {
      KeptAnyway(cfg, resident, prefix, damage, m);
    }
    if KeepsLongest(cfg, damage, m, prefix[m]) {
      forall x | x in cfg.models && x != active && prefix[x] < |cfg.models[x].unitCounts|
        ensures KeepsLongest(cfg, damage, x, prefix[x])
      {
        if x != m {
          KeptAnyway(cfg, resident, prefix, damage, x);
        }
      }
      forall required: int ensures !Misses(cfg, prefix, damage, active, required) {
        NeverMisses(cfg, resident, prefix, damage, active, required);
      }
    } else {
      HoldsAt(cfg, resident, prefix, m);
      var q: nat, l: nat :|
        && q < l <= prefix[m] && cfg.models[m].unitCounts[l] == cfg.models[m].unitCounts[q]
        && Longest(cfg.models[m], l) && CheapestFreeing(cfg, damage, m, prefix[m], q)
        && damage(m, prefix[m], l) > damage(m, prefix[m], q);
      DearerLongestMisses(cfg, resident, prefix, damage, active, m, q, l);
    }
  }

  /** A pool that holds `held` groups of model `m` and nothing else. */
  lemma {:induction false} OnlyHolds(cfg: Config, m: int, held: nat, active: int) returns (resident: Mapped, prefix: map<int, nat>)
    requires cfg.WellFormed() && m in cfg.models && active in cfg.models && active != m
    requires held < |cfg.models[m].unitCounts| && Longest(cfg.models[m], held)
    ensures SoleVictim(cfg, resident, prefix, active, m) && prefix[m] == held
  {
    prefix := EmptyPrefixes(cfg)[m := held];
    resident := (map x | x in cfg.models :: {})[m := Initial(cfg.models[m].unitCounts[held])];
    HoldsIntro(cfg, resident, prefix);
    hide EachRuns, EachLongest;
    forall x | x in cfg.models && x != m ensures BytesOf(cfg, x, prefix[x]) == 0 {
      WellFormedModel(cfg, x);
      HoldsAt(cfg, resident, prefix, x);
      RunBytes(cfg.models[x], {}, prefix[x]);
      NothingMissing(cfg.models[x], {}, {});
    }
  }

  /** No reclaim of any state misses its preview, whatever is required. */
  ghost predicate NothingMisses(cfg: Config, damage: DamageFunction) {
    forall resident: Mapped, prefix: map<int, nat>, active: int, required: int
      {:trigger Holds(cfg, resident, prefix), Misses(cfg, prefix, damage, active, required)} ::
      cfg.Ordered() && Holds(cfg, resident, prefix) && active in cfg.models ==> !Misses(cfg, prefix, damage, active, required)
  }

  /** In a pool of at least two models, over all states and requirements, reclaims
      commit what was planned if and only if no model's cut is ever cheaper than
      its longest version. */
  lemma {:induction false} ReclaimsExactlyMeaning(cfg: Config, damage: DamageFunction)
    requires cfg.WellFormed() && Fair(damage) && |cfg.order| >= 2
    ensures ReclaimsExactly(cfg, damage) <==> NothingMisses(cfg, damage)
  {
    hide EachRuns, EachLongest, Misses, KeepsLongest, Longest, Fair, SoleVictim;
    if ReclaimsExactly(cfg, damage) {
      forall resident: Mapped, prefix: map<int, nat>, active: int, required: int
        | Holds(cfg, resident, prefix) && active in cfg.models
        ensures !Misses(cfg, prefix, damage, active, required)
      {
        forall x | x in cfg.models && x != active && prefix[x] < |cfg.models[x].unitCounts|
          ensures KeepsLongest(cfg, damage, x, prefix[x])
        {
          HoldsAt(cfg, resident, prefix, x);
        }
        NeverMisses(cfg, resident, prefix, damage, active, required);
      }
    }
    if NothingMisses(cfg, damage) {
      forall m, held: nat | m in cfg.models && held < |cfg.models[m].unitCounts| && Longest(cfg.models[m], held)
        ensures KeepsLongest(cfg, damage, m, held)
      {
        KeptWhereNothingMisses(cfg, damage, m, held);
      }
    }
  }

  lemma {:induction false} KeptWhereNothingMisses(cfg: Config, damage: DamageFunction, m: int, held: nat)
    requires cfg.WellFormed() && Fair(damage) && |cfg.order| >= 2 && NothingMisses(cfg, damage)
    requires m in cfg.models && held < |cfg.models[m].unitCounts| && Longest(cfg.models[m], held)
    ensures KeepsLongest(cfg, damage, m, held)
  {
    hide EachRuns, EachLongest, Misses, KeepsLongest, Longest, Fair;
    var active := if cfg.order[0] == m then cfg.order[1] else cfg.order[0];
    assert active in cfg.order && active != m;
    var resident, prefix := OnlyHolds(cfg, m, held, active);
    assert Holds(cfg, resident, prefix);
    SoleVictimExact(cfg, resident, prefix, damage, active, m);
  }

  // ------------------------------------------------- a run that is missed

  /** Three groups whose first two share a page, and a model of one page. */
  const SHARED := ModelLayout([0, 1, 1, 2], [{0}, {0}, {1}], [2, 2], [0, 1, 2])
  const ONE_PAGE := ModelLayout([0, 1], [{0}], [2], [0])

  /** Two measured rows whose lines cross beyond the second. */
  function CrossingTable(): ModelTable {
    ModelTable(
      [Group(true, 1), Group(true, 1), Group(true, 2)], [0, 1, 2, 4],
      [Row(0, None, [20.0, 10.0, 0.0, 0.0], None), Row(1, None, [20.0, 5.0, 5.0, 0.0], None)])
  }

  lemma {:induction false} CrossingColumns()
    ensures ValidModel(CrossingTable()) && Tokens(CrossingTable()) == [0, 1] && Increasing([0, 1])
    ensures Column(CrossingTable(), Prefix, 0) == [20.0, 20.0] && Column(CrossingTable(), Prefix, 1) == [10.0, 5.0]
    ensures Column(CrossingTable(), Prefix, 2) == [0.0, 5.0] && Column(CrossingTable(), Prefix, 3) == [0.0, 0.0]
  {
    TokensIncrease(CrossingTable());
  }

  lemma {:induction false} CrossingLookups()
    ensures ValidModel(CrossingTable())
    ensures Lookup(CrossingTable(), Linear, 3, Prefix, 0) == Some(20.0)
    ensures Lookup(CrossingTable(), Linear, 3, Prefix, 1) == Some(0.0)
    ensures Lookup(CrossingTable(), Linear, 3, Prefix, 2) == Some(15.0)
    ensures Lookup(CrossingTable(), Linear, 3, Prefix, 3) == Some(0.0)
  {
    CrossingColumns();
    Beyond(20.0, 20.0);
    Beyond(10.0, 5.0);
    Beyond(0.0, 5.0);
    Beyond(0.0, 0.0);
  }

  lemma {:induction false} CrossingDamage()
    ensures var damage := DamageOf(StallOf(map[0 := CrossingTable()], Linear), map[0 := [Sample(3, 1.0)]]);
      damage(0, 3, 0) == 20.0 && damage(0, 3, 1) == 0.0 && damage(0, 3, 2) == 15.0
  {
    CrossingLookups();
    var lookup, x := StallOf(map[0 := CrossingTable()], Linear), Sample(3, 1.0);
    assert [x][..0] == [];
    forall p: nat | p <= 3 ensures Damage(lookup, [x], 0, 3, p) == Increase(lookup, 0, 3, p, x) {
      assert Damage(lookup, [x][..0], 0, 3, p) == 0.0;
    }
  }

  /** A pool in which the two models do not fit together. */
  const CROWDED := Config(CompactPage, 4, map[0 := SHARED, 1 := ONE_PAGE], [0, 1])

  lemma {:induction false} SharedBytes(cfg: Config)
    requires 0 in cfg.models && cfg.models[0] == SHARED
    ensures SHARED.Valid() && SHARED.PositiveUnits() && Longest(SHARED, 2) && Longest(SHARED, 3)
    ensures BytesOf(cfg, 0, 0) == 0 && BytesOf(cfg, 0, 1) == BytesOf(cfg, 0, 2) == 2 && BytesOf(cfg, 0, 3) == 4
    ensures FullBytes(SHARED) == 4
  {
  }

  lemma {:induction false} OnePageBytes(cfg: Config, m: int)
    requires m in cfg.models && cfg.models[m] == ONE_PAGE
    ensures ONE_PAGE.Valid() && ONE_PAGE.PositiveUnits()
    ensures BytesOf(cfg, m, 0) == 0 && FullBytes(ONE_PAGE) == 2
  {
  }

  lemma {:induction false} CrowdedSound()
    ensures CROWDED.WellFormed()
  {
    SharedBytes(CROWDED);
    OnePageBytes(CROWDED, 1);
    EachWellFormedIntro(CROWDED, [0, 1]);
  }

  lemma {:induction false} CrowdedTotal(prefix: map<int, nat>)
    requires prefix.Keys == {0, 1} && prefix[0] == 3 && prefix[1] == 0
    ensures CROWDED.Ordered() && HeldTotal(CROWDED, prefix) == 4
  {
    CrowdedSound();
    SharedBytes(CROWDED);
    OnePageBytes(CROWDED, 1);
    hide BytesOf;
    var w := HeldBytes(CROWDED, prefix);
    assert [0, 1][..1] == [0] && [0][..0] == [];
    assert SumOver([], w) == 0;
    assert SumOver([0], w) == SumOver([], w) + w[0];
    assert SumOver([0, 1], w) == SumOver([0], w) + w[1];
  }

  /** The two bytes the second model needs are planned from the dearer cut. */
  lemma {:induction false} CrowdedVictim(resident: Mapped, prefix: map<int, nat>)
    requires CROWDED.WellFormed() && Holds(CROWDED, resident, prefix)
    ensures SoleVictim(CROWDED, resident, prefix, 1, 0)
  {
    hide EachRuns, EachLongest, BytesOf;
  }

  lemma {:induction false} OneIsCheapest(damage: DamageFunction)
    requires damage(0, 3, 0) == 20.0 && damage(0, 3, 1) == 0.0 && damage(0, 3, 2) == 15.0
    ensures CheapestFreeing(CROWDED, damage, 0, 3, 1)
  {
    SharedBytes(CROWDED);
    hide BytesOf;
    forall r: nat | r <= 3 && BytesOf(CROWDED, 0, r) <= BytesOf(CROWDED, 0, 1) ensures damage(0, 3, 1) <= damage(0, 3, r) {
      assert r == 0 || r == 1 || r == 2 || r == 3;
    }
  }

  lemma {:induction false} CrowdedMisses(resident: Mapped, prefix: map<int, nat>, damage: DamageFunction)
    requires CROWDED.WellFormed() && Holds(CROWDED, resident, prefix) && prefix[0] == 3 && Fair(damage)
    requires damage(0, 3, 0) == 20.0 && damage(0, 3, 1) == 0.0 && damage(0, 3, 2) == 15.0
    ensures Misses(CROWDED, prefix, damage, 1, 2)
  {
    hide EachRuns, EachLongest, BytesOf, Misses, Longest, CheapestFreeing, Fair;
    SharedBytes(CROWDED);
    CrowdedVictim(resident, prefix);
    OneIsCheapest(damage);
    DearerLongestMisses(CROWDED, resident, prefix, damage, 1, 0, 1, 2);
  }

  function NoDamage(m: int, held: nat, kept: nat): real {
    0.0
  }

  lemma {:induction false} NoDamageIsExact(cfg: Config)
    requires cfg.WellFormed()
    ensures Fair(NoDamage) && ReclaimsExactly(cfg, NoDamage)
  {
    hide ReclaimsExactly;
    AlwaysExact(cfg, NoDamage);
  }

  /** Load the first model into an empty pool, predicting no damage. */
  method LoadFirst() returns (pool: PagePrefixMemory, first: Result<Cost>)
    ensures fresh(pool) && first.Ok? && pool.cfg == CROWDED && pool.Valid() && pool.prefix[0] == 3 && pool.prefix[1] == 0
  {
    hide EachRuns, EachLongest, BytesOf, ServeMisses, ReclaimsExactly, FullBytes, UsedBytes, ServesTo, Longest, Fair;
    CrowdedSound();
    SharedBytes(CROWDED);
    NoDamageIsExact(CROWDED);
    pool := new PagePrefixMemory(CROWDED);
    NothingToCut(pool.resident, pool.prefix);
    pool.SetPrediction(NoDamage);
    first := pool.ServeRequest(0, 0);
  }

  /** A whole run: load the first model, then ask for the second, which alone fits.
      Three tokens lie beyond the measured rows; the cheapest plan names a prefix
      that shares all its pages with a longer one, and the commit reports it. */
  method MissedRun() returns (first: Result<Cost>, second: Result<Cost>)
    ensures FullBytes(CROWDED.models[0]) <= CROWDED.capacityBytes && FullBytes(CROWDED.models[1]) <= CROWDED.capacityBytes
    ensures first.Ok? && second == Err(PrefixMismatch)
  {
    hide EachRuns, EachLongest, BytesOf, ServeMisses, ReclaimsExactly, FullBytes, UsedBytes, ServesTo, DamageOf, StallOf, Fair, Longest;
    hide CrossingTable;
    SharedBytes(CROWDED);
    OnePageBytes(CROWDED, 1);
    TableDamageIsFair(map[0 := CrossingTable()], Linear, map[0 := [Sample(3, 1.0)]]);
    CrossingDamage();
    var damage := DamageOf(StallOf(map[0 := CrossingTable()], Linear), map[0 := [Sample(3, 1.0)]]);
    var pool;
    pool, first := LoadFirst();
    pool.SetPrediction(damage);
    CrowdedServeMisses(pool.resident, pool.prefix, damage);
    second := pool.ServeRequest(1, 0);
  }

  /** An empty pool holds no group of the one-page model. */
  lemma {:induction false} NothingToCut(resident: Mapped, prefix: map<int, nat>)
    requires CROWDED.WellFormed() && Holds(CROWDED, resident, prefix) && resident[1] == {}
    ensures prefix[1] == 0
  {
    HoldsAt(CROWDED, resident, prefix, 1);
    InitialSize(ONE_PAGE.unitCounts[prefix[1]]);
  }

  lemma {:induction false} CrowdedServeMisses(resident: Mapped, prefix: map<int, nat>, damage: DamageFunction)
    requires CROWDED.WellFormed() && Holds(CROWDED, resident, prefix) && prefix[0] == 3 && prefix[1] == 0 && Fair(damage)
    requires damage(0, 3, 0) == 20.0 && damage(0, 3, 1) == 0.0 && damage(0, 3, 2) == 15.0
    ensures ServeMisses(CROWDED, prefix, damage, 1, 4)
  {
    hide EachRuns, EachLongest, BytesOf, Misses, FullBytes;
    CrowdedTotal(prefix);
    OnePageBytes(CROWDED, 1);
    CrowdedMisses(resident, prefix, damage);
    assert Trimmed(CROWDED, prefix, prefix, damage, 1, 4);
  }

  // --------------------------- with several models, the others can prevent it

  const TWO_PAGES := ModelLayout([0, 1, 2], [{0}, {1}], [2, 2], [0, 1])
  const THREE := Config(CompactPage, 8, map[0 := SHARED, 1 := ONE_PAGE, 2 := TWO_PAGES], [0, 1, 2])
  const HELD: map<int, nat> := map[0 := 3, 1 := 0, 2 := 2]

  /** Cutting model 0 to its first group costs little, to two groups much; but
      whatever is required, some other combination with model 2 is cheaper. */
  function Outbid(m: int, held: nat, kept: nat): real {
    if m == 0 && held == 3 then
      if kept == 0 then 1.1 else if kept == 1 then 1.0 else if kept == 2 then 15.0 else 0.0
    else if m == 2 && held == 2 then
      if kept == 0 then 10.0 else if kept == 1 then 0.9 else 0.0
    else 0.0
  }

  lemma {:induction false} TwoChoicesChanged(p: Problem, choices: map<int, nat>, r: nat, s: nat, required: int)
    requires CheapestCover(p, 1, choices, required) && 0 in p.resident && 2 in p.resident
    requires r <= p.resident[0] && s <= p.resident[2]
    requires p.prefixBytes(0, r) + p.prefixBytes(2, s) <= p.prefixBytes(0, choices[0]) + p.prefixBytes(2, choices[2])
    ensures p.damage(0, p.resident[0], choices[0]) + p.damage(2, p.resident[2], choices[2])
      <= p.damage(0, p.resident[0], r) + p.damage(2, p.resident[2], s)
  {
    hide FreedTotal, DamageTotal;
    OneChoiceChanged(p, 1, choices, 0, r);
    OneChoiceChanged(p, 1, choices[0 := r], 2, s);
  }

  lemma {:induction false} OutbidCuts(choices: map<int, nat>, required: int)
    requires CheapestCover(ProblemFor(THREE, HELD, Outbid), 1, choices, required)
    ensures choices.Keys == HELD.Keys && choices[1] == 0 && choices[2] <= 2
    ensures choices[0] == 0 || choices[0] == 3
  {
    var p := ProblemFor(THREE, HELD, Outbid);
    SharedBytes(THREE);
    assert p.prefixBytes(0, 0) == BytesOf(THREE, 0, 0) && p.prefixBytes(0, 1) == BytesOf(THREE, 0, 1);
    assert p.prefixBytes(0, 2) == BytesOf(THREE, 0, 2) && p.prefixBytes(0, 3) == BytesOf(THREE, 0, 3);
    assert BytesOf(THREE, 2, 0) == 0 && BytesOf(THREE, 2, 1) == 2 && BytesOf(THREE, 2, 2) == 4;
    assert p.prefixBytes(2, 0) == 0 && p.prefixBytes(2, 1) == 2 && p.prefixBytes(2, 2) == 4;
    hide CheapestCover, BytesOf;
    ChoicesWithin(p, choices, required);
    if choices[0] == 2 {
      TwoChoicesChanged(p, choices, 1, choices[2], required);
    } else if choices[0] == 1 {
      if choices[2] == 2 {
        TwoChoicesChanged(p, choices, 3, 1, required);
      } else if choices[2] == 1 {
        TwoChoicesChanged(p, choices, 0, 2, required);
      } else {
        TwoChoicesChanged(p, choices, 0, 1, required);
      }
    }
  }

  lemma {:induction false} ChoicesWithin(p: Problem, choices: map<int, nat>, required: int)
    requires CheapestCover(p, 1, choices, required) && p.resident == HELD
    ensures choices.Keys == HELD.Keys && choices[0] <= 3 && choices[1] == 0 && choices[2] <= 2
  {
  }

  lemma {:induction false} ThreeSound()
    ensures THREE.WellFormed()
  {
    SharedBytes(THREE);
    OnePageBytes(THREE, 1);
    TwoPagesValid();
    EachWellFormedIntro(THREE, [0, 1, 2]);
  }

  lemma {:induction false} TwoPagesValid()
    ensures TWO_PAGES.Valid() && TWO_PAGES.PositiveUnits() && Longest(TWO_PAGES, 2)
  {
  }

  lemma {:induction false} ThreeHolds() returns (resident: Mapped)
    ensures Holds(THREE, resident, HELD)
  {
    SharedBytes(THREE);
    TwoPagesValid();
    resident := map[0 := Initial(2), 1 := Initial(0), 2 := Initial(2)];
    ThreeSound();
    HoldsIntro(THREE, resident, HELD);
  }

  /** With more than one model to reclaim from, a dearer longest cut need not be
      missed: here no required amount ever plans it. */
  lemma {:induction false} OthersCanPrevent() returns (resident: Mapped)
    ensures THREE.WellFormed() && Holds(THREE, resident, HELD)
    ensures Fair(Outbid) && !KeepsLongest(THREE, Outbid, 0, 3)
    ensures forall required: int :: !Misses(THREE, HELD, Outbid, 1, required)
  {
    hide EachLongest;
    ThreeSound();
    resident := ThreeHolds();
    OutbidBreaks();
    hide EachRuns, Planned, KeepsLongest, CheapestCover, PreferringChoices;
    PlannerBytes(THREE, resident, HELD, Outbid);
    forall required: int ensures !Misses(THREE, HELD, Outbid, 1, required) {
      if Misses(THREE, HELD, Outbid, 1, required) {
        var choices: map<int, nat> :|
          && Planned(ProblemFor(THREE, HELD, Outbid), 1, required, choices)
          && choices.Keys == THREE.models.Keys && !EachLongest(THREE, choices, THREE.order);
        PlannedIsBest(ProblemFor(THREE, HELD, Outbid), 1, required, choices);
        OutbidCuts(choices, required);
        OutbidLongest(choices);
      }
    }
  }

  lemma {:induction false} OutbidBreaks()
    ensures Fair(Outbid) && !KeepsLongest(THREE, Outbid, 0, 3)
  {
    SharedBytes(THREE);
    assert CheapestFreeing(THREE, Outbid, 0, 3, 1) by {
      forall r: nat | r <= 3 && BytesOf(THREE, 0, r) <= BytesOf(THREE, 0, 1) ensures Outbid(0, 3, 1) <= Outbid(0, 3, r) {
        assert r == 0 || r == 1 || r == 2 || r == 3;
      }
    }
    assert Outbid(0, 3, 2) > Outbid(0, 3, 1);
    hide CheapestFreeing;
  }

  lemma {:induction false} OutbidLongest(choices: map<int, nat>)
    requires choices.Keys == HELD.Keys && choices[1] == 0 && choices[2] <= 2
    requires choices[0] == 0 || choices[0] == 3
    ensures EachLongest(THREE, choices, THREE.order)
  {
    forall m | m in THREE.models ensures choices[m] < |THREE.models[m].unitCounts| && Longest(THREE.models[m], choices[m]) {
      assert m == 0 || m == 1 || m == 2;
    }
    EachLongestIntro(THREE, choices, THREE.order);
  }
}
