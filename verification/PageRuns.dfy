/** Whole runs of a page backend: any sequence of requests, each with the damage
    predicted for it from the stall table
    (evaluation/tensor_simulator/layerweave_tensor_pipeline_sim.py). */
module PageRuns {
  import opened Common
  import opened PageLayout
  import opened StallTable
  import opened Prediction
  import opened Mckp
  import opened PageMemory

  datatype Request = Request(modelId: int, kvBytes: nat, predicted: DamageFunction)

  /** The feasibility check made before a run: the model beside its KV cache. */
  predicate Fits(cfg: Config, request: Request)
    requires request.modelId in cfg.models
  {
    FullBytes(cfg.models[request.modelId]) <= Max(0, cfg.capacityBytes - request.kvBytes)
  }

  /** A reclaim of this request misses its preview, on the prefixes it finds. */
  ghost predicate MissedBy(cfg: Config, request: Request, before: map<int, nat>) {
    && cfg.Ordered() && before.Keys == cfg.models.Keys && request.modelId in cfg.models
    && ServeMisses(cfg, before, request.predicted, request.modelId, Max(0, cfg.capacityBytes - request.kvBytes))
  }

  /** Serve requests until one cannot be served. A run stops exactly at the first
      request that fails the feasibility check or misses its preview; when no
      reclaim can miss, no request that passed the check is ever refused. */
  method Simulate(pool: PagePrefixMemory, requests: seq<Request>) returns (served: nat, ghost before: map<int, nat>)
    requires pool.Valid()
    requires forall i :: 0 <= i < |requests| ==> requests[i].modelId in pool.cfg.models && Fair(requests[i].predicted)
    modifies pool
    ensures served <= |requests|
    ensures forall i :: 0 <= i < served ==> Fits(pool.cfg, requests[i])
    ensures served < |requests| ==> !Fits(pool.cfg, requests[served]) || MissedBy(pool.cfg, requests[served], before)
    ensures served < |requests| && ReclaimsExactly(pool.cfg, requests[served].predicted) ==> !Fits(pool.cfg, requests[served])
    ensures served == |requests| ==> pool.Valid()
    ensures served == |requests| && requests != [] ==>
      var m := requests[served - 1].modelId;
      && pool.prefix[m] == |pool.cfg.models[m].groupUnits|
      && UsedBytes(pool.cfg, pool.resident) <= pool.weightCapacityBytes
  {
    hide MissedBy, Fits, ReclaimsExactly;
    served, before := 0, pool.prefix;
    while served < |requests|
      invariant served <= |requests|
      invariant pool.Valid()
      invariant forall i :: 0 <= i < served ==> Fits(pool.cfg, requests[i])
      invariant served > 0 ==>
        var m := requests[served - 1].modelId;
        && pool.prefix[m] == |pool.cfg.models[m].groupUnits|
        && UsedBytes(pool.cfg, pool.resident) <= pool.weightCapacityBytes
    {
      before := pool.prefix;
      var ok := ServeOne(pool, requests[served]);
      if !ok {
        return;
      }
      served := served + 1;
    }
  }

  /** One request with the damage predicted for it. */
  method ServeOne(pool: PagePrefixMemory, request: Request) returns (ok: bool)
    requires pool.Valid() && request.modelId in pool.cfg.models && Fair(request.predicted)
    modifies pool
    ensures ok <==> Fits(pool.cfg, request) && !MissedBy(pool.cfg, request, old(pool.prefix))
    ensures ReclaimsExactly(pool.cfg, request.predicted) ==> (ok <==> Fits(pool.cfg, request))
    ensures ok ==>
      && pool.Valid() && pool.prefix[request.modelId] == |pool.cfg.models[request.modelId].groupUnits|
      && UsedBytes(pool.cfg, pool.resident) <= pool.weightCapacityBytes
  {
    hide ServeMisses, ReclaimsExactly, EachRuns, EachLongest, ServesTo, UsedBytes, FullBytes, Fair;
    pool.SetPrediction(request.predicted);
    var r := pool.ServeRequest(request.modelId, request.kvBytes);
    ok := r.Ok?;
  }

  /** Serve a request, remembering where the pool came from. */
  method ServeFrom(pool: PagePrefixMemory, m: int, kvBytes: nat, ghost held: map<int, nat>, ghost used: int)
    returns (r: Result<Cost>)
    requires pool.Valid() && m in pool.cfg.models
    requires pool.prefix == held && used == UsedBytes(pool.cfg, pool.resident)
    modifies pool
    ensures pool.damage == old(pool.damage)
    ensures var limit := Max(0, pool.cfg.capacityBytes - kvBytes);
      && (r.Ok? <==> FullBytes(pool.cfg.models[m]) <= limit && !ServeMisses(pool.cfg, held, pool.damage, m, limit))
      && (r == Err(PrefixMismatch) <==> ServeMisses(pool.cfg, held, pool.damage, m, limit))
    ensures r.Err? ==> r.error == CannotReclaim || r.error == PrefixMismatch
    ensures r.Ok? ==> pool.Valid() && CostsTo(pool.cfg, held, used, pool.prefix, pool.damage, m, kvBytes, r.value)
    ensures pool.weightCapacityBytes == Max(0, pool.cfg.capacityBytes - kvBytes)
  {
    hide ServeMisses, ReclaimsExactly, EachRuns, EachLongest, ServesTo, FullBytes, UsedBytes;
    r := pool.ServeRequest(m, kvBytes);
    if r.Ok? {
      UsedIsHeld(pool.cfg, pool.resident, pool.prefix);
    }
  }

  /** The prefixes say which units are resident. */
  lemma {:induction false} SameUnits(cfg: Config, resident: Mapped, other: Mapped, prefix: map<int, nat>)
    requires Runs(cfg, resident, prefix) && Runs(cfg, other, prefix)
    ensures resident == other
  {
    forall m | m in cfg.models ensures resident[m] == other[m] {
      RunsAt(cfg, resident, prefix, m);
      RunsAt(cfg, other, prefix, m);
    }
  }

  /** The cost of a served request, by the prefixes before and after. */
  ghost predicate CostsTo(
    cfg: Config, held: map<int, nat>, used: int, after: map<int, nat>, damage: DamageFunction, m: int, kvBytes: nat, cost: Cost)
  {
    && cfg.Ordered() && m in cfg.models && held.Keys == after.Keys == cfg.models.Keys
    && ServesTo(cfg, held, after, damage, m, Max(0, cfg.capacityBytes - kvBytes))
    && cost.mappedBytes == FullBytes(cfg.models[m]) - BytesOf(cfg, m, held[m])
    && HeldTotal(cfg, after) == used + cost.mappedBytes - cost.evictedBytes
  }

  lemma {:induction false} CostUnique(
    cfg: Config, held: map<int, nat>, used: int, a: map<int, nat>, b: map<int, nat>, damage: DamageFunction,
    m: int, kvBytes: nat, cost: Cost, other: Cost)
    requires CostsTo(cfg, held, used, a, damage, m, kvBytes, cost) && CostsTo(cfg, held, used, b, damage, m, kvBytes, other)
    ensures a == b && cost == other
  {
    ServedUnique(cfg, held, a, b, damage, m, Max(0, cfg.capacityBytes - kvBytes));
  }

  /** A routing preview: run the request on a clone, then commit it. The preview
      leaves the pool alone, and the commit costs, or fails as, the preview said. */
  method PreviewThenCommit(pool: PagePrefixMemory, m: int, kvBytes: nat)
    returns (preview: Result<Cost>, committed: Result<Cost>, ghost untouched: bool, ghost same: bool)
    requires pool.Valid() && m in pool.cfg.models
    modifies pool
    ensures untouched && preview == committed && (committed.Ok? ==> same)
  {
    hide ServeMisses, ReclaimsExactly, CostsTo, EachRuns, EachLongest;
    ghost var held, used, limit := pool.prefix, UsedBytes(pool.cfg, pool.resident), pool.weightCapacityBytes;
    var before := pool.resident;
    var probe := pool.Clone();
    preview := ServeFrom(probe, m, kvBytes, held, used);
    untouched := pool.resident == before && pool.prefix == held && pool.weightCapacityBytes == limit;
    committed := ServeFrom(pool, m, kvBytes, held, used);
    if preview.Ok? {
      CostUnique(pool.cfg, held, used, probe.prefix, pool.prefix, pool.damage, m, kvBytes, preview.value, committed.value);
      SameUnits(pool.cfg, probe.resident, pool.resident, pool.prefix);
    }
    same := probe.prefix == pool.prefix && probe.resident == pool.resident && probe.weightCapacityBytes == pool.weightCapacityBytes;
  }

  // --------------------------------------------- damage from the stall table

  /** The table as the planner reads it; other models or prefixes never occur. */
  function StallOf(tables: map<int, ModelTable>, policy: Extrapolation): StallLookup {
    (m: int, x: int, p: nat) =>
      if m in tables && ValidModel(tables[m]) && p <= |tables[m].groups|
      then Lookup(tables[m], policy, x, Prefix, p).value
      else 0.0
  }

  /** Predicted damage is fair, whatever the samples. */
  lemma {:induction false} TableDamageIsFair(tables: map<int, ModelTable>, policy: Extrapolation, samples: map<int, seq<Sample>>)
    ensures Fair(DamageOf(StallOf(tables, policy), samples))
  {
    forall m: int, held: nat, prefix: nat
      ensures DamageOf(StallOf(tables, policy), samples)(m, held, prefix) >= 0.0
      ensures DamageOf(StallOf(tables, policy), samples)(m, held, held) == 0.0
    {
      if m in samples {
        DamageIsFair(StallOf(tables, policy), samples[m], m, held, prefix);
      }
    }
  }

  /** Every sample asks for a token count that needs no extrapolation. */
  ghost predicate SamplesInRange(tables: map<int, ModelTable>, policy: Extrapolation, samples: map<int, seq<Sample>>) {
    forall m :: m in tables && m in samples ==>
      tables[m].rows != [] && forall i :: 0 <= i < |samples[m]| ==> InRange(Tokens(tables[m]), samples[m][i].inputTokens, policy)
  }

  lemma {:induction false} TableStallFalls(
    tables: map<int, ModelTable>, policy: Extrapolation, samples: seq<Sample>, m: int, held: nat)
    requires m in tables && ValidModel(tables[m]) && held <= |tables[m].groups|
    requires forall i :: 0 <= i < |samples| ==> InRange(Tokens(tables[m]), samples[i].inputTokens, policy)
    ensures FallingStall(StallOf(tables, policy), samples, m, held)
  {
    var lookup := StallOf(tables, policy);
    forall i, a: nat, b: nat | 0 <= i < |samples| && a <= b <= held
      ensures lookup(m, samples[i].inputTokens, b) <= lookup(m, samples[i].inputTokens, a)
    {
      LookupAntitone(tables[m], policy, samples[i].inputTokens, Prefix, a, b);
    }
  }

  /** With a valid table of the right shape and samples in range, no reclaim can
      miss its preview, even when groups share pages. */
  lemma {:induction false} InRangeReclaimsExactly(
    cfg: Config, tables: map<int, ModelTable>, policy: Extrapolation, samples: map<int, seq<Sample>>)
    requires cfg.WellFormed()
    requires forall m :: m in cfg.models ==>
      m in tables && ValidModel(tables[m]) && |tables[m].groups| + 1 == |cfg.models[m].unitCounts|
    requires SamplesInRange(tables, policy, samples)
    ensures ReclaimsExactly(cfg, DamageOf(StallOf(tables, policy), samples))
  {
    var damage := DamageOf(StallOf(tables, policy), samples);
    forall m, held: nat, a: nat, b: nat | m in cfg.models && a <= b <= held < |cfg.models[m].unitCounts|
      ensures damage(m, held, b) <= damage(m, held, a)
    {
      if m in samples {
        TableStallFalls(tables, policy, samples[m], m, held);
        DamageAntitone(StallOf(tables, policy), samples[m], m, held, a, b);
      }
    }
    AlwaysExact(cfg, damage);
  }
}
