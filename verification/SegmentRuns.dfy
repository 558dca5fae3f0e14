/** Whole runs of the segment backend: any sequence of requests under one of its
    replacement policies
    (evaluation/tensor_simulator/layerweave_tensor_pipeline_sim.py). */
module SegmentRuns {
  import opened Common
  import opened SegmentExtents
  import opened SegmentModels
  import opened SegmentEvictions
  import opened SegmentShape
  import opened SegmentSteps
  import opened SegmentPool
  import opened SegmentBlocks
  import opened SegmentOutcomes
  import opened SegmentPlans
  import opened SegmentPlanner
  import opened SegmentReclaim
  import opened SegmentThrift
  import Mckp

  datatype Request = Request(modelId: int, kvBytes: nat, predicted: Mckp.DamageFunction)

  /** How a run ends. */
  datatype Ending = Completed | Stopped(stage: Stage) | ShapeBroken

  /** The residency the profile is looked up with: a suffix start under LRU, else a
      prefix count; nothing if the resident groups have neither shape. */
  method ResidencyState(pool: MockAllocationSegmentMemory, m: int) returns (state: Option<nat>)
    requires pool.Ready() && m in pool.base.models
    ensures pool.replacement != OneByOne || LeastRecent(pool.base.rule) ==> state.Some?
    ensures state.Some? ==>
      var ids, n := ResidentIds(pool.base.index.Keys, m), GroupCount(pool.base.models, m);
      ids == if pool.replacement == OneByOne then Range(state.value, n) else Initial(state.value)
  {
    if pool.replacement == OneByOne {
      state := pool.ResidentSuffixStart(m);
    } else {
      state := pool.ResidentPrefixCount(m);
      if state.Some? {
        forall g: nat ensures g in ResidentIds(pool.base.index.Keys, m) <==> g < state.value {
          ResidentId(pool.base.index.Keys, m, g);
        }
        assert ResidentIds(pool.base.index.Keys, m) == Initial(state.value);
      }
    }
  }

  /** Every KV cache is a whole number of blocks, as `kv_bytes` computes it. */
  ghost predicate WholeRequests(pool: MockAllocationSegmentMemory, requests: seq<Request>) {
    pool.kvBlockBytes > 0 && forall i :: 0 <= i < |requests| ==> WholeBlocks(requests[i].kvBytes, pool.kvBlockBytes)
  }

  /** Serve requests until one fails. Under the prefix policies and under LRU the
      shape checks never fail, and a request whose model fits (with its KV cache, under
      a prefix policy) never fails on its weights. */
  method Simulate(pool: MockAllocationSegmentMemory, requests: seq<Request>) returns (served: nat, ending: Ending)
    requires pool.Ready()
    requires forall i :: 0 <= i < |requests| ==>
      requests[i].modelId in pool.base.models && Mckp.Fair(requests[i].predicted)
    modifies pool, pool.base
    ensures served <= |requests| && (ending == Completed <==> served == |requests|)
    ensures ending == Completed ==> pool.Ready()
    ensures pool.replacement != OneByOne || LeastRecent(pool.base.rule) ==> ending != ShapeBroken
    ensures ending == Stopped(WeightStage) ==>
      var request := requests[served];
      FullBytes(pool.base.models, request.modelId) + WithKv(pool.replacement, request.kvBytes) > pool.base.capacityBytes
    // in a pool of whole blocks a run stops exactly at the first request that does not fit
    ensures old(pool.WholePool()) && WholeRequests(pool, requests) && ending != ShapeBroken ==>
      && (forall i :: 0 <= i < served ==> pool.FitsWhole(requests[i].modelId, requests[i].kvBytes))
      && (served < |requests| ==> !pool.FitsWhole(requests[served].modelId, requests[served].kvBytes))
  {
    hide Sound, PicksCandidates, SizesMatch, AllPrefixShaped, LeastRecent, KvNumbered, ServingOf, ServedState, AllResident, FullBytes;
    hide AllBlocks, WholeModels, PlacedFor, Evict, UsedBytes, BytesIn, Thrifty, FreeBytes, IndexOf;
    served, ending := 0, Completed;
    ghost var whole := pool.WholePool() && WholeRequests(pool, requests);
    while served < |requests|
      invariant served <= |requests| && pool.Ready() && ending == Completed
      invariant whole ==> pool.WholePool()
      invariant whole ==> forall i :: 0 <= i < served ==> pool.FitsWhole(requests[i].modelId, requests[i].kvBytes)
    {
      var request := requests[served];
      var before := ResidencyState(pool, request.modelId);
      if before.None? {
        return served, ShapeBroken;
      }
      pool.SetPrediction(request.predicted);
      var r := pool.ServeRequest(request.modelId, request.kvBytes);
      if r.Unserved? {
        return served, Stopped(r.stage);
      }
      served := served + 1;
    }
  }

  // ------------------------------------------------------------ LRU rules

  ghost predicate Oldest(accesses: map<PoolKey, int>, keys: set<PoolKey>, v: PoolKey) {
    v in keys && forall k :: k in keys ==> Access(accesses, v) <= Access(accesses, k)
  }

  lemma {:induction false} OldestExists(accesses: map<PoolKey, int>, keys: set<PoolKey>)
    requires keys != {}
    ensures exists v :: Oldest(accesses, keys, v)
  {
    var x := Member(keys);
    var rest := keys - {x};
    assert keys == rest + {x};
    if rest == {} {
      assert Oldest(accesses, keys, x);
    } else {
      OldestExists(accesses, rest);
      var v :| Oldest(accesses, rest, v);
      assert Oldest(accesses, keys, if Access(accesses, v) <= Access(accesses, x) then v else x);
    }
  }

  ghost function OldestOf(accesses: map<PoolKey, int>, keys: set<PoolKey>): (v: PoolKey)
    ensures keys != {} ==> Oldest(accesses, keys, v)
  {
    if keys == {} then Kv(0)
    else
      OldestExists(accesses, keys);
      var v :| Oldest(accesses, keys, v);
      v
  }

  /** There is a least-recently-used rule, so the LRU claims are about something. */
  lemma {:induction false} LruRuleExists()
    ensures exists rule: VictimRule :: PicksCandidates(rule) && LeastRecent(rule)
  {
    var rule: VictimRule := (es: seq<Extent>, accesses: map<PoolKey, int>, keys: set<PoolKey>) => OldestOf(accesses, keys);
    assert PicksCandidates(rule);
    assert LeastRecent(rule);
  }
}
