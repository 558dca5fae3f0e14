/** What the segment pool's tensor-by-tensor path leads to, step by step, as functions of
    the pool it finds (evaluation/tensor_simulator/tensor_sim_segment_backend.py). */
module SegmentSteps {
  import opened Common
  import opened SegmentExtents
  import opened SegmentReclaim
  import opened SegmentModels
  import opened SegmentEvictions

  datatype Compaction = Never | CostAware | Always

  datatype Costs = Costs(gpuCopyBytesPerMs: real, compactionFixedMs: real, h2dBytesPerMs: real)

  function CompactMs(costs: Costs, moved: nat): real
    requires costs.gpuCopyBytesPerMs > 0.0
  {
    moved as real / costs.gpuCopyBytesPerMs + costs.compactionFixedMs
  }

  function ReloadMs(costs: Costs, bytes: nat): real
    requires costs.h2dBytesPerMs > 0.0
  {
    bytes as real / costs.h2dBytesPerMs
  }

  datatype LoadCost = LoadCost(h2dBytes: nat, evictedObjects: nat, evictedBytes: nat, movedBytes: nat)

  const NO_COST := LoadCost(0, 0, 0, 0)

  function Evicted(objects: nat, bytes: nat): LoadCost {
    LoadCost(0, objects, bytes, 0)
  }

  datatype AllocationError = CannotFit | Fragmented
  datatype Allocation = Allocated(cost: LoadCost) | Failed(error: AllocationError)

  function AddCost(a: LoadCost, b: LoadCost): LoadCost {
    LoadCost(a.h2dBytes + b.h2dBytes, a.evictedObjects + b.evictedObjects, a.evictedBytes + b.evictedBytes, a.movedBytes + b.movedBytes)
  }

  // ------------------------------------------------- what a request leads to

  /** What a pool is set up with, and what changes as requests come. */
  datatype Settings = Settings(models: Models, capacityBytes: nat, rule: VictimRule, compaction: Compaction, costs: Costs) {
    ghost predicate Sane() {
      costs.gpuCopyBytesPerMs > 0.0 && costs.h2dBytesPerMs > 0.0
    }
  }

  datatype PoolState = PoolState(
    limit: nat, extents: seq<Extent>, compactions: nat, clock: nat, accesses: map<PoolKey, int>)

  /** The extents after a step, the compactions it made, and what it cost. */
  datatype Step = Step(extents: seq<Extent>, compactions: nat, cost: LoadCost)

  /** An eviction loop as a step. */
  function EvictionStep(before: seq<Extent>, e: Option<Eviction>): Option<Step> {
    if e.None? then None
    else Some(Step(e.value.extents, 0, Evicted(e.value.objects, Lost(before, e.value.extents))))
  }

  function CompactionStep(es: seq<Extent>, capacity: nat): Step {
    Step(Compacted(es, capacity), 1, NO_COST.(movedBytes := Moved(es, 0)))
  }

  /** One step after the other. */
  function Then(first: Option<Step>, second: Option<Step>): Option<Step> {
    if first.None? || second.None? then None
    else Some(Step(second.value.extents, first.value.compactions + second.value.compactions, AddCost(first.value.cost, second.value.cost)))
  }

  /** Down to the weight limit, and compacted if something still lies beyond it. */
  ghost function TrimStep(st: Settings, accesses: map<PoolKey, int>, limit: nat, active: int, es: seq<Extent>): Option<Step> {
    var within := EvictionStep(es, EvictUntil(st.rule, accesses, active, Within(limit), es));
    if within.None? || AllBelow(within.value.extents, limit) then within
    else Then(within, Some(CompactionStep(within.value.extents, st.capacityBytes)))
  }

  /** A cost-aware pool evicts where reloading the victims is cheaper than compacting. */
  ghost predicate PrefersEvicting(st: Settings, es: seq<Extent>, e: Option<Eviction>)
    requires st.Sane()
  {
    || st.compaction == Never
    || (st.compaction == CostAware && e.Some?
        && ReloadMs(st.costs, Lost(es, e.value.extents)) < CompactMs(st.costs, Moved(es, 0)))
  }

  /** A free stretch of `size` bytes, by evicting or by compacting. */
  ghost function StretchStep(
    st: Settings, accesses: map<PoolKey, int>, limit: nat, active: int, size: nat, es: seq<Extent>): Option<Step>
    requires st.Sane()
  {
    var e := EvictUntil(st.rule, accesses, active, Stretch(limit, size), es);
    if PrefersEvicting(st, es, e) then EvictionStep(es, e) else Some(CompactionStep(es, st.capacityBytes))
  }

  predicate Fits(e: Extent, limit: nat, size: nat) {
    e.key.None? && Clip(e, limit) >= size
  }

  /** The first extent with room below the limit. */
  function FirstFitAt(es: seq<Extent>, limit: nat, size: nat): nat {
    if es == [] || Fits(es[0], limit, size) then 0 else 1 + FirstFitAt(es[1..], limit, size)
  }

  lemma {:induction false} FirstFitIs(es: seq<Extent>, limit: nat, size: nat, i: nat)
    requires i < |es| && Fits(es[i], limit, size)
    requires forall j :: 0 <= j < i ==> !Fits(es[j], limit, size)
    ensures FirstFitAt(es, limit, size) == i
  {
    if i > 0 {
      assert !Fits(es[0], limit, size);
      FirstFitIs(es[1..], limit, size, i - 1);
    }
  }

  function PlacementStep(es: seq<Extent>, limit: nat, key: PoolKey, size: nat): Option<Step> {
    var i := FirstFitAt(es, limit, size);
    if i < |es| && size <= es[i].size then Some(Step(Place(es, i, key, size), 0, NO_COST.(h2dBytes := size))) else None
  }

  /** Room for a missing group, then a stretch for it. */
  ghost function ReadyStep(
    st: Settings, accesses: map<PoolKey, int>, limit: nat, active: int, size: nat, es: seq<Extent>): Option<Step>
    requires st.Sane()
  {
    var room := EvictionStep(es, EvictUntil(st.rule, accesses, active, Room(limit, size), es));
    if room.None? || LargestBelow(room.value.extents, limit) >= size then room
    else Then(room, StretchStep(st, accesses, limit, active, size, room.value.extents))
  }

  /** And its place. */
  ghost function AllocationStep(
    st: Settings, accesses: map<PoolKey, int>, limit: nat, active: int, key: PoolKey, size: nat, es: seq<Extent>): Option<Step>
    requires st.Sane()
  {
    var ready := ReadyStep(st, accesses, limit, active, size, es);
    if ready.None? then None else Then(ready, PlacementStep(ready.value.extents, limit, key, size))
  }

  function Touched(pool: PoolState, key: PoolKey): PoolState {
    pool.(clock := pool.clock + 1, accesses := pool.accesses[key := pool.clock + 1])
  }

  /** A pool after a step, with one group touched. */
  function Advanced(pool: PoolState, step: Step, key: PoolKey): PoolState {
    Touched(pool.(extents := step.extents, compactions := pool.compactions + step.compactions), key)
  }

  datatype Outcome = Outcome(pool: PoolState, cost: LoadCost)

  function Costing(cost: LoadCost, o: Option<Outcome>): Option<Outcome> {
    if o.None? then None else Some(Outcome(o.value.pool, AddCost(cost, o.value.cost)))
  }

  /** One tensor: a resident group is only touched. */
  ghost function TensorStep(st: Settings, pool: PoolState, m: int, tensor: nat): Option<Outcome>
    requires st.Sane() && m in st.models && tensor < |st.models[m].tensorGroup|
    requires st.models[m].tensorGroup[tensor] < |st.models[m].groupBytes|
  {
    var g := st.models[m].tensorGroup[tensor];
    var key := Key(m, g);
    if key in IndexOf(pool.extents) then Some(Outcome(Touched(pool, key), NO_COST))
    else
      var step := AllocationStep(st, pool.accesses, pool.limit, m, key, st.models[m].groupBytes[g], pool.extents);
      if step.None? then None else Some(Outcome(Advanced(pool, step.value, key), step.value.cost))
  }

  /** The tensors of a model from position `t` on, one after the other. */
  ghost function LoadingFrom(st: Settings, pool: PoolState, m: int, t: nat): Option<Outcome>
    requires st.Sane() && m in st.models && st.models[m].WellFormed() && t <= |st.models[m].tensorGroup|
    decreases |st.models[m].tensorGroup| - t
  {
    if t == |st.models[m].tensorGroup| then Some(Outcome(pool, NO_COST))
    else
      var first := TensorStep(st, pool, m, t);
      if first.None? then None else Costing(first.value.cost, LoadingFrom(st, first.value.pool, m, t + 1))
  }

  /** A whole request. */
  ghost function Serving(st: Settings, pool: PoolState, m: int, kvBytes: nat): Option<Outcome>
    requires st.Sane() && m in st.models && st.models[m].WellFormed()
  {
    var limit := Max(0, st.capacityBytes - kvBytes);
    var trim := TrimStep(st, pool.accesses, limit, m, pool.extents);
    if trim.None? then None
    else
      var trimmed := pool.(limit := limit, extents := trim.value.extents, compactions := pool.compactions + trim.value.compactions);
      Costing(trim.value.cost, LoadingFrom(st, trimmed, m, 0))
  }

  /** A step succeeded if this one does, and then this is where it led. */
  ghost predicate StepTaken(step: Option<Step>, extents: seq<Extent>, compactions: nat, before: nat, ok: bool, cost: LoadCost) {
    (ok <==> step.Some?) && (ok ==> step.value.extents == extents && before + step.value.compactions == compactions && step.value.cost == cost)
  }

  lemma {:induction false} LoadingStart(st: Settings, pool: PoolState, m: int)
    requires st.Sane() && m in st.models && st.models[m].WellFormed()
    ensures LoadingFrom(st, pool, m, 0) == Costing(NO_COST, LoadingFrom(st, pool, m, 0))
  {
    hide LoadingFrom;
  }

  lemma {:induction false} LoadingNext(st: Settings, pool: PoolState, m: int, t: nat, cost: LoadCost)
    requires st.Sane() && m in st.models && st.models[m].WellFormed() && t < |st.models[m].tensorGroup|
    ensures var first := TensorStep(st, pool, m, t);
      Costing(cost, LoadingFrom(st, pool, m, t)) ==
        if first.None? then None else Costing(AddCost(cost, first.value.cost), LoadingFrom(st, first.value.pool, m, t + 1))
  {
    hide TensorStep;
  }

  lemma {:induction false} LoadingEnd(st: Settings, pool: PoolState, m: int)
    requires st.Sane() && m in st.models && st.models[m].WellFormed()
    ensures LoadingFrom(st, pool, m, |st.models[m].tensorGroup|) == Some(Outcome(pool, NO_COST))
  {
  }

  // -------------------------------------------- what a step evicts and moves

  /** Objects were evicted as long as something was short; nothing else happened. */
  ghost predicate EvictsFor(
    st: Settings, accesses: map<PoolKey, int>, active: int, short: Shortage, es: seq<Extent>, step: Step)
  {
    && EvictedWhile(st.rule, accesses, active, short, es, step.extents) && step.compactions == 0
    && step.cost.h2dBytes == step.cost.movedBytes == 0
    && Held(step.extents) + step.cost.evictedObjects == Held(es)
    && UsedBytes(step.extents) + step.cost.evictedBytes == UsedBytes(es)
  }

  /** The pool was compacted; nothing was evicted. */
  ghost predicate Compacts(st: Settings, es: seq<Extent>, step: Step) {
    && step.extents == Compacted(es, st.capacityBytes) && step.compactions == 1
    && step.cost == LoadCost(0, 0, 0, Moved(es, 0))
  }

  /** One step after the other makes this one. */
  ghost predicate Together(first: Step, second: Step, step: Step) {
    && step.extents == second.extents && step.compactions == first.compactions + second.compactions
    && step.cost.h2dBytes == first.cost.h2dBytes + second.cost.h2dBytes
    && step.cost.movedBytes == first.cost.movedBytes + second.cost.movedBytes
    && step.cost.evictedObjects == first.cost.evictedObjects + second.cost.evictedObjects
    && step.cost.evictedBytes == first.cost.evictedBytes + second.cost.evictedBytes
  }

  /** Trimming evicts as long as too much is in use, and compacts only if something
      then lies beyond the limit. */
  ghost predicate Trims(st: Settings, accesses: map<PoolKey, int>, limit: nat, active: int, es: seq<Extent>, step: Step) {
    exists first: Step, second: Step ::
      && EvictsFor(st, accesses, active, Overfull(limit), es, first)
      && TidiesUp(st, limit, first.extents, second) && Together(first, second, step)
  }

  ghost predicate TidiesUp(st: Settings, limit: nat, es: seq<Extent>, step: Step) {
    if AllBelow(es, limit) then step == Step(es, 0, NO_COST) else Compacts(st, es, step)
  }

  /** Evicting until a stretch is free would lose bytes that are reloaded faster than
      the pool is compacted. */
  ghost predicate CheaperToEvict(
    st: Settings, accesses: map<PoolKey, int>, limit: nat, active: int, size: nat, es: seq<Extent>)
    requires st.Sane()
  {
    exists after ::
      && EvictedWhile(st.rule, accesses, active, NoStretch(limit, size), es, after)
      && (UsedBytes(es) - UsedBytes(after)) as real / st.costs.h2dBytesPerMs
         < Moved(es, 0) as real / st.costs.gpuCopyBytesPerMs + st.costs.compactionFixedMs
  }

  /** A stretch is gained by evicting where the pool is never compacted, or where that is
      cheaper and costs count; otherwise by compacting. */
  ghost predicate Stretches(
    st: Settings, accesses: map<PoolKey, int>, limit: nat, active: int, size: nat, es: seq<Extent>, step: Step)
    requires st.Sane()
  {
    if st.compaction == Never || (st.compaction == CostAware && CheaperToEvict(st, accesses, limit, active, size, es))
    then EvictsFor(st, accesses, active, NoStretch(limit, size), es, step)
    else Compacts(st, es, step)
  }

  /** Objects are evicted as long as too few bytes are free, and a stretch is gained only
      if none is large enough then. */
  ghost predicate Readies(
    st: Settings, accesses: map<PoolKey, int>, limit: nat, active: int, size: nat, es: seq<Extent>, step: Step)
    requires st.Sane()
  {
    exists first: Step, second: Step ::
      && EvictsFor(st, accesses, active, FewBelow(limit, size), es, first)
      && Opens(st, accesses, limit, active, size, first.extents, second) && Together(first, second, step)
  }

  ghost predicate Opens(
    st: Settings, accesses: map<PoolKey, int>, limit: nat, active: int, size: nat, es: seq<Extent>, step: Step)
    requires st.Sane()
  {
    if LargestBelow(es, limit) >= size then step == Step(es, 0, NO_COST)
    else Stretches(st, accesses, limit, active, size, es, step)
  }

  /** And the group takes the low end of the first free extent with room for it. */
  ghost predicate Allocates(
    st: Settings, accesses: map<PoolKey, int>, limit: nat, active: int, key: PoolKey, size: nat, es: seq<Extent>, step: Step)
    requires st.Sane()
  {
    exists ready: Step, i: nat ::
      && Readies(st, accesses, limit, active, size, es, ready)
      && i < |ready.extents| && Fits(ready.extents[i], limit, size) && size <= ready.extents[i].size
      && (forall j :: 0 <= j < i ==> !Fits(ready.extents[j], limit, size))
      && step.extents == Place(ready.extents, i, key, size) && step.compactions == ready.compactions
      && step.cost == ready.cost.(h2dBytes := size)
  }

  /** An eviction loop, as a step, evicts as long as something is short. */
  lemma {:induction false} LoopEvicts(
    st: Settings, accesses: map<PoolKey, int>, active: int, goal: Goal, short: Shortage, es: seq<Extent>, step: Step)
    requires PicksCandidates(st.rule) && Sound(es, IndexOf(es), st.capacityBytes)
    requires forall e :: short(e) <==> !Reached(goal, e)
    requires EvictionStep(es, EvictUntil(st.rule, accesses, active, goal, es)) == Some(step)
    ensures EvictsFor(st, accesses, active, short, es, step) && Sound(step.extents, IndexOf(step.extents), st.capacityBytes)
  {
    hide EvictUntil, EvictedWhile, Sound, PicksCandidates, Reached, Held, UsedBytes;
    Trail(st.rule, accesses, active, goal, short, es, st.capacityBytes);
    UntilCounts(st.rule, accesses, active, goal, es, st.capacityBytes);
  }

  lemma {:induction false} TrimIs(st: Settings, accesses: map<PoolKey, int>, limit: nat, active: int, es: seq<Extent>, step: Step)
    requires PicksCandidates(st.rule) && Sound(es, IndexOf(es), st.capacityBytes)
    requires TrimStep(st, accesses, limit, active, es) == Some(step)
    ensures Trims(st, accesses, limit, active, es, step)
  {
    hide EvictUntil, EvictsFor, Sound, PicksCandidates, UsedBytes, AllBelow, Compacted, Moved;
    var first := EvictionStep(es, EvictUntil(st.rule, accesses, active, Within(limit), es)).value;
    LoopEvicts(st, accesses, active, Within(limit), Overfull(limit), es, first);
    var second := if AllBelow(first.extents, limit) then Step(first.extents, 0, NO_COST) else CompactionStep(first.extents, st.capacityBytes);
    assert TidiesUp(st, limit, first.extents, second) && Together(first, second, step);
  }

  /** What the probe finds is what evicting would lead to. */
  lemma {:induction false} ProbeIsCheaper(
    st: Settings, accesses: map<PoolKey, int>, limit: nat, active: int, size: nat, es: seq<Extent>)
    requires st.Sane() && PicksCandidates(st.rule) && Sound(es, IndexOf(es), st.capacityBytes) && st.compaction == CostAware
    ensures PrefersEvicting(st, es, EvictUntil(st.rule, accesses, active, Stretch(limit, size), es))
      <==> CheaperToEvict(st, accesses, limit, active, size, es)
  {
    hide EvictUntil, EvictedWhile, Sound, PicksCandidates, UsedBytes, LargestBelow, Moved;
    var e := EvictUntil(st.rule, accesses, active, Stretch(limit, size), es);
    if PrefersEvicting(st, es, e) {
      Trail(st.rule, accesses, active, Stretch(limit, size), NoStretch(limit, size), es, st.capacityBytes);
      UntilCounts(st.rule, accesses, active, Stretch(limit, size), es, st.capacityBytes);
    }
    if CheaperToEvict(st, accesses, limit, active, size, es) {
      var after :|
        && EvictedWhile(st.rule, accesses, active, NoStretch(limit, size), es, after)
        && (UsedBytes(es) - UsedBytes(after)) as real / st.costs.h2dBytesPerMs
           < Moved(es, 0) as real / st.costs.gpuCopyBytesPerMs + st.costs.compactionFixedMs;
      OnlyEnd(st.rule, accesses, active, Stretch(limit, size), NoStretch(limit, size), es, after, st.capacityBytes);
      UntilCounts(st.rule, accesses, active, Stretch(limit, size), es, st.capacityBytes);
    }
  }

  lemma {:induction false} StretchIs(
    st: Settings, accesses: map<PoolKey, int>, limit: nat, active: int, size: nat, es: seq<Extent>, step: Step)
    requires st.Sane() && PicksCandidates(st.rule) && Sound(es, IndexOf(es), st.capacityBytes)
    requires StretchStep(st, accesses, limit, active, size, es) == Some(step)
    ensures Stretches(st, accesses, limit, active, size, es, step)
  {
    hide EvictUntil, EvictsFor, CheaperToEvict, Sound, PicksCandidates, LargestBelow, Compacted, Moved;
    if st.compaction == CostAware {
      ProbeIsCheaper(st, accesses, limit, active, size, es);
    }
    if PrefersEvicting(st, es, EvictUntil(st.rule, accesses, active, Stretch(limit, size), es)) {
      LoopEvicts(st, accesses, active, Stretch(limit, size), NoStretch(limit, size), es, step);
    }
  }

  lemma {:induction false} ReadyIs(
    st: Settings, accesses: map<PoolKey, int>, limit: nat, active: int, size: nat, es: seq<Extent>, step: Step)
    requires st.Sane() && PicksCandidates(st.rule) && Sound(es, IndexOf(es), st.capacityBytes)
    requires ReadyStep(st, accesses, limit, active, size, es) == Some(step)
    ensures Readies(st, accesses, limit, active, size, es, step)
  {
    hide EvictUntil, EvictsFor, Sound, PicksCandidates, FreeBelow, LargestBelow, StretchStep, Stretches;
    var first := EvictionStep(es, EvictUntil(st.rule, accesses, active, Room(limit, size), es)).value;
    LoopEvicts(st, accesses, active, Room(limit, size), FewBelow(limit, size), es, first);
    var second := Step(first.extents, 0, NO_COST);
    if LargestBelow(first.extents, limit) < size {
      second := StretchStep(st, accesses, limit, active, size, first.extents).value;
      StretchIs(st, accesses, limit, active, size, first.extents, second);
    }
    assert Opens(st, accesses, limit, active, size, first.extents, second) && Together(first, second, step);
  }

  lemma {:induction false} ReadyLoadsNothing(
    st: Settings, accesses: map<PoolKey, int>, limit: nat, active: int, size: nat, es: seq<Extent>, step: Step)
    requires st.Sane() && Readies(st, accesses, limit, active, size, es, step)
    ensures step.cost.h2dBytes == 0
  {
    hide EvictedWhile, CheaperToEvict, LargestBelow;
  }

  lemma {:induction false} FirstFit(es: seq<Extent>, limit: nat, size: nat)
    ensures var i := FirstFitAt(es, limit, size);
      && (forall j :: 0 <= j < i && j < |es| ==> !Fits(es[j], limit, size)) && (i < |es| ==> Fits(es[i], limit, size))
  {
    if es != [] && !Fits(es[0], limit, size) {
      FirstFit(es[1..], limit, size);
    }
  }

  lemma {:induction false} AllocationIs(
    st: Settings, accesses: map<PoolKey, int>, limit: nat, active: int, key: PoolKey, size: nat, es: seq<Extent>, step: Step)
    requires st.Sane() && PicksCandidates(st.rule) && Sound(es, IndexOf(es), st.capacityBytes)
    requires AllocationStep(st, accesses, limit, active, key, size, es) == Some(step)
    ensures Allocates(st, accesses, limit, active, key, size, es, step)
  {
    hide ReadyStep, Readies, Sound, PicksCandidates, Fits, Place;
    var ready := ReadyStep(st, accesses, limit, active, size, es).value;
    ReadyIs(st, accesses, limit, active, size, es, ready);
    ReadyLoadsNothing(st, accesses, limit, active, size, es, ready);
    FirstFit(ready.extents, limit, size);
  }

  /** Some such trim led here. */
  ghost predicate TrimmedTo(
    st: Settings, accesses: map<PoolKey, int>, limit: nat, active: int, es: seq<Extent>, now: seq<Extent>, compactions: int, cost: LoadCost)
  {
    exists step: Step ::
      Trims(st, accesses, limit, active, es, step) && step.extents == now && step.compactions == compactions && step.cost == cost
  }

  lemma {:induction false} TrimTaken(
    st: Settings, accesses: map<PoolKey, int>, limit: nat, active: int, es: seq<Extent>, now: seq<Extent>,
    before: nat, after: nat, cost: LoadCost)
    requires PicksCandidates(st.rule) && Sound(es, IndexOf(es), st.capacityBytes)
    requires StepTaken(TrimStep(st, accesses, limit, active, es), now, after, before, true, cost)
    ensures TrimmedTo(st, accesses, limit, active, es, now, after - before, cost)
  {
    hide TrimStep, Trims, Sound, PicksCandidates;
    TrimIs(st, accesses, limit, active, es, TrimStep(st, accesses, limit, active, es).value);
  }

  /** Some such allocation led here. */
  ghost predicate AllocatedTo(
    st: Settings, accesses: map<PoolKey, int>, limit: nat, active: int, key: PoolKey, size: nat, es: seq<Extent>,
    now: seq<Extent>, compactions: int, cost: LoadCost)
    requires st.Sane()
  {
    exists step: Step ::
      && Allocates(st, accesses, limit, active, key, size, es, step)
      && step.extents == now && step.compactions == compactions && step.cost == cost
  }

  lemma {:induction false} AllocationTaken(
    st: Settings, accesses: map<PoolKey, int>, limit: nat, active: int, key: PoolKey, size: nat, es: seq<Extent>,
    now: seq<Extent>, before: nat, after: nat, cost: LoadCost)
    requires st.Sane() && PicksCandidates(st.rule) && Sound(es, IndexOf(es), st.capacityBytes)
    requires StepTaken(AllocationStep(st, accesses, limit, active, key, size, es), now, after, before, true, cost)
    ensures AllocatedTo(st, accesses, limit, active, key, size, es, now, after - before, cost)
  {
    hide AllocationStep, Allocates, Sound, PicksCandidates;
    AllocationIs(st, accesses, limit, active, key, size, es, AllocationStep(st, accesses, limit, active, key, size, es).value);
  }

  /** With room for a group nothing is evicted for it, if the pool may be compacted or
      has a stretch that is large enough; in the second case nothing moves either. */
  lemma {:induction false} NothingForTensor(
    st: Settings, accesses: map<PoolKey, int>, limit: nat, active: int, key: PoolKey, size: nat, es: seq<Extent>,
    now: seq<Extent>, compactions: int, cost: LoadCost)
    requires st.Sane() && AllocatedTo(st, accesses, limit, active, key, size, es, now, compactions, cost)
    requires FreeBelow(es, limit) >= size && (st.compaction == Always || LargestBelow(es, limit) >= size)
    ensures cost.evictedObjects == cost.evictedBytes == 0
    ensures LargestBelow(es, limit) >= size ==> cost.movedBytes == 0 && compactions == 0
  {
    hide EvictedWhile, FreeBelow, LargestBelow, Held, UsedBytes, Compacted, Moved, Place, Fits, Readies;
    var step: Step :| Allocates(st, accesses, limit, active, key, size, es, step)
      && step.extents == now && step.compactions == compactions && step.cost == cost;
    var ready: Step :| Readies(st, accesses, limit, active, size, es, ready)
      && step.compactions == ready.compactions && step.cost == ready.cost.(h2dBytes := size);
    NothingToReady(st, accesses, limit, active, size, es, ready);
  }

  lemma {:induction false} NothingToReady(
    st: Settings, accesses: map<PoolKey, int>, limit: nat, active: int, size: nat, es: seq<Extent>, ready: Step)
    requires st.Sane() && Readies(st, accesses, limit, active, size, es, ready)
    requires FreeBelow(es, limit) >= size && (st.compaction == Always || LargestBelow(es, limit) >= size)
    ensures ready.cost.evictedObjects == ready.cost.evictedBytes == 0
    ensures LargestBelow(es, limit) >= size ==> ready.cost.movedBytes == 0 && ready.compactions == 0
  {
    hide EvictedWhile, FreeBelow, LargestBelow, Held, UsedBytes, Compacted, Moved;
    var first: Step, second: Step :|
      && EvictsFor(st, accesses, active, FewBelow(limit, size), es, first)
      && Opens(st, accesses, limit, active, size, first.extents, second) && Together(first, second, ready);
    NotShort(st.rule, accesses, active, FewBelow(limit, size), es, first.extents);
  }

  /** A pool within its limit loses nothing when it is trimmed. */
  lemma {:induction false} NothingToTrim(
    st: Settings, accesses: map<PoolKey, int>, limit: nat, active: int, es: seq<Extent>, now: seq<Extent>, compactions: int, cost: LoadCost)
    requires TrimmedTo(st, accesses, limit, active, es, now, compactions, cost) && UsedBytes(es) <= limit
    ensures cost.evictedObjects == cost.evictedBytes == 0
  {
    hide EvictedWhile, AllBelow, Held, UsedBytes, Compacted, Moved, Trims;
    var step: Step :| Trims(st, accesses, limit, active, es, step) && step.cost == cost;
    NothingTrimmed(st, accesses, limit, active, es, step);
  }

  lemma {:induction false} NothingTrimmed(st: Settings, accesses: map<PoolKey, int>, limit: nat, active: int, es: seq<Extent>, step: Step)
    requires Trims(st, accesses, limit, active, es, step) && UsedBytes(es) <= limit
    ensures step.cost.evictedObjects == step.cost.evictedBytes == 0
  {
    hide EvictedWhile, AllBelow, Held, UsedBytes, Compacted, Moved;
    var first: Step, second: Step :|
      && EvictsFor(st, accesses, active, Overfull(limit), es, first)
      && TidiesUp(st, limit, first.extents, second) && Together(first, second, step);
    NotShort(st.rule, accesses, active, Overfull(limit), es, first.extents);
  }

  /** The groups of the first `t` tensors have been touched one after the other since
      `start`, and nothing else. */
  ghost predicate TouchedSince(
    groups: seq<nat>, m: int, t: nat, before: map<PoolKey, int>, accesses: map<PoolKey, int>, start: nat, clock: nat)
    requires t <= |groups|
  {
    && clock == start + t
    && (forall j :: 0 <= j < t ==> Key(m, groups[j]) in accesses && start + j < accesses[Key(m, groups[j])] <= clock)
    && forall k: PoolKey :: !(k.Weight? && k.group.modelId == m) ==> (k in accesses <==> k in before) && (k in before ==> accesses[k] == before[k])
  }

  lemma {:induction false} NotTouched(groups: seq<nat>, m: int, accesses: map<PoolKey, int>, clock: nat)
    ensures TouchedSince(groups, m, 0, accesses, accesses, clock, clock)
  {
  }

  lemma {:induction false} OneMoreTouch(
    groups: seq<nat>, m: int, t: nat, before: map<PoolKey, int>, accesses: map<PoolKey, int>, start: nat, clock: nat)
    requires t < |groups| && TouchedSince(groups, m, t, before, accesses, start, clock)
    ensures TouchedSince(groups, m, t + 1, before, accesses[Key(m, groups[t]) := clock + 1], start, clock + 1)
  {
  }
}
