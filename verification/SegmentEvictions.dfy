/** Evicting object by object until a goal is reached: which pool that ends in, for
    any victim rule (evaluation/tensor_simulator/tensor_sim_segment_backend.py). */
module SegmentEvictions {
  import opened Common
  import opened SegmentExtents
  import opened SegmentReclaim

  /** What a replacement policy prefers to evict, given the extents, the last
      accesses and the candidates. */
  type VictimRule = (seq<Extent>, map<PoolKey, int>, set<PoolKey>) -> PoolKey

  ghost predicate PicksCandidates(rule: VictimRule) {
    forall es, accesses, keys :: keys != {} ==> rule(es, accesses, keys) in keys
  }

  lemma {:induction false} Picked(rule: VictimRule, es: seq<Extent>, accesses: map<PoolKey, int>, keys: set<PoolKey>)
    requires PicksCandidates(rule) && keys != {}
    ensures rule(es, accesses, keys) in keys
  {
  }

  /** What a loop evicts for: free bytes or a free stretch below a limit, used bytes
      within it, or free whole blocks. */
  datatype Goal =
    | Room(limit: nat, size: nat)
    | Stretch(limit: nat, size: nat)
    | Within(limit: nat)
    | Blocks(block: nat, size: nat)

  predicate Reached(goal: Goal, es: seq<Extent>) {
    match goal
    case Room(limit, size) => FreeBelow(es, limit) >= size
    case Stretch(limit, size) => LargestBelow(es, limit) >= size
    case Within(limit) => UsedBytes(es) <= limit
    case Blocks(block, size) => block > 0 && BlockBytes(es, block) >= size
  }

  /** The pool an eviction loop ends in, and how many objects it evicted. */
  datatype Eviction = Eviction(extents: seq<Extent>, objects: nat)

  function Victim(rule: VictimRule, accesses: map<PoolKey, int>, es: seq<Extent>, active: int): Option<PoolKey> {
    var candidates := Evictable(IndexOf(es).Keys, active);
    if candidates != {} && rule(es, accesses, candidates) in candidates
    then Some(rule(es, accesses, candidates)) else None
  }

  lemma {:induction false} EvictedIndex(es: seq<Extent>, ks: set<PoolKey>)
    ensures IndexOf(Evict(es, ks)) == IndexOf(es) - ks
  {
    MarkFreeFacts(es, ks, 0);
    CoalescedFacts(MarkFree(es, ks), 0);
  }

  /** How many objects a pool holds. */
  function Held(es: seq<Extent>): nat {
    |IndexOf(es).Keys|
  }

  lemma {:induction false} HeldAfter(es: seq<Extent>, ks: set<PoolKey>)
    requires ks <= IndexOf(es).Keys
    ensures Held(Evict(es, ks)) + |ks| == Held(es)
  {
    EvictedIndex(es, ks);
    assert IndexOf(Evict(es, ks)).Keys == IndexOf(es).Keys - ks;
  }

  /** Evicting the rule's victims, one by one, until the goal is reached; nothing when
      the candidates run out before. */
  ghost function EvictUntil(rule: VictimRule, accesses: map<PoolKey, int>, active: int, goal: Goal, es: seq<Extent>)
    : Option<Eviction>
    decreases Held(es)
  {
    if Reached(goal, es) then Some(Eviction(es, 0))
    else
      var v := Victim(rule, accesses, es, active);
      if v.None? then None
      else
        HeldAfter(es, {v.value});
        More(EvictUntil(rule, accesses, active, goal, Evict(es, {v.value})), 1)
  }

  function More(e: Option<Eviction>, n: nat): Option<Eviction> {
    if e.None? then None else Some(Eviction(e.value.extents, e.value.objects + n))
  }

  /** Bytes lost between two pools. */
  function Lost(before: seq<Extent>, after: seq<Extent>): nat {
    Max(0, UsedBytes(before) - UsedBytes(after))
  }

  /** A loop has evicted `count` victims of the rule on the way from `start` to `now`. */
  ghost predicate Stepping(
    rule: VictimRule, accesses: map<PoolKey, int>, start: seq<Extent>, now: seq<Extent>,
    active: int, goal: Goal, capacity: nat, count: nat)
  {
    && PicksCandidates(rule) && Sound(start, IndexOf(start), capacity) && Sound(now, IndexOf(now), capacity)
    && AfterEvictions(start, now, active) && UsedBytes(now) <= UsedBytes(start) && Held(now) + count == Held(start)
    && EvictUntil(rule, accesses, active, goal, start) == More(EvictUntil(rule, accesses, active, goal, now), count)
  }

  lemma {:induction false} StepsStart(
    rule: VictimRule, accesses: map<PoolKey, int>, es: seq<Extent>, active: int, goal: Goal, capacity: nat)
    requires PicksCandidates(rule) && Sound(es, IndexOf(es), capacity)
    ensures Stepping(rule, accesses, es, es, active, goal, capacity, 0)
  {
    hide EvictUntil, Sound, PicksCandidates;
    NoEvictions(es, active);
  }

  lemma {:induction false} NextEviction(
    start: seq<Extent>, now: seq<Extent>, active: int, rule: VictimRule, accesses: map<PoolKey, int>, capacity: nat)
    requires PicksCandidates(rule) && Sound(start, IndexOf(start), capacity)
    requires Sound(now, IndexOf(now), capacity) && AfterEvictions(start, now, active)
    requires Evictable(IndexOf(now).Keys, active) != {}
    ensures var v := rule(now, accesses, Evictable(IndexOf(now).Keys, active));
      && v in Evictable(IndexOf(now).Keys, active)
      && AfterEvictions(start, Evict(now, {v}), active)
      && Sound(Evict(now, {v}), IndexOf(now) - {v}, capacity)
      && UsedBytes(Evict(now, {v})) == UsedBytes(now) - IndexOf(now)[v].size < UsedBytes(now)
      && IndexOf(now).Keys - IndexOf(Evict(now, {v})).Keys == {v}
  {
    var v := rule(now, accesses, Evictable(IndexOf(now).Keys, active));
    Picked(rule, now, accesses, Evictable(IndexOf(now).Keys, active));
    OneMoreEviction(start, now, active, v, capacity);
  }

  lemma {:induction false} StepsGoOn(
    rule: VictimRule, accesses: map<PoolKey, int>, start: seq<Extent>, now: seq<Extent>,
    active: int, goal: Goal, capacity: nat, count: nat)
    requires Stepping(rule, accesses, start, now, active, goal, capacity, count)
    requires !Reached(goal, now) && Evictable(IndexOf(now).Keys, active) != {}
    ensures var v := rule(now, accesses, Evictable(IndexOf(now).Keys, active));
      && v in IndexOf(now) && IndexOf(Evict(now, {v})) == IndexOf(now) - {v}
      && Stepping(rule, accesses, start, Evict(now, {v}), active, goal, capacity, count + 1)
      && UsedBytes(Evict(now, {v})) == UsedBytes(now) - IndexOf(now)[v].size < UsedBytes(now)
  {
    hide EvictUntil, AfterEvictions, PicksCandidates, Reached, Sound, Evict, UsedBytes, IndexOf;
    var v := rule(now, accesses, Evictable(IndexOf(now).Keys, active));
    NextEviction(start, now, active, rule, accesses, capacity);
    EvictedIndex(now, {v});
    HeldAfter(now, {v});
    UntilNext(rule, accesses, active, goal, now);
  }

  lemma {:induction false} UntilNext(rule: VictimRule, accesses: map<PoolKey, int>, active: int, goal: Goal, es: seq<Extent>)
    requires PicksCandidates(rule) && !Reached(goal, es) && Evictable(IndexOf(es).Keys, active) != {}
    ensures var v := rule(es, accesses, Evictable(IndexOf(es).Keys, active));
      EvictUntil(rule, accesses, active, goal, es) == More(EvictUntil(rule, accesses, active, goal, Evict(es, {v})), 1)
  {
    hide Reached, Evict;
    Picked(rule, es, accesses, Evictable(IndexOf(es).Keys, active));
  }

  lemma {:induction false} StepsEnd(
    rule: VictimRule, accesses: map<PoolKey, int>, start: seq<Extent>, now: seq<Extent>,
    active: int, goal: Goal, capacity: nat, count: nat)
    requires Stepping(rule, accesses, start, now, active, goal, capacity, count) && Reached(goal, now)
    ensures EvictUntil(rule, accesses, active, goal, start) == Some(Eviction(now, count))
    ensures UsedBytes(now) + Lost(start, now) == UsedBytes(start) && Held(now) + count == Held(start)
  {
    hide Reached, AfterEvictions, Sound, PicksCandidates;
  }

  /** A loop that runs out of candidates has evicted everything in vain. */
  lemma {:induction false} StepsFail(
    rule: VictimRule, accesses: map<PoolKey, int>, start: seq<Extent>, now: seq<Extent>,
    active: int, goal: Goal, capacity: nat, count: nat)
    requires Stepping(rule, accesses, start, now, active, goal, capacity, count)
    requires !Reached(goal, now) && Evictable(IndexOf(now).Keys, active) == {}
    ensures EvictUntil(rule, accesses, active, goal, start) == None && now == Exhausted(start, active)
  {
    hide Reached;
    ExhaustionIsMost(start, now, active, capacity, 0, 1);
  }

  /** Some evictions reach the goal exactly when evicting everything would. */
  lemma {:induction false} ReachedAtMost(
    before: seq<Extent>, after: seq<Extent>, active: int, capacity: nat, goal: Goal)
    requires Sound(before, IndexOf(before), capacity) && AfterEvictions(before, after, active)
    requires Reached(goal, after) && !goal.Room?
    ensures Reached(goal, Exhausted(before, active))
  {
    ExhaustionIsMost(before, after, active, capacity,
      if goal.Stretch? then goal.limit else 0, if goal.Blocks? && goal.block > 0 then goal.block else 1);
  }

  /** Where the evictions end, the goal is reached. */
  lemma {:induction false} UntilReaches(rule: VictimRule, accesses: map<PoolKey, int>, active: int, goal: Goal, es: seq<Extent>)
    ensures var e := EvictUntil(rule, accesses, active, goal, es); e.Some? ==> Reached(goal, e.value.extents)
    decreases Held(es)
  {
    hide Reached, Evict;
    var v := Victim(rule, accesses, es, active);
    if !Reached(goal, es) && v.Some? {
      HeldAfter(es, {v.value});
      UntilReaches(rule, accesses, active, goal, Evict(es, {v.value}));
    }
  }

  // ------------------------------------------------- no eviction in vain

  /** The rule's victim, and nothing else, has been evicted. */
  ghost predicate NextEvicted(rule: VictimRule, accesses: map<PoolKey, int>, active: int, es: seq<Extent>, after: seq<Extent>) {
    var candidates := Evictable(IndexOf(es).Keys, active);
    candidates != {} && after == Evict(es, {rule(es, accesses, candidates)})
  }

  /** Why an eviction loop goes on: too few free bytes, in all or below a limit, too
      few whole blocks, no stretch that is large enough, or too much in use. */
  type Shortage = seq<Extent> -> bool

  ghost function FewBytes(size: nat): Shortage {
    (es: seq<Extent>) => FreeBytes(es) < size
  }

  ghost function FewBelow(limit: nat, size: nat): Shortage {
    (es: seq<Extent>) => FreeBelow(es, limit) < size
  }

  ghost function FewBlocks(block: nat, size: nat): Shortage
    requires block > 0
  {
    (es: seq<Extent>) => BlockBytes(es, block) < size
  }

  ghost function NoStretch(limit: nat, size: nat): Shortage {
    (es: seq<Extent>) => LargestBelow(es, limit) < size
  }

  ghost function Overfull(limit: nat): Shortage {
    (es: seq<Extent>) => UsedBytes(es) > limit
  }

  /** The rule's victims are evicted one by one as long as something is short, and not
      one more. */
  ghost predicate EvictsWhile(rule: VictimRule, accesses: map<PoolKey, int>, active: int, short: Shortage, pools: seq<seq<Extent>>)
    decreases |pools|
  {
    pools != [] &&
    if |pools| == 1 then !short(pools[0])
    else
      && short(pools[0]) && NextEvicted(rule, accesses, active, pools[0], pools[1])
      && EvictsWhile(rule, accesses, active, short, pools[1..])
  }

  ghost predicate EvictedWhile(
    rule: VictimRule, accesses: map<PoolKey, int>, active: int, short: Shortage, before: seq<Extent>, after: seq<Extent>)
  {
    exists pools :: EvictsWhile(rule, accesses, active, short, pools) && pools[0] == before && Last(pools) == after
  }

  /** Where nothing is short, nothing is evicted. */
  lemma {:induction false} NotShort(
    rule: VictimRule, accesses: map<PoolKey, int>, active: int, short: Shortage, before: seq<Extent>, after: seq<Extent>)
    requires EvictedWhile(rule, accesses, active, short, before, after) && !short(before)
    ensures after == before
  {
    hide NextEvicted;
    var pools :| EvictsWhile(rule, accesses, active, short, pools) && pools[0] == before && Last(pools) == after;
  }

  lemma {:induction false} UntilNeeded(
    rule: VictimRule, accesses: map<PoolKey, int>, active: int, goal: Goal, es: seq<Extent>, capacity: nat)
    requires PicksCandidates(rule) && Sound(es, IndexOf(es), capacity)
    requires !Reached(goal, es) && EvictUntil(rule, accesses, active, goal, es).Some?
    ensures var v := rule(es, accesses, Evictable(IndexOf(es).Keys, active)); var after := Evict(es, {v});
      && NextEvicted(rule, accesses, active, es, after) && Sound(after, IndexOf(after), capacity) && Held(after) < Held(es)
      && EvictUntil(rule, accesses, active, goal, after).Some?
      && EvictUntil(rule, accesses, active, goal, es).value.extents == EvictUntil(rule, accesses, active, goal, after).value.extents
  {
    hide Reached, Sound, PicksCandidates, Evict;
    var candidates := Evictable(IndexOf(es).Keys, active);
    assert candidates != {};
    var v := rule(es, accesses, candidates);
    Picked(rule, es, accesses, candidates);
    NoEvictions(es, active);
    NextEviction(es, es, active, rule, accesses, capacity);
    UntilNext(rule, accesses, active, goal, es);
    EvictedIndex(es, {v});
    HeldAfter(es, {v});
  }

  lemma {:induction false} OneMoreBefore(
    rule: VictimRule, accesses: map<PoolKey, int>, active: int, short: Shortage, es: seq<Extent>, after: seq<Extent>, end: seq<Extent>)
    requires short(es) && NextEvicted(rule, accesses, active, es, after)
    requires EvictedWhile(rule, accesses, active, short, after, end)
    ensures EvictedWhile(rule, accesses, active, short, es, end)
  {
    hide NextEvicted;
    var rest :| EvictsWhile(rule, accesses, active, short, rest) && rest[0] == after && Last(rest) == end;
    var pools := [es] + rest;
    assert pools[1..] == rest && EvictsWhile(rule, accesses, active, short, pools);
  }

  /** The evictions that lead to a goal are those made as long as it is not reached. */
  lemma {:induction false} Trail(
    rule: VictimRule, accesses: map<PoolKey, int>, active: int, goal: Goal, short: Shortage, es: seq<Extent>, capacity: nat)
    requires PicksCandidates(rule) && Sound(es, IndexOf(es), capacity)
    requires EvictUntil(rule, accesses, active, goal, es).Some?
    requires forall e :: Sound(e, IndexOf(e), capacity) ==> (short(e) <==> !Reached(goal, e))
    ensures EvictedWhile(rule, accesses, active, short, es, EvictUntil(rule, accesses, active, goal, es).value.extents)
    decreases Held(es)
  {
    hide Sound, PicksCandidates, NextEvicted, Evict, Reached;
    if Reached(goal, es) {
      assert EvictsWhile(rule, accesses, active, short, [es]);
    } else {
      hide EvictUntil, EvictsWhile, EvictedWhile;
      UntilNeeded(rule, accesses, active, goal, es, capacity);
      var after := Evict(es, {rule(es, accesses, Evictable(IndexOf(es).Keys, active))});
      Trail(rule, accesses, active, goal, short, after, capacity);
      OneMoreBefore(rule, accesses, active, short, es, after, EvictUntil(rule, accesses, active, goal, after).value.extents);
    }
  }

  /** And the other way round: only one pool can be reached like this. */
  lemma {:induction false} TrailEnds(
    rule: VictimRule, accesses: map<PoolKey, int>, active: int, goal: Goal, short: Shortage, pools: seq<seq<Extent>>, capacity: nat)
    requires PicksCandidates(rule) && EvictsWhile(rule, accesses, active, short, pools)
    requires Sound(pools[0], IndexOf(pools[0]), capacity)
    requires forall e :: Sound(e, IndexOf(e), capacity) ==> (short(e) <==> !Reached(goal, e))
    ensures var e := EvictUntil(rule, accesses, active, goal, pools[0]); e.Some? && e.value.extents == Last(pools)
    decreases |pools|
  {
    hide Sound, PicksCandidates, Evict, Reached;
    if |pools| > 1 {
      hide EvictUntil;
      var es := pools[0];
      UntilNext(rule, accesses, active, goal, es);
      NoEvictions(es, active);
      NextEviction(es, es, active, rule, accesses, capacity);
      EvictedIndex(es, {rule(es, accesses, Evictable(IndexOf(es).Keys, active))});
      TrailEnds(rule, accesses, active, goal, short, pools[1..], capacity);
    }
  }

  lemma {:induction false} OnlyEnd(
    rule: VictimRule, accesses: map<PoolKey, int>, active: int, goal: Goal, short: Shortage,
    es: seq<Extent>, after: seq<Extent>, capacity: nat)
    requires PicksCandidates(rule) && Sound(es, IndexOf(es), capacity) && EvictedWhile(rule, accesses, active, short, es, after)
    requires forall e :: Sound(e, IndexOf(e), capacity) ==> (short(e) <==> !Reached(goal, e))
    ensures var e := EvictUntil(rule, accesses, active, goal, es); e.Some? && e.value.extents == after
  {
    hide Sound, PicksCandidates, Reached, NextEvicted, EvictUntil;
    var pools :| EvictsWhile(rule, accesses, active, short, pools) && pools[0] == es && Last(pools) == after;
    TrailEnds(rule, accesses, active, goal, short, pools, capacity);
  }

  /** What the evictions take is what the pool has lost. */
  lemma {:induction false} UntilCounts(
    rule: VictimRule, accesses: map<PoolKey, int>, active: int, goal: Goal, es: seq<Extent>, capacity: nat)
    requires PicksCandidates(rule) && Sound(es, IndexOf(es), capacity) && EvictUntil(rule, accesses, active, goal, es).Some?
    ensures var e := EvictUntil(rule, accesses, active, goal, es).value;
      && Sound(e.extents, IndexOf(e.extents), capacity)
      && Held(e.extents) + e.objects == Held(es) && UsedBytes(e.extents) <= UsedBytes(es)
    decreases Held(es)
  {
    hide Sound, PicksCandidates, Evict, Reached, UsedBytes, IndexOf;
    if !Reached(goal, es) {
      UntilNeeded(rule, accesses, active, goal, es, capacity);
      NoEvictions(es, active);
      NextEviction(es, es, active, rule, accesses, capacity);
      UntilNext(rule, accesses, active, goal, es);
      var v := rule(es, accesses, Evictable(IndexOf(es).Keys, active));
      HeldAfter(es, {v});
      UntilCounts(rule, accesses, active, goal, Evict(es, {v}), capacity);
    }
  }
}
