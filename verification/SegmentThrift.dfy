/** A planned request evicts what it needs and no more: the pools it goes through,
    said without the functions that compute them
    (evaluation/tensor_simulator/tensor_sim_segment_backend.py). */
module SegmentThrift {
  import opened Common
  import opened SegmentExtents
  import opened SegmentReclaim
  import opened SegmentModels
  import opened SegmentEvictions
  import opened SegmentSteps
  import opened SegmentPool
  import opened SegmentShape
  import opened SegmentKv
  import opened SegmentRequests
  import opened SegmentPlans
  import opened SegmentBlocks
  import opened SegmentOutcomes
  import Mckp

  // -------------------------------------------------------- prefix reclaims

  /** The prefixes left are a cheapest cover of exactly the shortage. */
  ghost predicate CoversCheaply(pol: Policy, active: int, short: int, before: seq<Extent>, after: seq<Extent>) {
    exists held, kept :: CheapestLeft(pol, active, short, before, after, held, kept)
  }

  ghost predicate CheapestLeft(
    pol: Policy, active: int, short: int, before: seq<Extent>, after: seq<Extent>, held: map<int, nat>, kept: map<int, nat>)
  {
    && Prefixes(pol.models, IndexOf(before).Keys, held) && Prefixes(pol.models, IndexOf(after).Keys, kept)
    && Mckp.CheapestCover(ProblemFor(pol.models, held, pol.damage), active, kept, short)
  }

  /** Model `last` was the least recently used one when it gave up its last group so
      far, and without that group too little would have been freed. */
  ghost predicate LastShrunk(
    models: Models, accesses: map<PoolKey, int>, kept: map<int, nat>, active: int, freed: int, short: int, last: int)
  {
    && last in kept && LeastRecentModel(accesses, kept[last := kept[last] + 1], active, last)
    && freed - SizeOf(models, last, kept[last]) < short
  }

  /** The least recently used models have given up their last groups, and the last one
      of them was needed. */
  ghost predicate ShrinksLeastRecent(
    pol: Policy, accesses: map<PoolKey, int>, active: int, short: int, before: seq<Extent>, after: seq<Extent>)
  {
    exists held, kept, last :: LeastRecentLeft(pol, accesses, active, short, before, after, held, kept, last)
  }

  ghost predicate LeastRecentLeft(
    pol: Policy, accesses: map<PoolKey, int>, active: int, short: int, before: seq<Extent>, after: seq<Extent>,
    held: map<int, nat>, kept: map<int, nat>, last: int)
  {
    && Prefixes(pol.models, IndexOf(before).Keys, held) && Prefixes(pol.models, IndexOf(after).Keys, kept)
    && LeastRecentFirst(accesses, held, kept, active)
    && LastShrunk(pol.models, accesses, kept, active, UsedBytes(before) - UsedBytes(after), short, last)
  }

  /** A prefix reclaim takes nothing when nothing is short, and otherwise frees at
      least the shortage, as cheaply as can be or not one group too many. */
  ghost predicate Frugal(pol: Policy, accesses: map<PoolKey, int>, active: int, short: int, before: seq<Extent>, after: seq<Extent>) {
    if short <= 0 then after == before
    else
      && UsedBytes(before) - UsedBytes(after) >= short
      && if pol.replacement == MckpPrefix then CoversCheaply(pol, active, short, before, after)
         else ShrinksLeastRecent(pol, accesses, active, short, before, after)
  }

  lemma {:induction false} NowLast(
    models: Models, accesses: map<PoolKey, int>, prefixes: map<int, nat>, active: int, freed: int, short: int, v: int)
    requires LeastRecentModel(accesses, prefixes, active, v) && freed < short
    ensures LastShrunk(models, accesses, prefixes[v := prefixes[v] - 1], active, freed + SizeOf(models, v, prefixes[v] - 1), short, v)
  {
    var kept := prefixes[v := prefixes[v] - 1];
    assert kept[v := kept[v] + 1] == prefixes;
  }

  /** A shrinking loop on its way: what left, in which order, and what is still to go. */
  ghost predicate ShrunkSoFar(
    models: Models, accesses: map<PoolKey, int>, es: seq<Extent>, now: seq<Extent>, index: map<PoolKey, Extent>, capacity: nat,
    start: map<int, nat>, counts: map<int, nat>, gone: set<PoolKey>, active: int, needed: nat, released: nat, last: int)
  {
    && Shrinking(models, es, now, index, capacity, counts, gone, active, released)
    && LeastRecentFirst(accesses, start, counts, active)
    && LruKept(models, accesses, start, active, needed) == LruKept(models, accesses, counts, active, Max(0, needed - released))
    && (needed == 0 ==> now == es && released == 0)
    && (released > 0 ==> LastShrunk(models, accesses, counts, active, released, needed, last))
  }

  lemma {:induction false} ShrunkNext(
    models: Models, accesses: map<PoolKey, int>, es: seq<Extent>, now: seq<Extent>, index: map<PoolKey, Extent>, capacity: nat,
    start: map<int, nat>, counts: map<int, nat>, gone: set<PoolKey>, active: int, needed: nat, released: nat, last: int, v: int)
    requires ShrunkSoFar(models, accesses, es, now, index, capacity, start, counts, gone, active, needed, released, last)
    requires released < needed && LeastRecentModel(accesses, counts, active, v)
    ensures var key := Key(v, counts[v] - 1);
      && key in index && key !in gone
      && ShrunkSoFar(models, accesses, es, MarkFree(now, {key}), index - {key}, capacity, start,
                     counts[v := counts[v] - 1], gone + {key}, active, needed, released + index[key].size, v)
  {
    hide Shrinking, LeastRecentFirst, LruKept, LastShrunk, MarkFree, NoLater;
    ShrinkStep(models, es, now, index, capacity, counts, gone, active, released, v);
    StillLeastRecent(accesses, start, counts, active, v);
    LruNext(models, accesses, counts, active, needed - released, v);
    NowLast(models, accesses, counts, active, released, needed, v);
  }

  lemma {:induction false} ShrunkDry(
    models: Models, accesses: map<PoolKey, int>, es: seq<Extent>, now: seq<Extent>, index: map<PoolKey, Extent>, capacity: nat,
    start: map<int, nat>, counts: map<int, nat>, gone: set<PoolKey>, active: int, needed: nat, released: nat, last: int)
    requires ShrunkSoFar(models, accesses, es, now, index, capacity, start, counts, gone, active, needed, released, last)
    requires released < needed && forall m :: m in counts && m != active ==> counts[m] == 0
    ensures LruKept(models, accesses, start, active, needed) == None && LeastRecentFirst(accesses, start, counts, active)
    ensures Shrinking(models, es, now, index, capacity, counts, gone, active, released)
  {
    hide Shrinking, LeastRecentFirst, LastShrunk;
    LruOut(models, accesses, counts, active, needed - released);
  }

  /** What either reclaim says about the prefixes it leaves makes it frugal. */
  lemma {:induction false} FrugalCover(
    pol: Policy, accesses: map<PoolKey, int>, active: int, short: int, before: seq<Extent>, after: seq<Extent>,
    held: map<int, nat>, kept: map<int, nat>)
    requires pol.replacement == MckpPrefix && short > 0 && UsedBytes(before) - UsedBytes(after) >= short
    requires CheapestLeft(pol, active, short, before, after, held, kept)
    ensures Frugal(pol, accesses, active, short, before, after)
  {
    hide CheapestLeft;
  }

  lemma {:induction false} FrugalLast(
    pol: Policy, accesses: map<PoolKey, int>, active: int, short: int, before: seq<Extent>, after: seq<Extent>,
    held: map<int, nat>, kept: map<int, nat>, last: int)
    requires pol.replacement == LruPrefix && short > 0 && UsedBytes(before) - UsedBytes(after) >= short
    requires LeastRecentLeft(pol, accesses, active, short, before, after, held, kept, last)
    ensures Frugal(pol, accesses, active, short, before, after)
  {
    hide LeastRecentLeft;
  }

  /** Asking for nothing is as good as asking for a negative amount. */
  lemma {:induction false} FrugalFromZero(
    pol: Policy, accesses: map<PoolKey, int>, active: int, short: int, before: seq<Extent>, after: seq<Extent>)
    requires Frugal(pol, accesses, active, Max(0, short), before, after)
    ensures Frugal(pol, accesses, active, short, before, after)
  {
    hide CoversCheaply, ShrinksLeastRecent;
  }

  // ------------------------------------------------------- object by object

  /** Object by object, the policy makes room for `size` bytes, or for whole blocks. */
  lemma {:induction false} BytesEvicted(
    rule: VictimRule, accesses: map<PoolKey, int>, active: int, size: nat, es: seq<Extent>, now: seq<Extent>, capacity: nat)
    requires PicksCandidates(rule) && Sound(es, IndexOf(es), capacity)
    requires var e := EvictUntil(rule, accesses, active, Room(capacity, size), es); e.Some? && e.value.extents == now
    ensures EvictedWhile(rule, accesses, active, FewBytes(size), es, now)
  {
    hide EvictUntil, Sound, EvictedWhile, FreeBelow, FreeBytes;
    forall e | Sound(e, IndexOf(e), capacity) ensures FewBytes(size)(e) <==> !Reached(Room(capacity, size), e) {
      PoolLimit(e, capacity);
    }
    Trail(rule, accesses, active, Room(capacity, size), FewBytes(size), es, capacity);
  }

  lemma {:induction false} WholeBlocksEvicted(
    rule: VictimRule, accesses: map<PoolKey, int>, active: int, block: nat, size: nat, es: seq<Extent>, now: seq<Extent>, capacity: nat)
    requires block > 0 && PicksCandidates(rule) && Sound(es, IndexOf(es), capacity)
    requires var e := EvictUntil(rule, accesses, active, Blocks(block, size), es); e.Some? && e.value.extents == now
    ensures EvictedWhile(rule, accesses, active, FewBlocks(block, size), es, now)
  {
    hide EvictUntil, Sound, EvictedWhile, BlockBytes;
    forall e | Sound(e, IndexOf(e), capacity) ensures FewBlocks(block, size)(e) <==> !Reached(Blocks(block, size), e) {
    }
    Trail(rule, accesses, active, Blocks(block, size), FewBlocks(block, size), es, capacity);
  }

  // ------------------------------------------------------ room for the weights

  /** Room is made for `size` bytes of weights, and under a prefix policy for the KV
      cache as well: exactly what the free bytes lack. */
  ghost predicate SpaceMade(
    pol: Policy, accesses: map<PoolKey, int>, active: int, size: nat, kvBytes: nat, before: seq<Extent>, after: seq<Extent>)
  {
    if pol.replacement == OneByOne then EvictedWhile(pol.rule, accesses, active, FewBytes(size), before, after)
    else Frugal(pol, accesses, active, size + kvBytes - FreeBytes(before), before, after)
  }

  /** Free bytes that suffice are left as they are. */
  lemma {:induction false} SpaceIsThere(
    pol: Policy, accesses: map<PoolKey, int>, active: int, size: nat, kvBytes: nat, before: seq<Extent>, after: seq<Extent>)
    requires SpaceMade(pol, accesses, active, size, kvBytes, before, after)
    requires FreeBytes(before) >= size + WithKv(pol.replacement, kvBytes)
    ensures after == before
  {
    hide EvictedWhile, FreeBytes;
    if pol.replacement == OneByOne {
      NotShort(pol.rule, accesses, active, FewBytes(size), before, after);
    }
  }

  lemma {:induction false} SpaceEvicted(
    pol: Policy, accesses: map<PoolKey, int>, active: int, size: nat, kvBytes: nat, es: seq<Extent>, now: seq<Extent>)
    requires pol.replacement == OneByOne && PicksCandidates(pol.rule) && Sound(es, IndexOf(es), pol.capacity)
    requires EvictedPool(pol, accesses, active, Room(pol.capacity, size), es) == Some(now)
    ensures SpaceMade(pol, accesses, active, size, kvBytes, es, now)
  {
    hide EvictUntil, EvictedWhile, Sound, PicksCandidates;
    BytesEvicted(pol.rule, accesses, active, size, es, now, pol.capacity);
  }

  // ------------------------------------------------------- room for KV blocks

  /** One round of reclaiming for whole blocks: too few were free, exactly what they
      lacked was reclaimed, and there are more of them now. */
  ghost predicate BlockRound(
    pol: Policy, accesses: map<PoolKey, int>, active: int, required: nat, es: seq<Extent>, after: seq<Extent>)
    requires pol.block > 0
  {
    && BlockBytes(es, pol.block) < required && BlockBytes(es, pol.block) < BlockBytes(after, pol.block)
    && Frugal(pol, accesses, active, required - BlockBytes(es, pol.block), es, after)
  }

  ghost predicate BlockRounds(pol: Policy, accesses: map<PoolKey, int>, active: int, required: nat, pools: seq<seq<Extent>>)
    requires pol.block > 0
    decreases |pools|
  {
    && pools != []
    && (|pools| > 1 ==>
      BlockRounds(pol, accesses, active, required, Front(pools))
      && BlockRound(pol, accesses, active, required, Last(Front(pools)), Last(pools)))
  }

  /** Rounds from one pool to another. */
  ghost predicate Rounds(
    pol: Policy, accesses: map<PoolKey, int>, active: int, required: nat, before: seq<Extent>, after: seq<Extent>)
    requires pol.block > 0
  {
    exists pools :: BlockRounds(pol, accesses, active, required, pools) && pools[0] == before && Last(pools) == after
  }

  lemma {:induction false} NoRounds(pol: Policy, accesses: map<PoolKey, int>, active: int, required: nat, es: seq<Extent>)
    requires pol.block > 0
    ensures Rounds(pol, accesses, active, required, es, es)
  {
    assert BlockRounds(pol, accesses, active, required, [es]);
  }

  lemma {:induction false} OneMoreRound(
    pol: Policy, accesses: map<PoolKey, int>, active: int, required: nat, before: seq<Extent>, es: seq<Extent>, after: seq<Extent>)
    requires pol.block > 0 && Rounds(pol, accesses, active, required, before, es)
    requires BlockRound(pol, accesses, active, required, es, after)
    ensures Rounds(pol, accesses, active, required, before, after)
  {
    hide BlockRound;
    var pools :| BlockRounds(pol, accesses, active, required, pools) && pools[0] == before && Last(pools) == es;
    var more := pools + [after];
    assert Front(more) == pools && more[0] == pools[0];
    assert BlockRounds(pol, accesses, active, required, more);
  }

  /** With whole blocks enough there is no round. */
  lemma {:induction false} RoundsNeeded(
    pol: Policy, accesses: map<PoolKey, int>, active: int, required: nat, pools: seq<seq<Extent>>)
    requires pol.block > 0 && BlockRounds(pol, accesses, active, required, pools)
    requires BlockBytes(pools[0], pol.block) >= required
    ensures |pools| == 1
  {
    hide Frugal;
    if |pools| > 1 {
      RoundsNeeded(pol, accesses, active, required, Front(pools));
    }
  }

  /** Whole blocks are made free for the KV cache: a prefix policy reclaims what they
      lack once, and again while they are too few. */
  ghost predicate BlocksMade(
    pol: Policy, accesses: map<PoolKey, int>, active: int, required: nat, before: seq<Extent>, after: seq<Extent>)
    requires pol.block > 0
  {
    && BlockBytes(after, pol.block) >= required
    && if pol.replacement == OneByOne then EvictedWhile(pol.rule, accesses, active, FewBlocks(pol.block, required), before, after)
       else
         exists first ::
           && Frugal(pol, accesses, active, required - BlockBytes(before, pol.block), before, first)
           && Rounds(pol, accesses, active, required, first, after)
  }

  /** Whole blocks that suffice are left as they are. */
  lemma {:induction false} BlocksAreThere(
    pol: Policy, accesses: map<PoolKey, int>, active: int, required: nat, before: seq<Extent>, after: seq<Extent>)
    requires pol.block > 0 && BlocksMade(pol, accesses, active, required, before, after)
    requires BlockBytes(before, pol.block) >= required
    ensures after == before
  {
    hide EvictedWhile, BlockRound, BlockBytes;
    if pol.replacement == OneByOne {
      NotShort(pol.rule, accesses, active, FewBlocks(pol.block, required), before, after);
    } else {
      var pools :| BlockRounds(pol, accesses, active, required, pools) && pools[0] == before && Last(pools) == after;
      RoundsNeeded(pol, accesses, active, required, pools);
    }
  }

  lemma {:induction false} BlocksEvicted(
    pol: Policy, accesses: map<PoolKey, int>, active: int, required: nat, es: seq<Extent>, now: seq<Extent>)
    requires pol.block > 0 && pol.replacement == OneByOne && PicksCandidates(pol.rule) && Sound(es, IndexOf(es), pol.capacity)
    requires EvictedPool(pol, accesses, active, Blocks(pol.block, required), es) == Some(now)
    ensures BlocksMade(pol, accesses, active, required, es, now)
  {
    hide EvictUntil, EvictedWhile, Sound, PicksCandidates, BlockBytes;
    WholeBlocksEvicted(pol.rule, accesses, active, pol.block, required, es, now, pol.capacity);
    UntilReaches(pol.rule, accesses, active, Blocks(pol.block, required), es);
  }

  /** A round that cannot be finished: the other models hold too little, or what they
      give up makes no block. */
  ghost predicate RoundFails(
    pol: Policy, accesses: map<PoolKey, int>, active: int, required: nat, es: seq<Extent>, error: PlanError)
    requires pol.block > 0
  {
    var short := required - BlockBytes(es, pol.block);
    short > 0 &&
    match error
    case CannotReclaim => BytesIn(Objects(es), Evictable(IndexOf(es).Keys, active)) < short
    case KvStuck => exists after :: Frugal(pol, accesses, active, short, es, after) && BlockBytes(after, pol.block) <= BlockBytes(es, pol.block)
    case _ => false
  }

  /** The rounds end with one that fails. */
  ghost predicate RoundsFail(
    pol: Policy, accesses: map<PoolKey, int>, active: int, required: nat, before: seq<Extent>, error: PlanError)
    requires pol.block > 0
  {
    exists last ::
      && Rounds(pol, accesses, active, required, before, last)
      && RoundFails(pol, accesses, active, required, last, error)
  }

  /** Why a prefix policy finds no room for the KV cache: its first reclaim or a later
      round fails. */
  ghost predicate BlocksLacking(
    pol: Policy, accesses: map<PoolKey, int>, active: int, required: nat, before: seq<Extent>, error: PlanError)
    requires pol.block > 0
  {
    || (error == CannotReclaim && RoundFails(pol, accesses, active, required, before, error))
    || exists first ::
         && Frugal(pol, accesses, active, required - BlockBytes(before, pol.block), before, first)
         && RoundsFail(pol, accesses, active, required, first, error)
  }

  lemma {:induction false} TooLittleHeld(
    pol: Policy, accesses: map<PoolKey, int>, active: int, required: nat, before: seq<Extent>, es: seq<Extent>)
    requires pol.block > 0 && Rounds(pol, accesses, active, required, before, es) && BlockBytes(es, pol.block) < required
    requires BytesIn(Objects(es), Evictable(IndexOf(es).Keys, active)) < required - BlockBytes(es, pol.block)
    ensures RoundsFail(pol, accesses, active, required, before, CannotReclaim)
  {
    hide Rounds, BlockBytes, Frugal;
    assert RoundFails(pol, accesses, active, required, es, CannotReclaim);
  }

  lemma {:induction false} NoMoreBlocks(
    pol: Policy, accesses: map<PoolKey, int>, active: int, required: nat, before: seq<Extent>, es: seq<Extent>, after: seq<Extent>)
    requires pol.block > 0 && Rounds(pol, accesses, active, required, before, es) && BlockBytes(es, pol.block) < required
    requires Frugal(pol, accesses, active, required - BlockBytes(es, pol.block), es, after)
    requires BlockBytes(after, pol.block) <= BlockBytes(es, pol.block)
    ensures RoundsFail(pol, accesses, active, required, before, KvStuck)
  {
    hide Rounds, BlockBytes, Frugal;
    assert RoundFails(pol, accesses, active, required, es, KvStuck);
  }

  lemma {:induction false} FirstFails(pol: Policy, accesses: map<PoolKey, int>, active: int, required: nat, before: seq<Extent>)
    requires pol.block > 0
    requires BytesIn(Objects(before), Evictable(IndexOf(before).Keys, active)) < Max(0, required - BlockBytes(before, pol.block))
    ensures BlocksLacking(pol, accesses, active, required, before, CannotReclaim)
  {
    hide BlockBytes, RoundsFail;
  }

  lemma {:induction false} MadeLater(
    pol: Policy, accesses: map<PoolKey, int>, active: int, required: nat, before: seq<Extent>, first: seq<Extent>, after: seq<Extent>)
    requires pol.block > 0 && pol.replacement != OneByOne && BlockBytes(after, pol.block) >= required
    requires Frugal(pol, accesses, active, required - BlockBytes(before, pol.block), before, first)
    requires Rounds(pol, accesses, active, required, first, after)
    ensures BlocksMade(pol, accesses, active, required, before, after)
  {
    hide BlockBytes, Frugal, Rounds;
  }

  lemma {:induction false} LackingLater(
    pol: Policy, accesses: map<PoolKey, int>, active: int, required: nat, before: seq<Extent>, first: seq<Extent>, error: PlanError)
    requires pol.block > 0 && Frugal(pol, accesses, active, required - BlockBytes(before, pol.block), before, first)
    requires RoundsFail(pol, accesses, active, required, first, error)
    ensures BlocksLacking(pol, accesses, active, required, before, error)
  {
    hide BlockBytes, Frugal, RoundsFail, RoundFails;
  }

  // ------------------------------------------------------------ whole requests

  /** The pools a planned request goes through: room for its missing groups, the groups
      in place, room for its KV cache, the cache in place. */
  ghost predicate Stages(
    pol: Policy, accesses: map<PoolKey, int>, m: int, kvBytes: nat, ordered: seq<Object>, before: seq<Extent>, after: seq<Extent>,
    lo: nat, hi: nat, objects: int, bytes: int, room: seq<Extent>, full: seq<Extent>, spare: seq<Extent>)
    requires pol.block > 0
  {
    && (if ordered == [] then room == full == before
        else SpaceMade(pol, accesses, m, SumSizes(ordered), kvBytes, before, room) && Completed(room, full, ordered))
    && UsedBytes(full) == UsedBytes(room) + SumSizes(ordered)
    && UsedBytes(full) + FreeBytes(full) == UsedBytes(before) + FreeBytes(before)
    && (Blocked(before, pol.block) && WholeModels(pol.models, pol.block) ==> Blocked(full, pol.block))
    && BlocksMade(pol, accesses, m, kvBytes, full, spare)
    && KvPlaced(spare, after, lo, hi, kvBytes, pol.block)
    && objects == Held(before) - Held(room) + Held(full) - Held(spare)
    && bytes == UsedBytes(before) - UsedBytes(room) + UsedBytes(full) - UsedBytes(spare)
  }

  /** A request has led from one pool to another, evicting so many objects and bytes:
      for its missing groups first, then for its KV cache, each time what was needed. */

  ghost predicate Thrifty(
    pol: Policy, accesses: map<PoolKey, int>, m: int, kvBytes: nat, ordered: seq<Object>, before: seq<Extent>, after: seq<Extent>,
    lo: nat, hi: nat, objects: int, bytes: int)
    requires pol.block > 0
  {
    exists room, full, spare :: Stages(pol, accesses, m, kvBytes, ordered, before, after, lo, hi, objects, bytes, room, full, spare)
  }

  lemma {:induction false} ThroughStages(
    pol: Policy, accesses: map<PoolKey, int>, m: int, kvBytes: nat, ordered: seq<Object>, before: seq<Extent>, after: seq<Extent>,
    lo: nat, hi: nat, weights: Reclaim, kv: Reclaim, room: seq<Extent>, full: seq<Extent>, spare: seq<Extent>)
    requires pol.block > 0 && Releases(weights, before, room) && Releases(kv, full, spare)
    requires if ordered == [] then room == full == before
      else SpaceMade(pol, accesses, m, SumSizes(ordered), kvBytes, before, room) && Completed(room, full, ordered)
    requires BlocksMade(pol, accesses, m, kvBytes, full, spare) && KvPlaced(spare, after, lo, hi, kvBytes, pol.block)
    requires Sound(before, IndexOf(before), pol.capacity) && Sound(full, IndexOf(full), pol.capacity)
    requires UsedBytes(full) + weights.evictedBytes == UsedBytes(before) + SumSizes(ordered)
    requires Blocked(before, pol.block) && WholeModels(pol.models, pol.block) ==> Blocked(full, pol.block)
    ensures Thrifty(pol, accesses, m, kvBytes, ordered, before, after, lo, hi,
                    weights.evictedObjects + kv.evictedObjects, weights.evictedBytes + kv.evictedBytes)
  {
    hide SpaceMade, Completed, BlocksMade, KvPlaced, Held, UsedBytes, SumSizes, IndexOf, FreeBytes, AllBlocks, WholeModels;
    UsedPlusFree(before);
    UsedPlusFree(full);
    assert Stages(pol, accesses, m, kvBytes, ordered, before, after, lo, hi,
                  weights.evictedObjects + kv.evictedObjects, weights.evictedBytes + kv.evictedBytes, room, full, spare);
  }

  /** In a pool of whole blocks, free bytes that cover the missing groups and the KV
      cache are all a request takes: nothing is evicted, and every key stays. */
  lemma {:induction false} NothingEvicted(
    pol: Policy, accesses: map<PoolKey, int>, m: int, kvBytes: nat, ordered: seq<Object>, before: seq<Extent>, after: seq<Extent>,
    lo: nat, hi: nat, objects: int, bytes: int)
    requires pol.block > 0 && Thrifty(pol, accesses, m, kvBytes, ordered, before, after, lo, hi, objects, bytes)
    requires Blocked(before, pol.block) && WholeModels(pol.models, pol.block)
    requires FreeBytes(before) >= SumSizes(ordered) + kvBytes
    ensures objects == bytes == 0 && IndexOf(before).Keys <= IndexOf(after).Keys
  {
    hide SpaceMade, BlocksMade, Held, UsedBytes, SumSizes, BlockBytes, FreeBytes, IndexOf, Blocked, WholeModels, Keeps, AllWhole;
    hide Without, Objects, BytesIn;
    var room, full, spare :| Stages(pol, accesses, m, kvBytes, ordered, before, after, lo, hi, objects, bytes, room, full, spare);
    if ordered != [] {
      SpaceIsThere(pol, accesses, m, SumSizes(ordered), kvBytes, before, room);
    }
    WholeFree(full, pol.block);
    BlocksAreThere(pol, accesses, m, kvBytes, full, spare);
  }

  lemma {:induction false} WholeFree(es: seq<Extent>, block: nat)
    requires block > 0 && Blocked(es, block)
    ensures BlockBytes(es, block) == FreeBytes(es)
  {
    BlocksFree(es, block);
  }
}
