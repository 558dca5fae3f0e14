/** Partitioned bin packing: how a request's missing groups are divided among the
    free extents of a segment pool
    (evaluation/tensor_simulator/tensor_sim_segment_backend.py). */
module SegmentPartition {
  import opened Common
  import opened SegmentExtents

  // --------------------------------------------------------- permutations

  /** Reordering objects changes neither their bytes nor their keys. */
  lemma {:induction false} PermutationFacts(a: seq<Object>, b: seq<Object>)
    requires multiset(a) == multiset(b)
    ensures SumSizes(a) == SumSizes(b) && KeySet(a) == KeySet(b)
    ensures DistinctKeys(a) ==> DistinctKeys(b)
  {
    if a == [] {
      assert |multiset(b)| == 0;
    } else {
      var x := Last(a);
      Rejoin(a);
      assert x in multiset(b);
      var i :| 0 <= i < |b| && b[i] == x;
      var b1, b2 := b[..i], b[i + 1..];
      assert b == b1 + [x] + b2;
      RemovedSame(Front(a), b1, x, b2);
      PermutationFacts(Front(a), b1 + b2);
      Inserted(b1, x, b2);
    }
  }

  lemma {:induction false} RemovedSame(front: seq<Object>, b1: seq<Object>, x: Object, b2: seq<Object>)
    requires multiset(front + [x]) == multiset(b1 + [x] + b2)
    ensures multiset(front) == multiset(b1 + b2)
  {
    assert multiset(front) == multiset(front + [x]) - multiset{x};
    assert multiset(b1 + b2) == multiset(b1 + [x] + b2) - multiset{x};
  }

  lemma {:induction false} Inserted(a: seq<Object>, x: Object, b: seq<Object>)
    ensures SumSizes(a + [x] + b) == SumSizes(a + b) + x.size
    ensures KeySet(a + [x] + b) == KeySet(a + b) + {x.key}
    ensures DistinctKeys(a + b) && x.key !in KeySet(a + b) ==> DistinctKeys(a + [x] + b)
  {
    ObjectsAppend(a, b, {});
    ObjectsAppend(a, [x], {});
    ObjectsAppend(a + [x], b, {});
    Snoc([], x);
  }

  // --------------------------------------------------- requests by size

  /** A place for `o` after everything at least as large. */
  function InsertBySize(objs: seq<Object>, o: Object): (r: seq<Object>)
    ensures multiset(r) == multiset(objs) + multiset{o}
  {
    if objs == [] || Last(objs).size >= o.size then objs + [o]
    else
      Rejoin(objs);
      InsertBySize(Front(objs), o) + [Last(objs)]
  }

  /** `sorted(..., key=size, reverse=True)`: largest first, ties in given order. */
  function BySize(objs: seq<Object>): (r: seq<Object>)
    ensures multiset(r) == multiset(objs)
  {
    if objs == [] then []
    else
      Rejoin(objs);
      InsertBySize(BySize(Front(objs)), Last(objs))
  }

  ghost predicate Descending(objs: seq<Object>) {
    objs == [] || (Descending(Front(objs)) && (|objs| > 1 ==> Last(objs).size <= Last(Front(objs)).size))
  }

  lemma {:induction false} InsertKeepsOrder(objs: seq<Object>, o: Object)
    requires Descending(objs)
    ensures Descending(InsertBySize(objs, o))
    ensures Last(InsertBySize(objs, o)).size == if objs == [] || o.size <= Last(objs).size then o.size else Last(objs).size
  {
    if objs == [] || Last(objs).size >= o.size {
      Snoc(objs, o);
    } else {
      InsertKeepsOrder(Front(objs), o);
      Snoc(InsertBySize(Front(objs), o), Last(objs));
    }
  }

  lemma {:induction false} BySizeDescends(objs: seq<Object>)
    ensures Descending(BySize(objs))
  {
    if objs != [] {
      BySizeDescends(Front(objs));
      InsertKeepsOrder(BySize(Front(objs)), Last(objs));
    }
  }

  // --------------------------------------------------- dividing requests

  datatype Assignment = Assignment(left: seq<Object>, right: seq<Object>)

  /** One request after the others: to the left while it is the roomier side or
      the only one with room, else to the right. */
  function Assigned(a: Assignment, o: Object, left: int, right: int): Option<Assignment> {
    var leftFree, rightFree := left - SumSizes(a.left), right - SumSizes(a.right);
    if o.size <= leftFree && (leftFree >= rightFree || o.size > rightFree) then Some(a.(left := a.left + [o]))
    else if o.size <= rightFree then Some(a.(right := a.right + [o]))
    else None
  }

  /** What an assignment leaves free on its tighter side. */
  function Slack(a: Assignment, left: int, right: int): int {
    var leftFree, rightFree := left - SumSizes(a.left), right - SumSizes(a.right);
    if leftFree <= rightFree then leftFree else rightFree
  }

  /** Where both sides have room, the request goes where the tighter side keeps more;
      where one has, it goes there; and where none has, there is no assignment. */
  lemma {:induction false} AssignedBalances(a: Assignment, o: Object, left: int, right: int)
    ensures var onLeft, onRight := a.(left := a.left + [o]), a.(right := a.right + [o]);
      var fitsLeft, fitsRight := SumSizes(onLeft.left) <= left, SumSizes(onRight.right) <= right;
      var r := Assigned(a, o, left, right);
      && (fitsLeft && fitsRight ==>
        && (r == Some(onLeft) || r == Some(onRight))
        && Slack(r.value, left, right) >= Slack(onLeft, left, right)
        && Slack(r.value, left, right) >= Slack(onRight, left, right)
        && (left - SumSizes(a.left) == right - SumSizes(a.right) ==> r == Some(onLeft)))
      && (fitsLeft && !fitsRight ==> r == Some(onLeft))
      && (fitsRight && !fitsLeft ==> r == Some(onRight))
      && (!fitsLeft && !fitsRight ==> r == None)
  {
    Snoc(a.left, o);
    Snoc(a.right, o);
  }

  function SplitOf(sizes: seq<Object>, left: int, right: int): Option<Assignment> {
    if sizes == [] then Some(Assignment([], []))
    else
      var before := SplitOf(Front(sizes), left, right);
      if before.None? then None else Assigned(before.value, Last(sizes), left, right)
  }

  lemma {:induction false} AssignedConserves(a: Assignment, o: Object, left: int, right: int)
    requires Assigned(a, o, left, right).Some?
    ensures var b := Assigned(a, o, left, right).value;
      && multiset(b.left) + multiset(b.right) == multiset(a.left) + multiset(a.right) + multiset{o}
      && (SumSizes(a.left) <= left ==> SumSizes(b.left) <= left)
      && (SumSizes(a.right) <= right ==> SumSizes(b.right) <= right)
  {
    Snoc(a.left, o);
    Snoc(a.right, o);
  }

  /** A split loses no request and overfills neither side. */
  lemma {:induction false} SplitConserves(sizes: seq<Object>, left: nat, right: nat)
    requires SplitOf(sizes, left, right).Some?
    ensures var a := SplitOf(sizes, left, right).value;
      && multiset(a.left) + multiset(a.right) == multiset(sizes)
      && SumSizes(a.left) <= left && SumSizes(a.right) <= right
  {
    if sizes != [] {
      var front, o := Front(sizes), Last(sizes);
      SplitConserves(front, left, right);
      AssignedConserves(SplitOf(front, left, right).value, o, left, right);
      Rejoin(sizes);
      assert multiset(front + [o]) == multiset(front) + multiset{o};
    }
  }

  lemma {:induction false} SplitFails(sizes: seq<Object>, i: nat, left: int, right: int)
    requires i <= |sizes| && SplitOf(sizes[..i], left, right).None?
    ensures SplitOf(sizes, left, right).None?
  {
    if i < |sizes| {
      assert Front(sizes)[..i] == sizes[..i];
      SplitFails(Front(sizes), i, left, right);
    } else {
      assert sizes[..i] == sizes;
    }
  }

  method SplitRequests(sizes: seq<Object>, leftCapacity: nat, rightCapacity: nat) returns (r: Option<Assignment>)
    ensures r == SplitOf(sizes, leftCapacity, rightCapacity)
  {
    var left, right: seq<Object> := [], [];
    var leftFree: int, rightFree: int := leftCapacity, rightCapacity;
    for i := 0 to |sizes|
      invariant SplitOf(sizes[..i], leftCapacity, rightCapacity) == Some(Assignment(left, right))
      invariant leftFree == leftCapacity - SumSizes(left) && rightFree == rightCapacity - SumSizes(right)
    {
      FrontSlice(sizes, i);
      var o := sizes[i];
      Snoc(left, o);
      Snoc(right, o);
      if o.size <= leftFree && (leftFree >= rightFree || o.size > rightFree) {
        left := left + [o];
        leftFree := leftFree - o.size;
      } else if o.size <= rightFree {
        right := right + [o];
        rightFree := rightFree - o.size;
      } else {
        SplitFails(sizes, i + 1, leftCapacity, rightCapacity);
        return None;
      }
    }
    assert sizes[..|sizes|] == sizes;
    return Some(Assignment(left, right));
  }

  // --------------------------------------------------------- partitions

  /** A run of neighbouring free extents and the requests to pack into it. */
  datatype Partition = Partition(frees: seq<Extent>, pending: seq<Object>)

  function FreeExtents(es: seq<Extent>): seq<Extent> {
    if es == [] then []
    else if Last(es).key.None? then FreeExtents(Front(es)) + [Last(es)]
    else FreeExtents(Front(es))
  }

  lemma {:induction false} FreeExtentsAppend(a: seq<Extent>, b: seq<Extent>)
    ensures FreeExtents(a + b) == FreeExtents(a) + FreeExtents(b)
  {
    if b == [] {
      assert a + b == a;
    } else {
      FrontAppend(a, b);
      FreeExtentsAppend(a, Front(b));
    }
  }

  lemma {:induction false} FreeExtentsBytes(es: seq<Extent>)
    ensures Total(FreeExtents(es)) == FreeBytes(es)
  {
    if es != [] {
      FreeExtentsBytes(Front(es));
      Snoc(FreeExtents(Front(es)), Last(es));
    }
  }

  /** The free extents of all partitions, and their requests. */
  function AllFrees(groups: seq<Partition>): seq<Extent> {
    if groups == [] then [] else AllFrees(Front(groups)) + Last(groups).frees
  }

  function AllPending(groups: seq<Partition>): seq<Object> {
    if groups == [] then [] else AllPending(Front(groups)) + Last(groups).pending
  }

  /** Every partition has extents, and room for its requests. */
  ghost predicate EachFits(groups: seq<Partition>) {
    groups == [] || (EachFits(Front(groups)) && PartitionFits(Last(groups)))
  }

  ghost predicate PartitionFits(g: Partition) {
    g.frees != [] && SumSizes(g.pending) <= Total(g.frees)
  }

  /** Allocated bytes that lie between two addresses: what a cut there saves. */
  function Profit(es: seq<Extent>, begin: nat, end: nat): nat {
    if es == [] then 0
    else
      var e := Last(es);
      Profit(Front(es), begin, end)
      + if e.key.Some? && e.offset >= begin && e.offset + e.size <= end then e.size else 0
  }

  /** A cut after the free extent at position `at`. */
  datatype Cut = Cut(profit: nat, at: nat, assignment: Assignment)

  function CutAfter(es: seq<Extent>, g: Partition, at: nat): Option<Cut>
    requires at + 1 < |g.frees|
  {
    var split := SplitOf(g.pending, Total(g.frees[..at + 1]), Total(g.frees[at + 1..]));
    if split.None? then None
    else Some(Cut(Profit(es, g.frees[at].offset + g.frees[at].size, g.frees[at + 1].offset), at, split.value))
  }

  /** All cuts of a partition, by position. */
  function Cuts(es: seq<Extent>, g: Partition): (cuts: seq<Option<Cut>>)
    requires g.frees != []
    ensures |cuts| == |g.frees| - 1
  {
    seq(|g.frees| - 1, at requires 0 <= at < |g.frees| - 1 => CutAfter(es, g, at))
  }

  /** The cut the code settles on after looking at the first `n` of them. */
  function BestOf(cuts: seq<Option<Cut>>, n: nat): Option<Cut>
    requires n <= |cuts|
  {
    if n == 0 then None
    else
      var before, candidate := BestOf(cuts, n - 1), cuts[n - 1];
      if candidate.Some? && (before.None? || candidate.value.profit > before.value.profit) then candidate else before
  }

  /** `best` is the first of the most profitable cuts below `n`, if there is any. */
  ghost predicate BestBelow(cuts: seq<Option<Cut>>, n: nat, best: Option<Cut>)
    requires n <= |cuts|
  {
    && (best.None? ==> forall at :: 0 <= at < n ==> cuts[at].None?)
    && (best.Some? ==>
      && best.value.at < n && cuts[best.value.at] == best
      && forall at :: 0 <= at < n && cuts[at].Some? ==>
        && cuts[at].value.profit <= best.value.profit
        && (at < best.value.at ==> cuts[at].value.profit < best.value.profit))
  }

  /** It is the first of the most profitable cuts. */
  lemma {:induction false} BestOfIsBest(cuts: seq<Option<Cut>>, n: nat)
    requires n <= |cuts| && forall at :: 0 <= at < |cuts| && cuts[at].Some? ==> cuts[at].value.at == at
    ensures BestBelow(cuts, n, BestOf(cuts, n))
  {
    if n > 0 {
      BestOfIsBest(cuts, n - 1);
    }
  }

  method BestCut(es: seq<Extent>, g: Partition) returns (best: Option<Cut>)
    requires |g.frees| >= 2
    ensures best == BestOf(Cuts(es, g), |g.frees| - 1)
  {
    hide CutAfter, Cuts;
    ghost var cuts := Cuts(es, g);
    best := None;
    for at := 0 to |g.frees| - 1
      invariant best == BestOf(cuts, at)
    {
      var candidate := TryCut(es, g, at);
      if candidate.Some? && (best.None? || candidate.value.profit > best.value.profit) {
        best := candidate;
      }
    }
  }

  /** Try one cut: divide the requests and count what the cut would save. */
  method TryCut(es: seq<Extent>, g: Partition, at: nat) returns (candidate: Option<Cut>)
    requires at + 1 < |g.frees|
    ensures candidate == CutAfter(es, g, at) == Cuts(es, g)[at]
  {
    var assignment := SplitRequests(g.pending, Total(g.frees[..at + 1]), Total(g.frees[at + 1..]));
    if assignment.None? {
      return None;
    }
    var begin, end := g.frees[at].offset + g.frees[at].size, g.frees[at + 1].offset;
    candidate := Some(Cut(Profit(es, begin, end), at, assignment.value));
  }

  /** No cut of the partition is possible any more. */
  ghost predicate Uncuttable(es: seq<Extent>, g: Partition) {
    |g.frees| < 2 || g.pending == [] || forall at: nat :: at + 1 < |g.frees| ==> CutAfter(es, g, at).None?
  }

  ghost predicate EachUncuttable(es: seq<Extent>, groups: seq<Partition>) {
    groups == [] || (EachUncuttable(es, Front(groups)) && Uncuttable(es, Last(groups)))
  }

  function Halves(g: Partition, cut: Cut): seq<Partition>
    requires cut.at + 1 < |g.frees|
  {
    [Partition(g.frees[..cut.at + 1], cut.assignment.left), Partition(g.frees[cut.at + 1..], cut.assignment.right)]
  }

  lemma {:induction false} AllAppend(a: seq<Partition>, g: Partition)
    ensures AllFrees(a + [g]) == AllFrees(a) + g.frees
    ensures AllPending(a + [g]) == AllPending(a) + g.pending
    ensures EachFits(a + [g]) <==> EachFits(a) && PartitionFits(g)
    ensures NonEmpty(a + [g]) <==> NonEmpty(a) && g.frees != []
  {
    Snoc(a, g);
  }

  /** Cutting keeps the extents in order, loses no request, and leaves both halves
      with room for their share. */
  lemma {:induction false} CutConserves(es: seq<Extent>, a: seq<Partition>, g: Partition, at: nat)
    requires at + 1 < |g.frees| && CutAfter(es, g, at).Some?
    ensures var b := a + Halves(g, CutAfter(es, g, at).value);
      && AllFrees(b) == AllFrees(a) + g.frees
      && multiset(AllPending(b)) == multiset(AllPending(a)) + multiset(g.pending)
      && (EachFits(a) ==> EachFits(b)) && (NonEmpty(a) ==> NonEmpty(b)) && |b| == |a| + 2
  {
    var cut := CutAfter(es, g, at).value;
    var left, right := Halves(g, cut)[0], Halves(g, cut)[1];
    AllAppend(a, left);
    AllAppend(a + [left], right);
    assert a + Halves(g, cut) == a + [left] + [right];
    assert left.frees + right.frees == g.frees;
    assert AllFrees(a) + left.frees + right.frees == AllFrees(a) + (left.frees + right.frees);
    SplitConserves(g.pending, Total(g.frees[..at + 1]), Total(g.frees[at + 1..]));
  }

  /** `result` is `groups` with some partitions cut in two. */
  ghost predicate Refined(groups: seq<Partition>, result: seq<Partition>) {
    && AllFrees(result) == AllFrees(groups)
    && multiset(AllPending(result)) == multiset(AllPending(groups))
    && (EachFits(groups) ==> EachFits(result))
    && (NonEmpty(groups) ==> NonEmpty(result))
  }

  /** Where a pass stands: nothing was lost, and it grew if anything was cut. */
  ghost predicate Refining(es: seq<Extent>, groups: seq<Partition>, result: seq<Partition>, changed: bool) {
    && Refined(groups, result)
    && |result| >= |groups| && (changed ==> |result| > |groups| && |AllFrees(groups)| >= 2)
    && (!changed ==> result == groups && EachUncuttable(es, groups))
  }

  lemma {:induction false} KeptWhole(
    es: seq<Extent>, groups: seq<Partition>, result: seq<Partition>, changed: bool, g: Partition)
    requires Refining(es, groups, result, changed) && Uncuttable(es, g)
    ensures Refining(es, groups + [g], result + [g], changed)
  {
    AllAppend(groups, g);
    AllAppend(result, g);
    Snoc(groups, g);
  }

  lemma {:induction false} CutInTwo(
    es: seq<Extent>, groups: seq<Partition>, result: seq<Partition>, changed: bool, g: Partition, at: nat)
    requires Refining(es, groups, result, changed)
    requires at + 1 < |g.frees| && CutAfter(es, g, at).Some?
    ensures Refining(es, groups + [g], result + Halves(g, CutAfter(es, g, at).value), true)
  {
    AllAppend(groups, g);
    CutConserves(es, result, g, at);
  }

  /** One partition cut at its most profitable place, or left whole. */
  function PieceOf(es: seq<Extent>, g: Partition): seq<Partition> {
    if |g.frees| < 2 || g.pending == [] then [g]
    else
      var best := BestOf(Cuts(es, g), |g.frees| - 1);
      if best.Some? && best.value.at + 1 < |g.frees| then Halves(g, best.value) else [g]
  }

  /** Cut one partition at its most profitable place, if it can be cut. */
  method SplitOne(es: seq<Extent>, g: Partition) returns (piece: seq<Partition>, split: bool, ghost at: nat)
    ensures split ==> MostProfitable(es, g, at) && piece == Halves(g, CutAfter(es, g, at).value)
    ensures !split ==> piece == [g] && Uncuttable(es, g)
    ensures piece == PieceOf(es, g)
    // in a pool that is the cut with the widest gap, all of it allocated
    ensures split && Tiles(es, 0) && Neighbours(es, g.frees) ==>
      Widest(g, at) && AllocatedBetween(es, g.frees[at], g.frees[at + 1])
  {
    at := 0;
    if |g.frees| < 2 || g.pending == [] {
      return [g], false, at;
    }
    hide Cuts, CutAfter, BestOf, Uncuttable;
    var best := BestCut(es, g);
    BestAmongCuts(es, g);
    if best.None? {
      return [g], false, at;
    }
    piece, split, at := Halves(g, best.value), true, best.value.at;
    if Tiles(es, 0) && Neighbours(es, g.frees) {
      MostProfitableIsWidest(es, g, at);
    }
  }

  /** The cut after `at` is possible, saves as much as any, and more than any before. */
  ghost predicate MostProfitable(es: seq<Extent>, g: Partition, at: nat) {
    && at + 1 < |g.frees| && CutAfter(es, g, at).Some?
    && BestBelow(Cuts(es, g), |g.frees| - 1, CutAfter(es, g, at))
  }

  /** The best cut is a cut, and without one the partition cannot be cut. */
  lemma {:induction false} BestAmongCuts(es: seq<Extent>, g: Partition)
    requires |g.frees| >= 2
    ensures var best := BestOf(Cuts(es, g), |g.frees| - 1);
      && (best.None? ==> Uncuttable(es, g))
      && (best.Some? ==> best.value.at + 1 < |g.frees| && CutAfter(es, g, best.value.at) == best)
      && BestBelow(Cuts(es, g), |g.frees| - 1, best)
  {
    var cuts := Cuts(es, g);
    BestOfIsBest(cuts, |g.frees| - 1);
    if BestOf(cuts, |g.frees| - 1).None? {
      forall at: nat | at + 1 < |g.frees| ensures CutAfter(es, g, at).None? {
        assert cuts[at].None?;
      }
    }
  }

  function RoundOf(es: seq<Extent>, groups: seq<Partition>): seq<Partition> {
    if groups == [] then [] else RoundOf(es, Front(groups)) + PieceOf(es, Last(groups))
  }

  /** One pass over the partitions, cutting each at its most profitable place. */
  method SplitRound(es: seq<Extent>, groups: seq<Partition>) returns (result: seq<Partition>, changed: bool)
    ensures Refining(es, groups, result, changed)
    ensures result == RoundOf(es, groups)
  {
    hide PieceOf, Uncuttable, CutAfter, MostProfitable, Refining;
    result, changed := [], false;
    NothingRefined(es);
    for i := 0 to |groups|
      invariant Refining(es, groups[..i], result, changed)
      invariant result == RoundOf(es, groups[..i])
    {
      var g := groups[i];
      FrontSlice(groups, i);
      assert groups[..i + 1] == groups[..i] + [g];
      var piece, split;
      ghost var at;
      piece, split, at := SplitOne(es, g);
      if split {
        SplitIsCut(es, g, at);
        CutInTwo(es, groups[..i], result, changed, g, at);
      } else {
        KeptWhole(es, groups[..i], result, changed, g);
      }
      result, changed := result + piece, changed || split;
    }
    assert groups[..|groups|] == groups;
  }

  lemma {:induction false} NothingRefined(es: seq<Extent>)
    ensures Refining(es, [], [], false)
  {
  }

  lemma {:induction false} SplitIsCut(es: seq<Extent>, g: Partition, at: nat)
    requires MostProfitable(es, g, at)
    ensures at + 1 < |g.frees| && CutAfter(es, g, at).Some?
  {
  }

  lemma {:induction false} HalvesFrees(g: Partition, cut: Cut)
    requires cut.at + 1 < |g.frees|
    ensures AllFrees(Halves(g, cut)) == g.frees
  {
    var left, right := Halves(g, cut)[0], Halves(g, cut)[1];
    AllAppend([], left);
    AllAppend([left], right);
    assert Halves(g, cut) == [left] + [right] && [] + [left] == [left];
    assert left.frees + right.frees == g.frees;
  }

  lemma {:induction false} OneFrees(g: Partition)
    ensures AllFrees([g]) == g.frees
  {
    AllAppend([], g);
    assert [] + [g] == [g];
  }

  lemma {:induction false} PieceFrees(es: seq<Extent>, g: Partition)
    ensures AllFrees(PieceOf(es, g)) == g.frees
  {
    hide Cuts, BestOf, AllFrees, Halves;
    OneFrees(g);
    if |g.frees| >= 2 {
      var best := BestOf(Cuts(es, g), |g.frees| - 1);
      if best.Some? && best.value.at + 1 < |g.frees| {
        HalvesFrees(g, best.value);
      }
    }
  }

  lemma {:induction false} AllFreesAppend(a: seq<Partition>, b: seq<Partition>)
    ensures AllFrees(a + b) == AllFrees(a) + AllFrees(b)
    ensures EachFits(a + b) <==> EachFits(a) && EachFits(b)
  {
    if b == [] {
      assert a + b == a;
    } else {
      FrontAppend(a, b);
      AllFreesAppend(a, Front(b));
    }
  }

  /** A round changes no free extent. */
  lemma {:induction false} RoundFrees(es: seq<Extent>, groups: seq<Partition>)
    ensures AllFrees(RoundOf(es, groups)) == AllFrees(groups)
  {
    hide PieceOf;
    if groups != [] {
      RoundFrees(es, Front(groups));
      PieceFrees(es, Last(groups));
      AllFreesAppend(RoundOf(es, Front(groups)), PieceOf(es, Last(groups)));
    }
  }

  /** Rounds, until one cuts nothing. */
  ghost function Division(es: seq<Extent>, groups: seq<Partition>): seq<Partition>
    decreases |AllFrees(groups)| + 1 - |groups|
  {
    var next := RoundOf(es, groups);
    if |next| <= |groups| || |groups| > |AllFrees(groups)| + 1 then groups
    else
      RoundFrees(es, groups);
      Division(es, next)
  }

  /** The partitions `_partition_requests` ends with. */
  ghost function Partitions(es: seq<Extent>, requests: seq<Object>): seq<Partition> {
    if requests == [] then [] else Division(es, [Partition(FreeExtents(es), requests)])
  }

  ghost predicate NonEmpty(groups: seq<Partition>) {
    groups == [] || (NonEmpty(Front(groups)) && Last(groups).frees != [])
  }

  lemma {:induction false} GroupsBelowFrees(groups: seq<Partition>)
    requires NonEmpty(groups)
    ensures |groups| <= |AllFrees(groups)|
  {
    if groups != [] {
      GroupsBelowFrees(Front(groups));
    }
  }

  /** `_partition_requests`: the free extents cut into runs, the requests divided
      among them without loss, every run with room for its share, and no further
      cut possible. */
  method PartitionRequests(es: seq<Extent>, requests: seq<Object>) returns (groups: seq<Partition>)
    ensures requests == [] ==> groups == []
    ensures requests != [] ==>
      && AllFrees(groups) == FreeExtents(es)
      && multiset(AllPending(groups)) == multiset(requests)
      && EachUncuttable(es, groups)
    ensures 0 < SumSizes(requests) <= FreeBytes(es) ==> EachFits(groups)
    ensures groups == Partitions(es, requests)
  {
    if requests == [] {
      return [];
    }
    hide RoundOf, Division, EachUncuttable, PieceOf;
    var frees := FreeExtents(es);
    groups := [Partition(frees, requests)];
    ghost var start := groups;
    AllAppend([], Partition(frees, requests));
    FreeExtentsBytes(es);
    var changed := true;
    while changed
      invariant AllFrees(groups) == frees && multiset(AllPending(groups)) == multiset(requests)
      invariant 0 < SumSizes(requests) <= FreeBytes(es) ==> EachFits(groups)
      invariant frees != [] ==> NonEmpty(groups)
      invariant frees == [] ==> |groups| == 1
      invariant !changed ==> EachUncuttable(es, groups)
      invariant Division(es, start) == if changed then Division(es, groups) else groups
      invariant |groups| <= |frees| + 1
      decreases |frees| + 1 - |groups|, changed
    {
      var result;
      DivisionNext(es, groups);
      result, changed := SplitRound(es, groups);
      groups := result;
      if frees != [] {
        GroupsBelowFrees(groups);
      }
    }
  }

  lemma {:induction false} DivisionNext(es: seq<Extent>, groups: seq<Partition>)
    requires |groups| <= |AllFrees(groups)| + 1
    ensures Division(es, groups) ==
      if |RoundOf(es, groups)| > |groups| then Division(es, RoundOf(es, groups)) else groups
  {
    hide RoundOf;
  }

  // ------------------------------------------ where the free extents lie

  /** The extents up to the `n`-th free one. */
  lemma {:induction false} ThroughFree(es: seq<Extent>, n: nat) returns (j: nat)
    requires 1 <= n <= |FreeExtents(es)|
    ensures 1 <= j <= |es| && FreeExtents(es[..j]) == FreeExtents(es)[..n]
    ensures es[j - 1] == FreeExtents(es)[n - 1] && es[j - 1].key.None?
  {
    if n <= |FreeExtents(Front(es))| {
      j := ThroughFree(Front(es), n);
      assert Front(es)[..j] == es[..j];
    } else {
      j := |es|;
      assert es[..j] == es;
      Snoc(FreeExtents(Front(es)), Last(es));
    }
  }

  lemma {:induction false} NoFreeBefore(es: seq<Extent>, j: nat, k: nat)
    requires j <= |es| && k <= |es| && FreeExtents(es[..j]) != [] && FreeExtents(es[..k]) == []
    ensures k < j
  {
    if j <= k {
      assert es[..k] == es[..j] + es[j..k];
      FreeExtentsAppend(es[..j], es[j..k]);
      assert false;
    }
  }

  lemma {:induction false} FirstFree(es: seq<Extent>) returns (i: nat)
    requires FreeExtents(es) != []
    ensures i < |es| && FreeExtents(es[..i]) == [] && es[i] == FreeExtents(es)[0] && es[i].key.None?
  {
    var j := ThroughFree(es, 1);
    i := j - 1;
    FrontSlice(es, i);
    Snoc(FreeExtents(es[..i]), es[i]);
  }

  /** The stretch of a pool from the first to the last extent of a partition. */
  lemma {:induction false} RegionOf(es: seq<Extent>, frees: seq<Extent>, later: seq<Extent>)
    returns (gap: seq<Extent>, region: seq<Extent>, rest: seq<Extent>)
    requires frees != [] && FreeExtents(es) == frees + later
    ensures es == gap + region + rest && region != []
    ensures FreeExtents(gap) == [] && FreeExtents(region) == frees && FreeExtents(rest) == later
    ensures region[0] == frees[0] && Last(region) == Last(frees)
    ensures region[0].key.None? && Last(region).key.None?
  {
    var i := FirstFree(es);
    var j := ThroughFree(es, |frees|);
    assert FreeExtents(es)[..|frees|] == frees;
    NoFreeBefore(es, j, i);
    gap, region, rest := es[..i], es[i..j], es[j..];
    RegionFrees(es, i, j);
  }

  lemma {:induction false} RegionFrees(es: seq<Extent>, i: nat, j: nat)
    requires i <= j <= |es| && FreeExtents(es[..i]) == []
    ensures es == es[..i] + es[i..j] + es[j..]
    ensures FreeExtents(es[i..j]) == FreeExtents(es[..j])
    ensures FreeExtents(es) == FreeExtents(es[i..j]) + FreeExtents(es[j..])
  {
    assert es[..j] == es[..i] + es[i..j];
    FreeExtentsAppend(es[..i], es[i..j]);
    assert es == es[..j] + es[j..];
    FreeExtentsAppend(es[..j], es[j..]);
  }

  // ------------------------------------------------ what a cut is worth

  /** Free extents that follow one another in a pool. */
  ghost predicate Neighbours(es: seq<Extent>, frees: seq<Extent>) {
    exists before: seq<Extent>, after: seq<Extent> :: FreeExtents(es) == before + frees + after
  }

  /** Addresses between the free extents on both sides of a cut. */
  function GapAfter(g: Partition, at: nat): int
    requires at + 1 < |g.frees|
  {
    g.frees[at + 1].offset - (g.frees[at].offset + g.frees[at].size)
  }

  /** The requests can be divided between the extents up to `at` and those behind. */
  predicate Divisible(g: Partition, at: nat)
    requires at + 1 < |g.frees|
  {
    SplitOf(g.pending, Total(g.frees[..at + 1]), Total(g.frees[at + 1..])).Some?
  }

  /** Of all cuts that divide the requests, the one after `at` has the widest gap, and
      it is the first such. */
  ghost predicate Widest(g: Partition, at: nat) {
    && at + 1 < |g.frees| && Divisible(g, at)
    && forall other: nat :: other + 1 < |g.frees| && Divisible(g, other) ==>
         GapAfter(g, other) <= GapAfter(g, at) && (other < at ==> GapAfter(g, other) < GapAfter(g, at))
  }

  /** Nothing between two extents is free. */
  ghost predicate AllocatedBetween(es: seq<Extent>, f: Extent, h: Extent) {
    forall e :: e in es && f.offset + f.size <= e.offset < h.offset ==> e.key.Some?
  }

  lemma {:induction false} ProfitAppend(a: seq<Extent>, b: seq<Extent>, begin: nat, end: nat)
    ensures Profit(a + b, begin, end) == Profit(a, begin, end) + Profit(b, begin, end)
  {
    if b == [] {
      assert a + b == a;
    } else {
      FrontAppend(a, b);
      ProfitAppend(a, Front(b), begin, end);
    }
  }

  /** Extents before or behind a stretch of addresses do not lie in it. */
  lemma {:induction false} ProfitOutside(es: seq<Extent>, lo: nat, begin: nat, end: nat)
    requires Tiles(es, lo) && (lo + Total(es) <= begin || end <= lo)
    ensures Profit(es, begin, end) == 0
  {
    if es != [] {
      ProfitOutside(Front(es), lo, begin, end);
    }
  }

  /** Where nothing is free, all bytes are allocated. */
  lemma {:induction false} ProfitInside(es: seq<Extent>, lo: nat, begin: nat, end: nat)
    requires Tiles(es, lo) && begin <= lo && lo + Total(es) <= end && FreeExtents(es) == []
    ensures Profit(es, begin, end) == Total(es)
    ensures forall e :: e in es ==> e.key.Some?
  {
    if es != [] {
      ProfitInside(Front(es), lo, begin, end);
      Rejoin(es);
    }
  }

  lemma {:induction false} TiledParts(a: seq<Extent>, mid: seq<Extent>, b: seq<Extent>)
    requires Tiles(a + mid + b, 0) && b != []
    ensures Tiles(a, 0) && Tiles(mid, Total(a)) && Tiles(b, Total(a) + Total(mid))
    ensures b[0].offset == Total(a) + Total(mid)
    ensures forall e :: e in a ==> e.offset + e.size <= Total(a) && e.size > 0
    ensures forall e :: e in b ==> e.offset >= Total(a) + Total(mid)
  {
    AppendTiles(a + mid, b, 0);
    AppendTiles(a, mid, 0);
    AppendTotals(a, mid);
    var lo := Total(a) + Total(mid);
    forall e | e in a ensures e.offset + e.size <= Total(a) && e.size > 0 {
      var i :| 0 <= i < |a| && a[i] == e;
      TilesWithin(a, 0, i);
    }
    forall e | e in b ensures e.offset >= lo {
      var i :| 0 <= i < |b| && b[i] == e;
      TilesWithin(b, lo, i);
    }
    FirstAt(b, lo);
  }

  lemma {:induction false} FirstAt(es: seq<Extent>, lo: nat)
    requires es != [] && Tiles(es, lo)
    ensures es[0].offset == lo
  {
    if |es| > 1 {
      FirstAt(Front(es), lo);
    }
  }

  /** The stretch between two neighbouring free extents. */
  lemma {:induction false} StretchBetween(es: seq<Extent>, before: seq<Extent>, f: Extent, h: Extent, after: seq<Extent>)
    returns (a: seq<Extent>, mid: seq<Extent>, b: seq<Extent>)
    requires FreeExtents(es) == before + [f, h] + after
    ensures es == a + mid + b && a != [] && b != [] && Last(a) == f && b[0] == h
    ensures FreeExtents(mid) == []
  {
    var frees, n := FreeExtents(es), |before| + 1;
    assert frees[n - 1] == f && frees[n] == h;
    var j := ThroughFree(es, n);
    assert es == es[..j] + es[j..];
    FreeExtentsAppend(es[..j], es[j..]);
    assert FreeExtents(es[j..]) == frees[n..];
    var i := FirstFree(es[j..]);
    a, mid, b := es[..j], es[j..][..i], es[j..][i..];
    assert es == a + mid + b;
  }

  /** In a pool, what a cut saves is the width of its gap. */
  lemma {:induction false} ProfitIsGap(es: seq<Extent>, before: seq<Extent>, f: Extent, h: Extent, after: seq<Extent>)
    requires Tiles(es, 0) && FreeExtents(es) == before + [f, h] + after
    ensures Profit(es, f.offset + f.size, h.offset) == h.offset - (f.offset + f.size)
    ensures AllocatedBetween(es, f, h)
  {
    var a, mid, b := StretchBetween(es, before, f, h, after);
    TiledParts(a, mid, b);
    var begin, end := f.offset + f.size, h.offset;
    assert begin == Total(a);
    ProfitAppend(a + mid, b, begin, end);
    ProfitAppend(a, mid, begin, end);
    ProfitOutside(a, 0, begin, end);
    ProfitOutside(b, end, begin, end);
    ProfitInside(mid, begin, begin, end);
  }

  lemma {:induction false} CutWorth(es: seq<Extent>, g: Partition, at: nat)
    requires Tiles(es, 0) && Neighbours(es, g.frees) && at + 1 < |g.frees|
    ensures CutAfter(es, g, at).Some? <==> Divisible(g, at)
    ensures CutAfter(es, g, at).Some? ==> CutAfter(es, g, at).value.profit == GapAfter(g, at)
    ensures AllocatedBetween(es, g.frees[at], g.frees[at + 1])
  {
    hide Profit, AllocatedBetween, Tiles, SplitOf;
    var before, after :| FreeExtents(es) == before + g.frees + after;
    var f, h := g.frees[at], g.frees[at + 1];
    assert g.frees == g.frees[..at] + [f, h] + g.frees[at + 2..];
    assert FreeExtents(es) == (before + g.frees[..at]) + [f, h] + (g.frees[at + 2..] + after);
    ProfitIsGap(es, before + g.frees[..at], f, h, g.frees[at + 2..] + after);
  }

  lemma {:induction false} MostProfitableIsWidest(es: seq<Extent>, g: Partition, at: nat)
    requires Tiles(es, 0) && Neighbours(es, g.frees) && MostProfitable(es, g, at)
    ensures Widest(g, at) && AllocatedBetween(es, g.frees[at], g.frees[at + 1])
  {
    hide Profit, AllocatedBetween, Tiles, CutAfter, Divisible, GapAfter, Neighbours;
    CutWorth(es, g, at);
    var cuts := Cuts(es, g);
    forall other: nat | other + 1 < |g.frees| && Divisible(g, other)
      ensures GapAfter(g, other) <= GapAfter(g, at) && (other < at ==> GapAfter(g, other) < GapAfter(g, at))
    {
      CutWorth(es, g, other);
      assert cuts[other] == CutAfter(es, g, other);
      CutPosition(es, g, at);
    }
  }

  lemma {:induction false} CutPosition(es: seq<Extent>, g: Partition, at: nat)
    requires at + 1 < |g.frees| && CutAfter(es, g, at).Some?
    ensures CutAfter(es, g, at).value.at == at
  {
  }

  /** What becomes of one partition in a pool: left whole where nothing divides its
      requests, else cut at the widest gap that does. */
  lemma {:induction false} PieceIsWidest(es: seq<Extent>, g: Partition) returns (at: nat)
    requires Tiles(es, 0) && Neighbours(es, g.frees) && g.pending != [] && |PieceOf(es, g)| == 2
    ensures Widest(g, at)
    ensures var split := SplitOf(g.pending, Total(g.frees[..at + 1]), Total(g.frees[at + 1..])).value;
      PieceOf(es, g) == [Partition(g.frees[..at + 1], split.left), Partition(g.frees[at + 1..], split.right)]
  {
    hide Cuts, BestOf, CutAfter, Divisible, GapAfter, Neighbours, Tiles;
    var best := BestOf(Cuts(es, g), |g.frees| - 1);
    BestAmongCuts(es, g);
    at := best.value.at;
    MostProfitableIsWidest(es, g, at);
    CutDivides(es, g, at);
  }

  lemma {:induction false} CutDivides(es: seq<Extent>, g: Partition, at: nat)
    requires at + 1 < |g.frees| && CutAfter(es, g, at).Some?
    ensures Some(CutAfter(es, g, at).value.assignment) == SplitOf(g.pending, Total(g.frees[..at + 1]), Total(g.frees[at + 1..]))
  {
    hide SplitOf;
  }

  /** A partition whose requests can be divided anywhere is cut. */
  lemma {:induction false} DivisibleIsCut(es: seq<Extent>, g: Partition, at: nat)
    requires Tiles(es, 0) && Neighbours(es, g.frees) && g.pending != []
    requires at + 1 < |g.frees| && Divisible(g, at)
    ensures |PieceOf(es, g)| == 2
  {
    hide Cuts, BestOf, CutAfter, Divisible, Neighbours, Tiles;
    BestAmongCuts(es, g);
    CutWorth(es, g, at);
  }

  /** The partitions of a pool hold neighbouring free extents. */
  lemma {:induction false} PartsAreNeighbours(es: seq<Extent>, groups: seq<Partition>, i: nat)
    requires AllFrees(groups) == FreeExtents(es) && i < |groups|
    ensures Neighbours(es, groups[i].frees)
  {
    var before, g, after := groups[..i], groups[i], groups[i + 1..];
    assert groups == before + ([g] + after);
    AllFreesAppend(before, [g] + after);
    AllFreesAppend([g], after);
    OneFrees(g);
    assert FreeExtents(es) == AllFrees(before) + g.frees + AllFrees(after);
  }
}
