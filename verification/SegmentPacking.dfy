/** Merging a stretch of the pool and filling its free end: what partitioned bin
    packing does to the extents, and how little it has to move
    (evaluation/tensor_simulator/tensor_sim_segment_backend.py). */
module SegmentPacking {
  import opened Common
  import opened SegmentExtents
  import opened SegmentReclaim
  import opened SegmentPartition

  // --------------------------------------------------------- finding extents

  /** Extents of a tiling are told apart by their addresses. */
  lemma {:induction false} OnlyOnce(es: seq<Extent>, i: nat, j: nat)
    requires Tiles(es, 0) && i < |es| && j < |es| && es[i] == es[j]
    ensures i == j
  {
    if i < j {
      TilesWithin(es, 0, i);
      TilesOrdered(es, 0, i, j);
    } else if j < i {
      TilesWithin(es, 0, j);
      TilesOrdered(es, 0, j, i);
    }
  }

  method FindExtent(es: seq<Extent>, e: Extent) returns (i: nat)
    requires e in es
    ensures i < |es| && es[i] == e
  {
    i := 0;
    while es[i] != e
      invariant i < |es| && e in es[i..]
      decreases |es| - i
    {
      i := i + 1;
    }
  }

  // --------------------------------------------------------------- merging

  /** A stretch after its allocations slid to its low end. */
  function Merged(region: seq<Extent>): seq<Extent>
    requires region != []
  {
    Slid(region) + [Rest(region)]
  }

  function Slid(region: seq<Extent>): seq<Extent>
    requires region != []
  {
    Packed(region, region[0].offset)
  }

  function Rest(region: seq<Extent>): Extent
    requires region != []
  {
    Extent(region[0].offset + UsedBytes(region), FreeBytes(region), None)
  }

  lemma {:induction false} MergedTile(region: seq<Extent>, lo: nat)
    requires region != [] && region[0].key.None? && Tiles(region, lo)
    ensures region[0].offset == lo && Rest(region).size > 0
    ensures Tiles(Merged(region), lo) && Total(Merged(region)) == Total(region)
    ensures Objects(Merged(region)) == Objects(region) && FreeBytes(Merged(region)) == FreeBytes(region)
    ensures Objects(Slid(region)) == Objects(region) && Total(Slid(region)) == UsedBytes(region)
  {
    FirstOffset(region, lo);
    PackedFacts(region, lo, lo);
    UsedPlusFree(region);
    TilesSnoc(Slid(region), Rest(region), lo);
    FreeSnoc(Slid(region), Rest(region));
  }

  lemma {:induction false} FirstOffset(es: seq<Extent>, lo: nat)
    requires es != [] && Tiles(es, lo)
    ensures es[0].offset == lo && es[0].size > 0
    ensures es[0].key.None? ==> FreeBytes(es) >= es[0].size
  {
    if |es| > 1 {
      FirstOffset(Front(es), lo);
    }
  }

  /** Behind a free extent, everything allocated has to move. */
  lemma {:induction false} EverythingMoves(region: seq<Extent>, lo: nat)
    requires region != [] && region[0].key.None? && Tiles(region, lo)
    ensures Moved(region, lo) == UsedBytes(region)
  {
    if |region| > 1 {
      var front := Front(region);
      EverythingMoves(front, lo);
      FirstOffset(front, lo);
      UsedPlusFree(front);
      if Last(region).key.Some? {
        Snoc(Objects(front), Object(Last(region).key.value, Last(region).size));
      }
    } else {
      assert Front(region) == [] && Objects(region) == [];
    }
  }

  /** Replacing a stretch by one with the same total and tiling. */
  lemma {:induction false} Replaced(pre: seq<Extent>, region: seq<Extent>, other: seq<Extent>, post: seq<Extent>)
    requires Tiles(pre + region + post, 0)
    requires Tiles(other, Total(pre)) && Total(other) == Total(region)
    ensures Tiles(pre + other + post, 0) && Total(pre + other + post) == Total(pre + region + post)
  {
    AppendTiles(pre + region, post, 0);
    AppendTiles(pre, region, 0);
    AppendTiles(pre + other, post, 0);
    AppendTiles(pre, other, 0);
    AppendTotals(pre, region);
    AppendTotals(pre, other);
    AppendTotals(pre + region, post);
    AppendTotals(pre + other, post);
  }

  lemma {:induction false} RegionTiles(pre: seq<Extent>, region: seq<Extent>, post: seq<Extent>)
    requires Tiles(pre + region + post, 0)
    ensures Tiles(pre, 0) && Tiles(region, Total(pre)) && Tiles(post, Total(pre) + Total(region))
  {
    AppendTiles(pre + region, post, 0);
    AppendTiles(pre, region, 0);
    AppendTotals(pre, region);
  }

  lemma {:induction false} ThreeObjects(pre: seq<Extent>, region: seq<Extent>, post: seq<Extent>)
    ensures Objects(pre + region + post) == Objects(pre) + Objects(region) + Objects(post)
  {
    AppendObjects(pre, region);
    AppendObjects(pre + region, post);
  }

  // ----------------------------------------------------- one merge of it all

  function FirstFreeAt(es: seq<Extent>): nat {
    if es == [] || es[0].key.None? then 0 else 1 + FirstFreeAt(es[1..])
  }

  function LastFreeEnd(es: seq<Extent>): nat {
    if es == [] then 0 else if Last(es).key.None? then |es| else LastFreeEnd(Front(es))
  }

  /** Bytes moved by one merge from the first to the last free extent. */
  function WholeMerge(es: seq<Extent>): nat {
    var i, j := FirstFreeAt(es), LastFreeEnd(es);
    if i < j <= |es| then Moved(es[i..j], es[i].offset) else 0
  }

  lemma {:induction false} FirstFreeIs(lead: seq<Extent>, e: Extent, tail: seq<Extent>)
    requires FreeExtents(lead) == [] && e.key.None?
    ensures FirstFreeAt(lead + [e] + tail) == |lead|
  {
    if lead != [] {
      FirstKeyed(lead);
      assert (lead + [e] + tail)[1..] == lead[1..] + [e] + tail;
      FreeExtentsAppend([lead[0]], lead[1..]);
      assert lead == [lead[0]] + lead[1..];
      FirstFreeIs(lead[1..], e, tail);
    }
  }

  lemma {:induction false} FirstKeyed(lead: seq<Extent>)
    requires FreeExtents(lead) == []
    ensures lead == [] || lead[0].key.Some?
  {
    if |lead| > 1 {
      FirstKeyed(Front(lead));
    }
  }

  lemma {:induction false} LastFreeIs(es: seq<Extent>, tail: seq<Extent>)
    requires es != [] && Last(es).key.None? && FreeExtents(tail) == []
    ensures LastFreeEnd(es + tail) == |es|
  {
    if tail == [] {
      assert es + tail == es;
    } else {
      FrontAppend(es, tail);
      LastFreeIs(es, Front(tail));
    }
  }

  /** It moves everything allocated between those two. */
  lemma {:induction false} WholeMergeMoves(lead: seq<Extent>, core: seq<Extent>, tail: seq<Extent>)
    requires core != [] && core[0].key.None? && Last(core).key.None?
    requires FreeExtents(lead) == [] && FreeExtents(tail) == []
    requires Tiles(lead + core + tail, 0)
    ensures WholeMerge(lead + core + tail) == UsedBytes(core)
  {
    var es := lead + core + tail;
    assert es == lead + [core[0]] + (core[1..] + tail);
    FirstFreeIs(lead, core[0], core[1..] + tail);
    LastFreeIs(lead + core, tail);
    assert es[|lead|..|lead| + |core|] == core;
    RegionTiles(lead, core, tail);
    FirstOffset(core, Total(lead));
    EverythingMoves(core, Total(lead));
  }

  // ---------------------------------------------------- filling a free end

  ghost predicate AllPositive(objs: seq<Object>) {
    forall i :: 0 <= i < |objs| ==> objs[i].size > 0
  }

  /** Objects that can be added to a pool with these keys. */
  ghost predicate Addable(objs: seq<Object>, keys: set<PoolKey>) {
    AllPositive(objs) && DistinctKeys(objs) && KeySet(objs) !! keys
  }

  /** `room` bytes are left between `head` and `post`. */
  ghost predicate Filling(es: seq<Extent>, head: seq<Extent>, free: Option<Extent>, post: seq<Extent>, room: nat) {
    && (free.Some? ==> es == head + [free.value] + post && free.value.key.None? && free.value.size == room && room > 0)
    && (free.None? ==> es == head + post && room == 0)
  }

  function Left(free: Extent, size: nat): Option<Extent>
    requires size <= free.size
  {
    if size < free.size then Some(Extent(free.offset + size, free.size - size, None)) else None
  }

  lemma {:induction false} ReservedAt(head: seq<Extent>, free: Extent, post: seq<Extent>, key: PoolKey, size: nat)
    requires size <= free.size
    ensures var es := head + [free] + post;
      && es[..|head|] == head && es[|head|] == free && es[|head| + 1..] == post
      && Place(es, |head|, key, size) == head + (Split(free, key, size) + post)
  {
    var es := head + [free] + post;
    assert es[..|head|] == head && es[|head| + 1..] == post;
  }

  lemma {:induction false} ReservedFills(head: seq<Extent>, free: Extent, post: seq<Extent>, key: PoolKey, size: nat)
    requires size <= free.size
    ensures Filling(head + (Split(free, key, size) + post), head + [Extent(free.offset, size, Some(key))],
                    Left(free, size), post, free.size - size)
  {
    var placed, next := Extent(free.offset, size, Some(key)), head + (Split(free, key, size) + post);
    if size < free.size {
      assert next == head + [placed] + [Left(free, size).value] + post;
    } else {
      assert next == head + [placed] + post;
    }
  }

  lemma {:induction false} ReserveStep(
    es: seq<Extent>, head: seq<Extent>, free: Extent, post: seq<Extent>, key: PoolKey, size: nat, capacity: nat)
    requires Sound(es, IndexOf(es), capacity) && Filling(es, head, Some(free), post, free.size)
    requires 0 < size <= free.size && key !in IndexOf(es)
    ensures var placed := Extent(free.offset, size, Some(key));
      && |head| < |es| && es[|head|] == free
      && Sound(Place(es, |head|, key, size), IndexOf(es)[key := placed], capacity)
      && Filling(Place(es, |head|, key, size), head + [placed], Left(free, size), post, free.size - size)
  {
    ReservedAt(head, free, post, key, size);
    ReservedFills(head, free, post, key, size);
    PlacedSound(es, |head|, key, size, capacity);
  }

  lemma {:induction false} AddableRest(objs: seq<Object>, keys: set<PoolKey>, i: nat)
    requires Addable(objs, keys) && i < |objs|
    ensures objs[i].size > 0 && objs[i].key !in keys + KeySet(objs[..i])
    ensures KeySet(objs[..i + 1]) == KeySet(objs[..i]) + {objs[i].key}
    ensures SumSizes(objs[..i + 1]) == SumSizes(objs[..i]) + objs[i].size <= SumSizes(objs)
  {
    FrontSlice(objs, i);
    assert objs == objs[..i + 1] + objs[i + 1..];
    ObjectsAppend(objs[..i + 1], objs[i + 1..], {});
  }

  /** The first `i` requests of a partition have been placed. */
  ghost predicate Packing(
    es: seq<Extent>, index: map<PoolKey, Extent>, capacity: nat, head: seq<Extent>, free: Option<Extent>, post: seq<Extent>,
    room: nat, already: seq<Object>, keys: set<PoolKey>, pending: seq<Object>, i: nat)
  {
    && i <= |pending|
    && Sound(es, index, capacity)
    && SumSizes(pending[..i]) <= room
    && Filling(es, head, free, post, room - SumSizes(pending[..i]))
    && Objects(head) == already + pending[..i]
    && index.Keys == keys + KeySet(pending[..i])
  }

  /** And where they lie. */
  ghost predicate LaidUpTo(pre: seq<Extent>, region: seq<Extent>, pending: seq<Object>, i: nat, head: seq<Extent>, free: Option<Extent>) {
    && region != [] && i <= |pending|
    && head == pre + Slid(region) + Laid(Rest(region).offset, pending[..i])
    && free == LeftOver(Rest(region), SumSizes(pending[..i]))
  }

  lemma {:induction false} LaidStart(pre: seq<Extent>, region: seq<Extent>, pending: seq<Object>)
    requires region != [] && Rest(region).size > 0
    ensures LaidUpTo(pre, region, pending, 0, pre + Slid(region), Some(Rest(region)))
  {
    assert pending[..0] == [];
    assert pre + Slid(region) + [] == pre + Slid(region);
  }

  lemma {:induction false} LaidStep(
    pre: seq<Extent>, region: seq<Extent>, pending: seq<Object>, i: nat, head: seq<Extent>, free: Extent)
    requires LaidUpTo(pre, region, pending, i, head, Some(free)) && i < |pending| && pending[i].size <= free.size
    ensures LaidUpTo(pre, region, pending, i + 1,
      head + [Extent(free.offset, pending[i].size, Some(pending[i].key))], Left(free, pending[i].size))
  {
    hide Slid, Rest;
    FrontSlice(pending, i);
  }

  lemma {:induction false} LaidEnd(pre: seq<Extent>, region: seq<Extent>, pending: seq<Object>, head: seq<Extent>, free: Option<Extent>)
    requires LaidUpTo(pre, region, pending, |pending|, head, free)
    ensures head + Maybe(free) == pre + Filled(region, pending)
  {
    assert pending[..|pending|] == pending;
  }

  lemma {:induction false} PackingRoom(
    es: seq<Extent>, index: map<PoolKey, Extent>, capacity: nat, head: seq<Extent>, free: Option<Extent>, post: seq<Extent>,
    room: nat, already: seq<Object>, keys: set<PoolKey>, pending: seq<Object>, i: nat)
    requires Packing(es, index, capacity, head, free, post, room, already, keys, pending, i)
    requires i < |pending| && SumSizes(pending) <= room && Addable(pending, keys)
    ensures free.Some? && Filling(es, head, free, post, free.value.size)
    ensures 0 < pending[i].size <= free.value.size && pending[i].key !in index
  {
    AddableRest(pending, keys, i);
  }

  lemma {:induction false} PackingStep(
    es: seq<Extent>, index: map<PoolKey, Extent>, capacity: nat, head: seq<Extent>, free: Extent, post: seq<Extent>,
    room: nat, already: seq<Object>, keys: set<PoolKey>, pending: seq<Object>, i: nat,
    next: seq<Extent>, left: Option<Extent>)
    requires Packing(es, index, capacity, head, Some(free), post, room, already, keys, pending, i)
    requires i < |pending| && SumSizes(pending) <= room && Addable(pending, keys)
    requires var placed := Extent(free.offset, pending[i].size, Some(pending[i].key));
      && 0 < pending[i].size <= free.size
      && Sound(next, index[pending[i].key := placed], capacity)
      && Filling(next, head + [placed], left, post, free.size - pending[i].size)
    ensures var placed := Extent(free.offset, pending[i].size, Some(pending[i].key));
      Packing(next, index[pending[i].key := placed], capacity, head + [placed], left, post, room, already, keys, pending, i + 1)
  {
    AddableRest(pending, keys, i);
    Snoc(head, Extent(free.offset, pending[i].size, Some(pending[i].key)));
    assert pending[..i + 1] == pending[..i] + [pending[i]];
  }

  lemma {:induction false} PackingEnd(
    es: seq<Extent>, index: map<PoolKey, Extent>, capacity: nat, head: seq<Extent>, free: Option<Extent>, post: seq<Extent>,
    room: nat, already: seq<Object>, keys: set<PoolKey>, pending: seq<Object>)
    requires Packing(es, index, capacity, head, free, post, room, already, keys, pending, |pending|)
    ensures var whole := if free.Some? then head + [free.value] else head;
      && es == whole + post && Objects(whole) == already + pending && index.Keys == keys + KeySet(pending)
  {
    assert pending[..|pending|] == pending;
    if free.Some? {
      FreeSnoc(head, free.value);
    }
  }

  lemma {:induction false} PackingStart(pre: seq<Extent>, region: seq<Extent>, post: seq<Extent>, capacity: nat, pending: seq<Object>)
    requires Sound(pre + region + post, IndexOf(pre + region + post), capacity)
    requires region != [] && region[0].key.None?
    ensures var es := pre + Merged(region) + post;
      && Moved(region, region[0].offset) == UsedBytes(region)
      && Packing(es, IndexOf(es), capacity, pre + Slid(region), Some(Rest(region)), post, FreeBytes(region),
                 Objects(pre) + Objects(region), IndexOf(pre + region + post).Keys, pending, 0)
  {
    var es := pre + Merged(region) + post;
    MergeSound(pre, region, post, capacity);
    assert pending[..0] == [];
    assert es == pre + Slid(region) + [Rest(region)] + post;
    AppendObjects(pre, Slid(region));
    IndexKeys(es);
    IndexKeys(pre + region + post);
  }

  /** Requests can be added in any order. */
  lemma {:induction false} AddablePermutation(a: seq<Object>, b: seq<Object>, keys: set<PoolKey>)
    requires Addable(a, keys) && multiset(a) == multiset(b)
    ensures Addable(b, keys) && KeySet(b) == KeySet(a) && SumSizes(b) == SumSizes(a)
  {
    PermutationFacts(a, b);
    forall i | 0 <= i < |b| ensures b[i].size > 0 {
      assert b[i] in multiset(b);
      assert b[i] in multiset(a);
      var j :| 0 <= j < |a| && a[j] == b[i];
    }
  }

  method FindStretch(es: seq<Extent>, first: Extent, last: Extent, ghost i: nat, ghost j: nat) returns (start: nat, end: nat)
    requires Tiles(es, 0) && i < |es| && j < |es| && es[i] == first && es[j] == last
    ensures start == i && end == j
  {
    start := FindExtent(es, first);
    end := FindExtent(es, last);
    OnlyOnce(es, start, i);
    OnlyOnce(es, end, j);
  }

  method MergeStretch(region: seq<Extent>) returns (merged: seq<Extent>, free: Extent, moved: nat)
    requires region != []
    ensures merged == Merged(region) && free == Rest(region) && moved == Moved(region, region[0].offset)
  {
    var packed, cursor;
    packed, cursor, moved := PackFrom(region, region[0].offset);
    free := Extent(cursor, FreeBytes(region), None);
    merged := packed + [free];
  }

  // ------------------------------------------------ the pool after packing

  /** Objects side by side from an address on. */
  function Laid(offset: nat, objs: seq<Object>): seq<Extent> {
    if objs == [] then []
    else Laid(offset, Front(objs)) + [Extent(offset + SumSizes(Front(objs)), Last(objs).size, Some(Last(objs).key))]
  }

  /** What is left of a merged free end. */
  function LeftOver(rest: Extent, used: nat): Option<Extent> {
    if used < rest.size then Some(Extent(rest.offset + used, rest.size - used, None)) else None
  }

  function Maybe(e: Option<Extent>): seq<Extent> {
    if e.None? then [] else [e.value]
  }

  /** A stretch after merging it and placing requests into its free end. */
  function Filled(region: seq<Extent>, pending: seq<Object>): seq<Extent>
    requires region != []
  {
    Slid(region) + Laid(Rest(region).offset, pending) + Maybe(LeftOver(Rest(region), SumSizes(pending)))
  }

  /** A partition without requests stays as it is. */
  function Fill(region: seq<Extent>, pending: seq<Object>): seq<Extent>
    requires region != []
  {
    if pending == [] then region else Filled(region, pending)
  }

  function FillMoves(region: seq<Extent>, pending: seq<Object>): nat {
    if pending == [] then 0 else UsedBytes(region)
  }

  /** The position behind the `n`-th free extent. */
  function FreesEnd(es: seq<Extent>, n: nat): nat {
    if n == 0 || es == [] then 0 else 1 + FreesEnd(es[1..], if es[0].key.None? then n - 1 else n)
  }

  lemma {:induction false} FreesEndBound(es: seq<Extent>, n: nat)
    ensures FreesEnd(es, n) <= |es|
  {
    if n > 0 && es != [] {
      FreesEndBound(es[1..], if es[0].key.None? then n - 1 else n);
    }
  }

  /** The stretches of the partitions filled one after the other, in address order. */
  ghost function FilledPool(es: seq<Extent>, groups: seq<Partition>): seq<Extent>
    decreases |groups|
  {
    var i, j := FirstFreeAt(es), if groups == [] then 0 else FreesEnd(es, |groups[0].frees|);
    if groups == [] || !(i < j <= |es|) then es
    else es[..i] + (Fill(es[i..j], groups[0].pending) + FilledPool(es[j..], groups[1..]))
  }

  ghost function FilledMoves(es: seq<Extent>, groups: seq<Partition>): nat
    decreases |groups|
  {
    var i, j := FirstFreeAt(es), if groups == [] then 0 else FreesEnd(es, |groups[0].frees|);
    if groups == [] || !(i < j <= |es|) then 0
    else FillMoves(es[i..j], groups[0].pending) + FilledMoves(es[j..], groups[1..])
  }

  /** Behind a gap without free extents, a region ends at its last free extent. */
  lemma {:induction false} RegionEnd(gap: seq<Extent>, region: seq<Extent>, later: seq<Extent>)
    requires FreeExtents(gap) == [] && region != [] && Last(region).key.None?
    ensures FreesEnd(gap + region + later, |FreeExtents(region)|) == |gap| + |region|
  {
    var es := gap + region + later;
    if gap != [] {
      FirstKeyed(gap);
      assert gap == [gap[0]] + gap[1..];
      FreeExtentsAppend([gap[0]], gap[1..]);
      assert es[1..] == gap[1..] + region + later;
      RegionEnd(gap[1..], region, later);
      LastIsFree(region);
    } else {
      assert es == region + later && es[1..] == region[1..] + later;
      assert region == [region[0]] + region[1..];
      FreeExtentsAppend([region[0]], region[1..]);
      Snoc([], region[0]);
      LastIsFree(region);
      if |region| > 1 {
        assert es[1..] == [] + region[1..] + later;
        RegionEnd([], region[1..], later);
      } else {
        assert FreeExtents(region[1..]) == [];
      }
    }
  }

  lemma {:induction false} LastIsFree(region: seq<Extent>)
    requires region != [] && Last(region).key.None?
    ensures FreeExtents(region) != []
  {
  }

  /** The next partition filled, and the rest of the pool behind it. */
  lemma {:induction false} FilledNext(
    rest: seq<Extent>, groups: seq<Partition>, gap: seq<Extent>, region: seq<Extent>, later: seq<Extent>)
    requires groups != [] && rest == gap + region + later && region != []
    requires FreeExtents(gap) == [] && FreeExtents(region) == groups[0].frees
    requires region[0].key.None? && Last(region).key.None?
    ensures FilledPool(rest, groups) == gap + (Fill(region, groups[0].pending) + FilledPool(later, groups[1..]))
    ensures FilledMoves(rest, groups) == FillMoves(region, groups[0].pending) + FilledMoves(later, groups[1..])
  {
    hide Fill, FillMoves, FreesEnd;
    assert rest == gap + [region[0]] + (region[1..] + later);
    FirstFreeIs(gap, region[0], region[1..] + later);
    RegionEnd(gap, region, later);
    assert rest[..|gap|] == gap && rest[|gap|..|gap| + |region|] == region && rest[|gap| + |region|..] == later;
  }

  lemma {:induction false} FirstFrees(groups: seq<Partition>)
    requires groups != [] && EachFits(groups)
    ensures AllFrees(groups) == groups[0].frees + AllFrees(groups[1..]) && groups[0].frees != []
  {
    var g := groups[0];
    assert groups == [g] + groups[1..];
    AllFreesAppend([g], groups[1..]);
    OneFrees(g);
    Snoc([], g);
  }

  /** Extents before the first free one stay as they are. */
  lemma {:induction false} FilledBehind(lead: seq<Extent>, rest: seq<Extent>, groups: seq<Partition>)
    requires groups != [] && FreeExtents(lead) == [] && FreeExtents(rest) == AllFrees(groups) && EachFits(groups)
    ensures FilledPool(lead + rest, groups) == lead + FilledPool(rest, groups)
    ensures FilledMoves(lead + rest, groups) == FilledMoves(rest, groups)
  {
    hide Fill, FillMoves, FilledPool, FilledMoves, FreeExtents, AllFrees, EachFits;
    FirstFrees(groups);
    var gap, region, later := RegionOf(rest, groups[0].frees, AllFrees(groups[1..]));
    FreeExtentsAppend(lead, gap);
    FilledNext(rest, groups, gap, region, later);
    assert lead + rest == (lead + gap) + region + later;
    FilledNext(lead + rest, groups, lead + gap, region, later);
    Reassociate(lead, gap, Fill(region, groups[0].pending) + FilledPool(later, groups[1..]));
  }

  /** Filling starts behind the extents before the first free one. */
  lemma {:induction false} FilledStart(
    es: seq<Extent>, index: map<PoolKey, Extent>, capacity: nat, lead: seq<Extent>, rest: seq<Extent>,
    groups: seq<Partition>, requests: seq<Object>)
    requires Placing(es, es, index, capacity, lead, [], lead, rest, groups, 0, requests)
    ensures lead + FilledPool(rest, groups[0..]) == FilledPool(es, groups)
    ensures FilledMoves(rest, groups[0..]) == FilledMoves(es, groups)
  {
    hide Sound, FilledPool, FilledMoves, FreeExtents, AllFrees, EachFits, Contents;
    assert groups[0..] == groups;
    FilledBehind(lead, rest, groups);
  }

  /** One partition further. */
  lemma {:induction false} FilledOn(
    head: seq<Extent>, rest: seq<Extent>, groups: seq<Partition>, i: nat,
    gap: seq<Extent>, region: seq<Extent>, later: seq<Extent>)
    requires i < |groups| && NextRegion(rest, groups[i].frees, AllFrees(groups[i + 1..]), gap, region, later)
    ensures (head + gap + Fill(region, groups[i].pending)) + FilledPool(later, groups[i + 1..]) == head + FilledPool(rest, groups[i..])
    ensures FillMoves(region, groups[i].pending) + FilledMoves(later, groups[i + 1..]) == FilledMoves(rest, groups[i..])
  {
    hide Fill, FillMoves, FilledPool, FilledMoves, FreeExtents, AllFrees;
    assert groups[i..][1..] == groups[i + 1..];
    FilledNext(rest, groups[i..], gap, region, later);
    var filled, others := Fill(region, groups[i].pending), FilledPool(later, groups[i + 1..]);
    assert (head + gap + filled) + others == head + (gap + (filled + others));
  }

  lemma {:induction false} FilledEnd(head: seq<Extent>, rest: seq<Extent>, groups: seq<Partition>)
    ensures head + FilledPool(rest, groups[|groups|..]) == head + rest && FilledMoves(rest, groups[|groups|..]) == 0
  {
  }

  lemma {:induction false} Reassociate(a: seq<Extent>, b: seq<Extent>, c: seq<Extent>)
    ensures (a + b) + c == a + (b + c)
  {
  }

  /** The pool `_pack_requests` leaves, and the bytes it moves. */
  ghost function PackedPool(es: seq<Extent>, requests: seq<Object>): seq<Extent> {
    FilledPool(es, Partitions(es, BySize(requests)))
  }

  ghost function PackedMoves(es: seq<Extent>, requests: seq<Object>): nat {
    FilledMoves(es, Partitions(es, BySize(requests)))
  }

  // ------------------------------------------- packing all the partitions

  lemma {:induction false} PositiveSum(objs: seq<Object>)
    requires objs != [] && AllPositive(objs)
    ensures SumSizes(objs) > 0
  {
    assert Last(objs) == objs[|objs| - 1];
  }

  lemma {:induction false} AllPendingAppend(a: seq<Partition>, b: seq<Partition>)
    ensures AllPending(a + b) == AllPending(a) + AllPending(b)
  {
    if b == [] {
      assert a + b == a;
    } else {
      FrontAppend(a, b);
      AllPendingAppend(a, Front(b));
      assert AllPending(a) + (AllPending(Front(b)) + Last(b).pending) == (AllPending(a) + AllPending(Front(b))) + Last(b).pending;
    }
  }

  /** The partitions before, at and after position `i`. */
  lemma {:induction false} AllAround(groups: seq<Partition>, i: nat)
    requires i < |groups|
    ensures AllFrees(groups[i..]) == groups[i].frees + AllFrees(groups[i + 1..])
    ensures AllPending(groups) == AllPending(groups[..i]) + groups[i].pending + AllPending(groups[i + 1..])
    ensures AllPending(groups[..i + 1]) == AllPending(groups[..i]) + groups[i].pending
    ensures EachFits(groups) ==> PartitionFits(groups[i])
  {
    assert groups[i..] == [groups[i]] + groups[i + 1..];
    AllFreesAppend([groups[i]], groups[i + 1..]);
    AllPendingAppend([groups[i]], groups[i + 1..]);
    Snoc([], groups[i]);
    assert AllFrees([groups[i]]) == groups[i].frees && AllPending([groups[i]]) == groups[i].pending;
    FrontSlice(groups, i);
    assert groups == groups[..i + 1] + groups[i + 1..];
    AllFreesAppend(groups[..i + 1], groups[i + 1..]);
    AllPendingAppend(groups[..i + 1], groups[i + 1..]);
  }

  lemma {:induction false} AddableMiddle(a: seq<Object>, b: seq<Object>, c: seq<Object>, keys: set<PoolKey>)
    requires Addable(a + b + c, keys)
    ensures Addable(b, keys + KeySet(a)) && KeySet(b) <= KeySet(a + b + c)
  {
    ObjectsAppend(a + b, c, {});
    ObjectsAppend(a, b, {});
    forall i | 0 <= i < |b| ensures b[i].size > 0 {
      assert b[i] == (a + b + c)[|a| + i];
    }
  }

  lemma {:induction false} WithoutAll(objs: seq<Object>, ks: set<PoolKey>)
    requires KeySet(objs) <= ks
    ensures Without(objs, ks) == []
  {
    if objs != [] {
      WithoutAll(Front(objs), ks);
    }
  }

  /** Old objects stay, new ones join behind them. */
  lemma {:induction false} ObjectsStep(
    held: seq<Object>, original: seq<Object>, placed: seq<Object>, more: seq<Object>, pending: seq<Object>, ks: set<PoolKey>)
    requires Without(held, ks) == original && multiset(held) == multiset(original) + multiset(placed)
    requires KeySet(more) !! ks && KeySet(pending) <= ks
    ensures Without(held + more + pending, ks) == original + more
    ensures multiset(held + more + pending) == multiset(original + more) + multiset(placed + pending)
  {
    ObjectsAppend(held + more, pending, ks);
    ObjectsAppend(held, more, ks);
    WithoutNone(more, ks);
    WithoutAll(pending, ks);
  }

  /** `head` stands where `lead + done` stood; `rest`, with these free extents, is
      untouched; `done` runs from the first free extent to a free extent. */
  ghost predicate Layout(
    es0: seq<Extent>, es: seq<Extent>, lead: seq<Extent>, done: seq<Extent>, head: seq<Extent>, rest: seq<Extent>, frees: seq<Extent>)
  {
    && es0 == lead + done + rest && es == head + rest
    && FreeExtents(lead) == [] && FreeExtents(rest) == frees
    && (done == [] ==> rest != [] && rest[0].key.None?)
    && (done != [] ==> done[0].key.None? && Last(done).key.None?)
  }

  /** `held` is `original` with the `placed` requests, which are among `ks`, added. */
  ghost predicate Contents(held: seq<Object>, original: seq<Object>, placed: seq<Object>, ks: set<PoolKey>) {
    Without(held, ks) == original && multiset(held) == multiset(original) + multiset(placed)
  }

  /** The partitions carry all the requests and have room for them. */
  ghost predicate Divided(groups: seq<Partition>, requests: seq<Object>, keys: set<PoolKey>) {
    && groups != [] && EachFits(groups) && Addable(AllPending(groups), keys)
    && KeySet(AllPending(groups)) == KeySet(requests) && multiset(AllPending(groups)) == multiset(requests)
  }

  /** The first `i` partitions are packed. */
  ghost predicate Placing(
    es0: seq<Extent>, es: seq<Extent>, index: map<PoolKey, Extent>, capacity: nat,
    lead: seq<Extent>, done: seq<Extent>, head: seq<Extent>, rest: seq<Extent>,
    groups: seq<Partition>, i: nat, requests: seq<Object>)
  {
    && i <= |groups| && Divided(groups, requests, IndexOf(es0).Keys)
    && Sound(es0, IndexOf(es0), capacity) && Sound(es, index, capacity)
    && Layout(es0, es, lead, done, head, rest, AllFrees(groups[i..])) && (done == [] ==> i == 0)
    && Contents(Objects(head), Objects(lead + done), AllPending(groups[..i]), KeySet(requests))
    && index.Keys == IndexOf(es0).Keys + KeySet(AllPending(groups[..i]))
  }

  lemma {:induction false} PlacingStart(es0: seq<Extent>, capacity: nat, groups: seq<Partition>, requests: seq<Object>)
    returns (lead: seq<Extent>, rest: seq<Extent>)
    requires Sound(es0, IndexOf(es0), capacity) && Divided(groups, requests, IndexOf(es0).Keys)
    requires AllFrees(groups) == FreeExtents(es0) != []
    ensures Placing(es0, es0, IndexOf(es0), capacity, lead, [], lead, rest, groups, 0, requests)
  {
    lead, rest := LayoutStart(es0);
    assert groups[0..] == groups && groups[..0] == [];
    ContentsStart(es0, lead, rest, KeySet(requests));
  }

  lemma {:induction false} LayoutStart(es0: seq<Extent>) returns (lead: seq<Extent>, rest: seq<Extent>)
    requires FreeExtents(es0) != []
    ensures Layout(es0, es0, lead, [], lead, rest, FreeExtents(es0))
  {
    var k := FirstFree(es0);
    lead, rest := es0[..k], es0[k..];
    assert es0 == lead + rest;
    FreeExtentsAppend(lead, rest);
    assert lead + [] == lead;
  }

  lemma {:induction false} ContentsStart(es0: seq<Extent>, lead: seq<Extent>, rest: seq<Extent>, ks: set<PoolKey>)
    requires es0 == lead + [] + rest && IndexOf(es0).Keys !! ks
    ensures Contents(Objects(lead), Objects(lead + []), [], ks)
  {
    assert lead + [] == lead && [] + lead == lead;
    OldKeys(es0, [], lead, rest);
    WithoutNone(Objects(lead), ks);
  }

  lemma {:induction false} SomeFree(groups: seq<Partition>, requests: seq<Object>)
    requires EachFits(groups) && multiset(AllPending(groups)) == multiset(requests) && requests != []
    ensures groups != [] && AllFrees(groups) != []
  {
    assert requests[0] in multiset(requests);
    if groups != [] {
      assert PartitionFits(Last(groups));
    }
  }

  /** Where the next partition lies, and that it has room. */
  lemma {:induction false} PlacingNext(
    es0: seq<Extent>, es: seq<Extent>, index: map<PoolKey, Extent>, capacity: nat,
    lead: seq<Extent>, done: seq<Extent>, head: seq<Extent>, rest: seq<Extent>,
    groups: seq<Partition>, i: nat, requests: seq<Object>)
    returns (gap: seq<Extent>, region: seq<Extent>, later: seq<Extent>)
    requires Placing(es0, es, index, capacity, lead, done, head, rest, groups, i, requests) && i < |groups|
    ensures es == head + gap + region + later && region != [] && groups[i].frees != []
    ensures NextRegion(rest, groups[i].frees, AllFrees(groups[i + 1..]), gap, region, later)
    ensures done == [] ==> gap == []
    ensures SumSizes(groups[i].pending) <= FreeBytes(region)
    ensures Addable(groups[i].pending, index.Keys)
  {
    AllAround(groups, i);
    gap, region, later := NextLayout(es0, es, lead, done, head, rest, groups[i].frees, AllFrees(groups[i + 1..]));
    AddableMiddle(AllPending(groups[..i]), groups[i].pending, AllPending(groups[i + 1..]), IndexOf(es0).Keys);
  }

  ghost predicate NextRegion(
    rest: seq<Extent>, frees: seq<Extent>, others: seq<Extent>, gap: seq<Extent>, region: seq<Extent>, later: seq<Extent>)
  {
    && rest == gap + region + later && region != [] && frees != []
    && FreeExtents(gap) == [] && FreeExtents(region) == frees && FreeExtents(later) == others
    && region[0] == frees[0] && Last(region) == Last(frees)
    && region[0].key.None? && Last(region).key.None?
  }

  lemma {:induction false} NextLayout(
    es0: seq<Extent>, es: seq<Extent>, lead: seq<Extent>, done: seq<Extent>, head: seq<Extent>, rest: seq<Extent>,
    frees: seq<Extent>, others: seq<Extent>)
    returns (gap: seq<Extent>, region: seq<Extent>, later: seq<Extent>)
    requires Layout(es0, es, lead, done, head, rest, frees + others) && frees != []
    ensures NextRegion(rest, frees, others, gap, region, later)
    ensures es == head + gap + region + later && FreeBytes(region) == Total(frees)
    ensures done == [] ==> gap == []
  {
    gap, region, later := RegionOf(rest, frees, others);
    FreeExtentsBytes(region);
    assert head + rest == head + gap + region + later;
    FirstKeyed(gap);
  }

  lemma {:induction false} LayoutStep(
    es0: seq<Extent>, es: seq<Extent>, lead: seq<Extent>, done: seq<Extent>, head: seq<Extent>, rest: seq<Extent>,
    frees: seq<Extent>, others: seq<Extent>, gap: seq<Extent>, region: seq<Extent>, later: seq<Extent>, whole: seq<Extent>)
    requires Layout(es0, es, lead, done, head, rest, frees + others)
    requires NextRegion(rest, frees, others, gap, region, later) && (done == [] ==> gap == [])
    ensures Layout(es0, whole + later, lead, done + gap + region, whole, later, others)
    ensures es0 == (lead + done) + (gap + region) + later
    ensures lead + (done + gap + region) == (lead + done) + (gap + region)
  {
  }

  lemma {:induction false} OldKeys(es0: seq<Extent>, before: seq<Extent>, part: seq<Extent>, after: seq<Extent>)
    requires es0 == before + part + after
    ensures KeySet(Objects(part)) <= IndexOf(es0).Keys
    ensures Objects(before + part) == Objects(before) + Objects(part)
  {
    ThreeObjects(before, part, after);
    AppendObjects(before, part);
    ObjectsAppend(Objects(before) + Objects(part), Objects(after), {});
    ObjectsAppend(Objects(before), Objects(part), {});
    IndexKeys(es0);
  }

  lemma {:induction false} KeysStep(groups: seq<Partition>, i: nat, requests: seq<Object>, keys: set<PoolKey>)
    requires Divided(groups, requests, keys) && i < |groups|
    ensures AllFrees(groups[i..]) == groups[i].frees + AllFrees(groups[i + 1..])
    ensures AllPending(groups[..i + 1]) == AllPending(groups[..i]) + groups[i].pending
    ensures KeySet(AllPending(groups[..i + 1])) == KeySet(AllPending(groups[..i])) + KeySet(groups[i].pending)
    ensures KeySet(groups[i].pending) <= KeySet(requests) && keys !! KeySet(requests)
  {
    AllAround(groups, i);
    AddableMiddle(AllPending(groups[..i]), groups[i].pending, AllPending(groups[i + 1..]), keys);
    ObjectsAppend(AllPending(groups[..i]), groups[i].pending, {});
  }

  lemma {:induction false} ContentsStep(
    es0: seq<Extent>, orig: seq<Extent>, head: seq<Extent>, gap: seq<Extent>, region: seq<Extent>, later: seq<Extent>,
    whole: seq<Extent>, placed: seq<Object>, pending: seq<Object>, ks: set<PoolKey>)
    requires es0 == orig + (gap + region) + later && IndexOf(es0).Keys !! ks && KeySet(pending) <= ks
    requires Contents(Objects(head), Objects(orig), placed, ks)
    requires Objects(whole) == Objects(head) + Objects(gap + region) + pending
    ensures Contents(Objects(whole), Objects(orig + (gap + region)), placed + pending, ks)
  {
    OldKeys(es0, orig, gap + region, later);
    ObjectsStep(Objects(head), Objects(orig), placed, Objects(gap + region), pending, ks);
  }

  lemma {:induction false} PlacingStep(
    es0: seq<Extent>, es: seq<Extent>, index: map<PoolKey, Extent>, capacity: nat,
    lead: seq<Extent>, done: seq<Extent>, head: seq<Extent>, rest: seq<Extent>,
    groups: seq<Partition>, i: nat, requests: seq<Object>,
    gap: seq<Extent>, region: seq<Extent>, later: seq<Extent>,
    whole: seq<Extent>, next: seq<Extent>, nextIndex: map<PoolKey, Extent>)
    requires Placing(es0, es, index, capacity, lead, done, head, rest, groups, i, requests) && i < |groups|
    requires NextRegion(rest, groups[i].frees, AllFrees(groups[i + 1..]), gap, region, later) && (done == [] ==> gap == [])
    requires Sound(next, nextIndex, capacity) && next == whole + later
    requires Objects(whole) == Objects(head) + Objects(gap + region) + groups[i].pending
    requires nextIndex.Keys == index.Keys + KeySet(groups[i].pending)
    ensures Placing(es0, next, nextIndex, capacity, lead, done + gap + region, whole, later, groups, i + 1, requests)
  {
    hide Sound, Layout, Contents, EachFits, Addable, AllFrees, AllPending, FreeExtents;
    var placed, pending := AllPending(groups[..i]), groups[i].pending;
    KeysStep(groups, i, requests, IndexOf(es0).Keys);
    LayoutStep(es0, es, lead, done, head, rest, groups[i].frees, AllFrees(groups[i + 1..]), gap, region, later, whole);
    ContentsStep(es0, lead + done, head, gap, region, later, whole, placed, pending, KeySet(requests));
  }

  lemma {:induction false} WholeObjects(head: seq<Extent>, gap: seq<Extent>, region: seq<Extent>, pending: seq<Object>, whole: seq<Extent>)
    requires Objects(whole) == Objects(head + gap) + Objects(region) + pending
    ensures Objects(whole) == Objects(head) + Objects(gap + region) + pending
  {
    AppendObjects(head, gap);
    AppendObjects(gap, region);
  }

  lemma {:induction false} DoneObjects(done: seq<Extent>, gap: seq<Extent>, region: seq<Extent>)
    requires region != []
    ensures UsedBytes(done + gap + region) == UsedBytes(done) + UsedBytes(gap) + UsedBytes(region)
  {
    ThreeObjects(done, gap, region);
    ObjectsAppend(Objects(done) + Objects(gap), Objects(region), {});
    ObjectsAppend(Objects(done), Objects(gap), {});
  }

  lemma {:induction false} PlacingEnd(
    es0: seq<Extent>, es: seq<Extent>, index: map<PoolKey, Extent>, capacity: nat,
    lead: seq<Extent>, done: seq<Extent>, head: seq<Extent>, rest: seq<Extent>,
    groups: seq<Partition>, requests: seq<Object>)
    requires Placing(es0, es, index, capacity, lead, done, head, rest, groups, |groups|, requests)
    ensures index.Keys == IndexOf(es0).Keys + KeySet(requests)
    ensures Without(Objects(es), KeySet(requests)) == Objects(es0)
    ensures multiset(Objects(es)) == multiset(Objects(es0)) + multiset(requests)
    ensures UsedBytes(done) == WholeMerge(es0) && es == head + rest && Sound(es, index, capacity)
  {
    assert groups[..|groups|] == groups && groups[|groups|..] == [];
    WholeMergeMoves(lead, done, rest);
    ContentsEnd(es0, lead + done, head, rest, AllPending(groups), KeySet(requests));
  }

  lemma {:induction false} ContentsEnd(
    es0: seq<Extent>, orig: seq<Extent>, head: seq<Extent>, rest: seq<Extent>, placed: seq<Object>, ks: set<PoolKey>)
    requires es0 == orig + rest && IndexOf(es0).Keys !! ks && Contents(Objects(head), Objects(orig), placed, ks)
    ensures Contents(Objects(head + rest), Objects(es0), placed, ks)
  {
    assert orig + rest + [] == es0;
    OldKeys(es0, orig, rest, []);
    AppendObjects(head, rest);
    ObjectsStep(Objects(head), Objects(orig), placed, Objects(rest), [], ks);
    assert placed + [] == placed;
    assert Objects(head) + Objects(rest) + [] == Objects(head + rest);
  }

  lemma {:induction false} RegionSlice(pre: seq<Extent>, region: seq<Extent>, post: seq<Extent>)
    requires region != []
    ensures var es := pre + region + post;
      && es[|pre|] == region[0] && es[|pre| + |region| - 1] == Last(region)
      && es[..|pre|] == pre && es[|pre|..|pre| + |region|] == region && es[|pre| + |region|..] == post
  {
  }

  lemma {:induction false} MergeSound(pre: seq<Extent>, region: seq<Extent>, post: seq<Extent>, capacity: nat)
    requires Sound(pre + region + post, IndexOf(pre + region + post), capacity)
    requires region != [] && region[0].key.None?
    ensures var es := pre + Merged(region) + post;
      && Sound(es, IndexOf(es), capacity) && Objects(es) == Objects(pre + region + post)
      && IndexOf(es).Keys == IndexOf(pre + region + post).Keys
    ensures Rest(region).size == FreeBytes(region) > 0
    ensures Objects(Slid(region)) == Objects(region)
    ensures Moved(region, region[0].offset) == UsedBytes(region)
  {
    RegionTiles(pre, region, post);
    MergedTile(region, Total(pre));
    EverythingMoves(region, Total(pre));
    Replaced(pre, region, Merged(region), post);
    ThreeObjects(pre, region, post);
    ThreeObjects(pre, Merged(region), post);
    IndexKeys(pre + region + post);
    IndexKeys(pre + Merged(region) + post);
  }
}
