/** Address-ordered extents of a segment pool: what they hold, how freeing,
    coalescing, packing and placing change them
    (evaluation/tensor_simulator/tensor_sim_segment_backend.py). */
module SegmentExtents {
  import opened Common

  /** Weights are keyed by model and group, KV blocks by a running number. */
  datatype PoolKey = Weight(group: GroupKey) | Kv(id: nat)

  datatype Extent = Extent(offset: nat, size: nat, key: Option<PoolKey>)

  /** An allocation without its address. */
  datatype Object = Object(key: PoolKey, size: nat)

  function Front<T>(s: seq<T>): seq<T>
    requires s != []
  {
    s[..|s| - 1]
  }

  function Last<T>(s: seq<T>): T
    requires s != []
  {
    s[|s| - 1]
  }

  lemma {:induction false} FrontAppend<T>(a: seq<T>, b: seq<T>)
    requires b != []
    ensures Front(a + b) == a + Front(b) && Last(a + b) == Last(b)
  {
  }

  lemma {:induction false} Snoc<T>(a: seq<T>, x: T)
    ensures Front(a + [x]) == a && Last(a + [x]) == x
  {
  }

  lemma {:induction false} Rejoin<T>(s: seq<T>)
    requires s != []
    ensures Front(s) + [Last(s)] == s
  {
  }

  lemma {:induction false} CutAt<T>(s: seq<T>, i: nat)
    requires i < |s|
    ensures s == s[..i] + ([s[i]] + s[i + 1..])
  {
  }

  lemma {:induction false} FrontSlice<T>(s: seq<T>, i: nat)
    requires i < |s|
    ensures Front(s[..i + 1]) == s[..i] && Last(s[..i + 1]) == s[i]
  {
  }

  // -------------------------------------------------------------- objects

  function SumSizes(objs: seq<Object>): nat {
    if objs == [] then 0 else SumSizes(Front(objs)) + Last(objs).size
  }

  function KeySet(objs: seq<Object>): set<PoolKey> {
    if objs == [] then {} else KeySet(Front(objs)) + {Last(objs).key}
  }

  ghost predicate DistinctKeys(objs: seq<Object>) {
    objs == [] || (DistinctKeys(Front(objs)) && Last(objs).key !in KeySet(Front(objs)))
  }

  /** The objects whose key is not in `ks`, in order. */
  function Without(objs: seq<Object>, ks: set<PoolKey>): seq<Object> {
    if objs == [] then []
    else if Last(objs).key in ks then Without(Front(objs), ks)
    else Without(Front(objs), ks) + [Last(objs)]
  }

  function BytesIn(objs: seq<Object>, ks: set<PoolKey>): nat {
    if objs == [] then 0
    else BytesIn(Front(objs), ks) + if Last(objs).key in ks then Last(objs).size else 0
  }

  lemma {:induction false} ObjectsAppend(a: seq<Object>, b: seq<Object>, ks: set<PoolKey>)
    ensures SumSizes(a + b) == SumSizes(a) + SumSizes(b)
    ensures KeySet(a + b) == KeySet(a) + KeySet(b)
    ensures Without(a + b, ks) == Without(a, ks) + Without(b, ks)
    ensures BytesIn(a + b, ks) == BytesIn(a, ks) + BytesIn(b, ks)
    ensures DistinctKeys(a + b) <==> DistinctKeys(a) && DistinctKeys(b) && KeySet(a) !! KeySet(b)
  {
    if b == [] {
      assert a + b == a;
    } else {
      FrontAppend(a, b);
      ObjectsAppend(a, Front(b), ks);
      assert KeySet(b) == KeySet(Front(b)) + {Last(b).key};
    }
  }

  /** Dropping keys takes their bytes and nothing else. */
  lemma {:induction false} WithoutFacts(objs: seq<Object>, ks: set<PoolKey>)
    ensures SumSizes(Without(objs, ks)) == SumSizes(objs) - BytesIn(objs, ks)
    ensures KeySet(Without(objs, ks)) == KeySet(objs) - ks
    ensures DistinctKeys(objs) ==> DistinctKeys(Without(objs, ks))
  {
    if objs != [] {
      WithoutFacts(Front(objs), ks);
      Snoc(Without(Front(objs), ks), Last(objs));
    }
  }

  lemma {:induction false} WithoutNone(objs: seq<Object>, ks: set<PoolKey>)
    requires ks !! KeySet(objs)
    ensures Without(objs, ks) == objs && BytesIn(objs, ks) == 0
  {
    if objs != [] {
      WithoutNone(Front(objs), ks);
      Rejoin(objs);
    }
  }

  lemma {:induction false} WithoutTwice(objs: seq<Object>, ks: set<PoolKey>, more: set<PoolKey>)
    ensures Without(Without(objs, ks), more) == Without(objs, ks + more)
    ensures BytesIn(objs, ks + more) == BytesIn(objs, ks) + BytesIn(Without(objs, ks), more)
  {
    if objs != [] {
      WithoutTwice(Front(objs), ks, more);
      Snoc(Without(Front(objs), ks), Last(objs));
    }
  }

  // -------------------------------------------------------------- extents

  function Total(es: seq<Extent>): nat {
    if es == [] then 0 else Total(Front(es)) + Last(es).size
  }

  function FreeBytes(es: seq<Extent>): nat {
    if es == [] then 0 else FreeBytes(Front(es)) + if Last(es).key.None? then Last(es).size else 0
  }

  /** What is allocated, in address order. */
  function Objects(es: seq<Extent>): seq<Object> {
    if es == [] then []
    else if Last(es).key.None? then Objects(Front(es))
    else Objects(Front(es)) + [Object(Last(es).key.value, Last(es).size)]
  }

  function UsedBytes(es: seq<Extent>): nat {
    SumSizes(Objects(es))
  }

  /** `{extent.key: extent}` over the allocated extents. */
  function IndexOf(es: seq<Extent>): map<PoolKey, Extent> {
    if es == [] then map[]
    else if Last(es).key.None? then IndexOf(Front(es))
    else IndexOf(Front(es))[Last(es).key.value := Last(es)]
  }

  /** Non-empty extents cover the addresses from `lo` on without gap or overlap. */
  ghost predicate Tiles(es: seq<Extent>, lo: nat) {
    es == [] || (Tiles(Front(es), lo) && Last(es).offset == lo + Total(Front(es)) && Last(es).size > 0)
  }

  /** The pool invariant: the extents tile the whole pool, no key is held twice, and
      the index is exactly what the extents say. */
  ghost predicate Sound(es: seq<Extent>, index: map<PoolKey, Extent>, capacity: nat) {
    Tiles(es, 0) && Total(es) == capacity && DistinctKeys(Objects(es)) && index == IndexOf(es)
  }

  lemma {:induction false} AppendTotals(a: seq<Extent>, b: seq<Extent>)
    ensures Total(a + b) == Total(a) + Total(b)
    ensures FreeBytes(a + b) == FreeBytes(a) + FreeBytes(b)
  {
    if b == [] {
      assert a + b == a;
    } else {
      FrontAppend(a, b);
      AppendTotals(a, Front(b));
    }
  }

  lemma {:induction false} AppendObjects(a: seq<Extent>, b: seq<Extent>)
    ensures Objects(a + b) == Objects(a) + Objects(b)
    ensures IndexOf(a + b) == IndexOf(a) + IndexOf(b)
  {
    if b == [] {
      assert a + b == a;
    } else {
      FrontAppend(a, b);
      AppendObjects(a, Front(b));
    }
  }

  lemma {:induction false} TilesSnoc(es: seq<Extent>, e: Extent, lo: nat)
    ensures Tiles(es + [e], lo) <==> Tiles(es, lo) && e.offset == lo + Total(es) && e.size > 0
    ensures Total(es + [e]) == Total(es) + e.size
  {
    Snoc(es, e);
  }

  lemma {:induction false} TilesOne(e: Extent, lo: nat)
    ensures Tiles([e], lo) <==> e.offset == lo && e.size > 0
    ensures Total([e]) == e.size
    ensures FreeBytes([e]) == if e.key.None? then e.size else 0
  {
    Snoc([], e);
  }

  lemma {:induction false} AppendTiles(a: seq<Extent>, b: seq<Extent>, lo: nat)
    ensures Tiles(a + b, lo) <==> Tiles(a, lo) && Tiles(b, lo + Total(a))
  {
    if b == [] {
      assert a + b == a;
    } else {
      FrontAppend(a, b);
      AppendTiles(a, Front(b), lo);
      AppendTotals(a, Front(b));
    }
  }

  lemma {:induction false} Append(a: seq<Extent>, b: seq<Extent>, lo: nat)
    ensures Total(a + b) == Total(a) + Total(b)
    ensures FreeBytes(a + b) == FreeBytes(a) + FreeBytes(b)
    ensures Objects(a + b) == Objects(a) + Objects(b)
    ensures IndexOf(a + b) == IndexOf(a) + IndexOf(b)
    ensures Tiles(a + b, lo) <==> Tiles(a, lo) && Tiles(b, lo + Total(a))
  {
    AppendTotals(a, b);
    AppendObjects(a, b);
    AppendTiles(a, b, lo);
  }

  lemma {:induction false} IndexKeys(es: seq<Extent>)
    ensures IndexOf(es).Keys == KeySet(Objects(es))
  {
    if es != [] {
      IndexKeys(Front(es));
      if Last(es).key.Some? {
        Snoc(Objects(Front(es)), Object(Last(es).key.value, Last(es).size));
      }
    }
  }

  /** Used and free bytes add up. */
  lemma {:induction false} UsedPlusFree(es: seq<Extent>)
    ensures UsedBytes(es) + FreeBytes(es) == Total(es)
  {
    if es != [] {
      UsedPlusFree(Front(es));
      if Last(es).key.Some? {
        Snoc(Objects(Front(es)), Object(Last(es).key.value, Last(es).size));
      }
    }
  }

  /** The index gives every key's extent and size. */
  lemma {:induction false} IndexedSize(es: seq<Extent>, lo: nat, k: PoolKey)
    requires Tiles(es, lo) && DistinctKeys(Objects(es)) && k in IndexOf(es)
    ensures IndexOf(es)[k].key == Some(k) && IndexOf(es)[k].size > 0
    ensures BytesIn(Objects(es), {k}) == IndexOf(es)[k].size
    ensures IndexOf(es)[k] in es
  {
    var rest := Objects(Front(es));
    if Last(es).key == Some(k) {
      assert Front(Objects(es)) == rest;
      WithoutNone(rest, {k});
    } else {
      if Last(es).key.Some? {
        assert Front(Objects(es)) == rest;
      }
      IndexedSize(Front(es), lo, k);
    }
  }

  /** No two extents share an address. */
  lemma {:induction false} TilesOrdered(es: seq<Extent>, lo: nat, i: nat, j: nat)
    requires Tiles(es, lo) && i < j < |es|
    ensures lo <= es[i].offset && es[i].offset + es[i].size <= es[j].offset
    ensures es[j].offset + es[j].size <= lo + Total(es)
  {
    if j < |es| - 1 {
      TilesOrdered(Front(es), lo, i, j);
    } else {
      TilesWithin(Front(es), lo, i);
    }
  }

  lemma {:induction false} TilesWithin(es: seq<Extent>, lo: nat, i: nat)
    requires Tiles(es, lo) && i < |es|
    ensures lo <= es[i].offset && es[i].offset + es[i].size <= lo + Total(es) && es[i].size > 0
  {
    if i < |es| - 1 {
      TilesWithin(Front(es), lo, i);
    }
  }

  // -------------------------------------------------------------- freeing

  function Cleared(e: Extent, ks: set<PoolKey>): Extent {
    if e.key.Some? && e.key.value in ks then e.(key := None) else e
  }

  /** The extents with the given keys become free where they are. */
  function MarkFree(es: seq<Extent>, ks: set<PoolKey>): seq<Extent> {
    if es == [] then [] else MarkFree(Front(es), ks) + [Cleared(Last(es), ks)]
  }

  lemma {:induction false} MarkFreeFacts(es: seq<Extent>, ks: set<PoolKey>, lo: nat)
    ensures Total(MarkFree(es, ks)) == Total(es)
    ensures Objects(MarkFree(es, ks)) == Without(Objects(es), ks)
    ensures IndexOf(MarkFree(es, ks)) == IndexOf(es) - ks
    ensures Tiles(es, lo) ==> Tiles(MarkFree(es, ks), lo)
    ensures |MarkFree(es, ks)| == |es|
  {
    if es != [] {
      MarkFreeFacts(Front(es), ks, lo);
      Snoc(MarkFree(Front(es), ks), Cleared(Last(es), ks));
      if Last(es).key.Some? {
        Snoc(Objects(Front(es)), Object(Last(es).key.value, Last(es).size));
      }
    }
  }

  lemma {:induction false} MarkFreeTwice(es: seq<Extent>, ks: set<PoolKey>, more: set<PoolKey>)
    ensures MarkFree(MarkFree(es, ks), more) == MarkFree(es, ks + more)
  {
    if es != [] {
      MarkFreeTwice(Front(es), ks, more);
      Snoc(MarkFree(Front(es), ks), Cleared(Last(es), ks));
    }
  }

  lemma {:induction false} MarkNothing(es: seq<Extent>, ks: set<PoolKey>)
    requires ks !! IndexOf(es).Keys
    ensures MarkFree(es, ks) == es
  {
    if es != [] {
      MarkNothing(Front(es), ks);
      Rejoin(es);
    }
  }

  // ------------------------------------------------------------ coalescing

  /** Append an extent, merging it into a free last one when it is free itself. */
  function Push(r: seq<Extent>, e: Extent): seq<Extent> {
    if r != [] && Last(r).key.None? && e.key.None?
    then Front(r) + [Last(r).(size := Last(r).size + e.size)]
    else r + [e]
  }

  function Coalesced(es: seq<Extent>): seq<Extent> {
    if es == [] then [] else Push(Coalesced(Front(es)), Last(es))
  }

  method Coalesce(extents: seq<Extent>) returns (result: seq<Extent>)
    ensures result == Coalesced(extents)
  {
    result := [];
    for i := 0 to |extents|
      invariant result == Coalesced(extents[..i])
    {
      var extent := extents[i];
      FrontSlice(extents, i);
      if result != [] && Last(result).key.None? && extent.key.None? {
        result := result[|result| - 1 := Last(result).(size := Last(result).size + extent.size)];
      } else {
        result := result + [extent];
      }
    }
    assert extents[..|extents|] == extents;
  }

  lemma {:induction false} PushFacts(r: seq<Extent>, e: Extent, lo: nat)
    ensures Total(Push(r, e)) == Total(r + [e]) && FreeBytes(Push(r, e)) == FreeBytes(r + [e])
    ensures Objects(Push(r, e)) == Objects(r + [e])
    ensures IndexOf(Push(r, e)) == IndexOf(r + [e])
    ensures Tiles(r + [e], lo) ==> Tiles(Push(r, e), lo)
  {
    if r != [] && Last(r).key.None? && e.key.None? {
      MergedFacts(Front(r), Last(r), e, lo);
      Rejoin(r);
    }
  }

  lemma {:induction false} MergedFacts(r: seq<Extent>, f: Extent, e: Extent, lo: nat)
    requires f.key.None? && e.key.None?
    ensures var apart, merged := r + [f] + [e], r + [f.(size := f.size + e.size)];
      && Total(merged) == Total(apart) && FreeBytes(merged) == FreeBytes(apart)
      && Objects(merged) == Objects(apart) && IndexOf(merged) == IndexOf(apart)
      && (Tiles(apart, lo) ==> Tiles(merged, lo))
  {
    var merged := f.(size := f.size + e.size);
    FreeSnoc(r, f);
    FreeSnoc(r + [f], e);
    FreeSnoc(r, merged);
    TilesSnoc(r, f, lo);
    TilesSnoc(r + [f], e, lo);
    TilesSnoc(r, merged, lo);
  }

  lemma {:induction false} FreeSnoc(r: seq<Extent>, e: Extent)
    requires e.key.None?
    ensures Objects(r + [e]) == Objects(r) && IndexOf(r + [e]) == IndexOf(r)
    ensures FreeBytes(r + [e]) == FreeBytes(r) + e.size
  {
    Snoc(r, e);
  }

  /** Coalescing changes no allocation and keeps the tiling. */
  lemma {:induction false} CoalescedFacts(es: seq<Extent>, lo: nat)
    ensures Total(Coalesced(es)) == Total(es) && FreeBytes(Coalesced(es)) == FreeBytes(es)
    ensures Objects(Coalesced(es)) == Objects(es)
    ensures IndexOf(Coalesced(es)) == IndexOf(es)
    ensures Tiles(es, lo) ==> Tiles(Coalesced(es), lo)
  {
    if es != [] {
      CoalescedFacts(Front(es), lo);
      PushFacts(Coalesced(Front(es)), Last(es), lo);
      Snoc(Coalesced(Front(es)), Last(es));
    }
  }

  ghost predicate Separated(es: seq<Extent>) {
    forall i, j :: 0 <= i < j < |es| && j == i + 1 ==> es[i].key.Some? || es[j].key.Some?
  }

  /** No two free extents stay next to each other. */
  lemma {:induction false} CoalescedSeparates(es: seq<Extent>)
    ensures Separated(Coalesced(es))
  {
    if es != [] {
      CoalescedSeparates(Front(es));
    }
  }

  lemma {:induction false} PushPush(r: seq<Extent>, f: Extent, e: Extent)
    requires f.key.None? && e.key.None?
    ensures Push(Push(r, f), e) == Push(r, f.(size := f.size + e.size))
  {
  }

  lemma {:induction false} CoalescedSnoc(es: seq<Extent>, e: Extent)
    ensures Coalesced(es + [e]) == Push(Coalesced(es), e)
  {
    Snoc(es, e);
  }

  lemma {:induction false} CoalescedMark(es: seq<Extent>, e: Extent, ks: set<PoolKey>)
    ensures Coalesced(MarkFree(es + [e], ks)) == Push(Coalesced(MarkFree(es, ks)), Cleared(e, ks))
  {
    Snoc(es, e);
    CoalescedSnoc(MarkFree(es, ks), Cleared(e, ks));
  }

  /** Coalescing early or late makes no difference: the pool after any evictions is
      determined by which keys were evicted, not by when it was coalesced. */
  lemma {:induction false} CoalesceLate(es: seq<Extent>, ks: set<PoolKey>)
    ensures Coalesced(MarkFree(Coalesced(es), ks)) == Coalesced(MarkFree(es, ks))
  {
    if es != [] {
      CoalesceLate(Front(es), ks);
      CoalescedSnoc(MarkFree(Front(es), ks), Cleared(Last(es), ks));
      MarkedPush(Coalesced(Front(es)), Last(es), ks);
    }
  }

  lemma {:induction false} MarkedPush(r: seq<Extent>, e: Extent, ks: set<PoolKey>)
    ensures Coalesced(MarkFree(Push(r, e), ks)) == Push(Coalesced(MarkFree(r, ks)), Cleared(e, ks))
  {
    if r != [] && Last(r).key.None? && e.key.None? {
      MergedMark(Front(r), Last(r), e, ks);
      Rejoin(r);
    } else {
      CoalescedMark(r, e, ks);
    }
  }

  lemma {:induction false} MergedMark(r: seq<Extent>, f: Extent, e: Extent, ks: set<PoolKey>)
    requires f.key.None? && e.key.None?
    ensures Coalesced(MarkFree(r + [f.(size := f.size + e.size)], ks)) == Push(Coalesced(MarkFree(r + [f], ks)), e)
  {
    CoalescedMark(r, f.(size := f.size + e.size), ks);
    CoalescedMark(r, f, ks);
    PushPush(Coalesced(MarkFree(r, ks)), f, e);
  }

  // --------------------------------------------------------------- packing

  /** The allocated extents moved together from `lo` on, in the same order. */
  function Packed(es: seq<Extent>, lo: nat): seq<Extent> {
    if es == [] then []
    else if Last(es).key.None? then Packed(Front(es), lo)
    else Packed(Front(es), lo) + [Extent(lo + UsedBytes(Front(es)), Last(es).size, Last(es).key)]
  }

  /** Bytes of the extents that packing gives a new address. */
  function Moved(es: seq<Extent>, lo: nat): nat {
    if es == [] then 0
    else
      Moved(Front(es), lo)
      + if Last(es).key.Some? && Last(es).offset != lo + UsedBytes(Front(es)) then Last(es).size else 0
  }

  /** The keys that lie elsewhere afterwards. */
  function Relocated(before: seq<Extent>, after: seq<Extent>): set<PoolKey> {
    set k | k in IndexOf(before) && k in IndexOf(after) && IndexOf(before)[k].offset != IndexOf(after)[k].offset
  }

  /** Packing moves the bytes of the objects whose address it changes. */
  lemma {:induction false} MovedIsRelocated(es: seq<Extent>, lo: nat)
    requires DistinctKeys(Objects(es))
    ensures IndexOf(Packed(es, lo)).Keys == IndexOf(es).Keys == KeySet(Objects(es))
    ensures Moved(es, lo) == BytesIn(Objects(es), Relocated(es, Packed(es, lo)))
  {
    if es != [] {
      var front, e := Front(es), Last(es);
      if e.key.Some? {
        Snoc(Objects(front), Object(e.key.value, e.size));
        MovedIsRelocated(front, lo);
        Snoc(Packed(front, lo), Extent(lo + UsedBytes(front), e.size, e.key));
        OneMoreRelocated(front, Packed(front, lo), e, lo + UsedBytes(front));
        hide DistinctKeys, UsedBytes, IndexOf;
        SameBytes(Objects(front), Relocated(front, Packed(front, lo)), Relocated(es, Packed(es, lo)));
      } else {
        MovedIsRelocated(front, lo);
      }
    }
  }

  lemma {:induction false} OneMoreRelocated(front: seq<Extent>, packed: seq<Extent>, e: Extent, offset: nat)
    requires e.key.Some? && e.key.value !in IndexOf(front) && IndexOf(packed).Keys == IndexOf(front).Keys
    ensures var es, after := front + [e], packed + [Extent(offset, e.size, e.key)];
      && IndexOf(es) == IndexOf(front)[e.key.value := e]
      && IndexOf(after) == IndexOf(packed)[e.key.value := Extent(offset, e.size, e.key)]
      && Relocated(es, after) == Relocated(front, packed) + (if e.offset != offset then {e.key.value} else {})
  {
    Snoc(front, e);
    Snoc(packed, Extent(offset, e.size, e.key));
  }

  /** Keys that do not occur carry no bytes. */
  lemma {:induction false} SameBytes(objs: seq<Object>, a: set<PoolKey>, b: set<PoolKey>)
    requires forall k :: k in KeySet(objs) ==> (k in a <==> k in b)
    ensures BytesIn(objs, a) == BytesIn(objs, b)
  {
    if objs != [] {
      SameBytes(Front(objs), a, b);
    }
  }

  lemma {:induction false} PackedFacts(es: seq<Extent>, lo: nat, from: nat)
    requires Tiles(es, from)
    ensures Tiles(Packed(es, lo), lo)
    ensures Objects(Packed(es, lo)) == Objects(es)
    ensures Total(Packed(es, lo)) == UsedBytes(es) && FreeBytes(Packed(es, lo)) == 0
    ensures Moved(es, lo) <= UsedBytes(es)
  {
    if es != [] {
      var front, e := Front(es), Last(es);
      PackedFacts(front, lo, from);
      if e.key.Some? {
        Snoc(Packed(front, lo), Extent(lo + UsedBytes(front), e.size, e.key));
        Snoc(Objects(front), Object(e.key.value, e.size));
      }
    }
  }

  /** The whole pool after compaction. */
  function Compacted(es: seq<Extent>, capacity: nat): seq<Extent> {
    var packed := Packed(es, 0);
    if UsedBytes(es) < capacity then packed + [Extent(UsedBytes(es), capacity - UsedBytes(es), None)] else packed
  }

  /** The free extent behind the packed ones has no key. */
  lemma {:induction false} CompactedMoves(es: seq<Extent>, capacity: nat)
    requires DistinctKeys(Objects(es))
    ensures Moved(es, 0) == BytesIn(Objects(es), Relocated(es, Compacted(es, capacity)))
  {
    MovedIsRelocated(es, 0);
    if UsedBytes(es) < capacity {
      Snoc(Packed(es, 0), Extent(UsedBytes(es), capacity - UsedBytes(es), None));
    }
  }

  lemma {:induction false} CompactedFacts(es: seq<Extent>, capacity: nat)
    requires Tiles(es, 0) && Total(es) == capacity
    ensures Tiles(Compacted(es, capacity), 0) && Total(Compacted(es, capacity)) == capacity
    ensures Objects(Compacted(es, capacity)) == Objects(es)
  {
    PackedFacts(es, 0, 0);
    UsedPlusFree(es);
    Append(Packed(es, 0), [Extent(UsedBytes(es), capacity - UsedBytes(es), None)], 0);
  }

  /** Where packing has got to: the packed extents and the bytes moved. */
  method PackFrom(es: seq<Extent>, lo: nat) returns (packed: seq<Extent>, cursor: nat, moved: nat)
    ensures packed == Packed(es, lo) && cursor == lo + UsedBytes(es) && moved == Moved(es, lo)
  {
    packed, cursor, moved := [], lo, 0;
    for i := 0 to |es|
      invariant packed == Packed(es[..i], lo) && cursor == lo + UsedBytes(es[..i]) && moved == Moved(es[..i], lo)
    {
      var extent := es[i];
      FrontSlice(es, i);
      if extent.key.Some? {
        Snoc(Objects(es[..i]), Object(extent.key.value, extent.size));
        if extent.offset != cursor {
          moved := moved + extent.size;
        }
        packed := packed + [Extent(cursor, extent.size, extent.key)];
        cursor := cursor + extent.size;
      }
    }
    assert es[..|es|] == es;
  }

  // --------------------------------------------------------------- placing

  /** A free extent split into an allocation and what is left of it. */
  function Split(free: Extent, key: PoolKey, size: nat): seq<Extent>
    requires size <= free.size
  {
    [Extent(free.offset, size, Some(key))]
    + if size < free.size then [Extent(free.offset + size, free.size - size, None)] else []
  }

  lemma {:induction false} SplitFacts(free: Extent, key: PoolKey, size: nat)
    requires free.key.None? && 0 < size <= free.size
    ensures var placed := Extent(free.offset, size, Some(key));
      && Tiles(Split(free, key, size), free.offset)
      && Total(Split(free, key, size)) == free.size
      && Objects(Split(free, key, size)) == [Object(key, size)]
      && IndexOf(Split(free, key, size)) == map[key := placed]
      && FreeBytes(Split(free, key, size)) == free.size - size
  {
    var placed, left := [Extent(free.offset, size, Some(key))], [Extent(free.offset + size, free.size - size, None)];
    assert Front(placed) == [] && Front(left) == [];
    assert Objects(placed) == [Object(key, size)];
    assert Total(placed) == size && IndexOf(placed) == map[key := placed[0]];
    assert Tiles(placed, free.offset);
    assert Tiles([], free.offset + size);
    if size < free.size {
      Append(placed, left, free.offset);
    }
  }

  /** Allocating from the free extent at position `i`. */
  function Place(es: seq<Extent>, i: nat, key: PoolKey, size: nat): seq<Extent>
    requires i < |es| && size <= es[i].size
  {
    es[..i] + (Split(es[i], key, size) + es[i + 1..])
  }

  /** A free extent replaced by its two parts, in the middle of a pool. */
  lemma {:induction false} ReplacedFree(a: seq<Extent>, f: Extent, b: seq<Extent>, key: PoolKey, size: nat)
    requires f.key.None? && 0 < size <= f.size
    requires Tiles(a + ([f] + b), 0)
    ensures f.offset == Total(a)
    ensures Tiles(a + (Split(f, key, size) + b), 0)
    ensures Total(a + (Split(f, key, size) + b)) == Total(a + ([f] + b))
    ensures FreeBytes(a + (Split(f, key, size) + b)) == FreeBytes(a + ([f] + b)) - size
  {
    TilesOne(f, Total(a));
    SplitFacts(f, key, size);
    AppendTiles(a, [f] + b, 0);
    AppendTiles([f], b, Total(a));
    AppendTiles(Split(f, key, size), b, Total(a));
    AppendTiles(a, Split(f, key, size) + b, 0);
    ReplacedTotals(a, f, b, key, size);
  }

  lemma {:induction false} ReplacedTotals(a: seq<Extent>, f: Extent, b: seq<Extent>, key: PoolKey, size: nat)
    requires f.key.None? && 0 < size <= f.size
    ensures Total(a + (Split(f, key, size) + b)) == Total(a + ([f] + b))
    ensures FreeBytes(a + (Split(f, key, size) + b)) == FreeBytes(a + ([f] + b)) - size
  {
    TilesOne(f, 0);
    SplitFacts(f, key, size);
    AppendTotals(a, [f] + b);
    AppendTotals([f], b);
    AppendTotals(Split(f, key, size), b);
    AppendTotals(a, Split(f, key, size) + b);
  }

  lemma {:induction false} ReplacedObjects(a: seq<Extent>, f: Extent, b: seq<Extent>, key: PoolKey, size: nat)
    requires f.key.None? && 0 < size <= f.size
    ensures Objects(a + ([f] + b)) == Objects(a) + Objects(b)
    ensures Objects(a + (Split(f, key, size) + b)) == Objects(a) + [Object(key, size)] + Objects(b)
    ensures IndexOf(a + ([f] + b)) == IndexOf(a) + IndexOf(b)
    ensures IndexOf(a + (Split(f, key, size) + b)) == IndexOf(a) + (map[key := Extent(f.offset, size, Some(key))] + IndexOf(b))
  {
    hide Objects, IndexOf, Split;
    SplitFacts(f, key, size);
    AppendObjects(a, [f] + b);
    AppendObjects([f], b);
    AppendObjects(a, Split(f, key, size) + b);
    AppendObjects(Split(f, key, size), b);
    OneFree(f);
  }

  lemma {:induction false} OneFree(f: Extent)
    requires f.key.None?
    ensures Objects([f]) == [] && IndexOf([f]) == map[]
  {
    Snoc([], f);
  }

  /** Placing adds exactly one object, between those around it. */
  lemma {:induction false} PlaceFacts(es: seq<Extent>, i: nat, key: PoolKey, size: nat)
    requires i < |es| && es[i].key.None? && 0 < size <= es[i].size
    requires Tiles(es, 0) && key !in IndexOf(es)
    ensures Tiles(Place(es, i, key, size), 0) && Total(Place(es, i, key, size)) == Total(es)
    ensures Objects(es) == Objects(es[..i]) + Objects(es[i + 1..])
    ensures Objects(Place(es, i, key, size)) == Objects(es[..i]) + [Object(key, size)] + Objects(es[i + 1..])
    ensures IndexOf(Place(es, i, key, size)) == IndexOf(es)[key := Extent(es[i].offset, size, Some(key))]
    ensures FreeBytes(Place(es, i, key, size)) == FreeBytes(es) - size
  {
    var a, f, b := es[..i], es[i], es[i + 1..];
    CutAt(es, i);
    ReplacedFree(a, f, b, key, size);
    ReplacedObjects(a, f, b, key, size);
    InsertBetween(IndexOf(a), IndexOf(b), key, Extent(f.offset, size, Some(key)));
  }

  lemma {:induction false} InsertBetween(m: map<PoolKey, Extent>, n: map<PoolKey, Extent>, key: PoolKey, e: Extent)
    requires key !in n
    ensures m + (map[key := e] + n) == (m + n)[key := e]
  {
  }

  /** One more key among distinct ones. */
  lemma {:induction false} InsertedDistinct(a: seq<Object>, o: Object, b: seq<Object>, ks: set<PoolKey>)
    requires DistinctKeys(a + b) && o.key !in KeySet(a + b)
    ensures DistinctKeys(a + [o] + b)
    ensures KeySet(a + [o] + b) == KeySet(a + b) + {o.key}
    ensures SumSizes(a + [o] + b) == SumSizes(a + b) + o.size
    ensures o.key in ks ==> Without(a + [o] + b, ks) == Without(a + b, ks)
  {
    ObjectsAppend(a, b, ks);
    ObjectsAppend(a, [o], ks);
    ObjectsAppend(a + [o], b, ks);
    assert Front([o]) == [];
  }
}
