/** Packed CPU masters and the copies of their arenas on a GPU
    (tools/layerpipe/layerpipe_bench.py). */
module WeightArena {
  import opened Common

  /** An arena is known by its element type and its number. */
  datatype ArenaKey = ArenaKey(dtype: int, number: nat)

  datatype Entry = Entry(arena: ArenaKey, offset: nat, numel: nat)

  datatype Range = Range(start: nat, end: nat)

  type Arenas = map<ArenaKey, seq<int>>

  // ------------------------------------------------------------- packing

  /** A tensor and its elements. */
  datatype Tensor = Tensor(id: int, data: seq<int>)

  /** The entry's view of its arena is the tensor. */
  ghost predicate HoldsTensor(dtype: int, arenas: seq<seq<int>>, e: Entry, t: Tensor) {
    && e.arena.dtype == dtype && e.arena.number < |arenas| && e.numel == |t.data|
    && e.offset + e.numel <= |arenas[e.arena.number]|
    && arenas[e.arena.number][e.offset..e.offset + e.numel] == t.data
  }

  /** Two entries share no element. */
  predicate Apart(a: Entry, b: Entry) {
    a.arena != b.arena || a.offset + a.numel <= b.offset || b.offset + b.numel <= a.offset
  }

  /** The entry ends no later than the given place. */
  ghost predicate Below(e: Entry, number: nat, offset: nat) {
    e.arena.number < number || (e.arena.number == number && e.offset + e.numel <= offset)
  }

  /** An arena stays within the target unless it is a single tensor. */
  ghost predicate ArenaSized(items: seq<Tensor>, target: nat, arena: seq<int>) {
    |arena| <= target || exists i :: 0 <= i < |items| && arena == items[i].data
  }

  /** The first tensors are packed into `arenas`, the last of which is still open. */
  ghost predicate Packing(dtype: int, items: seq<Tensor>, target: nat, arenas: seq<seq<int>>, places: seq<Entry>) {
    && arenas != [] && |places| <= |items|
    && (forall i :: 0 <= i < |places| ==> HoldsTensor(dtype, arenas, places[i], items[i]))
    && (forall i, j :: 0 <= i < j < |places| ==> Apart(places[i], places[j]))
    && (forall i :: 0 <= i < |places| ==> Below(places[i], |arenas| - 1, |arenas[|arenas| - 1]|))
    && (forall a :: 0 <= a < |arenas| ==> ArenaSized(items, target, arenas[a]))
  }

  /** Every arena but the first was opened by a tensor the one before had no room for:
      the tensor whose place is its beginning. */
  ghost predicate Needed(target: nat, arenas: seq<seq<int>>, places: seq<Entry>) {
    forall a {:trigger OpenedBy(target, arenas, places, a)} :: 0 < a < |arenas| ==> OpenedBy(target, arenas, places, a)
  }

  ghost predicate OpenedBy(target: nat, arenas: seq<seq<int>>, places: seq<Entry>, a: nat)
    requires 0 < a < |arenas|
  {
    exists i :: 0 <= i < |places| && places[i].arena.number == a && places[i].offset == 0
      && |arenas[a - 1]| + places[i].numel > target
  }

  lemma {:induction false} OpenArena(dtype: int, items: seq<Tensor>, target: nat, arenas: seq<seq<int>>, places: seq<Entry>)
    requires Packing(dtype, items, target, arenas, places)
    ensures Packing(dtype, items, target, arenas + [[]], places)
  {
    forall i | 0 <= i < |places| ensures HoldsTensor(dtype, arenas + [[]], places[i], items[i]) {
      assert HoldsTensor(dtype, arenas, places[i], items[i]);
    }
  }

  lemma {:induction false} PlaceTensor(dtype: int, items: seq<Tensor>, target: nat, arenas: seq<seq<int>>, places: seq<Entry>)
    requires Packing(dtype, items, target, arenas, places) && |places| < |items|
    requires var open := arenas[|arenas| - 1];
      open == [] || |open| + |items[|places|].data| <= target
    ensures var number, open, t := |arenas| - 1, arenas[|arenas| - 1], items[|places|];
      Packing(dtype, items, target, arenas[number := open + t.data],
              places + [Entry(ArenaKey(dtype, number), |open|, |t.data|)])
  {
    var number, open, t := |arenas| - 1, arenas[|arenas| - 1], items[|places|];
    var grown, entry := arenas[number := open + t.data], Entry(ArenaKey(dtype, number), |open|, |t.data|);
    assert (open + t.data)[|open|..|open| + |t.data|] == t.data;
    if open == [] {
      assert open + t.data == items[|places|].data;
    }
    forall i | 0 <= i < |places|
      ensures HoldsTensor(dtype, grown, places[i], items[i]) && Below(places[i], number, |open|) && Apart(places[i], entry)
    {
      StillHeld(dtype, arenas, number, t.data, places[i], items[i]);
      assert Below(places[i], number, |open|);
    }
  }

  lemma {:induction false} StillHeld(dtype: int, arenas: seq<seq<int>>, number: nat, more: seq<int>, e: Entry, t: Tensor)
    requires number < |arenas| && HoldsTensor(dtype, arenas, e, t)
    ensures HoldsTensor(dtype, arenas[number := arenas[number] + more], e, t)
  {
    if e.arena.number == number {
      assert (arenas[number] + more)[e.offset..e.offset + e.numel] == arenas[number][e.offset..e.offset + e.numel];
    }
  }

  /** A place in an arena that was opened for it, or in one that stays open. */
  lemma {:induction false} StillNeeded(target: nat, arenas: seq<seq<int>>, places: seq<Entry>, anew: bool, data: seq<int>, e: Entry)
    requires arenas != [] && Needed(target, arenas, places)
    requires e.numel == |data| && (anew ==>
      e.arena.number == |arenas| && e.offset == 0 && |arenas[|arenas| - 1]| + |data| > target)
    ensures var last := |arenas| - 1;
      Needed(target, if anew then arenas + [data] else arenas[last := arenas[last] + data], places + [e])
  {
    var last := |arenas| - 1;
    var after := if anew then arenas + [data] else arenas[last := arenas[last] + data];
    forall a | 0 < a < |after| ensures OpenedBy(target, after, places + [e], a) {
      if a <= last {
        assert OpenedBy(target, arenas, places, a);
        var i :| 0 <= i < |places| && places[i].arena.number == a && places[i].offset == 0
          && |arenas[a - 1]| + places[i].numel > target;
        assert (places + [e])[i] == places[i];
      } else {
        assert (places + [e])[|places|] == e;
      }
    }
  }

  /** `_pack_cpu_tensors` for one element type: in order, a new arena whenever the next
      tensor would take the current one over the target, and not before. Every tensor
      can be read back from its place, and no two places share an element. */
  method PackTensors(dtype: int, items: seq<Tensor>, target: nat) returns (arenas: seq<seq<int>>, places: seq<Entry>)
    ensures |places| == |items|
    ensures forall i :: 0 <= i < |items| ==> HoldsTensor(dtype, arenas, places[i], items[i])
    ensures forall i, j :: 0 <= i < j < |items| ==> Apart(places[i], places[j])
    ensures forall a :: 0 <= a < |arenas| ==> ArenaSized(items, target, arenas[a])
    ensures Needed(target, arenas, places)
    ensures items == [] ==> arenas == []
  {
    arenas, places := [], [];
    if items == [] {
      return;
    }
    arenas := [[]];
    for n := 0 to |items|
      invariant |places| == n && Packing(dtype, items, target, arenas, places)
      invariant n == 0 ==> arenas == [[]]
      invariant Needed(target, arenas, places)
    {
      hide Packing, Needed;
      var t := items[n];
      ghost var before, anew := arenas, n > 0 && |arenas[|arenas| - 1]| + |t.data| > target;
      if n > 0 && |arenas[|arenas| - 1]| + |t.data| > target {
        OpenArena(dtype, items, target, arenas, places);
        arenas := arenas + [[]];
      }
      PlaceTensor(dtype, items, target, arenas, places);
      var number, open := |arenas| - 1, arenas[|arenas| - 1];
      StillNeeded(target, before, places, anew, t.data, Entry(ArenaKey(dtype, number), |open|, |t.data|));
      if anew {
        assert open + t.data == t.data;
        assert arenas[number := open + t.data] == before + [t.data];
      }
      places := places + [Entry(ArenaKey(dtype, number), |open|, |t.data|)];
      arenas := arenas[number := open + t.data];
    }
  }

  // ------------------------------------------------------- merging ranges

  predicate RangeLess(a: Range, b: Range) {
    a.start < b.start || (a.start == b.start && a.end <= b.end)
  }

  /** Ranges in address order that do not overlap. */
  ghost predicate Chained(ranges: seq<Range>) {
    && (forall i :: 0 <= i < |ranges| ==> ranges[i].start <= ranges[i].end)
    && (forall i, j :: 0 <= i < j < |ranges| ==> ranges[i].end <= ranges[j].start)
  }

  ghost predicate Covers(ranges: seq<Range>, p: nat) {
    exists i :: 0 <= i < |ranges| && ranges[i].start <= p < ranges[i].end
  }

  function TotalLength(ranges: seq<Range>): int {
    if ranges == [] then 0
    else TotalLength(ranges[..|ranges| - 1]) + ranges[|ranges| - 1].end - ranges[|ranges| - 1].start
  }

  /** Ranges that touch become one; a gap separates the others. */
  ghost predicate Separate(ranges: seq<Range>) {
    Chained(ranges) && forall i, j :: 0 <= i && j == i + 1 && j < |ranges| ==> ranges[i].end < ranges[j].start
  }

  /** `merged` covers what `ranges` covers, in separate pieces of the same length. */
  ghost predicate Merges(ranges: seq<Range>, merged: seq<Range>) {
    && Separate(merged) && TotalLength(merged) == TotalLength(ranges)
    && (forall p: nat :: Covers(merged, p) <==> Covers(ranges, p))
    && (merged == [] <==> ranges == [])
    && (merged != [] ==> merged[|merged| - 1].end == ranges[|ranges| - 1].end)
  }

  /** Join a range to the last one, or start a new piece. */
  function Joined(merged: seq<Range>, r: Range): seq<Range> {
    if merged != [] && r.start <= merged[|merged| - 1].end then
      var last := merged[|merged| - 1];
      merged[..|merged| - 1] + [Range(last.start, if last.end < r.end then r.end else last.end)]
    else merged + [r]
  }

  lemma {:induction false} JoinStep(ranges: seq<Range>, merged: seq<Range>, front: seq<Range>, last: Range, r: Range, wider: seq<Range>)
    requires Merges(ranges, merged) && merged == front + [last] && last.end == r.start <= r.end
    requires wider == front + [Range(last.start, r.end)]
    ensures Merges(ranges + [r], wider)
  {
    CoversAppend(ranges, r);
    LengthAppend(ranges, r);
    Widened(front, last, r);
    assert wider[|wider| - 1] == Range(last.start, r.end);
    forall p: nat ensures Covers(wider, p) <==> Covers(ranges + [r], p) {
      assert Covers(wider, p) <==> Covers(merged, p) || r.start <= p < r.end;
    }
  }

  lemma {:induction false} NewStep(ranges: seq<Range>, merged: seq<Range>, r: Range)
    requires Merges(ranges, merged) && r.start <= r.end
    requires merged != [] ==> merged[|merged| - 1].end < r.start
    ensures Merges(ranges + [r], merged + [r])
  {
    CoversAppend(ranges, r);
    LengthAppend(ranges, r);
    CoversAppend(merged, r);
    LengthAppend(merged, r);
    AppendSeparate(merged, r);
  }

  lemma {:induction false} MergeStep(ranges: seq<Range>, merged: seq<Range>, r: Range)
    requires Merges(ranges, merged) && r.start <= r.end
    requires ranges != [] ==> ranges[|ranges| - 1].end <= r.start
    ensures Merges(ranges + [r], Joined(merged, r))
  {
    if merged != [] && r.start <= merged[|merged| - 1].end {
      var front, last := merged[..|merged| - 1], merged[|merged| - 1];
      assert merged == front + [last];
      JoinStep(ranges, merged, front, last, r, Joined(merged, r));
    } else {
      NewStep(ranges, merged, r);
    }
  }

  /** The merging loop of `copy_modules`. */
  method MergeRanges(ranges: seq<Range>) returns (merged: seq<Range>)
    requires Chained(ranges)
    ensures Merges(ranges, merged)
  {
    merged := [];
    for n := 0 to |ranges|
      invariant Merges(ranges[..n], merged)
    {
      var r := ranges[n];
      assert ranges[..n + 1] == ranges[..n] + [r];
      MergeStep(ranges[..n], merged, r);
      if merged != [] && r.start <= merged[|merged| - 1].end {
        var last := merged[|merged| - 1];
        merged := merged[..|merged| - 1] + [Range(last.start, if last.end < r.end then r.end else last.end)];
      } else {
        merged := merged + [r];
      }
    }
    assert ranges[..|ranges|] == ranges;
  }

  lemma {:induction false} AppendSeparate(merged: seq<Range>, r: Range)
    requires Separate(merged) && r.start <= r.end && (merged != [] ==> merged[|merged| - 1].end < r.start)
    ensures Separate(merged + [r])
  {
  }

  lemma {:induction false} CoversAppend(ranges: seq<Range>, r: Range)
    ensures forall p: nat :: Covers(ranges + [r], p) <==> Covers(ranges, p) || r.start <= p < r.end
  {
    forall p: nat ensures Covers(ranges + [r], p) <==> Covers(ranges, p) || r.start <= p < r.end {
      if Covers(ranges, p) {
        var i :| 0 <= i < |ranges| && ranges[i].start <= p < ranges[i].end;
        assert (ranges + [r])[i] == ranges[i];
      }
      if r.start <= p < r.end {
        assert (ranges + [r])[|ranges|] == r;
      }
    }
  }

  lemma {:induction false} LengthAppend(ranges: seq<Range>, r: Range)
    ensures TotalLength(ranges + [r]) == TotalLength(ranges) + r.end - r.start
  {
    assert (ranges + [r])[..|ranges|] == ranges;
  }

  /** Joining a range to the touching one before it. */
  lemma {:induction false} Widened(front: seq<Range>, last: Range, r: Range)
    requires Separate(front + [last]) && last.end == r.start <= r.end
    ensures Separate(front + [Range(last.start, r.end)])
    ensures TotalLength(front + [Range(last.start, r.end)]) == TotalLength(front + [last]) + r.end - r.start
    ensures forall p: nat :: Covers(front + [Range(last.start, r.end)], p) <==> Covers(front + [last], p) || r.start <= p < r.end
  {
    LengthAppend(front, last);
    LengthAppend(front, Range(last.start, r.end));
    CoversAppend(front, last);
    CoversAppend(front, Range(last.start, r.end));
    var before, after := front + [last], front + [Range(last.start, r.end)];
    forall i | 0 <= i < |front| ensures after[i] == before[i] {
    }
    assert before[|front|] == last;
  }

  // --------------------------------------------------------- sorted ranges

  /** Put a range among sorted ones. */
  function InsertRange(ranges: seq<Range>, r: Range): seq<Range> {
    if ranges == [] || RangeLess(ranges[|ranges| - 1], r) then ranges + [r]
    else InsertRange(ranges[..|ranges| - 1], r) + [ranges[|ranges| - 1]]
  }

  ghost predicate Disjoint(a: Range, b: Range) {
    a.end <= b.start || b.end <= a.start
  }

  lemma {:induction false} InsertCounts(ranges: seq<Range>, r: Range)
    ensures forall p: nat :: Covers(InsertRange(ranges, r), p) <==> Covers(ranges, p) || r.start <= p < r.end
    ensures TotalLength(InsertRange(ranges, r)) == TotalLength(ranges) + r.end - r.start
  {
    if ranges == [] || RangeLess(ranges[|ranges| - 1], r) {
      CoversAppend(ranges, r);
      LengthAppend(ranges, r);
    } else {
      var front, last := ranges[..|ranges| - 1], ranges[|ranges| - 1];
      assert ranges == front + [last];
      InsertCounts(front, r);
      CoversAppend(front, last);
      LengthAppend(front, last);
      CoversAppend(InsertRange(front, r), last);
      LengthAppend(InsertRange(front, r), last);
    }
  }

  /** Inserting a range that overlaps none of the others keeps the chain. */
  lemma {:induction false} InsertChained(ranges: seq<Range>, r: Range)
    requires Chained(ranges) && r.start <= r.end
    requires forall i :: 0 <= i < |ranges| ==> Disjoint(ranges[i], r)
    ensures Chained(InsertRange(ranges, r))
  {
    if ranges == [] || RangeLess(ranges[|ranges| - 1], r) {
      ChainAppend(ranges, r);
    } else {
      var front, last := ranges[..|ranges| - 1], ranges[|ranges| - 1];
      assert ranges == front + [last];
      InsertChained(front, r);
      InsertedBefore(front, last, r);
    }
  }

  lemma {:induction false} ChainAppend(ranges: seq<Range>, r: Range)
    requires Chained(ranges) && r.start <= r.end
    requires forall i :: 0 <= i < |ranges| ==> Disjoint(ranges[i], r)
    requires ranges != [] ==> RangeLess(ranges[|ranges| - 1], r)
    ensures Chained(ranges + [r])
  {
    if ranges != [] {
      var last := ranges[|ranges| - 1];
      assert Disjoint(last, r);
      forall i | 0 <= i < |ranges| ensures ranges[i].end <= r.start {
        assert i < |ranges| - 1 ==> ranges[i].end <= last.start;
      }
    }
  }

  lemma {:induction false} InsertedBefore(front: seq<Range>, last: Range, r: Range)
    requires Chained(front + [last]) && Chained(InsertRange(front, r)) && r.start <= r.end
    requires Disjoint(last, r) && !RangeLess(last, r)
    ensures Chained(InsertRange(front, r) + [last])
  {
    var whole, inserted := front + [last], InsertRange(front, r);
    assert whole[|front|] == last;
    forall i | 0 <= i < |inserted| ensures inserted[i].end <= last.start {
      InsertedFrom(front, r, i);
      if inserted[i] != r {
        var k :| 0 <= k < |front| && front[k] == inserted[i];
        assert whole[k] == inserted[i];
      }
    }
  }

  // ------------------------------------------------------- sums over tensors

  ghost function SumOf<K>(w: map<K, int>, keys: set<K>): int
    requires keys <= w.Keys
  {
    if keys == {} then 0
    else
      var k := Member(keys);
      w[k] + SumOf(w, keys - {k})
  }

  lemma {:induction false} SumWithoutKey<K>(w: map<K, int>, keys: set<K>, k: K)
    requires keys <= w.Keys && k in keys
    ensures SumOf(w, keys) == w[k] + SumOf(w, keys - {k})
  {
    var x := Member(keys);
    if x != k {
      SumWithoutKey(w, keys - {x}, k);
      SumWithoutKey(w, keys - {k}, x);
      assert keys - {x} - {k} == keys - {k} - {x};
    }
  }

  lemma {:induction false} SumUnion<K>(w: map<K, int>, a: set<K>, b: set<K>)
    requires a <= w.Keys && b <= w.Keys && a !! b
    ensures SumOf(w, a + b) == SumOf(w, a) + SumOf(w, b)
  {
    if b == {} {
      assert a + b == a;
    } else {
      var k := Member(b);
      SumWithoutKey(w, b, k);
      SumWithoutKey(w, a + b, k);
      assert a + b - {k} == a + (b - {k});
      SumUnion(w, a, b - {k});
    }
  }

  lemma {:induction false} SumScaled<K>(w: map<K, int>, v: map<K, int>, keys: set<K>, c: int)
    requires keys <= w.Keys && keys <= v.Keys && forall k :: k in keys ==> v[k] == w[k] * c
    ensures SumOf(v, keys) == SumOf(w, keys) * c
  {
    if keys != {} {
      var k := Member(keys);
      SumScaled(w, v, keys - {k}, c);
    }
  }

  function Numels(entries: map<int, Entry>): map<int, int> {
    map t | t in entries :: entries[t].numel
  }

  /** Elements of a set of tensors. */
  ghost function Elements(entries: map<int, Entry>, ids: set<int>): int
    requires ids <= entries.Keys
  {
    SumOf(Numels(entries), ids)
  }

  /** Bytes of an element, by its type. */
  type ElementSize = int -> nat

  function TensorBytes(entries: map<int, Entry>, size: ElementSize): map<int, int> {
    map t | t in entries :: entries[t].numel * size(entries[t].arena.dtype)
  }

  /** Bytes of a set of tensors. */
  ghost function BytesOf(entries: map<int, Entry>, size: ElementSize, ids: set<int>): int
    requires ids <= entries.Keys
  {
    SumOf(TensorBytes(entries, size), ids)
  }

  /** Bytes of whole arenas. */
  function ArenaBytes(arenas: Arenas, size: ElementSize): map<ArenaKey, int> {
    map a | a in arenas :: |arenas[a]| * size(a.dtype)
  }

  // --------------------------------------------------------------- the store

  function View(arenas: Arenas, e: Entry): seq<int>
    requires e.arena in arenas && e.offset + e.numel <= |arenas[e.arena]|
  {
    arenas[e.arena][e.offset..e.offset + e.numel]
  }

  ghost predicate Fits(arenas: Arenas, e: Entry) {
    e.arena in arenas && e.offset + e.numel <= |arenas[e.arena]|
  }

  ghost predicate SameShape(gpu: Arenas, cpu: Arenas) {
    gpu.Keys == cpu.Keys && forall a :: a in cpu ==> |gpu[a]| == |cpu[a]|
  }

  /** A position of an arena belongs to one of the tensors. */
  ghost predicate Belongs(entries: map<int, Entry>, ids: set<int>, a: ArenaKey, p: nat) {
    exists t :: t in ids && t in entries && entries[t].arena == a && entries[t].offset <= p < entries[t].offset + entries[t].numel
  }

  /** After a copy: the given tensors' positions come from the masters, the others
      are as before. */
  ghost predicate Copied(
    entries: map<int, Entry>, ids: set<int>, a: ArenaKey, before: seq<int>, after: seq<int>, master: seq<int>)
  {
    && |after| == |before| == |master|
    && forall p: nat :: p < |master| ==> after[p] == if Belongs(entries, ids, a, p) then master[p] else before[p]
  }

  function Span(e: Entry): Range {
    Range(e.offset, e.offset + e.numel)
  }

  /** The ranges cover exactly the given tensors of the arena, end within it, and
      overlap no other tensor. */
  ghost predicate RangesOf(entries: map<int, Entry>, ids: set<int>, a: ArenaKey, bound: nat, ranges: seq<Range>) {
    && Chained(ranges)
    && (forall p: nat :: Covers(ranges, p) <==> Belongs(entries, ids, a, p))
    && (forall i :: 0 <= i < |ranges| ==> ranges[i].end <= bound)
    && (forall i, t :: 0 <= i < |ranges| && t in entries && t !in ids && entries[t].arena == a ==>
      Disjoint(ranges[i], Span(entries[t])))
  }

  /** The ranges of the given tensors in one arena, sorted. */
  method RangesIn(entries: map<int, Entry>, ids: set<int>, a: ArenaKey, ghost bound: nat)
    returns (ranges: seq<Range>, ghost inside: set<int>)
    requires ids <= entries.Keys && AllApart(entries)
    requires forall t :: t in entries && entries[t].arena == a ==> entries[t].offset + entries[t].numel <= bound
    ensures inside == set t | t in ids && entries[t].arena == a
    ensures TotalLength(ranges) == Elements(entries, inside)
    ensures RangesOf(entries, ids, a, bound, ranges)
  {
    hide RangesOf, Elements, TotalLength, InsertRange;
    ranges, inside := [], {};
    var rest := ids;
    assert ids - rest == {};
    NothingListed(entries, a, bound);
    while rest != {}
      invariant rest <= ids && Listing(entries, ids - rest, a, bound, ranges, inside)
      decreases rest
    {
      hide Listing, AllApart;
      ghost var some := Member(rest);
      var t :| t in rest;
      var e := entries[t];
      assert ids - (rest - {t}) == ids - rest + {t};
      ListOne(entries, ids - rest, a, bound, ranges, inside, t);
      if e.arena == a {
        inside := inside + {t};
        ranges := InsertRange(ranges, Range(e.offset, e.offset + e.numel));
      }
      rest := rest - {t};
    }
    assert ids - rest == ids;
  }

  ghost predicate Listing(entries: map<int, Entry>, ids: set<int>, a: ArenaKey, bound: nat, ranges: seq<Range>, inside: set<int>) {
    && ids <= entries.Keys
    && RangesOf(entries, ids, a, bound, ranges)
    && inside == (set t | t in ids && entries[t].arena == a) && TotalLength(ranges) == Elements(entries, inside)
  }

  lemma {:induction false} NothingListed(entries: map<int, Entry>, a: ArenaKey, bound: nat)
    ensures Listing(entries, {}, a, bound, [], {})
  {
  }

  lemma {:induction false} ListOne(
    entries: map<int, Entry>, ids: set<int>, a: ArenaKey, bound: nat, ranges: seq<Range>, inside: set<int>, t: int)
    requires Listing(entries, ids, a, bound, ranges, inside) && t in entries && t !in ids && AllApart(entries)
    requires entries[t].arena == a ==> entries[t].offset + entries[t].numel <= bound
    ensures if entries[t].arena == a
      then Listing(entries, ids + {t}, a, bound, InsertRange(ranges, Span(entries[t])), inside + {t})
      else Listing(entries, ids + {t}, a, bound, ranges, inside)
  {
    if entries[t].arena == a {
      AddRange(entries, ids, a, bound, ranges, t);
      SumWithoutKey(Numels(entries), inside + {t}, t);
      assert inside + {t} - {t} == inside;
    } else {
      BelongsMore(entries, ids, a, t);
    }
  }

  ghost predicate AllApart(entries: map<int, Entry>) {
    forall s, t :: s in entries && t in entries && s != t ==> Apart(entries[s], entries[t])
  }

  lemma {:induction false} BelongsMore(entries: map<int, Entry>, ids: set<int>, a: ArenaKey, t: int)
    requires t in entries
    ensures forall p: nat :: Belongs(entries, ids + {t}, a, p) <==>
      Belongs(entries, ids, a, p) || (entries[t].arena == a && entries[t].offset <= p < entries[t].offset + entries[t].numel)
  {
    forall p: nat ensures Belongs(entries, ids + {t}, a, p) <==>
      Belongs(entries, ids, a, p) || (entries[t].arena == a && entries[t].offset <= p < entries[t].offset + entries[t].numel)
    {
      if Belongs(entries, ids, a, p) {
        var s :| s in ids && s in entries && entries[s].arena == a && entries[s].offset <= p < entries[s].offset + entries[s].numel;
        assert s in ids + {t};
      }
      if entries[t].arena == a && entries[t].offset <= p < entries[t].offset + entries[t].numel {
        assert t in ids + {t};
      }
    }
  }

  lemma {:induction false} AddRange(entries: map<int, Entry>, ids: set<int>, a: ArenaKey, bound: nat, ranges: seq<Range>, t: int)
    requires RangesOf(entries, ids, a, bound, ranges) && t in entries && t !in ids && entries[t].arena == a
    requires AllApart(entries) && entries[t].offset + entries[t].numel <= bound
    ensures RangesOf(entries, ids + {t}, a, bound, InsertRange(ranges, Span(entries[t])))
    ensures TotalLength(InsertRange(ranges, Span(entries[t]))) == TotalLength(ranges) + entries[t].numel
  {
    hide InsertRange, Covers, Belongs, TotalLength, Chained;
    var r := Span(entries[t]);
    var more := InsertRange(ranges, r);
    InsertChained(ranges, r);
    InsertCounts(ranges, r);
    BelongsMore(entries, ids, a, t);
    forall i | 0 <= i < |more| ensures more[i].end <= bound {
      InsertedFrom(ranges, r, i);
    }
    forall i, s | 0 <= i < |more| && s in entries && s !in ids + {t} && entries[s].arena == a
      ensures Disjoint(more[i], Span(entries[s]))
    {
      InsertedFrom(ranges, r, i);
      assert Apart(entries[s], entries[t]);
    }
  }

  lemma {:induction false} InsertedFrom(ranges: seq<Range>, r: Range, i: nat)
    requires i < |InsertRange(ranges, r)|
    ensures InsertRange(ranges, r)[i] == r || exists k :: 0 <= k < |ranges| && ranges[k] == InsertRange(ranges, r)[i]
  {
    if ranges == [] || RangeLess(ranges[|ranges| - 1], r) {
      assert i < |ranges| ==> ranges[i] == InsertRange(ranges, r)[i];
    } else {
      var front := ranges[..|ranges| - 1];
      var inserted := InsertRange(front, r);
      if i < |inserted| {
        InsertedFrom(front, r, i);
        if inserted[i] != r {
          var k :| 0 <= k < |front| && front[k] == inserted[i];
          assert ranges[k] == inserted[i];
        }
      } else {
        assert ranges[|ranges| - 1] == InsertRange(ranges, r)[i];
      }
    }
  }

  /** Copy the ranges from one buffer to another; the bytes copied are theirs. */
  method CopyRanges(source: seq<int>, target: seq<int>, ranges: seq<Range>, size: nat)
    returns (result: seq<int>, copied: int)
    requires |source| == |target| && Chained(ranges)
    requires forall i :: 0 <= i < |ranges| ==> ranges[i].end <= |source|
    ensures |result| == |source| && copied == TotalLength(ranges) * size
    ensures forall p: nat :: p < |source| ==> result[p] == if Covers(ranges, p) then source[p] else target[p]
  {
    hide Covers, TotalLength;
    result, copied := target, 0;
    NothingCovered();
    for n := 0 to |ranges|
      invariant |result| == |source| && copied == TotalLength(ranges[..n]) * size
      invariant forall p: nat :: p < |source| ==> result[p] == if Covers(ranges[..n], p) then source[p] else target[p]
    {
      var r := ranges[n];
      assert ranges[..n + 1] == ranges[..n] + [r];
      CoversAppend(ranges[..n], r);
      LengthAppend(ranges[..n], r);
      result := result[..r.start] + source[r.start..r.end] + result[r.end..];
      MoreBytes(TotalLength(ranges[..n]), r.end - r.start, size);
      copied := copied + (r.end - r.start) * size;
    }
    assert ranges[..|ranges|] == ranges;
  }

  lemma {:induction false} NothingCovered()
    ensures TotalLength([]) == 0 && forall p: nat :: !Covers([], p)
  {
  }

  lemma {:induction false} MoreBytes(total: int, length: int, size: nat)
    ensures (total + length) * size == total * size + length * size
  {
  }

  /** The arenas of one element type, and the entries of its tensors. */
  function ArenaMap(dtype: int, arenas: seq<seq<int>>): Arenas {
    map n | 0 <= n < |arenas| :: ArenaKey(dtype, n) := arenas[n]
  }

  function EntriesOf(items: seq<Tensor>, places: seq<Entry>): map<int, Entry>
    requires |items| == |places|
  {
    if items == [] then map[]
    else EntriesOf(items[..|items| - 1], places[..|items| - 1])[items[|items| - 1].id := places[|items| - 1]]
  }

  lemma {:induction false} EntryOf(items: seq<Tensor>, places: seq<Entry>, t: int) returns (i: nat)
    requires |items| == |places| && t in EntriesOf(items, places)
    ensures i < |items| && items[i].id == t && EntriesOf(items, places)[t] == places[i]
  {
    if items[|items| - 1].id == t {
      i := |items| - 1;
    } else {
      i := EntryOf(items[..|items| - 1], places[..|items| - 1], t);
    }
  }

  lemma {:induction false} HasEntry(items: seq<Tensor>, places: seq<Entry>, i: nat)
    requires i < |items| == |places|
    ensures items[i].id in EntriesOf(items, places)
  {
    var n := |items| - 1;
    if i < n {
      HasEntry(items[..n], places[..n], i);
    }
  }

  /** What packing produces is a store whose views are the tensors. */
  lemma {:induction false} PackedStore(dtype: int, items: seq<Tensor>, arenas: seq<seq<int>>, places: seq<Entry>)
    requires |items| == |places|
    requires forall i :: 0 <= i < |items| ==> HoldsTensor(dtype, arenas, places[i], items[i])
    requires forall i, j :: 0 <= i < j < |items| ==> Apart(places[i], places[j])
    ensures forall t :: t in EntriesOf(items, places) ==>
      && Fits(ArenaMap(dtype, arenas), EntriesOf(items, places)[t])
      && exists i :: 0 <= i < |items| && items[i].id == t && View(ArenaMap(dtype, arenas), EntriesOf(items, places)[t]) == items[i].data
    ensures AllApart(EntriesOf(items, places))
    ensures forall i :: 0 <= i < |items| ==> items[i].id in EntriesOf(items, places)
  {
    var entries, packed := EntriesOf(items, places), ArenaMap(dtype, arenas);
    forall i | 0 <= i < |items| ensures items[i].id in entries {
      HasEntry(items, places, i);
    }
    forall t | t in entries
      ensures Fits(packed, entries[t])
      ensures exists i :: 0 <= i < |items| && items[i].id == t && View(packed, entries[t]) == items[i].data
    {
      var i := EntryOf(items, places, t);
      assert HoldsTensor(dtype, arenas, places[i], items[i]);
      var e := entries[t];
      assert e.arena == ArenaKey(dtype, e.arena.number) && e.arena in packed && packed[e.arena] == arenas[e.arena.number];
      assert View(packed, e) == items[i].data;
    }
    forall s, t | s in entries && t in entries && s != t ensures Apart(entries[s], entries[t]) {
      var i := EntryOf(items, places, s);
      var j := EntryOf(items, places, t);
      assert i != j;
    }
  }

  /** Where a tensor's parameters and buffers point. */
  datatype Device = Cpu | Gpu

  class CpuWeightStore {
    const cpuArenas: Arenas
    const entries: map<int, Entry>
    const elementSize: ElementSize
    var gpuArenas: Arenas
    var gpuResidentIds: set<int>
    var bound: map<int, Device>

    ghost predicate Packed()
    {
      (forall t :: t in entries ==> Fits(cpuArenas, entries[t])) && AllApart(entries)
    }

    /** Every resident tensor's GPU view equals its CPU master, and the modules use
        the GPU view of exactly the resident tensors. */
    ghost predicate Valid()
      reads this
    {
      && Packed()
      && (gpuArenas == map[] || SameShape(gpuArenas, cpuArenas))
      && gpuResidentIds <= entries.Keys && (gpuArenas == map[] ==> gpuResidentIds == {})
      && (forall t :: t in gpuResidentIds ==>
        Fits(gpuArenas, entries[t]) && View(gpuArenas, entries[t]) == View(cpuArenas, entries[t]))
      && bound == BoundTo(entries.Keys, gpuResidentIds)
    }

    /** What a module reads through its parameter: always the master's values. */
    ghost function Seen(t: int): (data: seq<int>)
      requires Valid() && t in entries
      reads this
      ensures Fits(cpuArenas, entries[t]) && data == View(cpuArenas, entries[t])
    {
      assert Fits(cpuArenas, entries[t]);
      View(if bound[t] == Gpu then gpuArenas else cpuArenas, entries[t])
    }

    constructor (cpuArenas: Arenas, entries: map<int, Entry>, elementSize: ElementSize)
      requires forall t :: t in entries ==> Fits(cpuArenas, entries[t])
      requires AllApart(entries)
      ensures Valid() && gpuResidentIds == {}
      ensures this.cpuArenas == cpuArenas && this.entries == entries && this.elementSize == elementSize
    {
      this.cpuArenas, this.entries, this.elementSize := cpuArenas, entries, elementSize;
      gpuArenas, gpuResidentIds, bound := map[], {}, map t | t in entries :: Cpu;
    }

    /** `_bind`: point the given tensors' parameters and buffers at one device. */
    method Bind(ids: set<int>, device: Device)
      requires ids <= entries.Keys
      modifies this`bound
      ensures bound == old(bound) + map t | t in ids :: device
    {
      bound := bound + map t | t in ids :: device;
    }

    /** `_ensure_gpu_arenas`: room for every arena, with arbitrary contents. */
    method EnsureGpuArenas()
      requires Valid()
      modifies this`gpuArenas
      ensures Valid() && SameShape(gpuArenas, cpuArenas)
      ensures old(gpuArenas) != map[] ==> gpuArenas == old(gpuArenas)
    {
      if gpuArenas == map[] {
        gpuArenas := map a | a in cpuArenas :: seq(|cpuArenas[a]|, i => 0);
      }
    }

    /** `restore_cpu`: the GPU storage is dropped. */
    method RestoreCpu()
      requires Valid()
      modifies this
      ensures Valid() && gpuArenas == map[] && gpuResidentIds == {}
    {
      Bind(entries.Keys, Cpu);
      gpuArenas, gpuResidentIds := map[], {};
    }

    /** `copy_all`: every arena whole; all their bytes are copied. */
    method CopyAll() returns (copied: int)
      requires Valid()
      modifies this
      ensures Valid() && gpuArenas == cpuArenas && gpuResidentIds == entries.Keys
      ensures copied == SumOf(ArenaBytes(cpuArenas, elementSize), cpuArenas.Keys)
    {
      EnsureGpuArenas();
      copied := CopyArenas();
      Bind(entries.Keys, Gpu);
      gpuResidentIds := entries.Keys;
      EntriesNeedArenas(cpuArenas, entries);
    }

    method CopyArenas() returns (copied: int)
      requires SameShape(gpuArenas, cpuArenas)
      modifies this`gpuArenas
      ensures gpuArenas == cpuArenas
      ensures copied == SumOf(ArenaBytes(cpuArenas, elementSize), cpuArenas.Keys)
    {
      var rest := cpuArenas.Keys;
      copied := 0;
      assert cpuArenas.Keys - rest == {};
      while rest != {}
        invariant rest <= cpuArenas.Keys && SameShape(gpuArenas, cpuArenas)
        invariant forall a :: a in cpuArenas && a !in rest ==> gpuArenas[a] == cpuArenas[a]
        invariant copied == SumOf(ArenaBytes(cpuArenas, elementSize), cpuArenas.Keys - rest)
        decreases rest
      {
        ghost var some := Member(rest);
        var a :| a in rest;
        SumWithoutKey(ArenaBytes(cpuArenas, elementSize), cpuArenas.Keys - (rest - {a}), a);
        assert cpuArenas.Keys - (rest - {a}) - {a} == cpuArenas.Keys - rest;
        gpuArenas := gpuArenas[a := cpuArenas[a]];
        copied := copied + |cpuArenas[a]| * elementSize(a.dtype);
        rest := rest - {a};
      }
      assert cpuArenas.Keys - rest == cpuArenas.Keys;
    }

    /** Copy the given tensors' ranges of one arena, merged. */
    method CopyArena(a: ArenaKey, ids: set<int>) returns (copied: int, ghost inside: set<int>)
      requires Packed() && ids <= entries.Keys && a in cpuArenas && SameShape(gpuArenas, cpuArenas)
      modifies this`gpuArenas
      ensures SameShape(gpuArenas, cpuArenas)
      ensures forall b :: b in cpuArenas && b != a ==> gpuArenas[b] == old(gpuArenas)[b]
      ensures Copied(entries, ids, a, old(gpuArenas)[a], gpuArenas[a], cpuArenas[a])
      ensures inside == (set t | t in ids && entries[t].arena == a) && copied == BytesOf(entries, elementSize, inside)
    {
      var ranges;
      forall t | t in entries && entries[t].arena == a ensures entries[t].offset + entries[t].numel <= |cpuArenas[a]| {
        assert Fits(cpuArenas, entries[t]);
      }
      ranges, inside := RangesIn(entries, ids, a, |cpuArenas[a]|);
      var merged := MergeRanges(ranges);
      MergedWithin(ranges, merged, |cpuArenas[a]|);
      SumScaled(Numels(entries), TensorBytes(entries, elementSize), inside, elementSize(a.dtype));
      var result;
      result, copied := CopyRanges(cpuArenas[a], gpuArenas[a], merged, elementSize(a.dtype));
      gpuArenas := gpuArenas[a := result];
    }

    /** `copy_modules`: only what is not resident is copied, nothing else is written,
        and the bytes copied are exactly the missing tensors'. */
    method CopyModules(ids: set<int>) returns (copied: int)
      requires Valid() && ids <= entries.Keys
      modifies this
      ensures Valid() && SameShape(gpuArenas, cpuArenas) && gpuResidentIds == old(gpuResidentIds) + ids
      ensures copied == BytesOf(entries, elementSize, ids - old(gpuResidentIds))
      ensures old(gpuArenas) != map[] ==> forall a :: a in cpuArenas ==>
        Copied(entries, ids - old(gpuResidentIds), a, old(gpuArenas)[a], gpuArenas[a], cpuArenas[a])
    {
      hide View, Fits, Copied, AllApart, BytesOf, BoundTo;
      EnsureGpuArenas();
      ghost var before := gpuArenas;
      var missing := ids - gpuResidentIds;
      copied := CopyMissing(missing);
      ResidentAfter(cpuArenas, entries, before, gpuArenas, gpuResidentIds, missing);
      EntriesNeedArenas(cpuArenas, entries);
      assert gpuResidentIds + missing == gpuResidentIds + ids;
      BindMore(entries.Keys, gpuResidentIds, missing);
      Bind(missing, Gpu);
      gpuResidentIds := gpuResidentIds + missing;
    }

    /** Copy the missing tensors arena by arena. */
    method CopyMissing(missing: set<int>) returns (copied: int)
      requires Packed() && missing <= entries.Keys && SameShape(gpuArenas, cpuArenas)
      modifies this`gpuArenas
      ensures SameShape(gpuArenas, cpuArenas) && copied == BytesOf(entries, elementSize, missing)
      ensures forall a :: a in cpuArenas ==> Copied(entries, missing, a, old(gpuArenas)[a], gpuArenas[a], cpuArenas[a])
    {
      var rest := set t | t in missing :: entries[t].arena;
      ghost var done: set<int> := {};
      copied := 0;
      forall t | t in missing ensures entries[t].arena in rest {
      }
      forall a | a in cpuArenas ensures Copied(entries, {}, a, gpuArenas[a], gpuArenas[a], cpuArenas[a]) {
      }
      while rest != {}
        invariant SameShape(gpuArenas, cpuArenas) && rest <= set t | t in missing :: entries[t].arena
        invariant done == set t | t in missing && entries[t].arena !in rest
        invariant copied == BytesOf(entries, elementSize, done)
        invariant forall a :: a in cpuArenas ==> Copied(entries, done, a, old(gpuArenas)[a], gpuArenas[a], cpuArenas[a])
        decreases rest
      {
        hide Copied, BytesOf, AllApart, SameShape;
        ghost var some := Member(rest);
        var a :| a in rest;
        ghost var middle := gpuArenas;
        assert exists t :: t in missing && entries[t].arena == a;
        var n;
        ghost var inside;
        n, inside := CopyArena(a, missing);
        CopiedMore(entries, cpuArenas, old(gpuArenas), middle, gpuArenas, done, missing, inside, a);
        BytesUnion(entries, elementSize, done, inside);
        copied, done, rest := copied + n, done + inside, rest - {a};
      }
      assert done == missing;
    }
  }

  /** Which device every tensor is bound to, when these are resident. */
  function BoundTo(ids: set<int>, resident: set<int>): map<int, Device> {
    map t | t in ids :: if t in resident then Gpu else Cpu
  }

  lemma {:induction false} EntriesNeedArenas(arenas: Arenas, entries: map<int, Entry>)
    requires forall t :: t in entries ==> Fits(arenas, entries[t])
    ensures arenas == map[] ==> entries == map[]
  {
    if entries != map[] {
      var t := Member(entries.Keys);
      assert Fits(arenas, entries[t]);
    }
  }

  lemma {:induction false} BindMore(ids: set<int>, resident: set<int>, more: set<int>)
    requires more <= ids
    ensures BoundTo(ids, resident) + (map t | t in more :: Gpu) == BoundTo(ids, resident + more)
  {
  }

  /** Merged ranges stay within the arena. */
  lemma {:induction false} MergedWithin(ranges: seq<Range>, merged: seq<Range>, bound: nat)
    requires Merges(ranges, merged) && forall i :: 0 <= i < |ranges| ==> ranges[i].end <= bound
    ensures forall i :: 0 <= i < |merged| ==> merged[i].end <= bound
  {
    if merged != [] {
      var last := merged[|merged| - 1];
      forall i | 0 <= i < |merged| ensures merged[i].end <= last.end {
        assert i < |merged| - 1 ==> merged[i].end <= last.start;
      }
    }
  }

  lemma {:induction false} BytesUnion(entries: map<int, Entry>, size: ElementSize, a: set<int>, b: set<int>)
    requires a <= entries.Keys && b <= entries.Keys && a !! b
    ensures BytesOf(entries, size, a + b) == BytesOf(entries, size, a) + BytesOf(entries, size, b)
  {
    SumUnion(TensorBytes(entries, size), a, b);
  }

  /** One more arena has been copied. */
  lemma {:induction false} CopiedMore(
    entries: map<int, Entry>, cpu: Arenas, start: Arenas, middle: Arenas, end: Arenas,
    done: set<int>, missing: set<int>, inside: set<int>, a: ArenaKey)
    requires a in cpu && SameShape(start, cpu) && SameShape(middle, cpu) && SameShape(end, cpu) && missing <= entries.Keys
    requires forall b :: b in cpu ==> Copied(entries, done, b, start[b], middle[b], cpu[b])
    requires forall b :: b in cpu && b != a ==> end[b] == middle[b]
    requires Copied(entries, missing, a, middle[a], end[a], cpu[a])
    requires inside == set t | t in missing && entries[t].arena == a
    requires done <= missing && forall t :: t in done ==> entries[t].arena != a
    ensures forall b :: b in cpu ==> Copied(entries, done + inside, b, start[b], end[b], cpu[b])
  {
    forall b | b in cpu ensures Copied(entries, done + inside, b, start[b], end[b], cpu[b]) {
      assert Copied(entries, done, b, start[b], middle[b], cpu[b]);
      forall p: nat | p < |cpu[b]|
        ensures Belongs(entries, done + inside, b, p) <==> if b == a then Belongs(entries, missing, b, p) else Belongs(entries, done, b, p)
        ensures b == a ==> !Belongs(entries, done, b, p)
      {
        BelongsHere(entries, done, missing, inside, a, b, p);
      }
    }
  }

  lemma {:induction false} BelongsHere(
    entries: map<int, Entry>, done: set<int>, missing: set<int>, inside: set<int>, a: ArenaKey, b: ArenaKey, p: nat)
    requires missing <= entries.Keys && inside == set t | t in missing && entries[t].arena == a
    requires done <= missing && forall t :: t in done ==> entries[t].arena != a
    ensures Belongs(entries, done + inside, b, p) <==> if b == a then Belongs(entries, missing, b, p) else Belongs(entries, done, b, p)
    ensures b == a ==> !Belongs(entries, done, b, p)
  {
    if Belongs(entries, missing, b, p) && b == a {
      var t :| t in missing && t in entries && entries[t].arena == b && entries[t].offset <= p < entries[t].offset + entries[t].numel;
      assert t in done + inside;
    }
    if Belongs(entries, done, b, p) {
      var t :| t in done && t in entries && entries[t].arena == b && entries[t].offset <= p < entries[t].offset + entries[t].numel;
      assert t in done + inside;
    }
  }

  /** Resident tensors are untouched, copied ones equal their masters. */
  lemma {:induction false} ResidentAfter(
    cpu: Arenas, entries: map<int, Entry>, before: Arenas, after: Arenas, resident: set<int>, missing: set<int>)
    requires SameShape(before, cpu) && SameShape(after, cpu) && resident <= entries.Keys && missing <= entries.Keys && resident !! missing
    requires forall t :: t in entries ==> Fits(cpu, entries[t])
    requires AllApart(entries)
    requires forall t :: t in resident ==> Fits(before, entries[t]) && View(before, entries[t]) == View(cpu, entries[t])
    requires forall a :: a in cpu ==> Copied(entries, missing, a, before[a], after[a], cpu[a])
    ensures forall t :: t in resident + missing ==> Fits(after, entries[t]) && View(after, entries[t]) == View(cpu, entries[t])
  {
    forall t | t in resident + missing ensures Fits(after, entries[t]) && View(after, entries[t]) == View(cpu, entries[t]) {
      var e := entries[t];
      assert Fits(cpu, e);
      assert Copied(entries, missing, e.arena, before[e.arena], after[e.arena], cpu[e.arena]);
      forall i | 0 <= i < e.numel ensures View(after, e)[i] == View(cpu, e)[i] {
        var p := e.offset + i;
        if t in missing {
          assert Belongs(entries, missing, e.arena, p);
        } else {
          assert View(before, e)[i] == View(cpu, e)[i];
        }
      }
    }
  }
}
