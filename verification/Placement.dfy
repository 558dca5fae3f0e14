/** Placing modules on devices as contiguous runs by dynamic programming
    (sllm_store/sllm_store/device_map_utils.py). */
module Placement {
  import opened Common

  type Run = seq<string>

  /** A cell of the table; without a gap nothing was found (the gap is infinite). */
  datatype Cell = Cell(gap: Option<int>, minSize: Option<int>, maxSize: int, partitions: seq<Run>)

  function SizeOf(sizes: seq<int>, j: nat, i: nat): int
    requires j <= i <= |sizes|
  {
    if i == j then 0 else SizeOf(sizes, j, i - 1) + sizes[i - 1]
  }

  /** The size of a run is that of its parts, down to single modules. */
  lemma {:induction false} SizesAdd(sizes: seq<int>, j: nat, m: nat, i: nat)
    requires j <= m <= i <= |sizes|
    ensures SizeOf(sizes, j, i) == SizeOf(sizes, j, m) + SizeOf(sizes, m, i)
    ensures i == j + 1 ==> SizeOf(sizes, j, i) == sizes[j]
    decreases i
  {
    if m < i {
      SizesAdd(sizes, j, m, i - 1);
    }
    assert i == j + 1 ==> SizeOf(sizes, j, j) == 0;
  }

  /** The first `i` modules can be cut into `k` non-empty runs, the r-th of which
      fits the r-th device. */
  ghost predicate CanCut(sizes: seq<int>, memory: seq<int>, i: nat, k: nat)
    requires i <= |sizes| && k <= |memory|
    decreases k
  {
    if k == 0 then i == 0
    else exists j: nat :: j < i && LastRunFits(sizes, memory, j, i, k) && CanCut(sizes, memory, j, k - 1)
  }

  predicate LastRunFits(sizes: seq<int>, memory: seq<int>, j: nat, i: nat, k: nat)
    requires j <= i <= |sizes| && 0 < k <= |memory|
  {
    SizeOf(sizes, j, i) <= memory[k - 1]
  }

  /** The first `k` partitions are such a cut of the first `i` modules. */
  ghost predicate IsCut(names: seq<string>, sizes: seq<int>, memory: seq<int>, partitions: seq<Run>, i: nat, k: nat)
    requires i <= |sizes| == |names| && k <= |memory| == |partitions|
    decreases k
  {
    if k == 0 then i == 0
    else
      var j := i - |partitions[k - 1]|;
      && 0 <= j < i && partitions[k - 1] == names[j..i]
      && LastRunFits(sizes, memory, j, i, k)
      && IsCut(names, sizes, memory, partitions, j, k - 1)
  }

  /** The sizes of the smallest and the largest of the first `k` runs. */
  function LeastRun(sizes: seq<int>, partitions: seq<Run>, i: nat, k: nat): Option<int>
    requires i <= |sizes| && k <= |partitions|
    decreases k
  {
    if k == 0 || |partitions[k - 1]| > i then None
    else
      var j := i - |partitions[k - 1]|;
      var before, size := LeastRun(sizes, partitions, j, k - 1), SizeOf(sizes, j, i);
      Some(if before.None? || size < before.value then size else before.value)
  }

  function MostRun(sizes: seq<int>, partitions: seq<Run>, i: nat, k: nat): int
    requires i <= |sizes| && k <= |partitions|
    decreases k
  {
    if k == 0 || |partitions[k - 1]| > i then 0
    else
      var j := i - |partitions[k - 1]|;
      Max(MostRun(sizes, partitions, j, k - 1), SizeOf(sizes, j, i))
  }

  ghost predicate NonNegative(sizes: seq<int>) {
    forall i :: 0 <= i < |sizes| ==> sizes[i] >= 0
  }

  /** The larger of two runs. */
  function Larger(sizes: seq<int>, j: nat, i: nat): int
    requires j <= i <= |sizes|
  {
    Max(SizeOf(sizes, 0, j), SizeOf(sizes, j, i))
  }

  /** Two runs of which the larger one is as small as in any cut that fits. */
  ghost predicate Balanced(names: seq<string>, sizes: seq<int>, memory: seq<int>, partitions: seq<Run>, i: nat)
    requires i <= |sizes| == |names| && |memory| == |partitions| >= 2
  {
    && |partitions[0]| <= i
    && forall other: seq<Run> :: |other| == |memory| && IsCut(names, sizes, memory, other, i, 2) ==>
         |other[0]| <= i && Larger(sizes, |partitions[0]|, i) <= Larger(sizes, |other[0]|, i)
  }

  /** A cell says exactly whether its modules can be cut, and how. */
  ghost predicate CellRight(names: seq<string>, sizes: seq<int>, memory: seq<int>, cell: Cell, i: nat, k: nat)
    requires i <= |sizes| == |names| && k <= |memory|
  {
    && (cell.gap.Some? <==> CanCut(sizes, memory, i, k))
    && (cell.gap.Some? ==> |cell.partitions| == |memory| && IsCut(names, sizes, memory, cell.partitions, i, k))
    && (cell.gap.None? ==> cell.partitions == [])
    && (cell.gap.Some? ==> Measured(sizes, cell, i, k))
    && (cell.gap.Some? && k == 2 && NonNegative(sizes) ==> Balanced(names, sizes, memory, cell.partitions, i))
  }

  /** The cell's sizes are those of its runs. */
  ghost predicate Measured(sizes: seq<int>, cell: Cell, i: nat, k: nat)
    requires i <= |sizes| && k <= |cell.partitions|
  {
    cell.minSize == LeastRun(sizes, cell.partitions, i, k) && cell.maxSize == MostRun(sizes, cell.partitions, i, k)
  }

  /** Partitions behind the cut do not matter to it. */
  lemma {:induction false} CutUnaffected(
    names: seq<string>, sizes: seq<int>, memory: seq<int>, partitions: seq<Run>, i: nat, k: nat, at: nat, run: Run)
    requires i <= |sizes| == |names| && k <= at < |memory| == |partitions|
    requires IsCut(names, sizes, memory, partitions, i, k)
    ensures IsCut(names, sizes, memory, partitions[at := run], i, k)
  {
    if k > 0 {
      CutUnaffected(names, sizes, memory, partitions, i - |partitions[k - 1]|, k - 1, at, run);
    }
  }

  lemma {:induction false} SizesUnaffected(sizes: seq<int>, partitions: seq<Run>, i: nat, k: nat, at: nat, run: Run)
    requires i <= |sizes| && k <= at < |partitions|
    ensures LeastRun(sizes, partitions[at := run], i, k) == LeastRun(sizes, partitions, i, k)
    ensures MostRun(sizes, partitions[at := run], i, k) == MostRun(sizes, partitions, i, k)
    decreases k
  {
    if k > 0 && |partitions[k - 1]| <= i {
      SizesUnaffected(sizes, partitions, i - |partitions[k - 1]|, k - 1, at, run);
    }
  }

  /** Appending a run that fits to a cut of what comes before it. */
  lemma {:induction false} ExtendCut(
    names: seq<string>, sizes: seq<int>, memory: seq<int>, partitions: seq<Run>, j: nat, i: nat, k: nat)
    requires j < i <= |sizes| == |names| && 0 < k <= |memory| == |partitions|
    requires IsCut(names, sizes, memory, partitions, j, k - 1) && LastRunFits(sizes, memory, j, i, k)
    ensures IsCut(names, sizes, memory, partitions[k - 1 := names[j..i]], i, k)
  {
    CutUnaffected(names, sizes, memory, partitions, j, k - 1, k - 1, names[j..i]);
    assert |names[j..i]| == i - j;
  }

  // ------------------------------------------------------------- the table

  ghost predicate RowRight(names: seq<string>, sizes: seq<int>, memory: seq<int>, row: seq<Cell>, i: nat)
    requires i <= |sizes| == |names|
  {
    |row| == |memory| + 1 && forall k :: 0 <= k <= |memory| ==> CellRight(names, sizes, memory, row[k], i, k)
  }

  ghost predicate RowsRight(names: seq<string>, sizes: seq<int>, memory: seq<int>, table: seq<seq<Cell>>)
    requires |sizes| == |names| && |table| <= |sizes| + 1
  {
    forall i :: 0 <= i < |table| ==> RowRight(names, sizes, memory, table[i], i)
  }

  const NOTHING := Cell(None, None, 0, [])

  function Start(devices: nat): Cell {
    Cell(Some(0), None, 0, seq(devices, r => []))
  }

  function Abs(x: int): int {
    if x < 0 then -x else x
  }

  /** How far a new run's size lies from the sizes before it. */
  function MaxGap(before: Cell, size: int): int {
    if before.minSize.None? then 0
    else Max(Abs(before.minSize.value - size), Abs(before.maxSize - size))
  }

  /** The size of run `r`, of the first `k` runs of the first `i` modules. */
  function RunSize(sizes: seq<int>, partitions: seq<Run>, i: nat, k: nat, r: nat): int
    requires i <= |sizes| && r < k <= |partitions|
    decreases k
  {
    if |partitions[k - 1]| > i then 0
    else
      var j := i - |partitions[k - 1]|;
      if r == k - 1 then SizeOf(sizes, j, i) else RunSize(sizes, partitions, j, k - 1, r)
  }

  /** The smallest and the largest run are runs, and no run lies outside them. */
  lemma {:induction false} RunBounds(
    names: seq<string>, sizes: seq<int>, memory: seq<int>, partitions: seq<Run>, i: nat, k: nat)
    requires 0 < k <= |partitions| == |memory| && i <= |sizes| == |names| && NonNegative(sizes)
    requires IsCut(names, sizes, memory, partitions, i, k)
    ensures var least, most := LeastRun(sizes, partitions, i, k), MostRun(sizes, partitions, i, k);
      && least.Some? && (forall r: nat :: r < k ==> least.value <= RunSize(sizes, partitions, i, k, r) <= most)
      && (exists r: nat :: r < k && RunSize(sizes, partitions, i, k, r) == least.value)
      && (exists r: nat :: r < k && RunSize(sizes, partitions, i, k, r) == most)
    decreases k
  {
    var j := i - |partitions[k - 1]|;
    NonNegativeSize(sizes, j, i);
    assert RunSize(sizes, partitions, i, k, k - 1) == SizeOf(sizes, j, i);
    if k > 1 {
      RunBounds(names, sizes, memory, partitions, j, k - 1);
      forall r: nat | r < k - 1 ensures RunSize(sizes, partitions, i, k, r) == RunSize(sizes, partitions, j, k - 1, r) {
      }
      var least: nat :| least < k - 1 && RunSize(sizes, partitions, j, k - 1, least) == LeastRun(sizes, partitions, j, k - 1).value;
      var most: nat :| most < k - 1 && RunSize(sizes, partitions, j, k - 1, most) == MostRun(sizes, partitions, j, k - 1);
      assert RunSize(sizes, partitions, i, k, least) == LeastRun(sizes, partitions, j, k - 1).value;
      assert RunSize(sizes, partitions, i, k, most) == MostRun(sizes, partitions, j, k - 1);
    } else {
      assert LeastRun(sizes, partitions, j, 0) == None && MostRun(sizes, partitions, j, 0) == 0;
    }
  }

  /** The gap of a cell to a new run is how far that run's size lies from the size it is
      furthest from. */
  lemma {:induction false} GapIsFurthest(
    names: seq<string>, sizes: seq<int>, memory: seq<int>, cell: Cell, i: nat, k: nat, size: int)
    requires i <= |sizes| == |names| && 0 < k <= |memory| && NonNegative(sizes)
    requires CellRight(names, sizes, memory, cell, i, k) && cell.gap.Some?
    ensures forall r: nat :: r < k ==>
      -MaxGap(cell, size) <= RunSize(sizes, cell.partitions, i, k, r) - size <= MaxGap(cell, size)
    ensures exists r: nat ::
      r < k && (RunSize(sizes, cell.partitions, i, k, r) - size in {MaxGap(cell, size), -MaxGap(cell, size)})
  {
    RunBounds(names, sizes, memory, cell.partitions, i, k);
    hide RunSize, IsCut, CanCut, LeastRun, MostRun, Balanced;
    var p: nat :| p < k && RunSize(sizes, cell.partitions, i, k, p) == cell.minSize.value;
    var q: nat :| q < k && RunSize(sizes, cell.partitions, i, k, q) == cell.maxSize;
  }

  /** The modules before `j` can be cut, and those from `j` on fit the last device. */
  predicate Usable(sizes: seq<int>, memory: seq<int>, table: seq<seq<Cell>>, i: nat, k: nat, j: nat)
    requires j < i <= |sizes| && 0 < k <= |memory| && j < |table| && |table[j]| == |memory| + 1
  {
    LastRunFits(sizes, memory, j, i, k) && table[j][k - 1].gap.Some?
  }

  /** The cell a cut leads to whose last run starts at `j`. */
  function Extended(names: seq<string>, sizes: seq<int>, before: Cell, j: nat, i: nat, k: nat): Cell
    requires j < i <= |sizes| == |names| && 0 < k <= |before.partitions|
  {
    var size := SizeOf(sizes, j, i);
    Cell(
      Some(MaxGap(before, size)),
      Some(if before.minSize.None? || size < before.minSize.value then size else before.minSize.value),
      Max(before.maxSize, size),
      before.partitions[k - 1 := names[j..i]])
  }

  /** A cell after looking at the cuts whose last run starts before `n`: the first of
      those whose last run lies closest to the sizes before it. */
  ghost predicate CellUpTo(
    names: seq<string>, sizes: seq<int>, memory: seq<int>, table: seq<seq<Cell>>, cell: Cell, i: nat, k: nat, n: nat)
    requires n <= i <= |table| && i <= |sizes| == |names| && 0 < k <= |memory|
  {
    && (cell.gap.None? ==> cell == NOTHING && forall j: nat :: j < n ==> RowLong(memory, table, j) && !Usable(sizes, memory, table, i, k, j))
    && (cell.gap.Some? ==> exists best: nat :: best < n && FirstBest(names, sizes, memory, table, cell, i, k, n, best))
  }

  ghost predicate RowLong(memory: seq<int>, table: seq<seq<Cell>>, j: nat) {
    j < |table| && |table[j]| == |memory| + 1
  }

  ghost predicate FirstBest(
    names: seq<string>, sizes: seq<int>, memory: seq<int>, table: seq<seq<Cell>>, cell: Cell, i: nat, k: nat, n: nat, best: nat)
    requires n <= i <= |table| && i <= |sizes| == |names| && 0 < k <= |memory|
  {
    && best < n && RowLong(memory, table, best) && Usable(sizes, memory, table, i, k, best)
    && k <= |table[best][k - 1].partitions|
    && cell == Extended(names, sizes, table[best][k - 1], best, i, k)
    && forall j: nat :: j < n && RowLong(memory, table, j) && Usable(sizes, memory, table, i, k, j) ==>
         && cell.gap.value <= MaxGap(table[j][k - 1], SizeOf(sizes, j, i))
         && (j < best ==> cell.gap.value < MaxGap(table[j][k - 1], SizeOf(sizes, j, i)))
  }

  /** What a cell above says, for the last runs that may start there. */
  lemma {:induction false} CellAbove(
    names: seq<string>, sizes: seq<int>, memory: seq<int>, table: seq<seq<Cell>>, i: nat, k: nat, j: nat)
    requires |sizes| == |names| && j < i <= |table| <= |sizes| + 1 && 0 < k <= |memory| && RowsRight(names, sizes, memory, table)
    ensures RowLong(memory, table, j) && CellRight(names, sizes, memory, table[j][k - 1], j, k - 1)
    ensures table[j][k - 1].gap.Some? ==> |table[j][k - 1].partitions| == |memory|
  {
    assert RowRight(names, sizes, memory, table[j], j);
  }

  lemma {:induction false} NonNegativeSize(sizes: seq<int>, j: nat, i: nat)
    requires j <= i <= |sizes| && NonNegative(sizes)
    ensures SizeOf(sizes, j, i) >= 0
    decreases i
  {
    if j < i {
      NonNegativeSize(sizes, j, i - 1);
    }
  }

  /** A cell of one run holds all modules in it. */
  lemma {:induction false} OneRun(names: seq<string>, sizes: seq<int>, memory: seq<int>, cell: Cell, j: nat)
    requires j <= |sizes| == |names| && |memory| >= 1 && NonNegative(sizes)
    requires CellRight(names, sizes, memory, cell, j, 1) && cell.gap.Some?
    ensures |cell.partitions| == |memory| && |cell.partitions[0]| == j
    ensures cell.minSize == Some(SizeOf(sizes, 0, j)) && cell.maxSize == SizeOf(sizes, 0, j)
  {
    NonNegativeSize(sizes, 0, j);
    assert IsCut(names, sizes, memory, cell.partitions, j - |cell.partitions[0]|, 0);
    assert LeastRun(sizes, cell.partitions, 0, 0) == None && MostRun(sizes, cell.partitions, 0, 0) == 0;
  }

  /** For two devices the closest last run balances both. */
  lemma {:induction false} TwoBalanced(
    names: seq<string>, sizes: seq<int>, memory: seq<int>, table: seq<seq<Cell>>, cell: Cell, i: nat, best: nat)
    requires |sizes| == |names| && i == |table| <= |sizes| && |memory| >= 2 && RowsRight(names, sizes, memory, table)
    requires FirstBest(names, sizes, memory, table, cell, i, 2, i, best) && NonNegative(sizes)
    ensures |cell.partitions| == |memory| && Balanced(names, sizes, memory, cell.partitions, i)
  {
    CellAbove(names, sizes, memory, table, i, 2, best);
    OneRun(names, sizes, memory, table[best][1], best);
    forall other: seq<Run> | |other| == |memory| && IsCut(names, sizes, memory, other, i, 2)
      ensures |other[0]| <= i && Larger(sizes, best, i) <= Larger(sizes, |other[0]|, i)
    {
      var at := i - |other[1]|;
      assert IsCut(names, sizes, memory, other, at, 1);
      assert IsCut(names, sizes, memory, other, at - |other[0]|, 0);
      CellAbove(names, sizes, memory, table, i, 2, at);
      assert CanCut(sizes, memory, 0, 0) && LastRunFits(sizes, memory, 0, at, 1);
      assert CanCut(sizes, memory, at, 1);
      OneRun(names, sizes, memory, table[at][1], at);
      SizesAdd(sizes, 0, best, i);
      SizesAdd(sizes, 0, at, i);
    }
  }

  lemma {:induction false} NoCut(
    names: seq<string>, sizes: seq<int>, memory: seq<int>, table: seq<seq<Cell>>, i: nat, k: nat)
    requires |sizes| == |names| && i == |table| <= |sizes| && 0 < k <= |memory| && RowsRight(names, sizes, memory, table)
    requires forall j: nat :: j < i ==> RowLong(memory, table, j) && !Usable(sizes, memory, table, i, k, j)
    ensures !CanCut(sizes, memory, i, k)
  {
    hide RowsRight, IsCut, Measured, Balanced;
    forall j: nat | j < i && LastRunFits(sizes, memory, j, i, k) ensures !CanCut(sizes, memory, j, k - 1) {
      CellAbove(names, sizes, memory, table, i, k, j);
    }
  }

  /** Appending the last run keeps the cell's sizes those of its runs. */
  lemma {:induction false} ExtendMeasured(
    names: seq<string>, sizes: seq<int>, before: Cell, j: nat, i: nat, k: nat)
    requires j < i <= |sizes| == |names| && 0 < k <= |before.partitions| && Measured(sizes, before, j, k - 1)
    ensures Measured(sizes, Extended(names, sizes, before, j, i, k), i, k)
  {
    SizesUnaffected(sizes, before.partitions, j, k - 1, k - 1, names[j..i]);
    assert |names[j..i]| == i - j;
  }

  /** The cuts looked at are all there are. */
  lemma {:induction false} CellIsRight(
    names: seq<string>, sizes: seq<int>, memory: seq<int>, table: seq<seq<Cell>>, cell: Cell, i: nat, k: nat)
    requires |sizes| == |names| && i == |table| <= |sizes| && 0 < k <= |memory| && RowsRight(names, sizes, memory, table)
    requires CellUpTo(names, sizes, memory, table, cell, i, k, i)
    ensures CellRight(names, sizes, memory, cell, i, k)
  {
    hide RowsRight, MaxGap, Balanced, IsCut, Measured;
    if cell.gap.None? {
      NoCut(names, sizes, memory, table, i, k);
    } else {
      var best: nat :| best < i && FirstBest(names, sizes, memory, table, cell, i, k, i, best);
      var before := table[best][k - 1];
      CellAbove(names, sizes, memory, table, i, k, best);
      assert CanCut(sizes, memory, best, k - 1);
      ExtendCut(names, sizes, memory, before.partitions, best, i, k);
      ExtendMeasured(names, sizes, before, best, i, k);
      if k == 2 && NonNegative(sizes) {
        TwoBalanced(names, sizes, memory, table, cell, i, best);
      }
    }
  }

  /** One more last run leads to a closer cut, or leaves the cell as it is. */
  lemma {:induction false} Closer(
    names: seq<string>, sizes: seq<int>, memory: seq<int>, table: seq<seq<Cell>>, cell: Cell, i: nat, k: nat, j: nat)
    requires j < i <= |table| && i <= |sizes| == |names| && 0 < k <= |memory|
    requires CellUpTo(names, sizes, memory, table, cell, i, k, j) && RowLong(memory, table, j)
    requires Usable(sizes, memory, table, i, k, j) && k <= |table[j][k - 1].partitions|
    requires cell.gap.None? || MaxGap(table[j][k - 1], SizeOf(sizes, j, i)) < cell.gap.value
    ensures CellUpTo(names, sizes, memory, table, Extended(names, sizes, table[j][k - 1], j, i, k), i, k, j + 1)
  {
    hide MaxGap, Usable;
    assert FirstBest(names, sizes, memory, table, Extended(names, sizes, table[j][k - 1], j, i, k), i, k, j + 1, j);
  }

  lemma {:induction false} NotCloser(
    names: seq<string>, sizes: seq<int>, memory: seq<int>, table: seq<seq<Cell>>, cell: Cell, i: nat, k: nat, j: nat)
    requires j < i <= |table| && i <= |sizes| == |names| && 0 < k <= |memory|
    requires CellUpTo(names, sizes, memory, table, cell, i, k, j) && RowLong(memory, table, j)
    requires Usable(sizes, memory, table, i, k, j) ==> cell.gap.Some? && cell.gap.value <= MaxGap(table[j][k - 1], SizeOf(sizes, j, i))
    ensures CellUpTo(names, sizes, memory, table, cell, i, k, j + 1)
  {
    hide MaxGap, Usable, Extended;
    if cell.gap.Some? {
      var best: nat :| best < j && FirstBest(names, sizes, memory, table, cell, i, k, j, best);
      assert FirstBest(names, sizes, memory, table, cell, i, k, j + 1, best);
    }
  }

  /** Fill one cell from the rows above it. */
  method FillCell(names: seq<string>, sizes: seq<int>, memory: seq<int>, table: seq<seq<Cell>>, i: nat, k: nat)
    returns (cell: Cell)
    requires |sizes| == |names| && i == |table| <= |sizes| && 0 < k <= |memory|
    requires RowsRight(names, sizes, memory, table)
    ensures CellRight(names, sizes, memory, cell, i, k)
    ensures CellUpTo(names, sizes, memory, table, cell, i, k, i)
  {
    cell := NOTHING;
    assert CellUpTo(names, sizes, memory, table, cell, i, k, 0);
    hide CellRight, MaxGap, CellUpTo, RowsRight;
    for j := 0 to i
      invariant CellUpTo(names, sizes, memory, table, cell, i, k, j)
    {
      var size := SizeOf(sizes, j, i);
      CellAbove(names, sizes, memory, table, i, k, j);
      ghost var seen := cell;
      if size <= memory[k - 1] {
        var before := table[j][k - 1];
        if before.gap.Some? {
          var gap := MaxGap(before, size);
          if cell.gap.None? || gap < cell.gap.value {
            Closer(names, sizes, memory, table, cell, i, k, j);
            cell := Cell(
              Some(gap),
              Some(if before.minSize.None? || size < before.minSize.value then size else before.minSize.value),
              Max(before.maxSize, size),
              before.partitions[k - 1 := names[j..i]]);
          }
        }
      }
      if cell == seen {
        NotCloser(names, sizes, memory, table, cell, i, k, j);
      }
    }
    CellIsRight(names, sizes, memory, table, cell, i, k);
  }

  /** Fill one row. */
  method FillRow(names: seq<string>, sizes: seq<int>, memory: seq<int>, table: seq<seq<Cell>>) returns (row: seq<Cell>)
    requires |sizes| == |names| && 0 < |table| <= |sizes|
    requires RowsRight(names, sizes, memory, table)
    ensures RowRight(names, sizes, memory, row, |table|)
  {
    row := [NOTHING];
    for k := 1 to |memory| + 1
      invariant |row| == k && forall q :: 0 <= q < k ==> CellRight(names, sizes, memory, row[q], |table|, q)
    {
      var cell := FillCell(names, sizes, memory, table, |table|, k);
      row := row + [cell];
    }
  }

  method FillTable(names: seq<string>, sizes: seq<int>, memory: seq<int>) returns (table: seq<seq<Cell>>)
    requires |sizes| == |names|
    ensures |table| == |sizes| + 1 && RowsRight(names, sizes, memory, table)
  {
    var first := seq(|memory| + 1, k => if k == 0 then Start(|memory|) else NOTHING);
    table := [first];
    assert RowRight(names, sizes, memory, first, 0);
    for i := 1 to |sizes| + 1
      invariant |table| == i && RowsRight(names, sizes, memory, table)
    {
      var row := FillRow(names, sizes, memory, table);
      table := table + [row];
    }
  }

  // ---------------------------------------------------------- the placement

  /** All runs, one after the other. */
  function Joined(partitions: seq<Run>, k: nat): seq<string>
    requires k <= |partitions|
  {
    if k == 0 then [] else Joined(partitions, k - 1) + partitions[k - 1]
  }

  /** A cut covers the modules in order, each once. */
  lemma {:induction false} CutCovers(
    names: seq<string>, sizes: seq<int>, memory: seq<int>, partitions: seq<Run>, i: nat, k: nat)
    requires i <= |sizes| == |names| && k <= |memory| == |partitions|
    requires IsCut(names, sizes, memory, partitions, i, k)
    ensures Joined(partitions, k) == names[..i]
  {
    if k > 0 {
      var j := i - |partitions[k - 1]|;
      CutCovers(names, sizes, memory, partitions, j, k - 1);
      assert names[..j] + names[j..i] == names[..i];
    }
  }

  /** The device of every module of the first `k` runs. */
  function DeviceMap(partitions: seq<Run>, k: nat): map<string, nat>
    requires k <= |partitions|
  {
    if k == 0 then map[] else DeviceMap(partitions, k - 1) + OnDevice(partitions[k - 1], k - 1)
  }

  function OnDevice(run: Run, device: nat): map<string, nat> {
    map name | name in run :: device
  }

  /** The result of the search: every module, in order, on the device of its run. */
  ghost predicate Places(names: seq<string>, sizes: seq<int>, memory: seq<int>, partitions: seq<Run>, placed: map<string, nat>)
    requires |sizes| == |names|
  {
    && |partitions| == |memory| && IsCut(names, sizes, memory, partitions, |names|, |memory|)
    && Joined(partitions, |memory|) == names
    && placed.Keys == (set x | x in names)
    && forall r, x :: 0 <= r < |memory| && 0 <= x < |partitions[r]| ==>
         partitions[r][x] in placed && placed[partitions[r][x]] == r
  }

  /** `_get_balanced_placement`. A placement is found exactly when the modules can be
      cut into one non-empty run per device, each fitting its device; otherwise the
      map is empty. Without devices there is no result at all. */
  method BalancedPlacement(names: seq<string>, sizes: seq<int>, memory: seq<int>)
    returns (r: Option<map<string, nat>>, partitions: seq<Run>)
    requires |sizes| == |names| && names != [] && |memory| <= |names|
    requires forall i, j :: 0 <= i < j < |names| ==> names[i] != names[j]
    ensures r.None? <==> memory == []
    ensures r.Some? ==> (r.value != map[] <==> CanCut(sizes, memory, |names|, |memory|))
    ensures r.Some? && r.value != map[] ==> Places(names, sizes, memory, partitions, r.value)
    // between two devices no fitting cut lies closer to half and half
    ensures r.Some? && r.value != map[] && |memory| == 2 && NonNegative(sizes) ==> Balanced(names, sizes, memory, partitions, |names|)
  {
    if memory == [] {
      return None, [];
    }
    var table := FillTable(names, sizes, memory);
    assert RowRight(names, sizes, memory, table[|names|], |names|);
    var cell := table[|names|][|memory|];
    assert CellRight(names, sizes, memory, cell, |names|, |memory|);
    partitions := cell.partitions;
    var placed := map[];
    for d := 0 to |partitions|
      invariant placed == DeviceMap(partitions, d)
    {
      placed := placed + OnDevice(partitions[d], d);
    }
    r := Some(placed);
    if partitions != [] {
      CutPlaces(names, sizes, memory, partitions);
    }
  }

  lemma {:induction false} CutPlaces(names: seq<string>, sizes: seq<int>, memory: seq<int>, partitions: seq<Run>)
    requires |sizes| == |names| && names != [] && |partitions| == |memory|
    requires forall i, j :: 0 <= i < j < |names| ==> names[i] != names[j]
    requires IsCut(names, sizes, memory, partitions, |names|, |memory|)
    ensures Places(names, sizes, memory, partitions, DeviceMap(partitions, |memory|))
    ensures DeviceMap(partitions, |memory|) != map[]
  {
    CutCovers(names, sizes, memory, partitions, |names|, |memory|);
    assert names[..|names|] == names;
    PlacedKeys(partitions, |memory|);
    forall r: nat, x: nat | r < |memory| && x < |partitions[r]|
      ensures partitions[r][x] in DeviceMap(partitions, |memory|) && DeviceMap(partitions, |memory|)[partitions[r][x]] == r
    {
      Placed(names, partitions, |memory|, r, x);
    }
    assert names[0] in DeviceMap(partitions, |memory|).Keys;
  }

  lemma {:induction false} PlacedKeys(partitions: seq<Run>, k: nat)
    requires k <= |partitions|
    ensures DeviceMap(partitions, k).Keys == (set x | x in Joined(partitions, k))
  {
    if k > 0 {
      PlacedKeys(partitions, k - 1);
    }
  }

  lemma {:induction false} InJoined(partitions: seq<Run>, k: nat, r: nat, x: nat)
    requires r < k <= |partitions| && x < |partitions[r]|
    ensures partitions[r][x] in Joined(partitions, k)
  {
    if r < k - 1 {
      InJoined(partitions, k - 1, r, x);
    }
  }

  /** Distinct names land where their run is. */
  lemma {:induction false} Placed(names: seq<string>, partitions: seq<Run>, k: nat, r: nat, x: nat)
    requires r < k <= |partitions| && x < |partitions[r]| && Joined(partitions, k) <= names
    requires forall i, j :: 0 <= i < j < |names| ==> names[i] != names[j]
    ensures partitions[r][x] in DeviceMap(partitions, k) && DeviceMap(partitions, k)[partitions[r][x]] == r
  {
    if r < k - 1 {
      var before, run, name := Joined(partitions, k - 1), partitions[k - 1], partitions[r][x];
      Placed(names, partitions, k - 1, r, x);
      InJoined(partitions, k - 1, r, x);
      var a :| 0 <= a < |before| && before[a] == name;
      forall b | 0 <= b < |run| ensures run[b] != name {
        assert names[|before| + b] == run[b] && names[a] == name;
      }
    }
  }
}
