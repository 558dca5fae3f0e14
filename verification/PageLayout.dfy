/** Page geometry of the two VMM layouts. Both keep, for every model, a set of
    mapped units: in the tensor-page layout a unit is a whole weight group, rounded
    up to pages of its own; in the compact-page layout a unit is one page of the
    model's arena, which neighbouring groups may share
    (evaluation/tensor_simulator/tensor_sim_page_backends.py). */
module PageLayout {
  import opened Common

  datatype Layout = TensorPage | CompactPage

  /** A model: the bytes of its weight groups, laid out back to back, and the group
      of each tensor in execution order. */
  datatype TensorModel = TensorModel(groupBytes: seq<nat>, tensorGroup: seq<nat>) {
    /** Grouping puts every tensor in a group and leaves no group empty. */
    ghost predicate WellFormed() {
      && (forall i :: 0 <= i < |tensorGroup| ==> tensorGroup[i] < |groupBytes|)
      && (forall g :: 0 <= g < |groupBytes| ==> g in tensorGroup)
    }
  }

  /** Division that rounds down, for negative values too. */
  function FloorDiv(value: int, divisor: int): int
    requires divisor > 0
    decreases if value < 0 then 1 else 0, if value < 0 then -value else value
  {
    if value < 0 then FloorDiv(value + divisor, divisor) - 1
    else if value < divisor then 0
    else FloorDiv(value - divisor, divisor) + 1
  }

  function CeilDiv(value: int, divisor: int): int
    requires divisor > 0
  {
    FloorDiv(value + divisor - 1, divisor)
  }

  /** `count` pages of `size` bytes each. */
  function Times(count: nat, size: int): int {
    if count == 0 then 0 else Times(count - 1, size) + size
  }

  lemma {:induction false} TimesNonNegative(count: nat, size: int)
    requires size >= 0
    ensures Times(count, size) >= 0
  {
    if count > 0 {
      TimesNonNegative(count - 1, size);
    }
  }

  lemma {:induction false} CeilDivNonNegative(value: nat, divisor: int)
    requires divisor > 0
    ensures CeilDiv(value, divisor) >= 0
  {
    FloorDivNonNegative(value + divisor - 1, divisor);
  }

  lemma {:induction false} FloorDivNonNegative(value: nat, divisor: int)
    requires divisor > 0
    ensures FloorDiv(value, divisor) >= 0
  {
    if value >= divisor {
      FloorDivNonNegative(value - divisor, divisor);
    }
  }

  lemma {:induction false} FloorDivBounds(value: int, divisor: int)
    requires divisor > 0
    ensures FloorDiv(value, divisor) * divisor <= value < (FloorDiv(value, divisor) + 1) * divisor
    decreases if value < 0 then 1 else 0, if value < 0 then -value else value
  {
    if value < 0 {
      FloorDivBounds(value + divisor, divisor);
    } else if value >= divisor {
      FloorDivBounds(value - divisor, divisor);
    }
  }

  lemma {:induction false} TimesIsProduct(count: nat, size: int)
    ensures Times(count, size) == count * size
  {
    if count > 0 {
      TimesIsProduct(count - 1, size);
      assert count * size == (count - 1) * size + size;
    }
  }

  /** Bytes of the first `g` groups: the offset of group `g` in the arena. */
  function Offset(model: TensorModel, g: nat): (r: nat)
    requires g <= |model.groupBytes|
  {
    if g == 0 then 0 else Offset(model, g - 1) + model.groupBytes[g - 1]
  }

  /** The arena pages group `g` touches: from its first byte's page up to, but not
      including, this one. */
  function EndPage(pageSize: int, model: TensorModel, g: nat): int
    requires pageSize > 0 && g < |model.groupBytes|
  {
    FloorDiv(Offset(model, g) + model.groupBytes[g] - 1, pageSize) + 1
  }

  function FirstPage(pageSize: int, model: TensorModel, g: nat): int
    requires pageSize > 0 && g < |model.groupBytes|
  {
    FloorDiv(Offset(model, g), pageSize)
  }

  /** Units of the first `p` groups, accumulated group by group. */
  function UnitCount(layout: Layout, pageSize: int, model: TensorModel, p: nat): (count: nat)
    requires pageSize > 0 && p <= |model.groupBytes|
  {
    if layout == TensorPage then p
    else if p == 0 then 0
    else
      var before := UnitCount(layout, pageSize, model, p - 1);
      var first, end := FirstPage(pageSize, model, p - 1), EndPage(pageSize, model, p - 1);
      if first < end then Max(before, end) else before
  }

  /** The units group `g` needs. */
  function GroupUnits(layout: Layout, pageSize: int, model: TensorModel, g: nat): set<nat>
    requires pageSize > 0 && g < |model.groupBytes|
  {
    if layout == TensorPage then {g}
    else Range(FirstPage(pageSize, model, g), EndPage(pageSize, model, g))
  }

  // ------------------------------------------------------------- page counts

  lemma {:induction false} Scaled(d: int, a: int, b: int)
    requires d >= 0 && a <= b
    ensures a * d <= b * d
  {
    assert (b - a) * d >= 0;
  }

  lemma {:induction false} FloorDivUnique(value: int, divisor: int, q: int)
    requires divisor > 0 && q * divisor <= value < (q + 1) * divisor
    ensures FloorDiv(value, divisor) == q
  {
    FloorDivBounds(value, divisor);
    var found := FloorDiv(value, divisor);
    if found > q {
      Scaled(divisor, q + 1, found);
    } else if found < q {
      Scaled(divisor, found + 1, q);
    }
  }

  lemma {:induction false} FloorDivMonotone(a: int, b: int, divisor: int)
    requires divisor > 0 && a <= b
    ensures FloorDiv(a, divisor) <= FloorDiv(b, divisor)
  {
    FloorDivBounds(a, divisor);
    FloorDivBounds(b, divisor);
    var x, y := FloorDiv(a, divisor), FloorDiv(b, divisor);
    if y < x {
      Scaled(divisor, y + 1, x);
    }
  }

  /** Dividing the last byte's index and adding one is rounding up. */
  lemma {:induction false} LastPage(value: int, divisor: int)
    requires divisor > 0
    ensures FloorDiv(value - 1, divisor) + 1 == CeilDiv(value, divisor)
  {
    FloorDivBounds(value - 1, divisor);
    var q := FloorDiv(value - 1, divisor);
    assert (q + 1) * divisor == q * divisor + divisor && (q + 2) * divisor == q * divisor + 2 * divisor;
    FloorDivUnique(value + divisor - 1, divisor, q + 1);
  }

  lemma {:induction false} FloorBelowCeil(value: int, divisor: int)
    requires divisor > 0
    ensures FloorDiv(value, divisor) <= CeilDiv(value, divisor) <= FloorDiv(value, divisor) + 1
  {
    FloorDivMonotone(value, value + divisor - 1, divisor);
    LastPage(value, divisor);
    FloorDivMonotone(value - 1, value, divisor);
  }

  /** A compact prefix of `p` groups maps exactly the pages its bytes reach. */
  lemma {:induction false} CompactCount(pageSize: int, model: TensorModel, p: nat)
    requires pageSize > 0 && p <= |model.groupBytes|
    ensures UnitCount(CompactPage, pageSize, model, p) == CeilDiv(Offset(model, p), pageSize)
  {
    if p > 0 {
      CompactCount(pageSize, model, p - 1);
      LastPage(Offset(model, p), pageSize);
      FloorDivMonotone(Offset(model, p - 1) + pageSize - 1, Offset(model, p) + pageSize - 1, pageSize);
      FloorBelowCeil(Offset(model, p - 1), pageSize);
    }
  }

  lemma {:induction false} UnitCountMonotone(layout: Layout, pageSize: int, model: TensorModel, p: nat, q: nat)
    requires pageSize > 0 && p <= q <= |model.groupBytes|
    ensures UnitCount(layout, pageSize, model, p) <= UnitCount(layout, pageSize, model, q)
  {
    if p < q {
      UnitCountMonotone(layout, pageSize, model, p, q - 1);
    }
  }

  /** Group `g` needs no unit beyond its prefix, and every unit the prefix gains. */
  lemma {:induction false} GroupUnitsReach(layout: Layout, pageSize: int, model: TensorModel, g: nat)
    requires pageSize > 0 && g < |model.groupBytes|
    ensures Reaches(
      GroupUnits(layout, pageSize, model, g),
      UnitCount(layout, pageSize, model, g), UnitCount(layout, pageSize, model, g + 1))
  {
    if layout == CompactPage {
      CompactCount(pageSize, model, g);
      CompactCount(pageSize, model, g + 1);
      LastPage(Offset(model, g + 1), pageSize);
      FloorBelowCeil(Offset(model, g), pageSize);
    }
  }

  // ---------------------------------------------- the precomputed dictionaries

  /** Every unit of a prefix is needed by one of its groups. */
  lemma {:induction false} UnitOwner(layout: ModelLayout, p: nat, u: nat) returns (g: nat)
    requires layout.Valid() && p < |layout.unitCounts| && u < layout.unitCounts[p]
    ensures g < p && u in layout.groupUnits[g]
  {
    if u < layout.unitCounts[p - 1] {
      g := UnitOwner(layout, p - 1, u);
    } else {
      g := p - 1;
      assert Reaches(layout.groupUnits[g], layout.unitCounts[g], layout.unitCounts[g + 1]);
    }
  }

  /** Bytes of the first `k` units. */
  function SumTo(unitBytes: seq<nat>, k: nat): (r: nat)
    requires k <= |unitBytes|
  {
    if k == 0 then 0 else SumTo(unitBytes, k - 1) + unitBytes[k - 1]
  }

  /** A group whose prefix grows from `lo` to `hi` units needs all the new ones and
      none beyond. */
  ghost predicate Reaches(units: set<nat>, lo: nat, hi: nat) {
    && (forall u: nat :: u in units ==> u < hi)
    && (forall u: nat :: lo <= u < hi ==> u in units)
  }

  /** What a backend precomputes for a model: the units of every prefix, the units
      of every group, the bytes of every unit, and the group of every tensor. */
  datatype ModelLayout = ModelLayout(
    unitCounts: seq<nat>,
    groupUnits: seq<set<nat>>,
    unitBytes: seq<nat>,
    tensorGroup: seq<nat>)
  {
    ghost predicate Valid() {
      && |unitCounts| == |groupUnits| + 1
      && unitCounts[0] == 0
      && (forall p, q :: 0 <= p <= q < |unitCounts| ==> unitCounts[p] <= unitCounts[q])
      && |unitBytes| == unitCounts[|groupUnits|]
      && (forall g :: 0 <= g < |groupUnits| ==> Reaches(groupUnits[g], unitCounts[g], unitCounts[g + 1]))
      && (forall i :: 0 <= i < |tensorGroup| ==> tensorGroup[i] < |groupUnits|)
      && (forall g :: 0 <= g < |groupUnits| ==> g in tensorGroup)
    }

    /** No two prefixes occupy equally many units. */
    ghost predicate DistinctPrefixes() {
      forall p, q :: 0 <= p < q < |unitCounts| ==> unitCounts[p] < unitCounts[q]
    }

    /** Every unit takes memory. */
    ghost predicate PositiveUnits() {
      forall u :: 0 <= u < |unitBytes| ==> unitBytes[u] > 0
    }
  }

  function UnitBytes(layout: Layout, pageSize: int, model: TensorModel, u: nat): nat
    requires pageSize > 0 && (layout == TensorPage ==> u < |model.groupBytes|)
  {
    if layout == CompactPage then pageSize
    else
      CeilDivNonNegative(model.groupBytes[u], pageSize);
      TimesNonNegative(CeilDiv(model.groupBytes[u], pageSize), pageSize);
      Times(CeilDiv(model.groupBytes[u], pageSize), pageSize)
  }

  function BuildLayout(layout: Layout, pageSize: int, model: TensorModel): (built: ModelLayout)
    requires pageSize > 0
  {
    var n := |model.groupBytes|;
    ModelLayout(
      seq(n + 1, p requires 0 <= p <= n => UnitCount(layout, pageSize, model, p)),
      seq(n, g requires 0 <= g < n => GroupUnits(layout, pageSize, model, g)),
      seq(UnitCount(layout, pageSize, model, n), u requires 0 <= u < UnitCount(layout, pageSize, model, n) =>
        UnitBytes(layout, pageSize, model, u)),
      model.tensorGroup)
  }

  /** The dictionaries of either layout are consistent; only tensor-page prefixes
      always differ in units, and only compact pages always take memory. */
  lemma {:induction false} BuildLayoutValid(layout: Layout, pageSize: int, model: TensorModel)
    requires pageSize > 0 && model.WellFormed()
    ensures BuildLayout(layout, pageSize, model).Valid()
    ensures layout == TensorPage ==> BuildLayout(layout, pageSize, model).DistinctPrefixes()
    ensures layout == CompactPage ==> BuildLayout(layout, pageSize, model).PositiveUnits()
  {
    var built := BuildLayout(layout, pageSize, model);
    forall p, q | 0 <= p <= q < |built.unitCounts| ensures built.unitCounts[p] <= built.unitCounts[q] {
      UnitCountMonotone(layout, pageSize, model, p, q);
    }
    forall g | 0 <= g < |built.groupUnits|
      ensures Reaches(built.groupUnits[g], built.unitCounts[g], built.unitCounts[g + 1])
    {
      GroupUnitsReach(layout, pageSize, model, g);
    }
  }

  /** The tensor-page footprint of a prefix: every group rounded up on its own. */
  function RoundedBytes(pageSize: int, model: TensorModel, p: nat): int
    requires pageSize > 0 && p <= |model.groupBytes|
  {
    if p == 0 then 0
    else
      CeilDivNonNegative(model.groupBytes[p - 1], pageSize);
      RoundedBytes(pageSize, model, p - 1) + Times(CeilDiv(model.groupBytes[p - 1], pageSize), pageSize)
  }

  /** The unit bytes of a prefix add up to what each layout charges for it: whole
      pages per group, or the pages the prefix's bytes reach. */
  lemma {:induction false} PrefixFootprint(layout: Layout, pageSize: int, model: TensorModel, p: nat)
    requires pageSize > 0 && p <= |model.groupBytes|
    ensures var built := BuildLayout(layout, pageSize, model);
      && built.unitCounts[p] <= |built.unitBytes|
      && SumTo(built.unitBytes, built.unitCounts[p]) ==
         if layout == TensorPage then RoundedBytes(pageSize, model, p)
         else CeilDiv(Offset(model, p), pageSize) * pageSize
  {
    UnitCountMonotone(layout, pageSize, model, p, |model.groupBytes|);
    if layout == TensorPage {
      TensorFootprint(pageSize, model, p);
    } else {
      CompactCount(pageSize, model, p);
      CompactFootprint(BuildLayout(layout, pageSize, model).unitBytes, pageSize, UnitCount(layout, pageSize, model, p));
    }
  }

  lemma {:induction false} TensorFootprint(pageSize: int, model: TensorModel, p: nat)
    requires pageSize > 0 && p <= |model.groupBytes|
    ensures SumTo(BuildLayout(TensorPage, pageSize, model).unitBytes, p) == RoundedBytes(pageSize, model, p)
  {
    if p > 0 {
      TensorFootprint(pageSize, model, p - 1);
    }
  }

  lemma {:induction false} CompactFootprint(unitBytes: seq<nat>, pageSize: int, k: nat)
    requires k <= |unitBytes| && forall u :: 0 <= u < |unitBytes| ==> unitBytes[u] == pageSize
    ensures SumTo(unitBytes, k) == k * pageSize
  {
    if k > 0 {
      CompactFootprint(unitBytes, pageSize, k - 1);
      assert k * pageSize == (k - 1) * pageSize + pageSize;
    }
  }
}
