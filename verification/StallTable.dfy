/** The offline prefix-stall table: how its rows are built from measured group
    boundaries (tools/layerpipe/build_layerweave_offline_stall_table.py) and how it
    is validated and looked up (evaluation/tensor_simulator/tensor_sim_mckp.py). */
module StallTable {
  import opened Common

  // ------------------------------------------------ replaying a profile row

  ghost predicate NonDecreasing(b: seq<real>) {
    forall i :: 0 < i < |b| ==> b[i - 1] <= b[i]
  }

  /** Time the compute stream needs between group `i - 1` and group `i`. */
  function Gap(b: seq<real>, i: nat): real
    requires i < |b|
  {
    if i == 0 then b[0] else MaxReal(0.0, b[i] - b[i - 1])
  }

  /** The part of a missing group's load that its gap cannot hide, summed. */
  function Exposed(b: seq<real>, missing: seq<bool>, loads: seq<real>): (r: real)
    requires |b| == |missing| == |loads|
    ensures r >= 0.0
    decreases |b|
  {
    if b == [] then 0.0
    else
      var n := |b| - 1;
      Exposed(b[..n], missing[..n], loads[..n])
      + if missing[n] then MaxReal(0.0, loads[n] - Gap(b, n)) else 0.0
  }

  /** How far the boundaries step back in total; zero exactly when they never do. */
  function Drops(b: seq<real>): (r: real)
    ensures r >= 0.0
  {
    if |b| <= 1 then 0.0
    else
      var n := |b| - 1;
      Drops(b[..n]) + MaxReal(0.0, b[n - 1] - b[n])
  }

  /** All boundary gaps together. */
  function GapSum(b: seq<real>): real {
    if b == [] then 0.0 else GapSum(b[..|b| - 1]) + Gap(b, |b| - 1)
  }

  /** The gaps lead to the last boundary, and as far beyond it as the boundaries step
      back on the way. */
  lemma {:induction false} GapsAndDrops(b: seq<real>)
    requires b != []
    ensures GapSum(b) == b[|b| - 1] + Drops(b) && forall i :: 0 < i < |b| ==> Gap(b, i) >= 0.0
  {
    var n := |b| - 1;
    if n > 0 {
      GapsAndDrops(b[..n]);
    } else {
      assert b[..0] == [];
    }
  }

  lemma {:induction false} ReplayStep(b: seq<real>, missing: seq<bool>, loads: seq<real>, i: nat)
    requires |b| == |missing| == |loads| && i < |b|
    ensures Exposed(b[..i + 1], missing[..i + 1], loads[..i + 1])
      == Exposed(b[..i], missing[..i], loads[..i]) + (if missing[i] then MaxReal(0.0, loads[i] - Gap(b, i)) else 0.0)
    ensures Drops(b[..i + 1]) == Drops(b[..i]) + (if i == 0 then 0.0 else MaxReal(0.0, b[i - 1] - b[i]))
  {
    assert b[..i + 1][..i] == b[..i] && missing[..i + 1][..i] == missing[..i] && loads[..i + 1][..i] == loads[..i];
    assert Gap(b[..i + 1], i) == Gap(b, i);
  }

  /** No load waits for a boundary before time zero. */
  ghost predicate Elapsed(b: seq<real>, missing: seq<bool>)
    requires |b| == |missing|
  {
    forall i :: 0 < i < |b| && missing[i] ==> b[i - 1] >= 0.0
  }

  /** `simulate_residency_stall` and `_simulate_component_stall`: group `i` must be
      loaded when `missing[i]`, taking `loads[i]`. The recurrence has a closed form;
      it is exceeded only where a load waits for time zero. */
  method SimulateStall(b: seq<real>, missing: seq<bool>, loads: seq<real>) returns (stall: real)
    requires |b| == |missing| == |loads|
    requires forall i :: 0 <= i < |loads| ==> loads[i] >= 0.0
    ensures stall >= Exposed(b, missing, loads) + Drops(b)
    ensures Elapsed(b, missing) ==> stall == Exposed(b, missing, loads) + Drops(b)
  {
    if b == [] {
      return 0.0;
    }
    var actualPrevious: Option<real> := None;
    var baselinePrevious := 0.0;
    var copyEnd := 0.0;
    for i := 0 to |b|
      invariant (i == 0) == actualPrevious.None?
      invariant i == 0 ==> copyEnd == 0.0
      invariant i > 0 ==> baselinePrevious == b[i - 1]
      invariant i > 0 ==> copyEnd <= MaxReal(0.0, actualPrevious.value)
      invariant i > 0 ==> actualPrevious.value - b[i - 1] >= Exposed(b[..i], missing[..i], loads[..i]) + Drops(b[..i])
      invariant i > 0 && Elapsed(b, missing) ==>
        actualPrevious.value - b[i - 1] == Exposed(b[..i], missing[..i], loads[..i]) + Drops(b[..i])
    {
      ReplayStep(b, missing, loads, i);
      var computeReady :=
        if actualPrevious.None? then b[i]
        else actualPrevious.value + MaxReal(0.0, b[i] - baselinePrevious);
      var actual := computeReady;
      if missing[i] {
        var loadStart :=
          if actualPrevious.None? then copyEnd else MaxReal(copyEnd, actualPrevious.value);
        copyEnd := loadStart + loads[i];
        actual := MaxReal(computeReady, copyEnd);
      }
      actualPrevious := Some(actual);
      baselinePrevious := b[i];
    }
    assert b[..|b|] == b && missing[..|b|] == missing && loads[..|b|] == loads;
    stall := MaxReal(0.0, actualPrevious.value - b[|b| - 1]);
  }

  lemma {:induction false} DropsVanish(b: seq<real>)
    ensures Drops(b) == 0.0 <==> NonDecreasing(b)
  {
    if |b| > 1 {
      var n := |b| - 1;
      DropsVanish(b[..n]);
      if NonDecreasing(b[..n]) && b[n - 1] <= b[n] {
        assert forall i :: 0 < i < n ==> b[..n][i - 1] <= b[..n][i];
      }
      if NonDecreasing(b) {
        assert forall i :: 0 < i < n ==> b[..n][i - 1] <= b[..n][i];
      }
    }
  }

  /** Missing more groups, or loading them more slowly, never exposes less. */
  lemma {:induction false} ExposedMonotone(
    b: seq<real>, missing: seq<bool>, more: seq<bool>, loads: seq<real>, slower: seq<real>)
    requires |b| == |missing| == |more| == |loads| == |slower|
    requires forall i :: 0 <= i < |b| ==> (missing[i] ==> more[i]) && loads[i] <= slower[i]
    ensures Exposed(b, missing, loads) <= Exposed(b, more, slower)
    decreases |b|
  {
    if b != [] {
      var n := |b| - 1;
      ExposedMonotone(b[..n], missing[..n], more[..n], loads[..n], slower[..n]);
    }
  }

  lemma {:induction false} NothingExposed(b: seq<real>, missing: seq<bool>, loads: seq<real>)
    requires |b| == |missing| == |loads|
    requires forall i :: 0 <= i < |b| ==> !missing[i]
    ensures Exposed(b, missing, loads) == 0.0
    decreases |b|
  {
    if b != [] {
      var n := |b| - 1;
      NothingExposed(b[..n], missing[..n], loads[..n]);
    }
  }

  // ------------------------------------------------------------ the envelopes

  /** What a stored prefix curve must look like: non-increasing, down to zero. */
  predicate PrefixCurve(values: seq<real>) {
    && values != []
    && values[|values| - 1] == 0.0
    && forall i :: 0 < i < |values| ==> values[i] <= values[i - 1]
  }

  /** What a stored suffix curve must look like: non-decreasing, up from zero. */
  predicate SuffixCurve(values: seq<real>) {
    && values != []
    && values[0] == 0.0
    && forall i :: 0 < i < |values| ==> values[i - 1] <= values[i]
  }

  /** A prefix curve nowhere below the values, whose last one does not count. */
  ghost predicate PrefixBound(curve: seq<real>, values: seq<real>) {
    && |curve| == |values|
    && PrefixCurve(curve)
    && forall i :: 0 <= i < |values| - 1 ==> values[i] <= curve[i]
  }

  ghost predicate LeastPrefixBound(result: seq<real>, values: seq<real>) {
    && PrefixBound(result, values)
    && forall other :: PrefixBound(other, values) ==> forall i :: 0 <= i < |values| ==> result[i] <= other[i]
  }

  method MonotoneEnvelope(values: seq<real>) returns (result: seq<real>)
    ensures values == [] ==> result == []
    ensures values != [] ==> LeastPrefixBound(result, values)
  {
    result := seq(|values|, i requires 0 <= i < |values| => MaxReal(0.0, values[i]));
    if |values| == 0 {
      return;
    }
    var n := |values| - 1;
    result := result[n := 0.0];
    for k := n downto 0
      invariant |result| == n + 1 && result[n] == 0.0
      invariant forall i :: 0 <= i < k ==> result[i] == MaxReal(0.0, values[i])
      invariant forall i :: k < i <= n ==> result[i - 1] == MaxReal(MaxReal(0.0, values[i - 1]), result[i])
    {
      result := result[k := MaxReal(result[k], result[k + 1])];
    }
    forall i | 0 <= i < n ensures values[i] <= result[i] {
      assert result[i + 1 - 1] == MaxReal(MaxReal(0.0, values[i + 1 - 1]), result[i + 1]);
    }
    assert PrefixBound(result, values);
    forall other | PrefixBound(other, values) ensures forall i :: 0 <= i < |values| ==> result[i] <= other[i] {
      forall i | 0 <= i < |values| ensures result[i] <= other[i] {
        PrefixBoundAbove(values, result, other, i);
      }
    }
  }

  lemma {:induction false} PrefixBoundAbove(values: seq<real>, result: seq<real>, other: seq<real>, i: nat)
    requires |result| == |values| && i < |values|
    requires result[|values| - 1] == 0.0
    requires forall k :: 0 < k < |values| ==> result[k - 1] == MaxReal(MaxReal(0.0, values[k - 1]), result[k])
    requires PrefixBound(other, values)
    ensures result[i] <= other[i]
    decreases |values| - i
  {
    if i < |values| - 1 {
      PrefixBoundAbove(values, result, other, i + 1);
      PrefixCurveNonNegative(other, i);
      assert result[i + 1 - 1] == MaxReal(MaxReal(0.0, values[i + 1 - 1]), result[i + 1]);
      assert other[i + 1] <= other[i + 1 - 1];
    }
  }

  lemma {:induction false} PrefixCurveNonNegative(values: seq<real>, i: nat)
    requires PrefixCurve(values) && i < |values|
    ensures values[i] >= 0.0
    decreases |values| - i
  {
    if i < |values| - 1 {
      PrefixCurveNonNegative(values, i + 1);
    }
  }

  lemma {:induction false} SuffixCurveNonNegative(values: seq<real>, i: nat)
    requires SuffixCurve(values) && i < |values|
    ensures values[i] >= 0.0
  {
    if i > 0 {
      SuffixCurveNonNegative(values, i - 1);
    }
  }

  ghost predicate SuffixBound(curve: seq<real>, values: seq<real>) {
    && |curve| == |values|
    && SuffixCurve(curve)
    && forall i :: 0 < i < |values| ==> values[i] <= curve[i]
  }

  ghost predicate LeastSuffixBound(result: seq<real>, values: seq<real>) {
    && SuffixBound(result, values)
    && forall other :: SuffixBound(other, values) ==> forall i :: 0 <= i < |values| ==> result[i] <= other[i]
  }

  method IncreasingMonotoneEnvelope(values: seq<real>) returns (result: seq<real>)
    ensures values == [] ==> result == []
    ensures values != [] ==> LeastSuffixBound(result, values)
  {
    result := seq(|values|, i requires 0 <= i < |values| => MaxReal(0.0, values[i]));
    if |values| == 0 {
      return;
    }
    result := result[0 := 0.0];
    for k := 1 to |values|
      invariant |result| == |values| && result[0] == 0.0
      invariant forall i :: k <= i < |values| ==> result[i] == MaxReal(0.0, values[i])
      invariant forall i :: 0 < i < k ==> result[i] == MaxReal(MaxReal(0.0, values[i]), result[i - 1])
    {
      result := result[k := MaxReal(result[k], result[k - 1])];
    }
    forall i | 0 < i < |values| ensures result[i - 1] <= result[i] && values[i] <= result[i] {
      assert result[i] == MaxReal(MaxReal(0.0, values[i]), result[i - 1]);
    }
    assert SuffixBound(result, values);
    forall other | SuffixBound(other, values) ensures forall i :: 0 <= i < |values| ==> result[i] <= other[i] {
      forall i | 0 <= i < |values| ensures result[i] <= other[i] {
        SuffixBoundAbove(values, result, other, i);
      }
    }
  }

  lemma {:induction false} SuffixBoundAbove(values: seq<real>, result: seq<real>, other: seq<real>, i: nat)
    requires |result| == |values| && i < |values|
    requires result[0] == 0.0
    requires forall k :: 0 < k < |values| ==> result[k] == MaxReal(MaxReal(0.0, values[k]), result[k - 1])
    requires SuffixBound(other, values)
    ensures result[i] <= other[i]
  {
    if i > 0 {
      SuffixBoundAbove(values, result, other, i - 1);
      SuffixCurveNonNegative(other, i);
    }
  }

  /** An envelope leaves its input alone exactly when the input is a curve already. */
  lemma {:induction false} EnvelopeFixesCurves(values: seq<real>, result: seq<real>)
    requires values != [] && LeastPrefixBound(result, values)
    ensures result == values <==> PrefixCurve(values)
  {
    if PrefixCurve(values) {
      assert PrefixBound(values, values);
      forall i | 0 <= i < |values| ensures result[i] == values[i] {
        assert result[i] <= values[i];
      }
    }
  }

  lemma {:induction false} IncreasingEnvelopeFixesCurves(values: seq<real>, result: seq<real>)
    requires values != [] && LeastSuffixBound(result, values)
    ensures result == values <==> SuffixCurve(values)
  {
    if SuffixCurve(values) {
      assert SuffixBound(values, values);
      forall i | 0 <= i < |values| ensures result[i] == values[i] {
        assert result[i] <= values[i];
      }
    }
  }

  // ----------------------------------------------------------- building a row

  /** A profiled weight group: whether its boundary was seen and its bytes. */
  datatype Group = Group(observed: bool, logicalBytes: nat)

  datatype Row = Row(inputTokens: int, boundaries: Option<seq<real>>, prefixStall: seq<real>, suffixStall: Option<seq<real>>)

  /** Loading time of every group, with either cost component switched off by
      passing no bandwidth or a zero allocation time. */
  function LoadTimes(groups: seq<Group>, bytesPerMs: Option<real>, allocationMs: real): (loads: seq<real>)
    requires bytesPerMs.Some? ==> bytesPerMs.value > 0.0
    requires allocationMs >= 0.0
    ensures |loads| == |groups|
    ensures forall i :: 0 <= i < |loads| ==> loads[i] >= 0.0
  {
    seq(|groups|, i requires 0 <= i < |groups| =>
      (if bytesPerMs.Some? then groups[i].logicalBytes as real / bytesPerMs.value else 0.0) + allocationMs)
  }

  /** A group's transfer takes as long as the bandwidth needs for its bytes; its
      allocation takes the allocation time; and with both it takes their sum. */
  lemma {:induction false} LoadTimesAdd(groups: seq<Group>, bytesPerMs: real, allocationMs: real, i: nat)
    requires bytesPerMs > 0.0 && allocationMs >= 0.0 && i < |groups|
    ensures var transfer, allocation := LoadTimes(groups, Some(bytesPerMs), 0.0), LoadTimes(groups, None, allocationMs);
      && bytesPerMs * transfer[i] == groups[i].logicalBytes as real
      && allocation[i] == allocationMs
      && LoadTimes(groups, Some(bytesPerMs), allocationMs)[i] == transfer[i] + allocation[i]
  {
    var bytes := groups[i].logicalBytes as real;
    assert bytesPerMs * (bytes / bytesPerMs) == bytes;
  }

  /** Residency kinds: the first `k` groups, or all groups from `k` on. */
  datatype Residency = Prefix | Suffix

  function Missing(groups: seq<Group>, kind: Residency, k: nat): (missing: seq<bool>)
    ensures |missing| == |groups|
  {
    seq(|groups|, i requires 0 <= i < |groups| =>
      groups[i].observed && if kind == Prefix then i >= k else i < k)
  }

  /** The exact stall of a residency state, in closed form. */
  function StallAt(b: seq<real>, groups: seq<Group>, kind: Residency, loads: seq<real>, k: nat): real
    requires |b| == |groups| == |loads|
  {
    Exposed(b, Missing(groups, kind, k), loads) + Drops(b)
  }

  method StallCurve(b: seq<real>, groups: seq<Group>, kind: Residency, loads: seq<real>) returns (curve: seq<real>)
    requires |b| == |groups| == |loads|
    requires forall i :: 0 <= i < |loads| ==> loads[i] >= 0.0 && b[i] >= 0.0
    ensures |curve| == |groups| + 1
    ensures forall k :: 0 <= k <= |groups| ==> curve[k] == StallAt(b, groups, kind, loads, k)
  {
    curve := [];
    for k := 0 to |groups| + 1
      invariant |curve| == k
      invariant forall j :: 0 <= j < k ==> curve[j] == StallAt(b, groups, kind, loads, j)
    {
      var stall := SimulateStall(b, Missing(groups, kind, k), loads);
      curve := curve + [stall];
    }
  }

  /** Longer prefixes and longer suffixes never stall longer. */
  lemma {:induction false} StallAntitone(
    b: seq<real>, groups: seq<Group>, kind: Residency, loads: seq<real>, j: nat, k: nat)
    requires |b| == |groups| == |loads| && j <= k
    ensures kind == Prefix ==> StallAt(b, groups, kind, loads, k) <= StallAt(b, groups, kind, loads, j)
    ensures kind == Suffix ==> StallAt(b, groups, kind, loads, j) <= StallAt(b, groups, kind, loads, k)
  {
    if kind == Prefix {
      ExposedMonotone(b, Missing(groups, kind, k), Missing(groups, kind, j), loads, loads);
    } else {
      ExposedMonotone(b, Missing(groups, kind, j), Missing(groups, kind, k), loads, loads);
    }
  }

  /** What one group's absence adds: its load beyond the gap before it, if its use was
      observed. With every group there, only backward steps are left. */
  lemma {:induction false} StallStep(b: seq<real>, groups: seq<Group>, kind: Residency, loads: seq<real>, k: nat)
    requires |b| == |groups| == |loads| && k < |groups|
    ensures var excess := if groups[k].observed then MaxReal(0.0, loads[k] - Gap(b, k)) else 0.0;
      && (kind == Prefix ==> StallAt(b, groups, kind, loads, k) == StallAt(b, groups, kind, loads, k + 1) + excess)
      && (kind == Suffix ==> StallAt(b, groups, kind, loads, k + 1) == StallAt(b, groups, kind, loads, k) + excess)
  {
    var more, less := if kind == Prefix then k else k + 1, if kind == Prefix then k + 1 else k;
    OneMoreMissing(b, Missing(groups, kind, less), Missing(groups, kind, more), loads, k, groups[k].observed);
  }

  lemma {:induction false} OneMoreMissing(
    b: seq<real>, missing: seq<bool>, more: seq<bool>, loads: seq<real>, k: nat, observed: bool)
    requires |b| == |missing| == |more| == |loads| && k < |b|
    requires forall i :: 0 <= i < |b| && i != k ==> missing[i] == more[i]
    requires !missing[k] && more[k] == observed
    ensures Exposed(b, more, loads)
      == Exposed(b, missing, loads) + if observed then MaxReal(0.0, loads[k] - Gap(b, k)) else 0.0
  {
    var n := |b| - 1;
    assert Gap(b[..n + 1], n) == Gap(b, n) && b[..n + 1] == b;
    if k == n {
      assert missing[..n] == more[..n];
    } else {
      OneMoreMissing(b[..n], missing[..n], more[..n], loads[..n], k, observed);
      assert Gap(b[..n], k) == Gap(b, k);
    }
  }

  lemma {:induction false} FullyResidentStall(b: seq<real>, groups: seq<Group>, loads: seq<real>)
    requires |b| == |groups| == |loads|
    ensures StallAt(b, groups, Prefix, loads, |groups|) == StallAt(b, groups, Suffix, loads, 0) == Drops(b)
  {
    NothingExposed(b, Missing(groups, Prefix, |groups|), loads);
    NothingExposed(b, Missing(groups, Suffix, 0), loads);
  }

  /** One group alone: what its transfer and allocation take beyond its boundary. */
  lemma {:induction false} OneGroupStall(boundary: real, bytes: nat, bytesPerMs: real, allocationMs: real)
    requires bytesPerMs > 0.0 && allocationMs >= 0.0
    ensures var groups := [Group(true, bytes)];
      var loads := LoadTimes(groups, Some(bytesPerMs), allocationMs);
      var excess := MaxReal(0.0, bytes as real / bytesPerMs + allocationMs - boundary);
      && StallAt([boundary], groups, Prefix, loads, 0) == excess == StallAt([boundary], groups, Suffix, loads, 1)
      && StallAt([boundary], groups, Prefix, loads, 1) == 0.0 == StallAt([boundary], groups, Suffix, loads, 0)
  {
    var groups := [Group(true, bytes)];
    var loads := LoadTimes(groups, Some(bytesPerMs), allocationMs);
    StallStep([boundary], groups, Prefix, loads, 0);
    StallStep([boundary], groups, Suffix, loads, 0);
    FullyResidentStall([boundary], groups, loads);
    assert Drops([boundary]) == 0.0;
  }

  /** The replayed curve is already a storable one exactly when the boundaries
      never step back. */
  lemma {:induction false} CurveIsExact(
    b: seq<real>, groups: seq<Group>, kind: Residency, loads: seq<real>, curve: seq<real>)
    requires |b| == |groups| == |loads|
    requires |curve| == |groups| + 1
    requires forall k :: 0 <= k <= |groups| ==> curve[k] == StallAt(b, groups, kind, loads, k)
    ensures kind == Prefix ==> (PrefixCurve(curve) <==> NonDecreasing(b))
    ensures kind == Suffix ==> (SuffixCurve(curve) <==> NonDecreasing(b))
  {
    DropsVanish(b);
    var full := if kind == Prefix then |groups| else 0;
    NothingExposed(b, Missing(groups, kind, full), loads);
    assert curve[full] == Drops(b);
    forall i | 0 < i < |curve|
      ensures kind == Prefix ==> curve[i] <= curve[i - 1]
      ensures kind == Suffix ==> curve[i - 1] <= curve[i]
    {
      StallAntitone(b, groups, kind, loads, i - 1, i);
    }
  }

  ghost predicate ExactCurve(
    curve: seq<real>, b: seq<real>, groups: seq<Group>, kind: Residency, loads: seq<real>)
    requires |b| == |groups| == |loads|
  {
    |curve| == |groups| + 1 && forall k :: 0 <= k <= |groups| ==> curve[k] == StallAt(b, groups, kind, loads, k)
  }

  /** The stored curve of one residency kind: replay every state, then take the
      envelope, which changes nothing exactly when the boundaries never step back. */
  method StoredCurve(b: seq<real>, groups: seq<Group>, kind: Residency, loads: seq<real>) returns (stored: seq<real>)
    requires |b| == |groups| == |loads|
    requires forall i :: 0 <= i < |loads| ==> loads[i] >= 0.0 && b[i] >= 0.0
    ensures |stored| == |groups| + 1
    ensures if kind == Prefix then PrefixCurve(stored) else SuffixCurve(stored)
    ensures ExactCurve(stored, b, groups, kind, loads) <==> NonDecreasing(b)
  {
    var exact := StallCurve(b, groups, kind, loads);
    CurveIsExact(b, groups, kind, loads, exact);
    if kind == Prefix {
      stored := MonotoneEnvelope(exact);
      EnvelopeFixesCurves(exact, stored);
    } else {
      stored := IncreasingMonotoneEnvelope(exact);
      IncreasingEnvelopeFixesCurves(exact, stored);
    }
    assert ExactCurve(stored, b, groups, kind, loads) <==> stored == exact;
  }

  lemma {:induction false} OneGroupCurves(
    b: seq<real>, groups: seq<Group>, bytesPerMs: real, allocationMs: real, prefix: seq<real>, suffix: seq<real>)
    requires |b| == |groups| == 1 && groups[0].observed && bytesPerMs > 0.0 && allocationMs >= 0.0
    requires var loads := LoadTimes(groups, Some(bytesPerMs), allocationMs);
      ExactCurve(prefix, b, groups, Prefix, loads) && ExactCurve(suffix, b, groups, Suffix, loads)
    ensures var excess := MaxReal(0.0, groups[0].logicalBytes as real / bytesPerMs + allocationMs - b[0]);
      prefix == [excess, 0.0] && suffix == [0.0, excess]
  {
    hide StallAt, LoadTimes;
    OneGroupStall(b[0], groups[0].logicalBytes, bytesPerMs, allocationMs);
    assert b == [b[0]] && groups == [Group(true, groups[0].logicalBytes)];
  }

  /** There is a measured overhead, and an observed boundary to charge it to. */
  predicate Corrects(groups: seq<Group>, overheadMs: real) {
    ObservedCount(groups) > 0 && overheadMs > 0.0
  }

  /** One table row, as the builder emits it from measured boundaries. */
  method BuildRow(
    inputTokens: int, raw: seq<real>, groups: seq<Group>, overheadMs: real, bytesPerMs: real, allocationMs: real)
    returns (row: Row)
    requires |raw| == |groups| && bytesPerMs > 0.0 && allocationMs >= 0.0
    requires forall i :: 0 <= i < |raw| ==> raw[i] >= 0.0
    // the loader accepts the row
    ensures ValidRow(row, |groups|)
    ensures row.inputTokens == inputTokens && row.suffixStall.Some?
    ensures row.boundaries.Some? && |row.boundaries.value| == |groups|
    ensures !Corrects(groups, overheadMs) ==> row.boundaries.value == raw
    ensures Corrects(groups, overheadMs) ==> CorrectedBy(raw, groups, overheadMs, row.boundaries.value)
    // its curves are the exact stalls if and only if an overhead was removed or
    // no measured boundary steps back
    ensures var loads := LoadTimes(groups, Some(bytesPerMs), allocationMs);
      && (ExactCurve(row.prefixStall, row.boundaries.value, groups, Prefix, loads)
          <==> Corrects(groups, overheadMs) || NonDecreasing(raw))
      && (ExactCurve(row.suffixStall.value, row.boundaries.value, groups, Suffix, loads)
          <==> Corrects(groups, overheadMs) || NonDecreasing(raw))
    // one observed group stalls for what its transfer and allocation take beyond it
    ensures |groups| == 1 && groups[0].observed && !Corrects(groups, overheadMs) ==>
      var excess := MaxReal(0.0, groups[0].logicalBytes as real / bytesPerMs + allocationMs - raw[0]);
      row.prefixStall == [excess, 0.0] && row.suffixStall == Some([0.0, excess])
  {
    hide ExactCurve, LoadTimes, CorrectedBy;
    var b := CorrectEventOverhead(raw, groups, overheadMs);
    var loads := LoadTimes(groups, Some(bytesPerMs), allocationMs);
    var prefix := StoredCurve(b, groups, Prefix, loads);
    var suffix := StoredCurve(b, groups, Suffix, loads);
    row := Row(inputTokens, Some(b), prefix, Some(suffix));
    if |groups| == 1 && groups[0].observed && !Corrects(groups, overheadMs) {
      OneGroupCurves(b, groups, bytesPerMs, allocationMs, prefix, suffix);
    }
  }

  function ObservedCount(groups: seq<Group>): nat {
    if groups == [] then 0
    else ObservedCount(groups[..|groups| - 1]) + if groups[|groups| - 1].observed then 1 else 0
  }

  function OverheadShare(overhead: real, rank: nat, total: nat): real
    requires total > 0
  {
    overhead * rank as real / total as real
  }

  /** Boundary `i` less the overhead of the observed boundaries up to it. */
  function Reduced(raw: seq<real>, groups: seq<Group>, overhead: real, i: nat): real
    requires i < |raw| == |groups| && ObservedCount(groups) > 0
  {
    raw[i] - OverheadShare(overhead, ObservedCount(groups[..i + 1]), ObservedCount(groups))
  }

  /** What boundary `i` loses more than the one before it. */
  function Part(raw: seq<real>, groups: seq<Group>, overhead: real, i: nat): real
    requires i < |raw| == |groups| && ObservedCount(groups) > 0
  {
    raw[i] - Reduced(raw, groups, overhead, i) - if i == 0 then 0.0 else raw[i - 1] - Reduced(raw, groups, overhead, i - 1)
  }

  /** Every observed boundary takes the same part of the overhead, any other one none,
      and together they take all of it. */
  lemma {:induction false} OverheadIsUniform(raw: seq<real>, groups: seq<Group>, overhead: real, i: nat, j: nat)
    requires i < |raw| == |groups| && j < |raw| && ObservedCount(groups) > 0
    ensures !groups[i].observed ==> Part(raw, groups, overhead, i) == 0.0
    ensures groups[i].observed && groups[j].observed ==> Part(raw, groups, overhead, i) == Part(raw, groups, overhead, j)
    ensures i == |raw| - 1 ==> raw[i] - Reduced(raw, groups, overhead, i) == overhead
  {
    PartIs(raw, groups, overhead, i);
    PartIs(raw, groups, overhead, j);
    hide Part, OverheadShare, ObservedCount;
    if i == |raw| - 1 {
      assert groups[..i + 1] == groups;
      ShareAll(overhead, ObservedCount(groups));
    }
  }

  lemma {:induction false} PartIs(raw: seq<real>, groups: seq<Group>, overhead: real, i: nat)
    requires i < |raw| == |groups| && ObservedCount(groups) > 0
    ensures Part(raw, groups, overhead, i) == if groups[i].observed then OverheadShare(overhead, 1, ObservedCount(groups)) else 0.0
  {
    hide OverheadShare;
    var total, rank, next := ObservedCount(groups), ObservedCount(groups[..i]), ObservedCount(groups[..i + 1]);
    assert groups[..i + 1][..i] == groups[..i];
    hide ObservedCount;
    ShareNone(overhead, total);
    ShareNext(overhead, rank, total);
  }

  lemma {:induction false} ShareNext(overhead: real, rank: nat, total: nat)
    requires total > 0
    ensures OverheadShare(overhead, rank + 1, total) == OverheadShare(overhead, rank, total) + OverheadShare(overhead, 1, total)
  {
    assert overhead * (rank + 1) as real == overhead * rank as real + overhead;
  }

  lemma {:induction false} ShareNone(overhead: real, total: nat)
    requires total > 0
    ensures OverheadShare(overhead, 0, total) == 0.0
  {
  }

  lemma {:induction false} ShareAll(overhead: real, total: nat)
    requires total > 0
    ensures OverheadShare(overhead, total, total) == overhead
  {
    ShareTimes(overhead, total, total);
  }

  lemma {:induction false} ShareTimes(overhead: real, rank: nat, total: nat)
    requires total > 0
    ensures total as real * OverheadShare(overhead, rank, total) == overhead * rank as real
    ensures rank == total ==> OverheadShare(overhead, rank, total) == overhead
  {
    var x, y := overhead * rank as real, total as real;
    assert y * (x / y) == x;
  }

  /** The boundaries less their share of the overhead, by a running observed rank. */
  method ApportionOverhead(raw: seq<real>, groups: seq<Group>, overheadMs: real) returns (reduced: seq<real>)
    requires |raw| == |groups| && ObservedCount(groups) > 0
    ensures |reduced| == |raw|
    ensures forall i :: 0 <= i < |raw| ==> reduced[i] == Reduced(raw, groups, overheadMs, i)
  {
    reduced := [];
    var rank, total := 0, ObservedCount(groups);
    for i := 0 to |raw|
      invariant |reduced| == i && rank == ObservedCount(groups[..i])
      invariant forall k :: 0 <= k < i ==> reduced[k] == Reduced(raw, groups, overheadMs, k)
    {
      assert groups[..i + 1][..i] == groups[..i];
      if groups[i].observed {
        rank := rank + 1;
      }
      var value := raw[i] - OverheadShare(overheadMs, rank, total);
      assert value == Reduced(raw, groups, overheadMs, i);
      reduced := reduced + [value];
    }
  }

  /** The largest of zero and the values. */
  function Peak(values: seq<real>): (r: real)
    ensures r >= 0.0
  {
    if values == [] then 0.0 else MaxReal(Peak(values[..|values| - 1]), values[|values| - 1])
  }

  lemma {:induction false} PeakIsGreatest(values: seq<real>)
    ensures forall i :: 0 <= i < |values| ==> values[i] <= Peak(values)
    ensures Peak(values) == 0.0 || Peak(values) in values
  {
    if values != [] {
      PeakIsGreatest(values[..|values| - 1]);
    }
  }

  method RunningPeak(values: seq<real>) returns (peaks: seq<real>)
    ensures |peaks| == |values|
    ensures forall i :: 0 <= i < |values| ==> peaks[i] == Peak(values[..i + 1])
    ensures NonDecreasing(peaks)
  {
    peaks := [];
    var previous := 0.0;
    for i := 0 to |values|
      invariant |peaks| == i
      invariant previous == Peak(values[..i])
      invariant forall k :: 0 <= k < i ==> peaks[k] == Peak(values[..k + 1])
      invariant NonDecreasing(peaks) && (i > 0 ==> peaks[i - 1] == previous)
    {
      assert values[..i + 1][..i] == values[..i];
      previous := MaxReal(MaxReal(previous, values[i]), 0.0);
      peaks := peaks + [previous];
    }
  }

  /** The running peak of the boundaries less their share of the overhead. */
  ghost predicate CorrectedBy(raw: seq<real>, groups: seq<Group>, overheadMs: real, corrected: seq<real>)
    requires |raw| == |groups| && ObservedCount(groups) > 0
  {
    && |corrected| == |raw|
    && exists reduced: seq<real> ::
         && |reduced| == |raw|
         && (forall i :: 0 <= i < |raw| ==> reduced[i] == Reduced(raw, groups, overheadMs, i))
         && (forall i :: 0 <= i < |raw| ==> corrected[i] == Peak(reduced[..i + 1]))
  }

  /** Apportion the measured hook overhead over the observed boundaries. */
  method CorrectEventOverhead(raw: seq<real>, groups: seq<Group>, overheadMs: real) returns (corrected: seq<real>)
    requires |raw| == |groups|
    requires forall i :: 0 <= i < |raw| ==> raw[i] >= 0.0
    ensures |corrected| == |raw|
    ensures forall i :: 0 <= i < |raw| ==> corrected[i] >= 0.0
    ensures !Corrects(groups, overheadMs) ==> corrected == raw
    ensures Corrects(groups, overheadMs) ==> NonDecreasing(corrected) && CorrectedBy(raw, groups, overheadMs, corrected)
  {
    if |raw| == 0 || ObservedCount(groups) == 0 || overheadMs <= 0.0 {
      return raw;
    }
    var reduced := ApportionOverhead(raw, groups, overheadMs);
    corrected := RunningPeak(reduced);
  }

  // ------------------------------------------------------- loader validation

  predicate ValidRow(row: Row, groupCount: nat) {
    && |row.prefixStall| == groupCount + 1
    && PrefixCurve(row.prefixStall)
    && (row.suffixStall.Some? ==>
          |row.suffixStall.value| == groupCount + 1 && SuffixCurve(row.suffixStall.value))
  }

  /** One model of the table, its rows ordered by token count. */
  datatype ModelTable = ModelTable(groups: seq<Group>, prefixBytes: seq<int>, rows: seq<Row>)

  /** Everything the loader checks about a model. */
  predicate ValidModel(t: ModelTable) {
    && |t.prefixBytes| == |t.groups| + 1
    && (forall i :: 0 < i < |t.prefixBytes| ==> t.prefixBytes[i - 1] <= t.prefixBytes[i])
    && t.rows != []
    && (forall i :: 0 < i < |t.rows| ==> t.rows[i - 1].inputTokens < t.rows[i].inputTokens)
    && (forall i :: 0 <= i < |t.rows| ==> ValidRow(t.rows[i], |t.groups|))
  }

  /** In a table that loads, longer prefixes never have fewer bytes, and later rows
      always have more tokens. */
  lemma {:induction false} ModelOrdered(t: ModelTable, i: nat, j: nat)
    requires ValidModel(t) && i <= j
    ensures j < |t.prefixBytes| ==> t.prefixBytes[i] <= t.prefixBytes[j]
    ensures i < j < |t.rows| ==> t.rows[i].inputTokens < t.rows[j].inputTokens
  {
    if i < j {
      ModelOrdered(t, i, j - 1);
    }
  }

  // ------------------------------------------------------- building a model

  /** What was measured for one token count. */
  datatype Measured = Measured(boundaries: seq<real>, overheadMs: real)

  /** Logical bytes of the first `k` groups. */
  function LogicalBytes(groups: seq<Group>, k: nat): nat
    requires k <= |groups|
  {
    if k == 0 then 0 else LogicalBytes(groups, k - 1) + groups[k - 1].logicalBytes
  }

  method PrefixByteCounts(groups: seq<Group>) returns (prefixBytes: seq<int>)
    ensures |prefixBytes| == |groups| + 1
    ensures forall k :: 0 <= k <= |groups| ==> prefixBytes[k] == LogicalBytes(groups, k)
  {
    prefixBytes := [0];
    for k := 0 to |groups|
      invariant |prefixBytes| == k + 1
      invariant forall j :: 0 <= j <= k ==> prefixBytes[j] == LogicalBytes(groups, j)
    {
      prefixBytes := prefixBytes + [prefixBytes[k] + groups[k].logicalBytes];
    }
  }

  /** The row was built from what was measured for its token count. */
  ghost predicate BuiltFrom(row: Row, measured: Measured, groups: seq<Group>, bytesPerMs: real, allocationMs: real)
    requires |measured.boundaries| == |groups| && bytesPerMs > 0.0 && allocationMs >= 0.0
  {
    var loads := LoadTimes(groups, Some(bytesPerMs), allocationMs);
    && row.boundaries.Some? && |row.boundaries.value| == |groups| && row.suffixStall.Some?
    && (if Corrects(groups, measured.overheadMs)
        then CorrectedBy(measured.boundaries, groups, measured.overheadMs, row.boundaries.value)
        else row.boundaries.value == measured.boundaries)
    && (ExactCurve(row.prefixStall, row.boundaries.value, groups, Prefix, loads)
        <==> Corrects(groups, measured.overheadMs) || NonDecreasing(measured.boundaries))
    && (ExactCurve(row.suffixStall.value, row.boundaries.value, groups, Suffix, loads)
        <==> Corrects(groups, measured.overheadMs) || NonDecreasing(measured.boundaries))
  }

  /** A row built for token count `x`, which the loader accepts. */
  ghost predicate RowFor(row: Row, x: int, measured: Measured, groups: seq<Group>, bytesPerMs: real, allocationMs: real)
    requires |measured.boundaries| == |groups| && bytesPerMs > 0.0 && allocationMs >= 0.0
  {
    && row.inputTokens == x
    && ValidRow(row, |groups|)
    && BuiltFrom(row, measured, groups, bytesPerMs, allocationMs)
  }

  /** The rows built so far are those of the smallest token counts. */
  ghost predicate RowsFor(
    rows: seq<Row>, profiles: map<int, Measured>, groups: seq<Group>, bytesPerMs: real, allocationMs: real)
    requires bytesPerMs > 0.0 && allocationMs >= 0.0
  {
    var tokens := Sorted(profiles.Keys);
    && |rows| <= |tokens|
    && forall j :: 0 <= j < |rows| ==>
         && tokens[j] in profiles
         && |profiles[tokens[j]].boundaries| == |groups|
         && RowFor(rows[j], tokens[j], profiles[tokens[j]], groups, bytesPerMs, allocationMs)
  }

  /** The token counts of all rows, in order. */
  lemma {:induction false} RowsForTokens(
    rows: seq<Row>, profiles: map<int, Measured>, groups: seq<Group>, bytesPerMs: real, allocationMs: real)
    requires bytesPerMs > 0.0 && allocationMs >= 0.0
    requires RowsFor(rows, profiles, groups, bytesPerMs, allocationMs)
    ensures forall i :: 0 <= i < |rows| ==> rows[i].inputTokens == Sorted(profiles.Keys)[i] && ValidRow(rows[i], |groups|)
    ensures forall i :: 0 < i < |rows| ==> rows[i - 1].inputTokens < rows[i].inputTokens
    ensures |rows| == |Sorted(profiles.Keys)| ==> forall x :: x in profiles ==> |profiles[x].boundaries| == |groups|
  {
    hide BuiltFrom, ValidRow;
    if |rows| == |Sorted(profiles.Keys)| {
      forall x | x in profiles ensures |profiles[x].boundaries| == |groups| {
        assert x in Sorted(profiles.Keys);
      }
    }
  }

  lemma {:induction false} RowsNonEmpty(
    rows: seq<Row>, profiles: map<int, Measured>, groups: seq<Group>, bytesPerMs: real, allocationMs: real)
    requires bytesPerMs > 0.0 && allocationMs >= 0.0
    requires RowsFor(rows, profiles, groups, bytesPerMs, allocationMs) && |rows| == |Sorted(profiles.Keys)|
    ensures rows == [] <==> profiles == map[]
  {
    hide BuiltFrom, ValidRow;
    if profiles != map[] {
      var x := Member(profiles.Keys);
      assert x in Sorted(profiles.Keys);
    }
    if rows != [] {
      assert Sorted(profiles.Keys)[0] in profiles;
    }
  }

  lemma {:induction false} LogicalBytesGrow(groups: seq<Group>, prefixBytes: seq<int>)
    requires |prefixBytes| == |groups| + 1
    requires forall k :: 0 <= k <= |groups| ==> prefixBytes[k] == LogicalBytes(groups, k)
    ensures forall k :: 0 < k < |prefixBytes| ==> prefixBytes[k - 1] <= prefixBytes[k]
  {
    forall k | 0 < k < |prefixBytes| ensures prefixBytes[k - 1] <= prefixBytes[k] {
      assert LogicalBytes(groups, k) == LogicalBytes(groups, k - 1) + groups[k - 1].logicalBytes;
    }
  }

  lemma {:induction false} BuiltModelValid(
    t: ModelTable, profiles: map<int, Measured>, bytesPerMs: real, allocationMs: real)
    requires bytesPerMs > 0.0 && allocationMs >= 0.0
    requires RowsFor(t.rows, profiles, t.groups, bytesPerMs, allocationMs) && |t.rows| == |Sorted(profiles.Keys)|
    requires |t.prefixBytes| == |t.groups| + 1
    requires forall k :: 0 <= k <= |t.groups| ==> t.prefixBytes[k] == LogicalBytes(t.groups, k)
    ensures ValidModel(t) <==> profiles != map[]
    ensures Tokens(t) == Sorted(profiles.Keys)
  {
    hide RowsFor, ValidRow, LogicalBytes, Sorted;
    RowsForTokens(t.rows, profiles, t.groups, bytesPerMs, allocationMs);
    RowsNonEmpty(t.rows, profiles, t.groups, bytesPerMs, allocationMs);
    LogicalBytesGrow(t.groups, t.prefixBytes);
  }

  method BuildProfileRow(x: int, measured: Measured, groups: seq<Group>, bytesPerMs: real, allocationMs: real)
    returns (row: Row)
    requires |measured.boundaries| == |groups| && bytesPerMs > 0.0 && allocationMs >= 0.0
    requires forall i :: 0 <= i < |measured.boundaries| ==> measured.boundaries[i] >= 0.0
    ensures RowFor(row, x, measured, groups, bytesPerMs, allocationMs)
  {
    row := BuildRow(x, measured.boundaries, groups, measured.overheadMs, bytesPerMs, allocationMs);
  }

  /** All rows of a profile, or nothing if some boundary list has the wrong length. */
  method BuildRows(groups: seq<Group>, profiles: map<int, Measured>, bytesPerMs: real, allocationMs: real)
    returns (rows: Option<seq<Row>>)
    requires bytesPerMs > 0.0 && allocationMs >= 0.0
    requires forall x :: x in profiles ==>
      forall i :: 0 <= i < |profiles[x].boundaries| ==> profiles[x].boundaries[i] >= 0.0
    ensures rows.Some? <==> forall x :: x in profiles ==> |profiles[x].boundaries| == |groups|
    ensures rows.Some? ==>
      RowsFor(rows.value, profiles, groups, bytesPerMs, allocationMs) && |rows.value| == |Sorted(profiles.Keys)|
  {
    hide RowFor;
    var tokens := Sorted(profiles.Keys);
    var built: seq<Row> := [];
    for i := 0 to |tokens|
      invariant |built| == i && RowsFor(built, profiles, groups, bytesPerMs, allocationMs)
    {
      var x := tokens[i];
      assert x in tokens;
      if |profiles[x].boundaries| != |groups| {
        return None;
      }
      var row := BuildProfileRow(x, profiles[x], groups, bytesPerMs, allocationMs);
      built := built + [row];
    }
    RowsForTokens(built, profiles, groups, bytesPerMs, allocationMs);
    rows := Some(built);
  }

  /** One model of the table from its profile. It fails exactly when some token
      count was measured with another number of boundaries, and what it builds is
      accepted by the loader exactly when anything was measured at all. */
  method BuildModel(
    groups: seq<Group>, profiles: map<int, Measured>, bytesPerMs: real, allocationMs: real)
    returns (t: Option<ModelTable>)
    requires bytesPerMs > 0.0 && allocationMs >= 0.0
    requires forall x :: x in profiles ==>
      forall i :: 0 <= i < |profiles[x].boundaries| ==> profiles[x].boundaries[i] >= 0.0
    ensures t.Some? <==> forall x :: x in profiles ==> |profiles[x].boundaries| == |groups|
    ensures t.Some? ==>
      && t.value.groups == groups
      && |t.value.prefixBytes| == |groups| + 1
      && (forall k :: 0 <= k <= |groups| ==> t.value.prefixBytes[k] == LogicalBytes(groups, k))
      && RowsFor(t.value.rows, profiles, groups, bytesPerMs, allocationMs)
      && Tokens(t.value) == Sorted(profiles.Keys)
      && (ValidModel(t.value) <==> profiles != map[])
  {
    hide RowsFor, ValidModel, Sorted, Tokens;
    var prefixBytes := PrefixByteCounts(groups);
    var rows := BuildRows(groups, profiles, bytesPerMs, allocationMs);
    if rows.None? {
      return None;
    }
    t := Some(ModelTable(groups, prefixBytes, rows.value));
    BuiltModelValid(t.value, profiles, bytesPerMs, allocationMs);
  }

  // ------------------------------------------------------------------ lookup

  /** What to do with token counts above the last measured one. */
  datatype Extrapolation = Clamp | Linear

  ghost predicate Increasing(tokens: seq<int>) {
    forall i, j :: 0 <= i < j < |tokens| ==> tokens[i] < tokens[j]
  }

  /** `bisect.bisect_right`: the first position whose token count exceeds `x`. */
  function BisectRight(tokens: seq<int>, x: int): (r: nat)
    ensures r <= |tokens|
    ensures forall i :: 0 <= i < r ==> tokens[i] <= x
    ensures r < |tokens| ==> x < tokens[r]
  {
    if tokens == [] || x < tokens[0] then 0 else 1 + BisectRight(tokens[1..], x)
  }

  function Weight(x: int, left: int, right: int): (w: real)
    requires left < right
    ensures left <= x <= right ==> 0.0 <= w <= 1.0
    ensures x == left ==> w == 0.0
    ensures x == right ==> w == 1.0
  {
    var span, w := (right - left) as real, (x - left) as real / (right - left) as real;
    assert w * span == (x - left) as real;
    w
  }

  function Blend(left: real, right: real, w: real): real {
    left + w * (right - left)
  }

  /** The two rows a token count is interpolated between. */
  function Bracket(tokens: seq<int>, x: int): (lower: nat)
    requires |tokens| >= 2 && tokens[0] < x
    ensures lower + 1 < |tokens|
    ensures x < tokens[|tokens| - 1] ==> tokens[lower] <= x < tokens[lower + 1]
  {
    if x >= tokens[|tokens| - 1] then |tokens| - 2
    else
      assert BisectRight(tokens, x) > 0;
      BisectRight(tokens, x) - 1
  }

  /** Piecewise-linear interpolation over the measured token counts. */
  function Interpolate(tokens: seq<int>, values: seq<real>, x: int, policy: Extrapolation): real
    requires |tokens| == |values| >= 1 && Increasing(tokens)
  {
    var last := |tokens| - 1;
    if x <= tokens[0] then values[0]
    else if x >= tokens[last] && (policy == Clamp || |tokens| == 1) then values[last]
    else
      var lower := Bracket(tokens, x);
      MaxReal(0.0, Blend(values[lower], values[lower + 1], Weight(x, tokens[lower], tokens[lower + 1])))
  }

  /** The lookup needs no row beyond the measured range, or may not use one. */
  predicate InRange(tokens: seq<int>, x: int, policy: Extrapolation)
    requires |tokens| >= 1
  {
    policy == Clamp || |tokens| == 1 || x <= tokens[|tokens| - 1]
  }

  lemma {:induction false} BlendMonotone(left: real, right: real, left': real, right': real, w: real)
    requires 0.0 <= w <= 1.0 && left <= left' && right <= right'
    ensures Blend(left, right, w) <= Blend(left', right', w)
  {
    var v, dl, dr := 1.0 - w, left' - left, right' - right;
    assert v * dl >= 0.0 && w * dr >= 0.0;
    assert Blend(left + dl, right + dr, w) == Blend(left, right, w) + v * dl + w * dr;
  }

  lemma {:induction false} BlendBetween(left: real, right: real, w: real)
    requires 0.0 <= w <= 1.0
    ensures left <= right ==> left <= Blend(left, right, w) <= right
    ensures right <= left ==> right <= Blend(left, right, w) <= left
  {
    var low, high := if left <= right then left else right, MaxReal(left, right);
    BlendMonotone(low, low, left, right, w);
    BlendMonotone(left, right, high, high, w);
  }

  /** In range, an interpolated value lies between those of its bracketing rows,
      and a measured token count gives back the measured value. */
  lemma {:induction false} InterpolateBetween(tokens: seq<int>, values: seq<real>, x: int, policy: Extrapolation)
    requires |tokens| == |values| >= 1 && Increasing(tokens) && InRange(tokens, x, policy)
    requires forall i :: 0 <= i < |values| ==> values[i] >= 0.0
    ensures var r := Interpolate(tokens, values, x, policy);
      if x <= tokens[0] then r == values[0]
      else if x >= tokens[|tokens| - 1] then r == values[|tokens| - 1]
      else
        var l := Bracket(tokens, x);
        && tokens[l] <= x < tokens[l + 1]
        && (values[l] <= r <= values[l + 1] || values[l + 1] <= r <= values[l])
        && (x == tokens[l] ==> r == values[l])
  {
    if tokens[0] < x && (x < tokens[|tokens| - 1] || (policy == Linear && |tokens| > 1)) {
      var l := Bracket(tokens, x);
      BlendBetween(values[l], values[l + 1], Weight(x, tokens[l], tokens[l + 1]));
    }
  }

  /** In range, interpolation keeps the order of pointwise ordered columns. */
  lemma {:induction false} InterpolateMonotone(
    tokens: seq<int>, values: seq<real>, larger: seq<real>, x: int, policy: Extrapolation)
    requires |tokens| == |values| == |larger| >= 1 && Increasing(tokens) && InRange(tokens, x, policy)
    requires forall i :: 0 <= i < |values| ==> values[i] <= larger[i]
    ensures Interpolate(tokens, values, x, policy) <= Interpolate(tokens, larger, x, policy)
  {
    if tokens[0] < x && (x < tokens[|tokens| - 1] || (policy == Linear && |tokens| > 1)) {
      var l := Bracket(tokens, x);
      BlendMonotone(values[l], values[l + 1], larger[l], larger[l + 1], Weight(x, tokens[l], tokens[l + 1]));
    }
  }

  function Tokens(t: ModelTable): (tokens: seq<int>)
    ensures |tokens| == |t.rows|
    ensures forall i :: 0 <= i < |tokens| ==> tokens[i] == t.rows[i].inputTokens
  {
    seq(|t.rows|, i requires 0 <= i < |t.rows| => t.rows[i].inputTokens)
  }

  lemma {:induction false} TokensIncrease(t: ModelTable)
    requires ValidModel(t)
    ensures Increasing(Tokens(t))
  {
    forall i, j | 0 <= i < j < |t.rows| ensures Tokens(t)[i] < Tokens(t)[j] {
      TokensOrdered(t, i, j);
    }
  }

  lemma {:induction false} TokensOrdered(t: ModelTable, i: nat, j: nat)
    requires ValidModel(t) && i < j < |t.rows|
    ensures t.rows[i].inputTokens < t.rows[j].inputTokens
  {
    if i < j - 1 {
      TokensOrdered(t, i, j - 1);
    }
  }

  predicate HasCurve(t: ModelTable, kind: Residency) {
    kind == Prefix || forall i :: 0 <= i < |t.rows| ==> t.rows[i].suffixStall.Some?
  }

  /** The stored stalls of one residency state over all rows. */
  function Column(t: ModelTable, kind: Residency, k: nat): (values: seq<real>)
    requires ValidModel(t) && HasCurve(t, kind) && k <= |t.groups|
    ensures |values| == |t.rows|
    ensures forall i :: 0 <= i < |values| ==>
      values[i] == if kind == Prefix then t.rows[i].prefixStall[k] else t.rows[i].suffixStall.value[k]
  {
    seq(|t.rows|, i requires 0 <= i < |t.rows| =>
      if kind == Prefix then t.rows[i].prefixStall[k] else t.rows[i].suffixStall.value[k])
  }

  /** `lookup` and `lookup_suffix`; nothing stands for the raised errors, a state
      outside the model or a table without that curve. */
  function Lookup(t: ModelTable, policy: Extrapolation, x: int, kind: Residency, k: nat): Option<real>
    requires ValidModel(t)
  {
    if k > |t.groups| || !HasCurve(t, kind) then None
    else
      TokensIncrease(t);
      Some(Interpolate(Tokens(t), Column(t, kind, k), x, policy))
  }

  lemma {:induction false} CurveOrdered(values: seq<real>, kind: Residency, j: nat, k: nat)
    requires j <= k < |values|
    requires if kind == Prefix then PrefixCurve(values) else SuffixCurve(values)
    ensures if kind == Prefix then values[k] <= values[j] else values[j] <= values[k]
  {
    if j < k {
      CurveOrdered(values, kind, j, k - 1);
    }
  }

  lemma {:induction false} ColumnsOrdered(t: ModelTable, kind: Residency, j: nat, k: nat)
    requires ValidModel(t) && HasCurve(t, kind) && j <= k <= |t.groups|
    ensures forall i :: 0 <= i < |t.rows| ==>
      if kind == Prefix then Column(t, kind, k)[i] <= Column(t, kind, j)[i]
      else Column(t, kind, j)[i] <= Column(t, kind, k)[i]
    ensures forall i :: 0 <= i < |t.rows| ==> Column(t, kind, k)[i] >= 0.0
  {
    forall i | 0 <= i < |t.rows|
      ensures if kind == Prefix then Column(t, kind, k)[i] <= Column(t, kind, j)[i]
              else Column(t, kind, j)[i] <= Column(t, kind, k)[i]
      ensures Column(t, kind, k)[i] >= 0.0
    {
      var row := t.rows[i];
      assert ValidRow(row, |t.groups|);
      if kind == Prefix {
        CurveOrdered(row.prefixStall, kind, j, k);
        PrefixCurveNonNegative(row.prefixStall, k);
      } else {
        CurveOrdered(row.suffixStall.value, kind, j, k);
        SuffixCurveNonNegative(row.suffixStall.value, k);
      }
    }
  }

  /** In range, holding more groups never raises the looked-up stall, and holding
      all of them removes it. */
  lemma {:induction false} LookupAntitone(
    t: ModelTable, policy: Extrapolation, x: int, kind: Residency, j: nat, k: nat)
    requires ValidModel(t) && HasCurve(t, kind) && j <= k <= |t.groups|
    requires InRange(Tokens(t), x, policy)
    ensures Lookup(t, policy, x, kind, j).Some? && Lookup(t, policy, x, kind, k).Some?
    ensures kind == Prefix ==> Lookup(t, policy, x, kind, k).value <= Lookup(t, policy, x, kind, j).value
    ensures kind == Suffix ==> Lookup(t, policy, x, kind, j).value <= Lookup(t, policy, x, kind, k).value
    ensures Lookup(t, policy, x, kind, k).value >= 0.0
    ensures Lookup(t, policy, x, kind, if kind == Prefix then |t.groups| else 0) == Some(0.0)
  {
    TokensIncrease(t);
    ColumnsOrdered(t, kind, j, k);
    if kind == Prefix {
      InterpolateMonotone(Tokens(t), Column(t, kind, k), Column(t, kind, j), x, policy);
    } else {
      InterpolateMonotone(Tokens(t), Column(t, kind, j), Column(t, kind, k), x, policy);
    }
    LookupNonNegative(t, policy, x, kind, k);
    FullResidency(t, policy, x, kind);
  }

  lemma {:induction false} LookupNonNegative(t: ModelTable, policy: Extrapolation, x: int, kind: Residency, k: nat)
    requires ValidModel(t) && HasCurve(t, kind) && k <= |t.groups|
    ensures Lookup(t, policy, x, kind, k).value >= 0.0
  {
    TokensIncrease(t);
    ColumnsOrdered(t, kind, k, k);
  }

  lemma {:induction false} FullResidency(t: ModelTable, policy: Extrapolation, x: int, kind: Residency)
    requires ValidModel(t) && HasCurve(t, kind) && InRange(Tokens(t), x, policy)
    ensures Lookup(t, policy, x, kind, if kind == Prefix then |t.groups| else 0) == Some(0.0)
  {
    TokensIncrease(t);
    var full := if kind == Prefix then |t.groups| else 0;
    forall i | 0 <= i < |t.rows| ensures Column(t, kind, full)[i] == 0.0 {
      assert ValidRow(t.rows[i], |t.groups|);
    }
    InterpolateBetween(Tokens(t), Column(t, kind, full), x, policy);
  }

  /** Scaled by the last row distance, the extrapolated stall of a state `t` tokens
      beyond the last row: `r` there, `d` more than in the row before. */
  function Extrapolated(span: int, t: int, r: real, d: real): real {
    span as real * r + t as real * d
  }

  lemma {:induction false} BlendBeyond(previous: real, last: real, span: int, t: int)
    requires span > 0
    ensures span as real * Blend(previous, last, (t + span) as real / span as real)
      == Extrapolated(span, t, last, last - previous)
  {
    var w, d := (t + span) as real / span as real, last - previous;
    assert span as real * (w * d) == (span as real * w) * d;
    assert span as real * w == t as real + span as real;
  }

  lemma {:induction false} InterpolateBeyond(tokens: seq<int>, values: seq<real>, x: int)
    requires |tokens| == |values| >= 2 && Increasing(tokens) && tokens[|tokens| - 1] <= x
    ensures var n := |tokens| - 1;
      var span := tokens[n] - tokens[n - 1];
      var scaled := Extrapolated(span, x - tokens[n], values[n], values[n] - values[n - 1]);
      span as real * Interpolate(tokens, values, x, Linear) == MaxReal(0.0, scaled)
  {
    var n := |tokens| - 1;
    var span := tokens[n] - tokens[n - 1];
    assert tokens[0] <= tokens[n - 1] < tokens[n];
    assert Bracket(tokens, x) == n - 1;
    BlendBeyond(values[n - 1], values[n], span, x - tokens[n]);
    ScaleMax(span as real, Blend(values[n - 1], values[n], Weight(x, tokens[n - 1], tokens[n])));
  }

  lemma {:induction false} ScaleMax(c: real, v: real)
    requires c > 0.0
    ensures c * MaxReal(0.0, v) == MaxReal(0.0, c * v)
  {
    if v >= 0.0 {
      assert c * v >= 0.0;
    } else {
      assert c * -v > 0.0;
    }
  }

  lemma {:induction false} ScaleOrder(c: real, u: real, v: real)
    requires c > 0.0
    ensures c * u <= c * v <==> u <= v
  {
    if u <= v {
      assert c * (v - u) >= 0.0;
    } else {
      assert c * (u - v) > 0.0;
    }
  }

  /** A line at `s` rising by `e` is not above one at `r` rising by `d`, `beyond`
      tokens after the last of two rows `span` tokens apart: the token count is not
      past their crossing, or the first line is not above zero any more. */
  predicate NotAbove(span: int, beyond: int, s: real, e: real, r: real, d: real) {
    || beyond as real * (e - d) <= span as real * (r - s)
    || span as real * s + beyond as real * e <= 0.0
  }

  lemma {:induction false} NotAboveScaled(
    span: int, beyond: int, s: real, e: real, r: real, d: real, lower: real, upper: real)
    requires span > 0
    requires span as real * lower == MaxReal(0.0, Extrapolated(span, beyond, s, e))
    requires span as real * upper == MaxReal(0.0, Extrapolated(span, beyond, r, d))
    ensures lower <= upper <==> NotAbove(span, beyond, s, e, r, d)
  {
    ScaleOrder(span as real, lower, upper);
    assert Extrapolated(span, beyond, s, e) <= Extrapolated(span, beyond, r, d) <==>
      beyond as real * (e - d) <= span as real * (r - s);
  }

  /** Distance of the last two rows, and a state's last value and last rise. */
  function LastSpan(t: ModelTable): int
    requires |t.rows| >= 2
  {
    t.rows[|t.rows| - 1].inputTokens - t.rows[|t.rows| - 2].inputTokens
  }

  function LastValue(t: ModelTable, kind: Residency, k: nat): real
    requires ValidModel(t) && HasCurve(t, kind) && k <= |t.groups|
  {
    Column(t, kind, k)[|t.rows| - 1]
  }

  function LastRise(t: ModelTable, kind: Residency, k: nat): real
    requires ValidModel(t) && HasCurve(t, kind) && k <= |t.groups| && |t.rows| >= 2
  {
    Column(t, kind, k)[|t.rows| - 1] - Column(t, kind, k)[|t.rows| - 2]
  }

  lemma {:induction false} LookupBeyond(t: ModelTable, x: int, kind: Residency, k: nat)
    requires ValidModel(t) && HasCurve(t, kind) && k <= |t.groups|
    requires |t.rows| >= 2 && t.rows[|t.rows| - 1].inputTokens <= x
    ensures LastSpan(t) > 0 && Lookup(t, Linear, x, kind, k).Some?
    ensures LastSpan(t) as real * Lookup(t, Linear, x, kind, k).value == MaxReal(0.0,
      Extrapolated(LastSpan(t), x - t.rows[|t.rows| - 1].inputTokens, LastValue(t, kind, k), LastRise(t, kind, k)))
  {
    hide Interpolate, Extrapolated, ValidRow;
    TokensIncrease(t);
    InterpolateBeyond(Tokens(t), Column(t, kind, k), x);
  }

  /** At or beyond the last row, exactly when linear extrapolation keeps state `k`
      from stalling longer than state `j`, whichever states they are. */
  lemma {:induction false} LinearLookupOrder(t: ModelTable, x: int, kind: Residency, j: nat, k: nat)
    requires ValidModel(t) && HasCurve(t, kind) && j <= |t.groups| && k <= |t.groups|
    requires |t.rows| >= 2 && t.rows[|t.rows| - 1].inputTokens <= x
    ensures Lookup(t, Linear, x, kind, k).value <= Lookup(t, Linear, x, kind, j).value <==>
      NotAbove(LastSpan(t), x - t.rows[|t.rows| - 1].inputTokens,
               LastValue(t, kind, k), LastRise(t, kind, k), LastValue(t, kind, j), LastRise(t, kind, j))
  {
    hide Lookup, NotAbove, Extrapolated, LastSpan, LastRise, LastValue;
    LookupBeyond(t, x, kind, j);
    LookupBeyond(t, x, kind, k);
    NotAboveScaled(
      LastSpan(t), x - t.rows[|t.rows| - 1].inputTokens,
      LastValue(t, kind, k), LastRise(t, kind, k), LastValue(t, kind, j), LastRise(t, kind, j),
      Lookup(t, Linear, x, kind, k).value, Lookup(t, Linear, x, kind, j).value);
  }

  /** The whole of a linear lookup: up to the last row more resident groups never
      mean a longer stall, and beyond it exactly until the two lines cross. */
  lemma {:induction false} LinearLookupAntitone(t: ModelTable, x: int, kind: Residency, j: nat, k: nat)
    requires ValidModel(t) && HasCurve(t, kind) && |t.rows| >= 2
    requires if kind == Prefix then j <= k <= |t.groups| else k <= j <= |t.groups|
    ensures Lookup(t, Linear, x, kind, k).value <= Lookup(t, Linear, x, kind, j).value <==>
      || x <= t.rows[|t.rows| - 1].inputTokens
      || NotAbove(LastSpan(t), x - t.rows[|t.rows| - 1].inputTokens,
                  LastValue(t, kind, k), LastRise(t, kind, k), LastValue(t, kind, j), LastRise(t, kind, j))
  {
    if x <= t.rows[|t.rows| - 1].inputTokens {
      if kind == Prefix {
        LookupAntitone(t, Linear, x, kind, j, k);
      } else {
        LookupAntitone(t, Linear, x, kind, k, j);
      }
    } else {
      LinearLookupOrder(t, x, kind, j, k);
    }
  }

  /** Two groups, and two rows whose curves cross. */
  function CrossingRows(): ModelTable {
    ModelTable(
      [Group(true, 1), Group(true, 1)], [0, 1, 2],
      [Row(0, None, [10.0, 0.0, 0.0], None), Row(1, None, [5.0, 5.0, 0.0], None)])
  }

  /** Three tokens lie two rows beyond the last of two neighbouring rows. */
  lemma {:induction false} Beyond(left: real, right: real)
    ensures Increasing([0, 1])
    ensures Interpolate([0, 1], [left, right], 3, Linear) == MaxReal(0.0, left + 3.0 * (right - left))
  {
    assert Bracket([0, 1], 3) == 0 && Weight(3, 0, 1) == 3.0;
  }

  /** Beyond the last row, linear extrapolation can make a longer prefix stall
      longer: two rows whose curves cross. */
  lemma {:induction false} LinearLookupCanRise()
    ensures ValidModel(CrossingRows())
    ensures Lookup(CrossingRows(), Linear, 3, Prefix, 0) == Some(0.0)
    ensures Lookup(CrossingRows(), Linear, 3, Prefix, 1) == Some(15.0)
  {
    var t := CrossingRows();
    assert ValidModel(t);
    TokensIncrease(t);
    assert Tokens(t) == [0, 1];
    assert Column(t, Prefix, 0) == [10.0, 5.0] && Column(t, Prefix, 1) == [0.0, 5.0];
    Beyond(10.0, 5.0);
    Beyond(0.0, 5.0);
    hide Interpolate;
  }

  // ------------------------------------------- splitting the exposed loading

  /** Every row still has its group boundaries. */
  predicate HasBoundaries(t: ModelTable) {
    forall i :: 0 <= i < |t.rows| ==> t.rows[i].boundaries.Some?
  }

  predicate Replayable(t: ModelTable) {
    HasBoundaries(t) && forall i :: 0 <= i < |t.rows| ==> |t.rows[i].boundaries.value| == |t.groups|
  }

  /** Every row replayed with the given cost components. */
  function ReplayColumn(t: ModelTable, kind: Residency, k: nat, loads: seq<real>): (values: seq<real>)
    requires Replayable(t) && |loads| == |t.groups|
    ensures |values| == |t.rows|
    ensures forall i :: 0 <= i < |values| ==> values[i] == StallAt(t.rows[i].boundaries.value, t.groups, kind, loads, k)
  {
    seq(|t.rows|, i requires 0 <= i < |t.rows| => StallAt(t.rows[i].boundaries.value, t.groups, kind, loads, k))
  }

  function Replay(
    t: ModelTable, policy: Extrapolation, x: int, kind: Residency, k: nat, loads: seq<real>): real
    requires ValidModel(t) && Replayable(t) && |loads| == |t.groups|
  {
    TokensIncrease(t);
    Interpolate(Tokens(t), ReplayColumn(t, kind, k, loads), x, policy)
  }

  /** Between two rows, and on the line through the last two beyond them, the value is
      weighted by the distances to the two token counts; it never falls below zero. */
  lemma {:induction false} InterpolateOnLine(tokens: seq<int>, values: seq<real>, x: int, policy: Extrapolation)
    requires |tokens| == |values| >= 2 && Increasing(tokens) && tokens[0] < x
    requires x < tokens[|tokens| - 1] || policy == Linear
    ensures var l := Bracket(tokens, x);
      (tokens[l + 1] - tokens[l]) as real * Interpolate(tokens, values, x, policy)
      == MaxReal(0.0, (tokens[l + 1] - x) as real * values[l] + (x - tokens[l]) as real * values[l + 1])
  {
    hide Blend, Weight;
    var l := Bracket(tokens, x);
    var value := Interpolate(tokens, values, x, policy);
    assert Interpolate(tokens, values, x, policy) == MaxReal(0.0, Blend(values[l], values[l + 1], Weight(x, tokens[l], tokens[l + 1])));
    hide Interpolate;
    OnLine(value, values[l], values[l + 1], x, tokens[l], tokens[l + 1]);
  }

  lemma {:induction false} OnLine(value: real, left: real, right: real, x: int, from: int, to: int)
    requires from < to && value == MaxReal(0.0, Blend(left, right, Weight(x, from, to)))
    ensures (to - from) as real * value == MaxReal(0.0, (to - x) as real * left + (x - from) as real * right)
  {
    hide Blend, Weight;
    var span, before, w := (to - from) as real, (x - from) as real, Weight(x, from, to);
    WeightTimes(x, from, to);
    BlendTimes(left, right, w, span, before);
    assert (to - x) as real == span - before;
    ScaleMax(span, Blend(left, right, w));
  }

  lemma {:induction false} WeightTimes(x: int, left: int, right: int)
    requires left < right
    ensures (right - left) as real * Weight(x, left, right) == (x - left) as real
  {
    var span, part := (right - left) as real, (x - left) as real;
    assert span * (part / span) == part;
  }

  lemma {:induction false} BlendTimes(left: real, right: real, w: real, span: real, before: real)
    requires span * w == before
    ensures span * Blend(left, right, w) == (span - before) * left + before * right
  {
    calc {
      span * Blend(left, right, w);
      span * left + (span * w) * (right - left);
      span * left + before * (right - left);
      (span - before) * left + before * right;
    }
  }

  /** Shapley shares of the two cost components, scaled to the stall to explain. */
  function Shares(target: real, h2dOnly: real, allocationOnly: real, both: real): (real, real) {
    var h2d := 0.5 * (h2dOnly + both - allocationOnly);
    var allocation := 0.5 * (allocationOnly + both - h2dOnly);
    var attributed := h2d + allocation;
    if target <= 0.0 || attributed <= 0.0 then (MaxReal(0.0, target), 0.0)
    else
      var scale := target / attributed;
      (MaxReal(0.0, h2d * scale), MaxReal(0.0, allocation * scale))
  }

  lemma {:induction false} SharesAddUp(target: real, h2dOnly: real, allocationOnly: real, both: real)
    requires target >= 0.0 && 0.0 <= h2dOnly <= both && 0.0 <= allocationOnly <= both
    ensures var shares := Shares(target, h2dOnly, allocationOnly, both);
      shares.0 >= 0.0 && shares.1 >= 0.0 && shares.0 + shares.1 == target
  {
    var h2d, allocation := 0.5 * (h2dOnly + both - allocationOnly), 0.5 * (allocationOnly + both - h2dOnly);
    var attributed := h2d + allocation;
    if target > 0.0 && attributed > 0.0 {
      var scale := target / attributed;
      assert scale * attributed == target && scale >= 0.0;
      assert h2d * scale >= 0.0 && allocation * scale >= 0.0;
      assert h2d * scale + allocation * scale == scale * attributed;
    }
  }

  /** The transfer share exceeds the other as the transfer's replay alone exceeds the
      allocation's: their difference is to the stall as that of the replays to both. */
  ghost predicate Proportionate(shares: (real, real), target: real, h2dOnly: real, allocationOnly: real, both: real) {
    both * (shares.0 - shares.1) == target * (h2dOnly - allocationOnly)
  }

  lemma {:induction false} SharesDiffer(target: real, h2dOnly: real, allocationOnly: real, both: real)
    requires target >= 0.0 && 0.0 <= h2dOnly <= both && 0.0 <= allocationOnly <= both && both > 0.0
    ensures Proportionate(Shares(target, h2dOnly, allocationOnly, both), target, h2dOnly, allocationOnly, both)
  {
    var h2d, allocation := 0.5 * (h2dOnly + both - allocationOnly), 0.5 * (allocationOnly + both - h2dOnly);
    assert h2d + allocation == both;
    if target > 0.0 {
      var scale := target / both;
      assert scale * both == target && scale >= 0.0;
      assert h2d * scale >= 0.0 && allocation * scale >= 0.0;
      assert h2d * scale - allocation * scale == scale * (h2dOnly - allocationOnly);
      assert both * (scale * (h2dOnly - allocationOnly)) == (scale * both) * (h2dOnly - allocationOnly);
    }
  }

  /** What the table's metadata says about loading, if it says anything. */
  datatype Costs = Costs(bytesPerMs: Option<real>, allocationMs: Option<real>) {
    ghost predicate Valid() {
      (bytesPerMs.Some? ==> bytesPerMs.value > 0.0) && (allocationMs.Some? ==> allocationMs.value >= 0.0)
    }
  }

  /** `exposed_loading_components`: the looked-up stall split into a transfer and
      an allocation share; all of it is transfer when the table lacks groups,
      costs or boundaries. */
  function ExposedComponents(
    t: ModelTable, policy: Extrapolation, x: int, kind: Residency, k: nat, costs: Costs): (real, real)
    requires ValidModel(t) && HasCurve(t, kind) && k <= |t.groups| && costs.Valid()
    requires HasBoundaries(t) ==> Replayable(t)
  {
    var exposed := Lookup(t, policy, x, kind, k).value;
    if t.groups == [] || costs.bytesPerMs.None? || costs.allocationMs.None? || !HasBoundaries(t) then (exposed, 0.0)
    else
      Shares(
        exposed,
        Replay(t, policy, x, kind, k, LoadTimes(t.groups, costs.bytesPerMs, 0.0)),
        Replay(t, policy, x, kind, k, LoadTimes(t.groups, None, costs.allocationMs.value)),
        Replay(t, policy, x, kind, k, LoadTimes(t.groups, costs.bytesPerMs, costs.allocationMs.value)))
  }

  lemma {:induction false} ReplayMonotone(
    t: ModelTable, policy: Extrapolation, x: int, kind: Residency, k: nat, loads: seq<real>, slower: seq<real>)
    requires ValidModel(t) && Replayable(t) && InRange(Tokens(t), x, policy)
    requires |loads| == |slower| == |t.groups|
    requires forall i :: 0 <= i < |loads| ==> loads[i] <= slower[i]
    ensures Replay(t, policy, x, kind, k, loads) <= Replay(t, policy, x, kind, k, slower)
  {
    TokensIncrease(t);
    forall i | 0 <= i < |t.rows| ensures ReplayColumn(t, kind, k, loads)[i] <= ReplayColumn(t, kind, k, slower)[i] {
      var missing := Missing(t.groups, kind, k);
      ExposedMonotone(t.rows[i].boundaries.value, missing, missing, loads, slower);
    }
    InterpolateMonotone(Tokens(t), ReplayColumn(t, kind, k, loads), ReplayColumn(t, kind, k, slower), x, policy);
  }

  /** With either component alone no replay stalls longer than with both. */
  lemma {:induction false} ReplayBounds(
    t: ModelTable, policy: Extrapolation, x: int, kind: Residency, k: nat, bytesPerMs: real, allocationMs: real)
    requires ValidModel(t) && Replayable(t) && InRange(Tokens(t), x, policy) && bytesPerMs > 0.0 && allocationMs >= 0.0
    ensures var both := Replay(t, policy, x, kind, k, LoadTimes(t.groups, Some(bytesPerMs), allocationMs));
      && 0.0 <= Replay(t, policy, x, kind, k, LoadTimes(t.groups, Some(bytesPerMs), 0.0)) <= both
      && 0.0 <= Replay(t, policy, x, kind, k, LoadTimes(t.groups, None, allocationMs)) <= both
  {
    var transfer := LoadTimes(t.groups, Some(bytesPerMs), 0.0);
    var allocate := LoadTimes(t.groups, None, allocationMs);
    var full := LoadTimes(t.groups, Some(bytesPerMs), allocationMs);
    ReplayMonotone(t, policy, x, kind, k, transfer, full);
    ReplayMonotone(t, policy, x, kind, k, allocate, full);
    ReplayNonNegative(t, policy, x, kind, k, transfer);
    ReplayNonNegative(t, policy, x, kind, k, allocate);
  }

  /** In range, the two shares are non-negative and add up to the stall exactly. */
  lemma {:induction false} ComponentsAreAdditive(
    t: ModelTable, policy: Extrapolation, x: int, kind: Residency, k: nat, costs: Costs)
    requires ValidModel(t) && HasCurve(t, kind) && k <= |t.groups| && costs.Valid()
    requires HasBoundaries(t) ==> Replayable(t) && InRange(Tokens(t), x, policy)
    ensures var shares := ExposedComponents(t, policy, x, kind, k, costs);
      && shares.0 >= 0.0 && shares.1 >= 0.0
      && Lookup(t, policy, x, kind, k) == Some(shares.0 + shares.1)
  {
    LookupNonNegative(t, policy, x, kind, k);
    if costs.bytesPerMs.Some? && costs.allocationMs.Some? && HasBoundaries(t) {
      var bandwidth, allocation := costs.bytesPerMs, costs.allocationMs.value;
      ReplayBounds(t, policy, x, kind, k, bandwidth.value, allocation);
      hide Shares, Replay, LoadTimes;
      SharesAddUp(
        Lookup(t, policy, x, kind, k).value,
        Replay(t, policy, x, kind, k, LoadTimes(t.groups, bandwidth, 0.0)),
        Replay(t, policy, x, kind, k, LoadTimes(t.groups, None, allocation)),
        Replay(t, policy, x, kind, k, LoadTimes(t.groups, bandwidth, allocation)));
    }
  }

  /** The first share is the transfer's: it exceeds the other as its replay does. */
  lemma {:induction false} ComponentsDiffer(
    t: ModelTable, policy: Extrapolation, x: int, kind: Residency, k: nat, bytesPerMs: real, allocationMs: real)
    requires ValidModel(t) && HasCurve(t, kind) && k <= |t.groups| && bytesPerMs > 0.0 && allocationMs >= 0.0
    requires t.groups != [] && Replayable(t) && InRange(Tokens(t), x, policy)
    ensures var shares := ExposedComponents(t, policy, x, kind, k, Costs(Some(bytesPerMs), Some(allocationMs)));
      var transfer := Replay(t, policy, x, kind, k, LoadTimes(t.groups, Some(bytesPerMs), 0.0));
      var allocate := Replay(t, policy, x, kind, k, LoadTimes(t.groups, None, allocationMs));
      var both := Replay(t, policy, x, kind, k, LoadTimes(t.groups, Some(bytesPerMs), allocationMs));
      both > 0.0 ==> Proportionate(shares, Lookup(t, policy, x, kind, k).value, transfer, allocate, both)
  {
    LookupNonNegative(t, policy, x, kind, k);
    ReplayBounds(t, policy, x, kind, k, bytesPerMs, allocationMs);
    hide Shares, Replay, LoadTimes, Lookup, Proportionate;
    var both := Replay(t, policy, x, kind, k, LoadTimes(t.groups, Some(bytesPerMs), allocationMs));
    if both > 0.0 {
      SharesDiffer(
        Lookup(t, policy, x, kind, k).value,
        Replay(t, policy, x, kind, k, LoadTimes(t.groups, Some(bytesPerMs), 0.0)),
        Replay(t, policy, x, kind, k, LoadTimes(t.groups, None, allocationMs)), both);
    }
  }

  lemma {:induction false} ReplayNonNegative(
    t: ModelTable, policy: Extrapolation, x: int, kind: Residency, k: nat, loads: seq<real>)
    requires ValidModel(t) && Replayable(t) && |loads| == |t.groups|
    ensures Replay(t, policy, x, kind, k, loads) >= 0.0
  {
    TokensIncrease(t);
  }
}
