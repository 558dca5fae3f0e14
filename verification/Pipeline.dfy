/** Load/compute overlap with one load ahead
    (evaluation/tensor_simulator/layerweave_tensor_pipeline_sim.py,
    tools/layerpipe/layerweave_estimator.py). */
module Pipeline {
  import opened Common

  function Sum(xs: seq<real>): real {
    if xs == [] then 0.0 else Sum(xs[..|xs| - 1]) + xs[|xs| - 1]
  }

  ghost predicate NonNegative(xs: seq<real>) {
    forall i :: 0 <= i < |xs| ==> xs[i] >= 0.0
  }

  /** The steps between consecutive compute starts: the longer of the computation
      under way and the load it hides, over the first `n` stages. */
  function Steps(loads: seq<real>, durations: seq<real>, n: nat): real
    requires n <= |loads| == |durations|
  {
    if n <= 1 then 0.0 else Steps(loads, durations, n - 1) + MaxReal(durations[n - 2], loads[n - 1])
  }

  /** When the computation of stage `i` starts. */
  function ComputeStart(start: real, loads: seq<real>, durations: seq<real>, i: nat): real
    requires i < |loads| == |durations|
  {
    start + loads[0] + Steps(loads, durations, i + 1)
  }

  function CriticalPath(start: real, loads: seq<real>, durations: seq<real>): real
    requires |loads| == |durations|
  {
    if loads == [] then start
    else ComputeStart(start, loads, durations, |loads| - 1) + durations[|loads| - 1]
  }

  /** The part of load `i` that no computation hides. */
  function Stall(loads: seq<real>, durations: seq<real>, i: nat): real
    requires i < |loads| == |durations|
  {
    if i == 0 then loads[0] else MaxReal(0.0, loads[i] - durations[i - 1])
  }

  function Stalls(loads: seq<real>, durations: seq<real>): (stalls: seq<real>)
    requires |loads| == |durations|
    ensures |stalls| == |loads|
  {
    seq(|loads|, i requires 0 <= i < |loads| => Stall(loads, durations, i))
  }

  function Serialized(start: real, loads: seq<real>, durations: seq<real>): real {
    start + Sum(loads) + Sum(durations)
  }

  /** The timing loop of a request. The critical path has a closed form, it is all
      computation plus the recorded stalls, and each stall is what a load exceeds the
      computation before it by. */
  method ExecutePipelined(start: real, loads: seq<real>, durations: seq<real>)
    returns (criticalPath: real, stalls: seq<real>)
    requires |loads| == |durations| && NonNegative(loads) && NonNegative(durations)
    ensures criticalPath == CriticalPath(start, loads, durations)
    ensures stalls == Stalls(loads, durations)
    ensures criticalPath == start + Sum(durations) + Sum(stalls)
    // the first load is waited for in full, any other one only for what it exceeds the
    // computation before it by
    ensures loads != [] ==> stalls[0] == loads[0]
    ensures forall i :: 0 < i < |loads| ==>
      && stalls[i] >= 0.0 && durations[i - 1] + stalls[i] >= loads[i]
      && (stalls[i] > 0.0 ==> durations[i - 1] + stalls[i] == loads[i])
  {
    var copyEnd, computeEnd, previousComputeStart := start, start, 0.0;
    stalls := [];
    for i := 0 to |loads|
      invariant |stalls| == i && forall j :: 0 <= j < i ==> stalls[j] == Stall(loads, durations, j)
      invariant i == 0 ==> copyEnd == start && computeEnd == start
      invariant i > 0 ==>
        && previousComputeStart == ComputeStart(start, loads, durations, i - 1)
        && copyEnd <= previousComputeStart
        && computeEnd == previousComputeStart + durations[i - 1]
    {
      var loadStart := if i == 0 then copyEnd else MaxReal(copyEnd, previousComputeStart);
      var loadEnd := loadStart + loads[i];
      var computeStart := MaxReal(computeEnd, loadEnd);
      stalls := stalls + [MaxReal(0.0, loadEnd - computeEnd)];
      previousComputeStart := computeStart;
      computeEnd := computeStart + durations[i];
      copyEnd := loadEnd;
    }
    criticalPath := computeEnd;
    assert stalls == Stalls(loads, durations);
    PathIsWorkPlusStalls(start, loads, durations);
  }

  /** Loads that are hidden completely cost nothing but the first one; loads that hide
      every computation but the last cost all their time. */
  lemma {:induction false} HiddenOrHiding(start: real, loads: seq<real>, durations: seq<real>)
    requires |loads| == |durations| > 0
    ensures (forall i :: 0 < i < |loads| ==> loads[i] <= durations[i - 1]) ==>
      CriticalPath(start, loads, durations) == start + loads[0] + Sum(durations)
    ensures (forall i :: 0 < i < |loads| ==> loads[i] >= durations[i - 1]) ==>
      CriticalPath(start, loads, durations) == start + Sum(loads) + durations[|loads| - 1]
  {
    StepsHiddenOrHiding(loads, durations, |loads|);
    assert loads[..|loads|] == loads && durations[..|loads|] == durations;
  }

  lemma {:induction false} StepsHiddenOrHiding(loads: seq<real>, durations: seq<real>, n: nat)
    requires 1 <= n <= |loads| == |durations|
    ensures (forall i :: 0 < i < n ==> loads[i] <= durations[i - 1]) ==>
      Steps(loads, durations, n) + durations[n - 1] == Sum(durations[..n])
    ensures (forall i :: 0 < i < n ==> loads[i] >= durations[i - 1]) ==>
      loads[0] + Steps(loads, durations, n) == Sum(loads[..n])
  {
    SumPrefix(loads, n - 1);
    SumPrefix(durations, n - 1);
    if n > 1 {
      StepsHiddenOrHiding(loads, durations, n - 1);
    } else {
      assert loads[..0] == [] && durations[..0] == [];
    }
  }

  lemma {:induction false} SumPrefix(xs: seq<real>, n: nat)
    requires n < |xs|
    ensures Sum(xs[..n + 1]) == Sum(xs[..n]) + xs[n]
  {
    assert xs[..n + 1][..n] == xs[..n];
  }

  /** Up to any stage, the time spent is the computation done plus the stalls. */
  lemma {:induction false} PathPrefix(loads: seq<real>, durations: seq<real>, n: nat)
    requires 1 <= n <= |loads| == |durations|
    ensures loads[0] + Steps(loads, durations, n) + durations[n - 1] ==
      Sum(durations[..n]) + Sum(Stalls(loads, durations)[..n])
  {
    var stalls := Stalls(loads, durations);
    SumPrefix(durations, n - 1);
    SumPrefix(stalls, n - 1);
    if n > 1 {
      PathPrefix(loads, durations, n - 1);
    } else {
      assert durations[..0] == [] && stalls[..0] == [];
    }
  }

  lemma {:induction false} PathIsWorkPlusStalls(start: real, loads: seq<real>, durations: seq<real>)
    requires |loads| == |durations|
    ensures CriticalPath(start, loads, durations) == start + Sum(durations) + Sum(Stalls(loads, durations))
  {
    if loads != [] {
      PathPrefix(loads, durations, |loads|);
      assert durations[..|loads|] == durations && Stalls(loads, durations)[..|loads|] == Stalls(loads, durations);
    }
  }

  lemma {:induction false} StepsBounds(loads: seq<real>, durations: seq<real>, n: nat)
    requires 1 <= n <= |loads| == |durations| && NonNegative(loads) && NonNegative(durations)
    ensures loads[0] + Steps(loads, durations, n) <= Sum(loads[..n]) + Sum(durations[..n]) - durations[n - 1]
    ensures loads[0] + Steps(loads, durations, n) >= Sum(loads[..n])
    ensures loads[0] + Steps(loads, durations, n) + durations[n - 1] >= Sum(durations[..n])
  {
    SumPrefix(loads, n - 1);
    SumPrefix(durations, n - 1);
    if n > 1 {
      StepsBounds(loads, durations, n - 1);
    } else {
      assert loads[..0] == [] && durations[..0] == [];
    }
  }

  /** Overlap never costs anything over loading first and computing then, and can
      save neither all the loading nor all the computing. */
  lemma {:induction false} OverlapBounds(start: real, loads: seq<real>, durations: seq<real>)
    requires |loads| == |durations| && NonNegative(loads) && NonNegative(durations)
    ensures CriticalPath(start, loads, durations) <= Serialized(start, loads, durations)
    ensures CriticalPath(start, loads, durations) >= start + Sum(loads)
    ensures CriticalPath(start, loads, durations) >= start + Sum(durations)
  {
    if loads != [] {
      StepsBounds(loads, durations, |loads|);
      assert loads[..|loads|] == loads && durations[..|loads|] == durations;
    }
  }

  /** The estimator's replay of a batch: the first stage is loaded before anything is
      computed; with prefetch each later load starts with the previous computation,
      without it after that computation. */
  method SimulateGpu(loads: seq<real>, computes: seq<real>, prefetch: bool) returns (stall: real, criticalPath: real)
    requires |loads| == |computes| + (if computes == [] then 1 else 0)
    requires NonNegative(loads) && NonNegative(computes)
    ensures computes == [] ==> criticalPath == loads[0]
    ensures computes != [] ==>
      criticalPath == if prefetch then CriticalPath(0.0, loads, computes) else Serialized(0.0, loads, computes)
    ensures criticalPath == Sum(computes) + stall
  {
    var computeStart := loads[0];
    var computeEnd, copyEnd, previousComputeStart := computeStart, computeStart, computeStart;
    stall := computeStart;
    for layer := 0 to |computes|
      invariant layer == 0 ==> computeStart == loads[0] && computeEnd == computeStart && copyEnd == computeStart
      invariant layer > 0 && prefetch ==>
        && previousComputeStart == ComputeStart(0.0, loads, computes, layer - 1)
        && copyEnd <= previousComputeStart && computeEnd == previousComputeStart + computes[layer - 1]
      invariant layer > 0 && !prefetch ==> computeEnd == Sum(loads[..layer]) + Sum(computes[..layer])
      invariant computeEnd == Sum(computes[..layer]) + stall
    {
      SumPrefix(computes, layer);
      SumPrefix(loads, layer);
      assert loads[..0] == [];
      if layer > 0 {
        var copyStart := if prefetch then MaxReal(copyEnd, previousComputeStart) else computeEnd;
        copyEnd := copyStart + loads[layer];
        stall := stall + MaxReal(0.0, copyEnd - computeEnd);
        computeStart := MaxReal(computeEnd, copyEnd);
      }
      previousComputeStart := computeStart;
      computeEnd := computeStart + computes[layer];
    }
    assert computes[..|computes|] == computes;
    assert computes != [] ==> loads[..|computes|] == loads;
    criticalPath := computeEnd;
  }

  /** Prefetching is never slower, and never stalls longer. */
  lemma {:induction false} PrefetchNeverSlower(loads: seq<real>, computes: seq<real>)
    requires |loads| == |computes| && NonNegative(loads) && NonNegative(computes)
    ensures CriticalPath(0.0, loads, computes) <= Serialized(0.0, loads, computes)
    ensures Sum(Stalls(loads, computes)) <= Sum(loads)
  {
    OverlapBounds(0.0, loads, computes);
    PathIsWorkPlusStalls(0.0, loads, computes);
  }
}
