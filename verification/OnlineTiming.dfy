/** Online routing and its timing replay: GPU availability, predicted queueing and
    the busy intervals of every GPU
    (evaluation/tensor_simulator/layerweave_tensor_pipeline_sim.py). */
module OnlineTiming {
  import opened Common

  // --------------------------------------------------------- tied choices

  function Abs(x: real): real {
    if x < 0.0 then -x else x
  }

  /** `math.isclose(a, b, abs_tol=1e-9)`, with its default relative tolerance. */
  predicate Close(a: real, b: real) {
    Abs(a - b) <= MaxReal(0.000000001 * MaxReal(Abs(a), Abs(b)), 0.000000001)
  }

  /** A billion times the difference is at most one, or at most one of the two. */
  lemma {:induction false} CloseMeans(a: real, b: real)
    ensures var apart := 1000000000.0 * (if a < b then b - a else a - b);
      Close(a, b) <==> apart <= 1.0 || apart <= a || apart <= -a || apart <= b || apart <= -b
  {
  }

  lemma {:induction false} CloseToItself(a: real)
    ensures Close(a, a)
  {
  }

  /** How far `gpu` lies behind `next`, going round. */
  function Offset(next: nat, gpu: nat, gpus: nat): nat
    requires next < gpus && gpu < gpus
  {
    if next <= gpu then gpu - next else gpu + gpus - next
  }

  lemma {:induction false} OffsetReaches(next: nat, gpu: nat, gpus: nat)
    requires next < gpus && gpu < gpus
    ensures Offset(next, gpu, gpus) < gpus && (next + Offset(next, gpu, gpus)) % gpus == gpu
  {
    if gpu < next {
      assert next + Offset(next, gpu, gpus) == gpu + gpus;
      assert (gpu + gpus) % gpus == gpu;
    }
  }

  lemma {:induction false} OffsetOf(next: nat, offset: nat, gpus: nat)
    requires next < gpus && offset < gpus
    ensures Offset(next, (next + offset) % gpus, gpus) == offset
  {
    if next + offset >= gpus {
      assert (next + offset) % gpus == next + offset - gpus;
    }
  }

  /** The first of the tied GPUs at or behind the round-robin position. */
  method FirstTied(tied: set<nat>, next: nat, gpus: nat) returns (chosen: nat)
    requires next < gpus && tied != {} && forall g :: g in tied ==> g < gpus
    ensures chosen in tied
    ensures forall g :: g in tied ==> Offset(next, chosen, gpus) <= Offset(next, g, gpus)
  {
    ghost var some := Member(tied);
    OffsetReaches(next, some, gpus);
    var offset := 0;
    while (next + offset) % gpus !in tied
      invariant offset <= Offset(next, some, gpus)
      invariant forall g :: g in tied ==> offset <= Offset(next, g, gpus)
      decreases gpus - offset
    {
      forall g | g in tied ensures offset + 1 <= Offset(next, g, gpus) {
        OffsetReaches(next, g, gpus);
      }
      offset := offset + 1;
    }
    chosen := (next + offset) % gpus;
    OffsetOf(next, offset, gpus);
  }

  // ----------------------------------------------------------- candidates

  /** What a candidate GPU's preview predicts for the request. */
  datatype Preview = Preview(gpu: nat, criticalPathMs: real, damageMs: real)

  function PredictedQueue(available: seq<real>, arrivalMs: real, gpu: nat): real
    requires gpu < |available|
  {
    MaxReal(0.0, available[gpu] - arrivalMs)
  }

  function Score(available: seq<real>, arrivalMs: real, weight: real, p: Preview): real
    requires p.gpu < |available|
  {
    PredictedQueue(available, arrivalMs, p.gpu) + p.criticalPathMs + weight * p.damageMs
  }

  ghost predicate Candidates(candidates: seq<Preview>, gpus: nat) {
    && candidates != []
    && (forall i :: 0 <= i < |candidates| ==> candidates[i].gpu < gpus)
    && (forall i, j :: 0 <= i < j < |candidates| ==> candidates[i].gpu != candidates[j].gpu)
  }

  /** The first candidate round-robin whose score is as good as the best. */
  ghost predicate Chosen(
    candidates: seq<Preview>, available: seq<real>, arrivalMs: real, next: nat, weight: real, chosen: Preview)
    requires Candidates(candidates, |available|) && next < |available|
  {
    && chosen in candidates
    && exists best: real ::
         && (forall p :: p in candidates ==> best <= Score(available, arrivalMs, weight, p))
         && (exists p :: p in candidates && best == Score(available, arrivalMs, weight, p))
         && Close(Score(available, arrivalMs, weight, chosen), best)
         && forall p :: p in candidates && Close(Score(available, arrivalMs, weight, p), best) ==>
              Offset(next, chosen.gpu, |available|) <= Offset(next, p.gpu, |available|)
  }

  /** `choose_online_routing_candidate`: among the candidates whose score is as good
      as the best, the first one round-robin. */
  method ChooseCandidate(
    candidates: seq<Preview>, available: seq<real>, arrivalMs: real, next: nat, weight: real)
    returns (chosen: Preview, predictedQueueMs: real, following: nat)
    requires Candidates(candidates, |available|) && next < |available|
    ensures chosen in candidates && Chosen(candidates, available, arrivalMs, next, weight, chosen)
    ensures Soonest(candidates, available, arrivalMs, weight, chosen)
    ensures predictedQueueMs == PredictedQueue(available, arrivalMs, chosen.gpu)
    ensures following == (chosen.gpu + 1) % |available|
  {
    hide Score, Close, Offset;
    var best := Score(available, arrivalMs, weight, candidates[0]);
    ghost var least := candidates[0];
    for i := 1 to |candidates|
      invariant least in candidates && best == Score(available, arrivalMs, weight, least)
      invariant forall j :: 0 <= j < i ==> best <= Score(available, arrivalMs, weight, candidates[j])
    {
      var score := Score(available, arrivalMs, weight, candidates[i]);
      if score < best {
        best, least := score, candidates[i];
      }
    }
    var tied: map<nat, Preview> := map[];
    for i := 0 to |candidates|
      invariant forall g :: g in tied ==>
        tied[g] in candidates && tied[g].gpu == g && Close(Score(available, arrivalMs, weight, tied[g]), best)
      invariant forall j :: 0 <= j < i && Close(Score(available, arrivalMs, weight, candidates[j]), best) ==>
        candidates[j].gpu in tied
    {
      if Close(Score(available, arrivalMs, weight, candidates[i]), best) {
        tied := tied[candidates[i].gpu := candidates[i]];
      }
    }
    CloseToItself(best);
    assert least.gpu in tied;
    var gpu: nat := FirstTied(tied.Keys, next, |available|);
    chosen := tied[gpu];
    ChosenIsSoonest(candidates, available, arrivalMs, next, weight, chosen);
    predictedQueueMs := PredictedQueue(available, arrivalMs, gpu);
    following := (gpu + 1) % |available|;
  }

  // --------------------------------------------------------------- replay

  /** A request as the timing pass sees it. */
  datatype Job = Job(arrivalMs: real, serviceMs: real, decodeMs: real) {
    predicate WellFormed() { serviceMs >= 0.0 && decodeMs >= 0.0 }
  }

  datatype Row = Row(gpu: nat, dispatchMs: real, firstTokenMs: real, finishMs: real, queueMs: real)

  function Dispatch(available: seq<real>, job: Job, gpu: nat): real
    requires gpu < |available|
  {
    MaxReal(job.arrivalMs, available[gpu])
  }

  /** The row of one request, and when its GPU is free again. */
  function Timed(available: seq<real>, job: Job, gpu: nat): Row
    requires gpu < |available|
  {
    var dispatch := Dispatch(available, job, gpu);
    Row(gpu, dispatch, dispatch + job.serviceMs, dispatch + job.serviceMs + job.decodeMs, dispatch - job.arrivalMs)
  }

  // ----------------------------------------- what the choice is worth

  /** How long after its arrival the request would see its first token, if the
      candidate is replayed from this availability and takes what it predicts. */
  function TimeToFirst(available: seq<real>, arrivalMs: real, p: Preview): real
    requires p.gpu < |available|
  {
    Timed(available, Job(arrivalMs, p.criticalPathMs, 0.0), p.gpu).firstTokenMs - arrivalMs
  }

  /** That time, and the weighted damage to come. */
  function Worth(available: seq<real>, arrivalMs: real, weight: real, p: Preview): real
    requires p.gpu < |available|
  {
    TimeToFirst(available, arrivalMs, p) + weight * p.damageMs
  }

  /** No candidate would give its first token clearly earlier, damage included. */
  ghost predicate Soonest(candidates: seq<Preview>, available: seq<real>, arrivalMs: real, weight: real, chosen: Preview)
    requires Candidates(candidates, |available|) && chosen.gpu < |available|
  {
    forall p :: p in candidates ==>
      || Worth(available, arrivalMs, weight, chosen) <= Worth(available, arrivalMs, weight, p)
      || Close(Worth(available, arrivalMs, weight, chosen), Worth(available, arrivalMs, weight, p))
  }

  /** A choice close to the best is close to everything it is not better than. */
  lemma {:induction false} CloseBetween(best: real, chosen: real, other: real)
    requires best <= other && Close(chosen, best)
    ensures chosen <= other || Close(chosen, other)
  {
  }

  /** The score of a candidate is what it is worth in the replay. */
  lemma {:induction false} ScoreIsReplayed(available: seq<real>, arrivalMs: real, weight: real, p: Preview)
    requires p.gpu < |available|
    ensures Score(available, arrivalMs, weight, p) == Worth(available, arrivalMs, weight, p)
  {
    assert TimeToFirst(available, arrivalMs, p) == PredictedQueue(available, arrivalMs, p.gpu) + p.criticalPathMs;
  }

  /** The rule goes by the time to the first token as the timing pass would replay it. */
  lemma {:induction false} ChosenIsSoonest(
    candidates: seq<Preview>, available: seq<real>, arrivalMs: real, next: nat, weight: real, chosen: Preview)
    requires Candidates(candidates, |available|) && next < |available|
    requires Chosen(candidates, available, arrivalMs, next, weight, chosen)
    ensures Soonest(candidates, available, arrivalMs, weight, chosen)
  {
    hide Close, Offset, Score, Worth;
    var best: real :|
      && (forall p :: p in candidates ==> best <= Score(available, arrivalMs, weight, p))
      && Close(Score(available, arrivalMs, weight, chosen), best);
    ScoreIsReplayed(available, arrivalMs, weight, chosen);
    forall p | p in candidates
      ensures Worth(available, arrivalMs, weight, chosen) <= Worth(available, arrivalMs, weight, p)
           || Close(Worth(available, arrivalMs, weight, chosen), Worth(available, arrivalMs, weight, p))
    {
      ScoreIsReplayed(available, arrivalMs, weight, p);
      CloseBetween(best, Score(available, arrivalMs, weight, chosen), Score(available, arrivalMs, weight, p));
    }
  }

  /** Without a weight on damage, no GPU would give the first token clearly earlier. */
  lemma {:induction false} SoonestWithoutDamage(
    candidates: seq<Preview>, available: seq<real>, arrivalMs: real, chosen: Preview)
    requires Candidates(candidates, |available|) && chosen.gpu < |available|
    requires Soonest(candidates, available, arrivalMs, 0.0, chosen)
    ensures forall p :: p in candidates ==>
      || TimeToFirst(available, arrivalMs, chosen) <= TimeToFirst(available, arrivalMs, p)
      || Close(TimeToFirst(available, arrivalMs, chosen), TimeToFirst(available, arrivalMs, p))
  {
    hide Close, TimeToFirst;
  }

  ghost predicate Routed(jobs: seq<Job>, routing: seq<nat>, gpus: nat) {
    |routing| == |jobs| && forall i :: 0 <= i < |routing| ==> routing[i] < gpus
  }

  /** When every GPU is free after the first `n` requests. */
  function AvailableAfter(jobs: seq<Job>, routing: seq<nat>, gpus: nat, n: nat): (available: seq<real>)
    requires Routed(jobs, routing, gpus) && n <= |jobs|
    ensures |available| == gpus
  {
    if n == 0 then seq(gpus, i => 0.0)
    else
      var before := AvailableAfter(jobs, routing, gpus, n - 1);
      before[routing[n - 1] := Timed(before, jobs[n - 1], routing[n - 1]).finishMs]
  }

  function RowAt(jobs: seq<Job>, routing: seq<nat>, gpus: nat, i: nat): Row
    requires Routed(jobs, routing, gpus) && i < |jobs|
  {
    Timed(AvailableAfter(jobs, routing, gpus, i), jobs[i], routing[i])
  }

  /** A row's times follow from its request's: it waits, is served, and decodes. */
  lemma {:induction false} RowAddsUp(jobs: seq<Job>, routing: seq<nat>, gpus: nat, i: nat)
    requires Routed(jobs, routing, gpus) && i < |jobs|
    ensures var row, job := RowAt(jobs, routing, gpus, i), jobs[i];
      && row.gpu == routing[i] && row.queueMs >= 0.0 && row.dispatchMs == job.arrivalMs + row.queueMs
      && row.firstTokenMs == row.dispatchMs + job.serviceMs && row.finishMs == row.firstTokenMs + job.decodeMs
  {
  }

  /** A GPU is busy until the last of its requests so far has finished. */
  lemma {:induction false} BusyUntil(jobs: seq<Job>, routing: seq<nat>, gpus: nat, i: nat, n: nat)
    requires Routed(jobs, routing, gpus) && i < n <= |jobs|
    requires forall k :: 0 <= k < |jobs| ==> jobs[k].WellFormed()
    ensures RowAt(jobs, routing, gpus, i).finishMs <= AvailableAfter(jobs, routing, gpus, n)[routing[i]]
  {
    if i < n - 1 {
      BusyUntil(jobs, routing, gpus, i, n - 1);
    }
  }

  /** Requests on one GPU are served one at a time, in order: each starts when the
      one before it has finished decoding. */
  lemma {:induction false} BusyIntervalsDisjoint(jobs: seq<Job>, routing: seq<nat>, gpus: nat, i: nat, j: nat)
    requires Routed(jobs, routing, gpus) && i < j < |jobs| && routing[i] == routing[j]
    requires forall k :: 0 <= k < |jobs| ==> jobs[k].WellFormed()
    ensures RowAt(jobs, routing, gpus, i).finishMs <= RowAt(jobs, routing, gpus, j).dispatchMs
    ensures RowAt(jobs, routing, gpus, i).dispatchMs <= RowAt(jobs, routing, gpus, i).finishMs
  {
    BusyUntil(jobs, routing, gpus, i, j);
  }

  /** A request that waits starts the moment an earlier one of its GPU finishes. */
  lemma {:induction false} NoIdleWaiting(jobs: seq<Job>, routing: seq<nat>, gpus: nat, j: nat)
    requires Routed(jobs, routing, gpus) && j < |jobs| && jobs[j].arrivalMs >= 0.0
    ensures var row := RowAt(jobs, routing, gpus, j);
      && row.queueMs >= 0.0
      && (row.queueMs > 0.0 ==>
        exists i :: 0 <= i < j && routing[i] == routing[j] && row.dispatchMs == RowAt(jobs, routing, gpus, i).finishMs)
  {
    FreedBy(jobs, routing, gpus, j, routing[j]);
  }

  lemma {:induction false} FreedBy(jobs: seq<Job>, routing: seq<nat>, gpus: nat, n: nat, gpu: nat)
    requires Routed(jobs, routing, gpus) && n <= |jobs| && gpu < gpus
    ensures AvailableAfter(jobs, routing, gpus, n)[gpu] == 0.0 ||
      exists i :: 0 <= i < n && routing[i] == gpu && AvailableAfter(jobs, routing, gpus, n)[gpu] == RowAt(jobs, routing, gpus, i).finishMs
  {
    if n > 0 {
      FreedBy(jobs, routing, gpus, n - 1, gpu);
      if routing[n - 1] == gpu {
        assert AvailableAfter(jobs, routing, gpus, n)[gpu] == RowAt(jobs, routing, gpus, n - 1).finishMs;
      }
    }
  }

  /** Later requests do not change earlier rows. */
  lemma {:induction false} Extended(jobs: seq<Job>, routing: seq<nat>, gpus: nat, job: Job, gpu: nat)
    requires Routed(jobs, routing, gpus) && gpu < gpus
    ensures Routed(jobs + [job], routing + [gpu], gpus)
    ensures forall n: nat :: n <= |jobs| ==>
      AvailableAfter(jobs + [job], routing + [gpu], gpus, n) == AvailableAfter(jobs, routing, gpus, n)
    ensures forall i: nat :: i < |jobs| ==> RowAt(jobs + [job], routing + [gpu], gpus, i) == RowAt(jobs, routing, gpus, i)
  {
    forall n: nat | n <= |jobs|
      ensures AvailableAfter(jobs + [job], routing + [gpu], gpus, n) == AvailableAfter(jobs, routing, gpus, n)
    {
      SamePrefix(jobs, routing, gpus, job, gpu, n);
    }
  }

  lemma {:induction false} SamePrefix(jobs: seq<Job>, routing: seq<nat>, gpus: nat, job: Job, gpu: nat, n: nat)
    requires Routed(jobs, routing, gpus) && gpu < gpus && n <= |jobs|
    ensures Routed(jobs + [job], routing + [gpu], gpus)
    ensures AvailableAfter(jobs + [job], routing + [gpu], gpus, n) == AvailableAfter(jobs, routing, gpus, n)
  {
    if n > 0 {
      SamePrefix(jobs, routing, gpus, job, gpu, n - 1);
    }
  }

  /** Among the GPUs free as early as any, the first one round-robin. */
  ghost predicate Earliest(available: seq<real>, next: nat, gpu: nat) {
    && next < |available| && gpu < |available|
    && exists earliest: real ::
         && (forall g :: 0 <= g < |available| ==> earliest <= available[g])
         && earliest in available
         && Close(available[gpu], earliest)
         && forall g: nat :: g < |available| && Close(available[g], earliest) ==>
              Offset(next, gpu, |available|) <= Offset(next, g, |available|)
  }

  method EarliestGpu(available: seq<real>, next: nat) returns (gpu: nat)
    requires next < |available|
    ensures Earliest(available, next, gpu)
  {
    var earliest, least := available[0], 0;
    for g := 1 to |available|
      invariant 0 <= least < |available| && available[least] == earliest
      invariant forall h :: 0 <= h < g ==> earliest <= available[h]
    {
      if available[g] < earliest {
        earliest, least := available[g], g;
      }
    }
    var tied: set<nat> := set g: nat | g < |available| && Close(available[g], earliest);
    assert least in tied;
    gpu := FirstTied(tied, next, |available|);
  }

  /** Where round-robin continues before request `i`, when it began at request `first`. */
  function NextGpu(routing: seq<nat>, first: nat, i: nat, gpus: nat): nat
    requires first <= i <= |routing| && gpus > 0
  {
    if i == first then 0 else (routing[i - 1] + 1) % gpus
  }

  /** Every request is on the GPU of the routing, or beyond it on the one free
      first; its row and the availability behind it are those of the replay. */
  ghost predicate Replays(
    jobs: seq<Job>, routing: seq<nat>, gpus: nat, used: seq<nat>, rows: seq<Row>, available: seq<real>)
  {
    && gpus > 0
    && Routed(jobs, used, gpus)
    && (forall i :: 0 <= i < |jobs| && i < |routing| ==> used[i] == routing[i])
    && (forall i :: |routing| <= i < |jobs| ==>
          Earliest(AvailableAfter(jobs, used, gpus, i), NextGpu(used, |routing|, i, gpus), used[i]))
    && |rows| == |jobs|
    && (forall i :: 0 <= i < |jobs| ==> rows[i] == RowAt(jobs, used, gpus, i))
    && available == AvailableAfter(jobs, used, gpus, |jobs|)
  }

  lemma {:induction false} NothingReplayed(routing: seq<nat>, gpus: nat, available: seq<real>)
    requires gpus > 0 && available == seq(gpus, i => 0.0)
    ensures Replays([], routing, gpus, [], [], available)
  {
  }

  lemma {:induction false} OneMoreReplayed(
    jobs: seq<Job>, routing: seq<nat>, gpus: nat, used: seq<nat>, rows: seq<Row>, available: seq<real>, job: Job, gpu: nat)
    requires Replays(jobs, routing, gpus, used, rows, available) && gpu < gpus
    requires if |jobs| < |routing| then gpu == routing[|jobs|]
             else Earliest(available, NextGpu(used, |routing|, |jobs|, gpus), gpu)
    ensures var row := Timed(available, job, gpu);
      Replays(jobs + [job], routing, gpus, used + [gpu], rows + [row], available[gpu := row.finishMs])
  {
    hide AvailableAfter, Earliest, RowAt;
    Extended(jobs, used, gpus, job, gpu);
    NextRow(jobs, used, gpus, job, gpu);
    forall i | |routing| <= i <= |jobs|
      ensures Earliest(AvailableAfter(jobs + [job], used + [gpu], gpus, i),
                       NextGpu(used + [gpu], |routing|, i, gpus), (used + [gpu])[i])
    {
      assert AvailableAfter(jobs + [job], used + [gpu], gpus, i) == AvailableAfter(jobs, used, gpus, i);
      assert NextGpu(used + [gpu], |routing|, i, gpus) == NextGpu(used, |routing|, i, gpus);
    }
  }

  /** `apply_online_timing`: requests the routing does not cover go to the GPU that
      is free first. */
  method ApplyOnlineTiming(jobs: seq<Job>, routing: seq<nat>, gpus: nat)
    returns (rows: seq<Row>, used: seq<nat>, available: seq<real>)
    requires gpus > 0 && forall i :: 0 <= i < |routing| ==> routing[i] < gpus
    ensures Replays(jobs, routing, gpus, used, rows, available)
    ensures forall i :: 0 <= i < |jobs| ==>
      && rows[i].gpu == used[i] && rows[i].queueMs >= 0.0 && rows[i].dispatchMs == jobs[i].arrivalMs + rows[i].queueMs
      && rows[i].firstTokenMs == rows[i].dispatchMs + jobs[i].serviceMs
      && rows[i].finishMs == rows[i].firstTokenMs + jobs[i].decodeMs
  {
    hide AvailableAfter, RowAt, Earliest;
    available, rows, used := seq(gpus, i => 0.0), [], [];
    NothingReplayed(routing, gpus, available);
    var next: nat := 0;
    for i := 0 to |jobs|
      invariant Replays(jobs[..i], routing, gpus, used, rows, available)
      invariant if i <= |routing| then next == 0 else next == NextGpu(used, |routing|, i, gpus)
    {
      var gpu: nat := 0;
      if i < |routing| {
        gpu := routing[i];
      } else {
        gpu := EarliestGpu(available, next);
        next := (gpu + 1) % gpus;
      }
      OneMoreReplayed(jobs[..i], routing, gpus, used, rows, available, jobs[i], gpu);
      assert jobs[..i + 1] == jobs[..i] + [jobs[i]];
      var row, free := TimeJob(jobs[i], available, gpu);
      available, rows, used := free, rows + [row], used + [gpu];
    }
    assert jobs[..|jobs|] == jobs;
    forall i | 0 <= i < |jobs|
      ensures rows[i].gpu == used[i] && rows[i].queueMs >= 0.0 && rows[i].dispatchMs == jobs[i].arrivalMs + rows[i].queueMs
      ensures rows[i].firstTokenMs == rows[i].dispatchMs + jobs[i].serviceMs
      ensures rows[i].finishMs == rows[i].firstTokenMs + jobs[i].decodeMs
    {
      RowAddsUp(jobs, used, gpus, i);
    }
  }

  method TimeJob(job: Job, available: seq<real>, gpu: nat) returns (row: Row, free: seq<real>)
    requires gpu < |available|
    ensures row == Timed(available, job, gpu) && free == available[gpu := row.finishMs]
  {
    var dispatch := MaxReal(job.arrivalMs, available[gpu]);
    var firstToken := dispatch + job.serviceMs;
    var finish := firstToken + job.decodeMs;
    free := available[gpu := finish];
    row := Row(gpu, dispatch, firstToken, finish, dispatch - job.arrivalMs);
  }

  /** The row of one more request. */
  lemma {:induction false} NextRow(jobs: seq<Job>, routing: seq<nat>, gpus: nat, job: Job, gpu: nat)
    requires Routed(jobs, routing, gpus) && gpu < gpus
    ensures var available := AvailableAfter(jobs, routing, gpus, |jobs|);
      && Routed(jobs + [job], routing + [gpu], gpus)
      && RowAt(jobs + [job], routing + [gpu], gpus, |jobs|) == Timed(available, job, gpu)
      && AvailableAfter(jobs + [job], routing + [gpu], gpus, |jobs| + 1)
        == available[gpu := Timed(available, job, gpu).finishMs]
  {
    SamePrefix(jobs, routing, gpus, job, gpu, |jobs|);
  }

  /** A request together with the previews its routing decision sees. */
  datatype Arrival = Arrival(arrivalMs: real, decodeMs: real, candidates: seq<Preview>)

  /** Request `i` was routed by the rule, from the availability the run has then. */
  ghost predicate RoutedByRule(
    arrivals: seq<Arrival>, jobs: seq<Job>, routing: seq<nat>, gpus: nat, weight: real, i: nat)
    requires Routed(jobs, routing, gpus) && i < |jobs| <= |arrivals| && gpus > 0
    requires forall i :: 0 <= i < |arrivals| ==> Candidates(arrivals[i].candidates, gpus)
  {
    exists p: Preview ::
      && p.gpu == routing[i]
      && Chosen(arrivals[i].candidates, AvailableAfter(jobs, routing, gpus, i), arrivals[i].arrivalMs,
                NextGpu(routing, 0, i, gpus), weight, p)
  }

  /** Request `i` went to a GPU from which, by the replay of the run itself, no other
      candidate would have given its first token clearly earlier. */
  ghost predicate RoutedSoonest(
    arrivals: seq<Arrival>, jobs: seq<Job>, routing: seq<nat>, gpus: nat, weight: real, i: nat)
    requires Routed(jobs, routing, gpus) && i < |jobs| <= |arrivals| && gpus > 0
    requires forall i :: 0 <= i < |arrivals| ==> Candidates(arrivals[i].candidates, gpus)
  {
    exists p: Preview ::
      && p in arrivals[i].candidates && p.gpu == routing[i]
      && Soonest(arrivals[i].candidates, AvailableAfter(jobs, routing, gpus, i), arrivals[i].arrivalMs, weight, p)
  }

  lemma {:induction false} RuleIsSoonest(
    arrivals: seq<Arrival>, jobs: seq<Job>, routing: seq<nat>, gpus: nat, weight: real, i: nat)
    requires Routed(jobs, routing, gpus) && i < |jobs| <= |arrivals| && gpus > 0
    requires forall i :: 0 <= i < |arrivals| ==> Candidates(arrivals[i].candidates, gpus)
    requires RoutedByRule(arrivals, jobs, routing, gpus, weight, i)
    ensures RoutedSoonest(arrivals, jobs, routing, gpus, weight, i)
  {
    hide Soonest, AvailableAfter, Score, Close, Offset;
    var p: Preview :|
      && p.gpu == routing[i]
      && Chosen(arrivals[i].candidates, AvailableAfter(jobs, routing, gpus, i), arrivals[i].arrivalMs,
                NextGpu(routing, 0, i, gpus), weight, p);
    ChosenIsSoonest(arrivals[i].candidates, AvailableAfter(jobs, routing, gpus, i), arrivals[i].arrivalMs,
                    NextGpu(routing, 0, i, gpus), weight, p);
  }

  /** Jobs of the arrivals, served as long as they really take. */
  ghost predicate Executed(arrivals: seq<Arrival>, jobs: seq<Job>, routing: seq<nat>, executedMs: (nat, nat) -> real) {
    && |jobs| == |routing| <= |arrivals|
    && forall i: nat :: i < |jobs| ==>
         jobs[i] == Job(arrivals[i].arrivalMs, executedMs(i, routing[i]), arrivals[i].decodeMs)
  }

  /** The routing loop of a run: choose by preview, execute, and advance that GPU's
      availability by what the execution took. */
  method RouteOnline(arrivals: seq<Arrival>, gpus: nat, weight: real, executedMs: (nat, nat) -> real)
    returns (routing: seq<nat>, jobs: seq<Job>, predicted: seq<real>)
    requires gpus > 0 && forall i :: 0 <= i < |arrivals| ==> Candidates(arrivals[i].candidates, gpus)
    ensures |jobs| == |predicted| == |arrivals| && Routed(jobs, routing, gpus)
    ensures Executed(arrivals, jobs, routing, executedMs)
    ensures forall i :: 0 <= i < |arrivals| ==> RoutedByRule(arrivals, jobs, routing, gpus, weight, i)
    ensures forall i :: 0 <= i < |arrivals| ==> RoutedSoonest(arrivals, jobs, routing, gpus, weight, i)
    // the queueing predicted at routing is the queueing the timing pass replays
    ensures forall i :: 0 <= i < |arrivals| ==> predicted[i] == RowAt(jobs, routing, gpus, i).queueMs
  {
    hide AvailableAfter, RowAt, Chosen, RoutedByRule, RoutedSoonest, Soonest;
    routing, jobs, predicted := [], [], [];
    var available: seq<real>, next: nat := seq(gpus, i => 0.0), 0;
    NothingRouted(gpus, available);
    for i := 0 to |arrivals|
      invariant |jobs| == |predicted| == i && Routed(jobs, routing, gpus)
      invariant next < gpus && next == NextGpu(routing, 0, i, gpus)
      invariant available == AvailableAfter(jobs, routing, gpus, i)
      invariant Executed(arrivals, jobs, routing, executedMs)
      invariant forall j :: 0 <= j < i ==> RoutedByRule(arrivals, jobs, routing, gpus, weight, j)
      invariant forall j :: 0 <= j < i ==> predicted[j] == RowAt(jobs, routing, gpus, j).queueMs
    {
      var a := arrivals[i];
      var chosen, queue, following := ChooseCandidate(a.candidates, available, a.arrivalMs, next, weight);
      var job := Job(a.arrivalMs, executedMs(i, chosen.gpu), a.decodeMs);
      Extended(jobs, routing, gpus, job, chosen.gpu);
      NextRow(jobs, routing, gpus, job, chosen.gpu);
      OneMoreRouted(arrivals, jobs, routing, gpus, weight, job, chosen);
      available := available[chosen.gpu := Dispatch(available, job, chosen.gpu) + job.serviceMs + job.decodeMs];
      routing, jobs, predicted, next := routing + [chosen.gpu], jobs + [job], predicted + [queue], following;
    }
    forall i | 0 <= i < |arrivals| ensures RoutedSoonest(arrivals, jobs, routing, gpus, weight, i) {
      RuleIsSoonest(arrivals, jobs, routing, gpus, weight, i);
    }
  }

  lemma {:induction false} NothingRouted(gpus: nat, available: seq<real>)
    requires available == seq(gpus, i => 0.0)
    ensures Routed([], [], gpus) && AvailableAfter([], [], gpus, 0) == available
  {
  }

  lemma {:induction false} OneMoreRouted(
    arrivals: seq<Arrival>, jobs: seq<Job>, routing: seq<nat>, gpus: nat, weight: real, job: Job, chosen: Preview)
    requires Routed(jobs, routing, gpus) && |jobs| < |arrivals| && chosen.gpu < gpus && gpus > 0
    requires forall i :: 0 <= i < |arrivals| ==> Candidates(arrivals[i].candidates, gpus)
    requires forall j :: 0 <= j < |jobs| ==> RoutedByRule(arrivals, jobs, routing, gpus, weight, j)
    requires Chosen(arrivals[|jobs|].candidates, AvailableAfter(jobs, routing, gpus, |jobs|), arrivals[|jobs|].arrivalMs,
                    NextGpu(routing, 0, |jobs|, gpus), weight, chosen)
    ensures forall j :: 0 <= j <= |jobs| ==>
      RoutedByRule(arrivals, jobs + [job], routing + [chosen.gpu], gpus, weight, j)
  {
    hide AvailableAfter, Chosen;
    var n := |jobs|;
    Extended(jobs, routing, gpus, job, chosen.gpu);
    forall j | 0 <= j <= n ensures RoutedByRule(arrivals, jobs + [job], routing + [chosen.gpu], gpus, weight, j) {
      assert NextGpu(routing + [chosen.gpu], 0, j, gpus) == NextGpu(routing, 0, j, gpus);
      assert AvailableAfter(jobs + [job], routing + [chosen.gpu], gpus, j) == AvailableAfter(jobs, routing, gpus, j);
      if j < n {
        assert RoutedByRule(arrivals, jobs, routing, gpus, weight, j);
        var p: Preview :| p.gpu == routing[j]
          && Chosen(arrivals[j].candidates, AvailableAfter(jobs, routing, gpus, j), arrivals[j].arrivalMs,
                    NextGpu(routing, 0, j, gpus), weight, p);
      }
    }
  }
}
