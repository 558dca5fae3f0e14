/** Arranging model requests without consecutive repeats, and annealing swaps that
    keep them apart (evaluation/traces/generate_target_trace.py). */
module TraceArrangement {
  import opened Common

  // ------------------------------------------------------ what is arranged

  /** No model is requested twice in a row. */
  ghost predicate NoRepeats(s: seq<int>) {
    forall i, j :: 0 <= i && j == i + 1 && j < |s| ==> s[i] != s[j]
  }

  /** How often `m` occurs. */
  function Count(s: seq<int>, m: int): nat {
    if s == [] then 0 else Count(s[..|s| - 1], m) + if s[|s| - 1] == m then 1 else 0
  }

  lemma {:induction false} CountAppend(s: seq<int>, x: int, m: int)
    ensures Count(s + [x], m) == Count(s, m) + if x == m then 1 else 0
  {
    assert (s + [x])[..|s|] == s;
  }

  /** Without repeats a model fills at most every other place. */
  lemma {:induction false} AtMostHalf(s: seq<int>, m: int)
    requires NoRepeats(s)
    ensures 2 * Count(s, m) <= |s| + 1
    ensures s != [] && s[|s| - 1] != m ==> 2 * Count(s, m) <= |s|
  {
    if s != [] {
      var shorter := s[..|s| - 1];
      AtMostHalf(shorter, m);
      if |s| >= 2 {
        assert s[|s| - 2] != s[|s| - 1];
      }
    }
  }

  // ---------------------------------------------------------------- counts

  /** Request counts of the listed models. */
  datatype Counts = Counts(ids: seq<int>, of: map<int, int>) {
    ghost predicate Valid() {
      && (forall i, j :: 0 <= i < j < |ids| ==> ids[i] != ids[j])
      && (forall m :: m in ids <==> m in of)
      && (forall m :: m in of ==> of[m] >= 0)
    }
  }

  lemma {:induction false} Listed(c: Counts)
    requires c.Valid()
    ensures forall i :: 0 <= i < |c.ids| ==> c.ids[i] in c.of && c.of[c.ids[i]] >= 0
  {
    forall i | 0 <= i < |c.ids| ensures c.ids[i] in c.of && c.of[c.ids[i]] >= 0 {
      var m := c.ids[i];
      assert m in c.ids;
    }
  }

  function TotalOf(c: Counts): int
    requires c.Valid()
  {
    Listed(c);
    SumOver(c.ids, c.of)
  }

  lemma {:induction false} SumBounds(ids: seq<int>, w: map<int, int>, i: nat, j: nat)
    requires forall k :: 0 <= k < |ids| ==> ids[k] in w && w[ids[k]] >= 0
    requires i < j < |ids|
    ensures SumOver(ids, w) >= w[ids[i]] + w[ids[j]]
  {
    if j < |ids| - 1 {
      SumBounds(ids[..|ids| - 1], w, i, j);
    } else {
      SumAtLeast(ids[..|ids| - 1], w, i);
    }
  }

  lemma {:induction false} SumAtLeast(ids: seq<int>, w: map<int, int>, i: nat)
    requires forall k :: 0 <= k < |ids| ==> ids[k] in w && w[ids[k]] >= 0
    requires i < |ids|
    ensures SumOver(ids, w) >= w[ids[i]]
  {
    if i < |ids| - 1 {
      SumAtLeast(ids[..|ids| - 1], w, i);
    } else {
      SumNonNegative(ids[..|ids| - 1], w);
    }
  }

  lemma {:induction false} SumNonNegative(ids: seq<int>, w: map<int, int>)
    requires forall k :: 0 <= k < |ids| ==> ids[k] in w && w[ids[k]] >= 0
    ensures SumOver(ids, w) >= 0
  {
    if ids != [] {
      SumNonNegative(ids[..|ids| - 1], w);
    }
  }

  lemma {:induction false} SumOthersZero(ids: seq<int>, w: map<int, int>, x: int)
    requires forall k :: 0 <= k < |ids| ==> ids[k] in w && w[ids[k]] >= 0 && (ids[k] != x ==> w[ids[k]] == 0)
    requires forall i, j :: 0 <= i < j < |ids| ==> ids[i] != ids[j]
    ensures SumOver(ids, w) == if x in ids then w[x] else 0
  {
    if ids != [] {
      var shorter, last := ids[..|ids| - 1], ids[|ids| - 1];
      SumOthersZero(shorter, w, x);
      assert ids == shorter + [last];
      if last == x {
        assert x !in shorter;
      }
    }
  }

  /** Two different models together never exceed the total. */
  lemma {:induction false} PairWithin(c: Counts, x: int, y: int)
    requires c.Valid() && x in c.of && y in c.of && x != y
    ensures c.of[x] + c.of[y] <= TotalOf(c)
  {
    Listed(c);
    var i :| 0 <= i < |c.ids| && c.ids[i] == x;
    var j :| 0 <= j < |c.ids| && c.ids[j] == y;
    if i < j {
      SumBounds(c.ids, c.of, i, j);
    } else {
      SumBounds(c.ids, c.of, j, i);
    }
  }

  lemma {:induction false} SomethingLeft(c: Counts, x: int)
    requires c.Valid() && forall m :: m in c.of && m != x ==> c.of[m] == 0
    ensures TotalOf(c) == if x in c.of then c.of[x] else 0
  {
    Listed(c);
    forall k | 0 <= k < |c.ids| ensures c.of[c.ids[k]] >= 0 && (c.ids[k] != x ==> c.of[c.ids[k]] == 0) {
      var m := c.ids[k];
      assert m in c.of;
    }
    SumOthersZero(c.ids, c.of, x);
  }

  function Taken(c: Counts, m: int): Counts
    requires m in c.of
  {
    Counts(c.ids, c.of[m := c.of[m] - 1])
  }

  lemma {:induction false} TakenTotal(c: Counts, m: int)
    requires c.Valid() && m in c.of && c.of[m] > 0
    ensures Taken(c, m).Valid() && TotalOf(Taken(c, m)) == TotalOf(c) - 1
  {
    Listed(c);
    Listed(Taken(c, m));
    SumTaken(c.ids, c.of, m);
  }

  lemma {:induction false} SumTaken(ids: seq<int>, w: map<int, int>, m: int)
    requires m in w && forall k :: 0 <= k < |ids| ==> ids[k] in w
    requires forall i, j :: 0 <= i < j < |ids| ==> ids[i] != ids[j]
    ensures SumOver(ids, w[m := w[m] - 1]) == SumOver(ids, w) - if m in ids then 1 else 0
  {
    if ids != [] {
      var shorter, last := ids[..|ids| - 1], ids[|ids| - 1];
      SumTaken(shorter, w, m);
      assert ids == shorter + [last];
      if last == m {
        assert m !in shorter;
      }
    }
  }

  // ------------------------------------------------------ greedy arrangement

  /** The rest can still be arranged behind `sequence`: no model has more than half
      of it, and the last model at most half rounded down. */
  ghost predicate Arrangeable(c: Counts, sequence: seq<int>)
    requires c.Valid()
  {
    && (forall m :: m in c.of ==> 2 * c.of[m] <= TotalOf(c) + 1)
    && (sequence != [] && sequence[|sequence| - 1] in c.of ==> 2 * c.of[sequence[|sequence| - 1]] <= TotalOf(c))
  }

  ghost predicate Candidate(c: Counts, sequence: seq<int>, m: int) {
    m in c.of && c.of[m] > 0 && (sequence == [] || m != sequence[|sequence| - 1])
  }

  /** What the code picks from: a candidate with the most requests left. */
  ghost predicate Largest(c: Counts, sequence: seq<int>, m: int) {
    Candidate(c, sequence, m) && forall x :: Candidate(c, sequence, x) ==> c.of[x] <= c.of[m]
  }

  /** While something is left there is a candidate. */
  lemma {:induction false} CandidateExists(c: Counts, sequence: seq<int>)
    requires c.Valid() && Arrangeable(c, sequence) && TotalOf(c) > 0
    ensures exists m :: Candidate(c, sequence, m)
  {
    if forall m :: !Candidate(c, sequence, m) {
      var last := if sequence == [] then 0 else sequence[|sequence| - 1];
      forall m | m in c.of && (sequence == [] || m != last) ensures c.of[m] == 0 {
        assert !Candidate(c, sequence, m);
      }
      SomethingLeft(c, last);
    }
  }

  /** Taking a largest candidate keeps the rest arrangeable, whichever is taken. */
  lemma {:induction false} GreedyStep(c: Counts, sequence: seq<int>, m: int)
    requires c.Valid() && Arrangeable(c, sequence) && Largest(c, sequence, m)
    ensures Taken(c, m).Valid() && Arrangeable(Taken(c, m), sequence + [m])
    ensures TotalOf(Taken(c, m)) == TotalOf(c) - 1
  {
    TakenTotal(c, m);
    forall x | x in c.of && x != m ensures 2 * c.of[x] <= TotalOf(c) {
      PairWithin(c, x, m);
      if c.of[x] > 0 && (sequence == [] || x != sequence[|sequence| - 1]) {
        assert Candidate(c, sequence, x);
      }
    }
  }

  /** What has been placed and what is left make up the counts. */
  ghost predicate Placed(start: Counts, c: Counts, sequence: seq<int>) {
    && c.ids == start.ids && c.of.Keys == start.of.Keys
    && (forall m :: m in start.of ==> Count(sequence, m) + c.of[m] == start.of[m])
    && (forall m :: m in sequence ==> m in start.of)
    && NoRepeats(sequence)
  }

  lemma {:induction false} PlaceOne(start: Counts, c: Counts, sequence: seq<int>, m: int)
    requires c.Valid() && Placed(start, c, sequence) && Candidate(c, sequence, m)
    ensures Placed(start, Taken(c, m), sequence + [m])
  {
    forall x | x in start.of ensures Count(sequence + [m], x) + Taken(c, m).of[x] == start.of[x] {
      CountAppend(sequence, m, x);
    }
  }

  /** Every model is listed exactly as often as it is counted. */
  ghost predicate Arrangement(counts: Counts, sequence: seq<int>) {
    && NoRepeats(sequence)
    && (forall m :: m in sequence ==> m in counts.of)
    && (forall m :: m in counts.of ==> Count(sequence, m) == counts.of[m])
  }

  /** `balanced_count_sequence`: always the most frequent model that does not repeat
      the last one, ties broken arbitrarily. It succeeds exactly when no count exceeds
      half the total rounded up. */
  method BalancedSequence(counts: Counts) returns (r: Option<seq<int>>)
    requires counts.Valid()
    ensures r.Some? <==> forall m :: m in counts.of ==> 2 * counts.of[m] <= TotalOf(counts) + 1
    ensures r.Some? ==> Arrangement(counts, r.value) && |r.value| == TotalOf(counts)
  {
    var remaining, sequence: seq<int> := counts, [];
    while TotalOf(remaining) > 0
      invariant remaining.Valid() && Placed(counts, remaining, sequence)
      invariant |sequence| + TotalOf(remaining) == TotalOf(counts)
      invariant Arrangeable(counts, []) ==> Arrangeable(remaining, sequence)
      decreases TotalOf(remaining)
    {
      var m := PickLargest(remaining, sequence);
      if m.None? {
        if Arrangeable(counts, []) {
          CandidateExists(remaining, sequence);
        }
        return None;
      }
      PlaceOne(counts, remaining, sequence, m.value);
      TakenTotal(remaining, m.value);
      if Arrangeable(counts, []) {
        GreedyStep(remaining, sequence, m.value);
      }
      sequence := sequence + [m.value];
      remaining := Taken(remaining, m.value);
    }
    NothingLeft(counts, remaining, sequence);
    forall m | m in counts.of ensures 2 * counts.of[m] <= TotalOf(counts) + 1 {
      AtMostHalf(sequence, m);
    }
    r := Some(sequence);
  }

  lemma {:induction false} NothingLeft(start: Counts, c: Counts, sequence: seq<int>)
    requires start.Valid() && c.Valid() && Placed(start, c, sequence) && TotalOf(c) <= 0
    requires |sequence| + TotalOf(c) == TotalOf(start)
    ensures Arrangement(start, sequence) && |sequence| == TotalOf(start)
  {
    Listed(c);
    SumNonNegative(c.ids, c.of);
    forall m | m in start.of ensures c.of[m] == 0 {
      var i :| 0 <= i < |c.ids| && c.ids[i] == m;
      SumAtLeast(c.ids, c.of, i);
    }
  }

  /** Some candidate with the most requests left. */
  method PickLargest(c: Counts, sequence: seq<int>) returns (r: Option<int>)
    requires c.Valid()
    ensures r.Some? ==> Largest(c, sequence, r.value)
    ensures r.None? ==> forall m :: !Candidate(c, sequence, m)
  {
    var best: Option<int> := None;
    for i := 0 to |c.ids|
      invariant best.Some? ==> Candidate(c, sequence, best.value)
      invariant forall j :: 0 <= j < i && Candidate(c, sequence, c.ids[j]) ==>
        best.Some? && c.of[c.ids[j]] <= c.of[best.value]
    {
      var m := c.ids[i];
      assert m in c.ids;
      if c.of[m] > 0 && (sequence == [] || m != sequence[|sequence| - 1]) {
        if best.None? || c.of[m] > c.of[best.value] {
          best := Some(m);
        } else if c.of[m] == c.of[best.value] {
          // `rng.choice` among equals
          if * {
            best := Some(m);
          }
        }
      }
    }
    r := best;
    forall x | Candidate(c, sequence, x) ensures r.Some? && c.of[x] <= c.of[r.value] {
      var j :| 0 <= j < |c.ids| && c.ids[j] == x;
    }
  }

  // --------------------------------------------------------------- swapping

  function Swapped(s: seq<int>, i: nat, j: nat): seq<int>
    requires i < |s| && j < |s|
  {
    s[i := s[j]][j := s[i]]
  }

  /** One changed place against one neighbour. */
  predicate Clashes(s: seq<int>, first: nat, second: nat, index: int, neighbor: int)
    requires first < |s| && second < |s| && 0 <= index < |s|
  {
    0 <= neighbor < |s| && Swapped(s, first, second)[index] == Swapped(s, first, second)[neighbor]
  }

  /** `valid_swap`: checks only the neighbours of the two places. On a sequence
      without repeats this decides exactly whether the swap leaves it without. */
  method ValidSwap(s: seq<int>, first: nat, second: nat, frozen: nat) returns (ok: bool)
    requires first < |s| && second < |s|
    ensures NoRepeats(s) ==>
      (ok <==> frozen <= first && frozen <= second && s[first] != s[second] && NoRepeats(Swapped(s, first, second)))
    ensures ok ==> frozen <= first && frozen <= second && first != second
  {
    if first < frozen || second < frozen || first == second {
      return false;
    }
    if s[first] == s[second] {
      return false;
    }
    ghost var swapped := Swapped(s, first, second);
    ok := !Clashes(s, first, second, first, first - 1) && !Clashes(s, first, second, first, first + 1)
      && !Clashes(s, first, second, second, second - 1) && !Clashes(s, first, second, second, second + 1);
    if NoRepeats(s) {
      SwapDecided(s, first, second);
    }
  }

  lemma {:induction false} SwapDecided(s: seq<int>, first: nat, second: nat)
    requires first < |s| && second < |s| && first != second && NoRepeats(s)
    ensures NoRepeats(Swapped(s, first, second)) <==>
      !Clashes(s, first, second, first, first - 1) && !Clashes(s, first, second, first, first + 1)
      && !Clashes(s, first, second, second, second - 1) && !Clashes(s, first, second, second, second + 1)
  {
    var t := Swapped(s, first, second);
    if NoRepeats(t) {
      assert first > 0 ==> t[first - 1] != t[first];
      assert first + 1 < |t| ==> t[first] != t[first + 1];
      assert second > 0 ==> t[second - 1] != t[second];
      assert second + 1 < |t| ==> t[second] != t[second + 1];
    }
  }

  lemma {:induction false} SwapKeepsCounts(s: seq<int>, i: nat, j: nat)
    requires i < |s| && j < |s|
    ensures multiset(Swapped(s, i, j)) == multiset(s)
    ensures |Swapped(s, i, j)| == |s|
    ensures Swapped(Swapped(s, i, j), i, j) == s
  {
    assert multiset(s[i := s[j]]) == multiset(s) - multiset{s[i]} + multiset{s[j]};
  }

  /** A step of the annealing loop: two places and whether chance accepts a worse
      sequence. */
  datatype Proposal = Proposal(first: nat, second: nat, lucky: bool)

  ghost predicate Kept(initial: seq<int>, s: seq<int>, frozen: nat) {
    && |s| == |initial| && multiset(s) == multiset(initial)
    && (frozen <= |initial| ==> s[..frozen] == initial[..frozen])
    && (NoRepeats(initial) ==> NoRepeats(s))
  }

  lemma {:induction false} SwapKeeps(initial: seq<int>, s: seq<int>, frozen: nat, i: nat, j: nat)
    requires Kept(initial, s, frozen) && i < |s| && j < |s| && frozen <= i && frozen <= j
    requires NoRepeats(s) ==> NoRepeats(Swapped(s, i, j))
    ensures Kept(initial, Swapped(s, i, j), frozen)
  {
    SwapKeepsCounts(s, i, j);
    if frozen <= |initial| {
      assert Swapped(s, i, j)[..frozen] == s[..frozen];
    }
  }

  /** The annealing loop, on an array changed in place and changed back on
      rejection. Whatever is proposed and accepted, the best sequence has the same
      counts, the same frozen prefix and no repeats, and no higher loss. */
  method Anneal(initial: seq<int>, frozen: nat, proposals: seq<Proposal>, loss: seq<int> -> real) returns (best: seq<int>)
    requires forall k :: 0 <= k < |proposals| ==>
      frozen <= proposals[k].first < |initial| && frozen <= proposals[k].second < |initial|
    ensures Kept(initial, best, frozen)
    ensures loss(best) <= loss(initial)
  {
    var current := new int[|initial|](i requires 0 <= i < |initial| => initial[i]);
    assert current[..] == initial;
    var currentLoss := loss(initial);
    var bestLoss;
    best, bestLoss := initial, currentLoss;
    for k := 0 to |proposals|
      invariant Kept(initial, current[..], frozen) && Kept(initial, best, frozen)
      invariant currentLoss == loss(current[..]) && bestLoss == loss(best) && bestLoss <= loss(initial)
    {
      var p := proposals[k];
      ghost var before := current[..];
      var ok := ValidSwap(current[..], p.first, p.second, frozen);
      if ok {
        SwapKeeps(initial, before, frozen, p.first, p.second);
        SwapKeepsCounts(before, p.first, p.second);
        current[p.first], current[p.second] := current[p.second], current[p.first];
        assert current[..] == Swapped(before, p.first, p.second);
        var candidateLoss := loss(current[..]);
        if candidateLoss <= currentLoss || p.lucky {
          currentLoss := candidateLoss;
          if candidateLoss < bestLoss {
            best, bestLoss := current[..], candidateLoss;
          }
        } else {
          current[p.first], current[p.second] := current[p.second], current[p.first];
          assert current[..] == before;
        }
      }
    }
  }
}
