/** Reuse distances of a request trace, computed in three ways
    (evaluation/traces/generate_target_trace.py,
    evaluation/traces/show_trace_pattern.py,
    evaluation/motivation/multi_model_locality.py). */
module ReuseDistance {
  import opened Common

  // ----------------------------------------------------------- definition

  /** The position of the last request for `m` among the first `n`, if any. */
  function LastUse(trace: seq<int>, n: nat, m: int): Option<nat>
    requires n <= |trace|
  {
    if n == 0 then None else if trace[n - 1] == m then Some(n - 1) else LastUse(trace, n - 1, m)
  }

  /** The models other than `m` requested from position `from` on, before `n`. */
  function Others(trace: seq<int>, from: nat, n: nat, m: int): set<int>
    requires n <= |trace|
  {
    if n <= from then {}
    else Others(trace, from, n - 1, m) + if trace[n - 1] == m then {} else {trace[n - 1]}
  }

  /** Distances of the reuses of `m` among the first `n` requests: how many other
      models were requested since the request before. */
  function Distances(trace: seq<int>, n: nat, m: int): seq<nat>
    requires n <= |trace|
  {
    if n == 0 then []
    else
      var before, last := Distances(trace, n - 1, m), LastUse(trace, n - 1, m);
      if trace[n - 1] == m && last.Some? then before + [|Others(trace, last.value + 1, n - 1, m)|] else before
  }

  lemma {:induction false} LastUseFacts(trace: seq<int>, n: nat, m: int)
    requires n <= |trace|
    ensures LastUse(trace, n, m).Some? ==> LastUse(trace, n, m).value < n && trace[LastUse(trace, n, m).value] == m
    ensures LastUse(trace, n, m).None? ==> forall i :: 0 <= i < n ==> trace[i] != m
    ensures LastUse(trace, n, m).Some? ==> forall i :: LastUse(trace, n, m).value < i < n ==> trace[i] != m
  {
    if n > 0 && trace[n - 1] != m {
      LastUseFacts(trace, n - 1, m);
    }
  }

  lemma {:induction false} OthersMember(trace: seq<int>, from: nat, n: nat, m: int, x: int)
    requires n <= |trace|
    ensures x in Others(trace, from, n, m) <==> x != m && exists i :: from <= i < n && trace[i] == x
  {
    if n > from {
      OthersMember(trace, from, n - 1, m, x);
      if x != m && trace[n - 1] == x {
        assert from <= n - 1 < n && trace[n - 1] == x;
      }
      if exists i :: from <= i < n - 1 && trace[i] == x {
        var i :| from <= i < n - 1 && trace[i] == x;
        assert from <= i < n && trace[i] == x;
      }
    }
  }

  /** A model was requested since position `from` exactly when its last use lies
      there: comparing timestamps counts the same models. */
  lemma {:induction false} UsedSince(trace: seq<int>, from: nat, n: nat, m: int, x: int)
    requires n <= |trace|
    ensures x in Others(trace, from, n, m) <==>
      x != m && LastUse(trace, n, x).Some? && LastUse(trace, n, x).value >= from
  {
    OthersMember(trace, from, n, m, x);
    LastUseFacts(trace, n, x);
    if LastUse(trace, n, x).Some? && LastUse(trace, n, x).value >= from {
      assert from <= LastUse(trace, n, x).value < n && trace[LastUse(trace, n, x).value] == x;
    }
  }

  // --------------------------------------------------- the result so far

  function ListOf(lists: map<int, seq<nat>>, m: int): seq<nat> {
    if m in lists then lists[m] else []
  }

  ghost predicate ListsUpTo(trace: seq<int>, n: nat, lists: map<int, seq<nat>>)
    requires n <= |trace|
  {
    forall m :: ListOf(lists, m) == Distances(trace, n, m)
  }

  lemma {:induction false} NextList(trace: seq<int>, n: nat, lists: map<int, seq<nat>>, next: map<int, seq<nat>>)
    requires n < |trace| && ListsUpTo(trace, n, lists)
    requires forall m :: m != trace[n] ==> ListOf(next, m) == ListOf(lists, m)
    requires var m, last := trace[n], LastUse(trace, n, trace[n]);
      ListOf(next, m) == ListOf(lists, m) + (if last.Some? then [|Others(trace, last.value + 1, n, m)|] else [])
    ensures ListsUpTo(trace, n + 1, next)
  {
    forall m ensures ListOf(next, m) == Distances(trace, n + 1, m) {
      if m != trace[n] {
        assert ListOf(next, m) == ListOf(lists, m);
      }
    }
  }

  ghost predicate LastUses(trace: seq<int>, n: nat, seen: map<int, nat>)
    requires n <= |trace|
  {
    forall m :: LastUse(trace, n, m) == if m in seen then Some(seen[m]) else None
  }

  lemma {:induction false} LastUsesNext(trace: seq<int>, n: nat, seen: map<int, nat>)
    requires n < |trace| && LastUses(trace, n, seen)
    ensures LastUses(trace, n + 1, seen[trace[n] := n])
  {
  }

  lemma {:induction false} LastUseBefore(trace: seq<int>, n: nat, m: int)
    requires n <= |trace|
    ensures LastUse(trace, n, m).Some? ==> LastUse(trace, n, m).value < n
  {
    LastUseFacts(trace, n, m);
  }

  // ------------------------------------------------------- three algorithms

  /** Timestamps: count the other models last seen after this model's last use. */
  method ByTimestamps(trace: seq<int>) returns (lists: map<int, seq<nat>>)
    ensures ListsUpTo(trace, |trace|, lists)
  {
    var lastSeen: map<int, nat> := map[];
    lists := map[];
    for n := 0 to |trace|
      invariant LastUses(trace, n, lastSeen) && ListsUpTo(trace, n, lists)
    {
      var m := trace[n];
      ghost var before := lists;
      assert LastUse(trace, n, m) == if m in lastSeen then Some(lastSeen[m]) else None;
      if m in lastSeen {
        var previous := lastSeen[m];
        var since := set x | x in lastSeen && x != m && lastSeen[x] > previous;
        TimestampsCount(trace, n, lastSeen, m, previous);
        lists := lists[m := ListOf(lists, m) + [|since|]];
      }
      NextList(trace, n, before, lists);
      LastUsesNext(trace, n, lastSeen);
      lastSeen := lastSeen[m := n];
    }
  }

  lemma {:induction false} TimestampsCount(trace: seq<int>, n: nat, lastSeen: map<int, nat>, m: int, previous: nat)
    requires n <= |trace| && LastUses(trace, n, lastSeen)
    ensures (set x | x in lastSeen && x != m && lastSeen[x] > previous) == Others(trace, previous + 1, n, m)
  {
    forall x ensures (x in lastSeen && x != m && lastSeen[x] > previous) <==> x in Others(trace, previous + 1, n, m) {
      UsedSince(trace, previous + 1, n, m, x);
      assert LastUse(trace, n, x) == if x in lastSeen then Some(lastSeen[x]) else None;
    }
  }

  /** Seen sets: per model, the others requested since its last use. */
  method BySeenSets(trace: seq<int>) returns (lists: map<int, seq<nat>>)
    ensures ListsUpTo(trace, |trace|, lists) && forall m :: m in lists <==> m in trace
  {
    var seen: map<int, set<int>> := map[];
    lists := map[];
    for n := 0 to |trace|
      invariant SeenSince(trace, n, seen) && ListsUpTo(trace, n, lists)
      invariant forall m :: m in lists <==> m in trace[..n]
    {
      var m := trace[n];
      ghost var before := lists;
      assert trace[..n + 1] == trace[..n] + [m];
      assert m in seen <==> LastUse(trace, n, m).Some?;
      lists := lists[m := ListOf(lists, m) + if m in seen then [|seen[m]|] else []];
      NextList(trace, n, before, lists);
      SeenNext(trace, n, seen);
      seen := map x | x in seen.Keys + {m} :: if x == m then {} else seen[x] + {m};
    }
    assert trace[..|trace|] == trace;
  }

  ghost predicate SeenSince(trace: seq<int>, n: nat, seen: map<int, set<int>>)
    requires n <= |trace|
  {
    forall m ::
      && (m in seen <==> LastUse(trace, n, m).Some?)
      && (m in seen ==> seen[m] == Others(trace, LastUse(trace, n, m).value + 1, n, m))
  }

  lemma {:induction false} SeenNext(trace: seq<int>, n: nat, seen: map<int, set<int>>)
    requires n < |trace| && SeenSince(trace, n, seen)
    ensures SeenSince(trace, n + 1, map x | x in seen.Keys + {trace[n]} :: if x == trace[n] then {} else seen[x] + {trace[n]})
  {
    forall x ensures x != trace[n] && x in seen ==>
      Others(trace, LastUse(trace, n + 1, x).value + 1, n + 1, x) == seen[x] + {trace[n]}
    {
      LastUseFacts(trace, n, x);
    }
  }

  /** Rescanning: collect the other models between the two uses. */
  method ByRescanning(trace: seq<int>) returns (lists: map<int, seq<nat>>)
    ensures ListsUpTo(trace, |trace|, lists) && forall m :: m in lists <==> m in trace
  {
    var lastSeen: map<int, nat> := map[];
    lists := map[];
    for n := 0 to |trace|
      invariant LastUses(trace, n, lastSeen) && ListsUpTo(trace, n, lists)
      invariant forall m :: m in lists <==> m in trace[..n]
    {
      hide ListsUpTo;
      var m := trace[n];
      ghost var before := lists;
      assert trace[..n + 1] == trace[..n] + [m];
      assert LastUse(trace, n, m) == if m in lastSeen then Some(lastSeen[m]) else None;
      hide LastUses, LastUse;
      lists := lists[m := ListOf(lists, m)];
      if m in lastSeen {
        LastUseBefore(trace, n, m);
        var gap := Rescan(trace, lastSeen[m] + 1, n, m);
        lists := lists[m := lists[m] + [|gap|]];
      }
      NextList(trace, n, before, lists);
      LastUsesNext(trace, n, lastSeen);
      lastSeen := lastSeen[m := n];
    }
    assert trace[..|trace|] == trace;
  }

  method Rescan(trace: seq<int>, from: nat, n: nat, m: int) returns (others: set<int>)
    requires from <= n <= |trace|
    ensures others == Others(trace, from, n, m)
  {
    others := {};
    for i := from to n
      invariant others == Others(trace, from, i, m)
    {
      if trace[i] != m {
        others := others + {trace[i]};
      }
    }
  }

  /** The three results give every model the same list. */
  lemma {:induction false} AllAgree(trace: seq<int>, a: map<int, seq<nat>>, b: map<int, seq<nat>>, c: map<int, seq<nat>>)
    requires ListsUpTo(trace, |trace|, a) && ListsUpTo(trace, |trace|, b) && ListsUpTo(trace, |trace|, c)
    requires forall m :: m in b <==> m in trace
    requires forall m :: m in c <==> m in trace
    ensures b == c && forall m :: ListOf(a, m) == ListOf(b, m)
  {
    forall m ensures ListOf(a, m) == ListOf(b, m) == ListOf(c, m) {
      assert ListOf(a, m) == Distances(trace, |trace|, m);
    }
    forall m | m in b ensures b[m] == c[m] {
      assert ListOf(b, m) == ListOf(c, m);
    }
    forall m: int ensures m in b <==> m in c {
      assert m in b <==> m in trace;
      assert m in c <==> m in trace;
    }
  }
}
