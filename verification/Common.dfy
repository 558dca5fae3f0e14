/** Value types and small arithmetic shared by the models of the memory simulator. */
module Common {

  datatype Option<+T> = None | Some(value: T)

  /** A weight group of a model, the unit of residency and eviction. */
  datatype GroupKey = GroupKey(modelId: int, groupId: nat)

  function Max(a: int, b: int): int {
    if a < b then b else a
  }

  function MaxReal(a: real, b: real): real {
    if a < b then b else a
  }

  /** `sorted` on a set of integers: its strictly increasing listing. */
  function Sorted(s: set<int>): (r: seq<int>)
    ensures forall x :: x in r <==> x in s
    ensures forall i, j :: 0 <= i < j < |r| ==> r[i] < r[j]
  {
    if s == {} then []
    else
      var m := Greatest(s);
      var rest := Sorted(s - {m});
      assert forall x :: x in rest + [m] <==> x in rest || x == m;
      rest + [m]
  }

  function Greatest(s: set<int>): (m: int)
    requires s != {}
    ensures m in s && forall x :: x in s ==> x <= m
  {
    GreatestExists(s);
    var m :| m in s && forall x :: x in s ==> x <= m;
    m
  }

  /** Any member of a non-empty set. */
  ghost function Member<T>(s: set<T>): (x: T)
    requires s != {}
    ensures x in s
  {
    var x :| x in s;
    x
  }

  lemma {:induction false} GreatestExists(s: set<int>)
    requires s != {}
    ensures exists m :: m in s && forall x :: x in s ==> x <= m
  {
    var x := Member(s);
    var rest := s - {x};
    assert forall y :: y in s ==> y == x || y in rest;
    if rest != {} {
      GreatestExists(rest);
      var m :| m in rest && forall y :: y in rest ==> y <= m;
      var most := Max(m, x);
      assert most in s && forall y :: y in s ==> y <= most;
    }
  }

  // ------------------------------------------------------- sums over models

  function SumOver(models: seq<int>, w: map<int, int>): int
    requires forall i :: 0 <= i < |models| ==> models[i] in w
  {
    if models == [] then 0 else SumOver(models[..|models| - 1], w) + w[models[|models| - 1]]
  }

  ghost predicate StrictlyIncreasing(models: seq<int>) {
    forall i, j :: 0 <= i < j < |models| ==> models[i] < models[j]
  }

  /** Leaving one model out of a sorted listing takes its weight out of the sum. */
  lemma {:induction false} SumWithout(all: seq<int>, rest: seq<int>, x: int, w: map<int, int>)
    requires StrictlyIncreasing(all) && StrictlyIncreasing(rest)
    requires forall m :: m in rest <==> m in all && m != x
    requires forall i :: 0 <= i < |all| ==> all[i] in w
    ensures forall i :: 0 <= i < |rest| ==> rest[i] in w
    ensures SumOver(all, w) == SumOver(rest, w) + if x in all then w[x] else 0
  {
    forall i | 0 <= i < |rest| ensures rest[i] in w {
      var m := rest[i];
      assert m in all;
      var k :| 0 <= k < |all| && all[k] == m;
    }
    if all == [] {
      FirstMember(rest);
    } else {
      var n := |all| - 1;
      var last, shorter := all[n], all[..n];
      MembersWithoutLast(all);
      if last == x {
        SumWithout(shorter, rest, x, w);
      } else {
        forall m | m in rest ensures m <= last {
          var l :| 0 <= l < |all| && all[l] == m;
        }
        LastIsGreatest(rest, last);
        MembersWithoutLast(rest);
        forall m ensures m in rest[..|rest| - 1] <==> m in shorter && m != x {
          assert m in rest[..|rest| - 1] <==> m in rest && m != last;
          assert m in shorter <==> m in all && m != last;
        }
        SumWithout(shorter, rest[..|rest| - 1], x, w);
      }
    }
  }

  lemma {:induction false} FirstMember(s: seq<int>)
    ensures s == [] || s[0] in s
  {
  }

  lemma {:induction false} LastIsGreatest(s: seq<int>, last: int)
    requires StrictlyIncreasing(s) && last in s && forall m :: m in s ==> m <= last
    ensures s[|s| - 1] == last
  {
    assert s[|s| - 1] in s;
    var k :| 0 <= k < |s| && s[k] == last;
  }

  lemma {:induction false} MembersWithoutLast(s: seq<int>)
    requires s != [] && StrictlyIncreasing(s)
    ensures StrictlyIncreasing(s[..|s| - 1])
    ensures forall m :: m in s[..|s| - 1] <==> m in s && m != s[|s| - 1]
  {
    var shorter, last := s[..|s| - 1], s[|s| - 1];
    assert s == shorter + [last];
    forall m | m in shorter ensures m != last {
      var i :| 0 <= i < |shorter| && shorter[i] == m;
      assert s[i] < last;
    }
  }

  lemma {:induction false} SumSame(models: seq<int>, w: map<int, int>, v: map<int, int>)
    requires forall i :: 0 <= i < |models| ==> models[i] in w && models[i] in v && w[models[i]] == v[models[i]]
    ensures SumOver(models, w) == SumOver(models, v)
  {
    if models != [] {
      SumSame(models[..|models| - 1], w, v);
    }
  }

  // ------------------------------------------------------- runs of indices

  function Range(lo: int, hi: int): (s: set<nat>)
    ensures forall u: nat :: u in s <==> lo <= u < hi
  {
    Initial(Max(0, hi)) - Initial(Max(0, lo))
  }

  function Initial(k: nat): (s: set<nat>)
    ensures forall u: nat :: u in s <==> u < k
  {
    if k == 0 then {} else Initial(k - 1) + {k - 1}
  }

  lemma {:induction false} InitialSize(k: nat)
    ensures |Initial(k)| == k
  {
    if k > 0 {
      InitialSize(k - 1);
    }
  }
}
