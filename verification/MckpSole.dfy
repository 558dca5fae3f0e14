/** What the covering solver plans when only one model has anything to give up
    (evaluation/tensor_simulator/tensor_sim_mckp.py). */
module MckpSole {
  import opened Common
  import opened Mckp

  /** No prefix of this model frees anything. */
  ghost predicate Quiet(p: Problem, x: int) {
    x in p.resident && forall q: nat :: q <= p.resident[x] ==> OptionFor(p, x, q).freedBytes == 0
  }

  /** The only state the search holds, or the only one that frees enough. */
  ghost predicate Sole(p: Problem, models: seq<int>, required: int, s: State) {
    && (forall i :: 0 <= i < |models| ==> models[i] in p.resident)
    && InFrontier(p, models, required, s)
    && forall t :: InFrontier(p, models, required, t) && (s.freed >= required ==> t.freed >= required) ==> t == s
  }

  lemma {:induction false} SoleEmpty(p: Problem, required: int)
    requires required > 0
    ensures Sole(p, [], required, State(0, 0.0, 0, []))
  {
  }

  /** The states reached from a sole one: its extensions by the next model. */
  lemma {:induction false} FromSole(p: Problem, models: seq<int>, x: int, required: int, s: State, t: State) returns (q: nat)
    requires Sole(p, models, required, s) && x in p.resident && InExpansion(p, models + [x], required, t)
    requires s.freed < required || (Quiet(p, x) && t.freed >= required)
    ensures q <= p.resident[x] && t == Extend(s, OptionFor(p, x, q))
  {
    hide InFrontier, OptionFor;
    var longer := models + [x];
    assert longer[..|longer| - 1] == models && longer[|longer| - 1] == x;
    var before: State, k: nat :|
      k <= p.resident[x] && InFrontier(p, models, required, before) && t == Extend(before, OptionFor(p, x, k));
    q := k;
  }

  lemma {:induction false} IntoExpansion(p: Problem, models: seq<int>, x: int, required: int, s: State, q: nat)
    requires Sole(p, models, required, s) && x in p.resident && q <= p.resident[x]
    ensures InExpansion(p, models + [x], required, Extend(s, OptionFor(p, x, q)))
  {
    hide InFrontier, OptionFor;
    var longer := models + [x];
    assert longer[..|longer| - 1] == models && longer[|longer| - 1] == x;
  }

  /** A state of the expansion no other one beats is in the frontier. */
  lemma {:induction false} IntoFrontier(p: Problem, models: seq<int>, required: int, s: State)
    requires models != [] && forall i :: 0 <= i < |models| ==> models[i] in p.resident
    requires InExpansion(p, models, required, s)
    requires forall t :: InExpansion(p, models, required, t) && (s.freed >= required ==> t.freed >= required) ==>
      !RankLess(t, s, required) && (s.freed < required ==> t.freed <= s.freed)
    ensures InFrontier(p, models, required, s)
  {
    hide RankLess, InExpansion;
  }

  /** A state of the frontier is in the expansion, and nothing comparable beats it. */
  lemma {:induction false} OutOfFrontier(p: Problem, models: seq<int>, required: int, s: State, t: State)
    requires models != [] && forall i :: 0 <= i < |models| ==> models[i] in p.resident
    requires InFrontier(p, models, required, s) && InExpansion(p, models, required, t)
    ensures InExpansion(p, models, required, s)
    ensures (if s.freed >= required then t.freed >= required else t.freed == s.freed) ==> !RankLess(t, s, required)
  {
    hide RankLess, InExpansion;
  }

  /** Keeping all of a model that frees nothing is the best that can be done with it. */
  lemma {:induction false} KeepingRanksBelow(p: Problem, x: int, required: int, s: State, q: nat)
    requires FairDamage(p) && Quiet(p, x) && q <= p.resident[x]
    ensures var keep, cut := Extend(s, OptionFor(p, x, p.resident[x])), Extend(s, OptionFor(p, x, q));
      && keep.freed == cut.freed == s.freed
      && !RankLess(cut, keep, required)
      && (q < p.resident[x] ==> RankLess(keep, cut, required))
  {
    RankIrreflexive(Extend(s, OptionFor(p, x, p.resident[x])), required);
    assert OptionFor(p, x, q).freedBytes == 0 && OptionFor(p, x, p.resident[x]).freedBytes == 0;
  }

  lemma {:induction false} SoleQuiet(p: Problem, models: seq<int>, x: int, required: int, s: State)
    requires required > 0 && FairDamage(p) && Sole(p, models, required, s) && Quiet(p, x)
    ensures Sole(p, models + [x], required, Extend(s, OptionFor(p, x, p.resident[x])))
  {
    hide InFrontier, InExpansion, RankLess, OptionFor, Extend, Quiet, Sole, FairDamage;
    QuietModel(p, x);
    var longer, keep := models + [x], Extend(s, OptionFor(p, x, p.resident[x]));
    SoleModels(p, models, required, s);
    KeepingRanksBelow(p, x, required, s, p.resident[x]);
    IntoExpansion(p, models, x, required, s, p.resident[x]);
    forall t | InExpansion(p, longer, required, t) && (keep.freed >= required ==> t.freed >= required)
      ensures !RankLess(t, keep, required) && (keep.freed < required ==> t.freed <= keep.freed)
    {
      var q := FromSole(p, models, x, required, s, t);
      KeepingRanksBelow(p, x, required, s, q);
    }
    IntoFrontier(p, longer, required, keep);
    forall t | InFrontier(p, longer, required, t) && (keep.freed >= required ==> t.freed >= required) ensures t == keep {
      OutOfFrontier(p, longer, required, t, keep);
      var q := FromSole(p, models, x, required, s, t);
      KeepingRanksBelow(p, x, required, s, q);
    }
    SoleIntro(p, longer, required, keep);
  }

  lemma {:induction false} SoleModels(p: Problem, models: seq<int>, required: int, s: State)
    requires Sole(p, models, required, s)
    ensures forall i :: 0 <= i < |models| ==> models[i] in p.resident
  {
  }

  lemma {:induction false} QuietModel(p: Problem, x: int)
    requires Quiet(p, x)
    ensures x in p.resident
  {
  }

  lemma {:induction false} SoleIntro(p: Problem, models: seq<int>, required: int, s: State)
    requires forall i :: 0 <= i < |models| ==> models[i] in p.resident
    requires InFrontier(p, models, required, s)
    requires forall t :: InFrontier(p, models, required, t) && (s.freed >= required ==> t.freed >= required) ==> t == s
    ensures Sole(p, models, required, s)
  {
  }

  /** Cutting model `m` to `r` frees what is required, at the least damage of all
      cuts that do, and nothing longer is as good. */
  ghost predicate BestCut(p: Problem, m: int, required: int, r: nat) {
    && m in p.resident && r <= p.resident[m]
    && OptionFor(p, m, r).freedBytes == required
    && forall q: nat :: q <= p.resident[m] && OptionFor(p, m, q).freedBytes >= required ==>
         && p.damage(m, p.resident[m], r) <= p.damage(m, p.resident[m], q)
         && (OptionFor(p, m, q).freedBytes == required && p.damage(m, p.resident[m], q) == p.damage(m, p.resident[m], r) ==> q <= r)
  }

  lemma {:induction false} BestCutRanksBelow(p: Problem, m: int, required: int, s: State, r: nat, q: nat)
    requires BestCut(p, m, required, r) && q <= p.resident[m] && s.freed == 0
    ensures var best, cut := Extend(s, OptionFor(p, m, r)), Extend(s, OptionFor(p, m, q));
      best.freed == required && (cut.freed >= required ==> !RankLess(cut, best, required))
  {
    RankIrreflexive(Extend(s, OptionFor(p, m, r)), required);
  }

  lemma {:induction false} SoleCut(p: Problem, models: seq<int>, m: int, required: int, s: State, r: nat)
    requires required > 0 && Sole(p, models, required, s) && s.freed == 0 && BestCut(p, m, required, r)
    ensures Sole(p, models + [m], required, Extend(s, OptionFor(p, m, r)))
  {
    CutModel(p, m, required, r);
    hide InFrontier, InExpansion, RankLess, OptionFor, Extend, BestCut, Sole;
    var longer, best := models + [m], Extend(s, OptionFor(p, m, r));
    SoleModels(p, models, required, s);
    BestCutRanksBelow(p, m, required, s, r, r);
    IntoExpansion(p, models, m, required, s, r);
    forall t | InExpansion(p, longer, required, t) && t.freed >= required ensures !RankLess(t, best, required) {
      var q := FromSole(p, models, m, required, s, t);
      BestCutRanksBelow(p, m, required, s, r, q);
    }
    IntoFrontier(p, longer, required, best);
    forall t | InFrontier(p, longer, required, t) && t.freed >= required ensures t == best {
      OutOfFrontier(p, longer, required, t, best);
      RankLessTotal(t, best, required);
    }
    SoleIntro(p, longer, required, best);
  }

  lemma {:induction false} CutModel(p: Problem, m: int, required: int, r: nat)
    requires BestCut(p, m, required, r)
    ensures m in p.resident && r <= p.resident[m]
  {
  }

  /** The state that follows the given choices. */
  function Following(p: Problem, models: seq<int>, choices: map<int, nat>): State
    requires ChosenWithin(p, models, choices)
  {
    if models == [] then State(0, 0.0, 0, [])
    else
      var m := models[|models| - 1];
      Extend(Following(p, models[..|models| - 1], choices), OptionFor(p, m, choices[m]))
  }

  lemma {:induction false} FollowingChoices(p: Problem, models: seq<int>, choices: map<int, nat>)
    requires ChosenWithin(p, models, choices)
    ensures Following(p, models, choices).choices == ChoicesOf(models, choices)
    ensures Following(p, models, choices).freed == FreedBy(p, ChoicesOf(models, choices))
  {
    if models != [] {
      var shorter, sel := models[..|models| - 1], ChoicesOf(models, choices);
      FollowingChoices(p, shorter, choices);
      assert sel[..|sel| - 1] == ChoicesOf(shorter, choices);
    }
  }

  /** All models but `m` free nothing and are kept. */
  ghost predicate OnlyCuts(p: Problem, models: seq<int>, m: int, choices: map<int, nat>) {
    && ChosenWithin(p, models, choices)
    && forall i :: 0 <= i < |models| && models[i] != m ==> Quiet(p, models[i]) && choices[models[i]] == p.resident[models[i]]
  }

  lemma {:induction false} SoleBefore(p: Problem, models: seq<int>, m: int, choices: map<int, nat>, required: int)
    requires required > 0 && FairDamage(p) && OnlyCuts(p, models, m, choices) && m !in models
    ensures Sole(p, models, required, Following(p, models, choices)) && Following(p, models, choices).freed == 0
  {
    hide Sole, Quiet, FairDamage, OptionFor;
    if models == [] {
      SoleEmpty(p, required);
    } else {
      var shorter, x := models[..|models| - 1], models[|models| - 1];
      assert x in models;
      SoleBefore(p, shorter, m, choices, required);
      SoleQuiet(p, shorter, x, required, Following(p, shorter, choices));
      KeepingRanksBelow(p, x, required, Following(p, shorter, choices), p.resident[x]);
      assert models == shorter + [x];
    }
  }

  /** The only state that frees enough follows the best cut of the one model. */
  lemma {:induction false} SoleFollowing(p: Problem, models: seq<int>, m: int, choices: map<int, nat>, required: int)
    requires required > 0 && FairDamage(p) && OnlyCuts(p, models, m, choices) && m in models
    requires forall i, j :: 0 <= i < j < |models| ==> models[i] < models[j]
    requires BestCut(p, m, required, choices[m])
    ensures Sole(p, models, required, Following(p, models, choices)) && Following(p, models, choices).freed == required
  {
    hide Sole, Quiet, FairDamage, BestCut;
    var shorter, x := models[..|models| - 1], models[|models| - 1];
    assert models == shorter + [x];
    if x == m {
      assert m !in shorter;
      SoleBefore(p, shorter, m, choices, required);
      SoleCut(p, shorter, m, required, Following(p, shorter, choices), choices[m]);
      BestCutRanksBelow(p, m, required, Following(p, shorter, choices), choices[m], choices[m]);
    } else {
      SoleFollowing(p, shorter, m, choices, required);
      SoleQuiet(p, shorter, x, required, Following(p, shorter, choices));
      KeepingRanksBelow(p, x, required, Following(p, shorter, choices), p.resident[x]);
    }
  }

  /** Recording the choices a state was built from gives them back. */
  lemma {:induction false} RecordedBack(p: Problem, active: int, choices: map<int, nat>)
    requires Admissible(p, active, choices)
    ensures ApplyChoices(p.resident, ChoicesOf(Victims(p, active), choices)) == choices
  {
    hide ApplyChoices;
    var models := Victims(p, active);
    var sel := ChoicesOf(models, choices);
    AdmissibleWithin(p, active, choices);
    RecordedSelection(p, active, sel);
    var again := ApplyChoices(p.resident, sel);
    forall m | m in choices ensures again[m] == choices[m] {
      if m != active {
        var i :| 0 <= i < |models| && models[i] == m;
        assert ChoicesOf(models, again)[i] == sel[i];
      }
    }
  }

  lemma {:induction false} OthersKept(p: Problem, active: int, m: int, required: int, r: nat)
    requires BestCut(p, m, required, r) && m != active
    requires forall x :: x in p.resident && x != m && x != active ==> Quiet(p, x)
    ensures OnlyCuts(p, Victims(p, active), m, p.resident[m := r]) && m in Victims(p, active)
    ensures Admissible(p, active, p.resident[m := r])
  {
    hide Quiet, OptionFor;
    var models := Victims(p, active);
    forall i | 0 <= i < |models| ensures models[i] in p.resident && (models[i] != m ==> Quiet(p, models[i])) {
      assert models[i] in models;
    }
  }

  /** With one model to cut, its best cut is the plan. */
  lemma {:induction false} SolePlan(p: Problem, active: int, m: int, required: int, r: nat)
    requires required > 0 && FairDamage(p) && m in p.resident && m != active
    requires forall x :: x in p.resident && x != m && x != active ==> Quiet(p, x)
    requires BestCut(p, m, required, r)
    ensures Planned(p, active, required, p.resident[m := r])
    ensures Admissible(p, active, p.resident[m := r]) && FreedTotal(p, active, p.resident[m := r]) == required
  {
    CutModel(p, m, required, r);
    hide Quiet, FairDamage, BestCut, InFrontier, RankLess, ApplyChoices, OptionFor, Following, FreedTotal, ChoicesOf, OnlyCuts;
    var choices, models := p.resident[m := r], Victims(p, active);
    AdmissibleWithin(p, active, choices);
    OthersKept(p, active, m, required, r);
    var best := Following(p, models, choices);
    SoleFollowing(p, models, m, choices, required);
    FollowingChoices(p, models, choices);
    RecordedBack(p, active, choices);
    RankIrreflexive(best, required);
    assert BestState(p, active, required, best);
  }
}
