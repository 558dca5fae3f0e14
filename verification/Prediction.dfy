/** Predicted damage of cutting a resident prefix: the weighted stall increase over
    the prediction samples (evaluation/tensor_simulator/tensor_sim_mckp.py). */
module Prediction {
  import opened Common

  /** One historical or lookahead occurrence of a model. */
  datatype Sample = Sample(inputTokens: int, weight: real)

  /** The stall table: model, token count and resident prefix to milliseconds. */
  type StallLookup = (int, int, nat) -> real

  /** Weighted stall increase of one sample when `prefix` instead of `held` groups
      of model `m` stay resident; samples without weight do not count. */
  function Increase(lookup: StallLookup, m: int, held: nat, prefix: nat, x: Sample): real {
    if x.weight > 0.0 then
      x.weight * MaxReal(0.0, lookup(m, x.inputTokens, prefix) - lookup(m, x.inputTokens, held))
    else 0.0
  }

  function Damage(lookup: StallLookup, samples: seq<Sample>, m: int, held: nat, prefix: nat): real {
    if samples == [] then 0.0
    else
      Damage(lookup, samples[..|samples| - 1], m, held, prefix)
      + Increase(lookup, m, held, prefix, samples[|samples| - 1])
  }

  /** The damage function the planner is given; a model without samples costs nothing. */
  function DamageOf(lookup: StallLookup, samples: map<int, seq<Sample>>): (int, nat, nat) -> real {
    (m: int, held: nat, prefix: nat) => if m in samples then Damage(lookup, samples[m], m, held, prefix) else 0.0
  }

  lemma {:induction false} DamageIsFair(lookup: StallLookup, samples: seq<Sample>, m: int, held: nat, prefix: nat)
    ensures Damage(lookup, samples, m, held, prefix) >= 0.0
    ensures Damage(lookup, samples, m, held, held) == 0.0
  {
    if samples != [] {
      var x := samples[|samples| - 1];
      DamageIsFair(lookup, samples[..|samples| - 1], m, held, prefix);
      var rise := MaxReal(0.0, lookup(m, x.inputTokens, prefix) - lookup(m, x.inputTokens, held));
      assert x.weight > 0.0 ==> x.weight * rise >= 0.0;
    }
  }

  /** No sample's stall grows with the resident prefix. */
  ghost predicate FallingStall(lookup: StallLookup, samples: seq<Sample>, m: int, held: nat) {
    forall i, a: nat, b: nat {:trigger lookup(m, samples[i].inputTokens, a), lookup(m, samples[i].inputTokens, b)} ::
      0 <= i < |samples| && a <= b <= held ==>
        lookup(m, samples[i].inputTokens, b) <= lookup(m, samples[i].inputTokens, a)
  }

  /** Falling stalls make damage fall with the prefix kept. */
  lemma {:induction false} DamageAntitone(lookup: StallLookup, samples: seq<Sample>, m: int, held: nat, a: nat, b: nat)
    requires a <= b <= held && FallingStall(lookup, samples, m, held)
    ensures Damage(lookup, samples, m, held, b) <= Damage(lookup, samples, m, held, a)
  {
    if samples != [] {
      var n := |samples| - 1;
      var x, shorter := samples[n], samples[..n];
      assert forall i :: 0 <= i < n ==> shorter[i] == samples[i];
      assert FallingStall(lookup, shorter, m, held);
      DamageAntitone(lookup, shorter, m, held, a, b);
      assert lookup(m, samples[n].inputTokens, b) <= lookup(m, samples[n].inputTokens, a);
      IncreaseAntitone(lookup, m, held, a, b, x);
    }
  }

  lemma {:induction false} IncreaseAntitone(lookup: StallLookup, m: int, held: nat, a: nat, b: nat, x: Sample)
    requires lookup(m, x.inputTokens, b) <= lookup(m, x.inputTokens, a)
    ensures Increase(lookup, m, held, b, x) <= Increase(lookup, m, held, a, x)
  {
    var base := lookup(m, x.inputTokens, held);
    var riseA := MaxReal(0.0, lookup(m, x.inputTokens, a) - base);
    var riseB := MaxReal(0.0, lookup(m, x.inputTokens, b) - base);
    if x.weight > 0.0 {
      assert x.weight * (riseA - riseB) >= 0.0;
    }
  }

  // ------------------------------------------------ what the damage is

  /** The weighted stall of some samples when `prefix` groups stay resident. */
  function WeightedStall(lookup: StallLookup, samples: seq<Sample>, m: int, prefix: nat): real {
    if samples == [] then 0.0
    else OneStall(lookup, samples[0], m, prefix) + WeightedStall(lookup, samples[1..], m, prefix)
  }

  function OneStall(lookup: StallLookup, x: Sample, m: int, prefix: nat): real {
    x.weight * lookup(m, x.inputTokens, prefix)
  }

  /** The samples with positive weight, in order. */
  function Weighted(samples: seq<Sample>): (r: seq<Sample>)
    ensures forall i :: 0 <= i < |r| ==> r[i] in samples && r[i].weight > 0.0
  {
    if samples == [] then []
    else if samples[0].weight > 0.0 then [samples[0]] + Weighted(samples[1..])
    else Weighted(samples[1..])
  }

  /** The samples with positive weight whose stall rises when `held` groups become
      `prefix`. */
  function Rising(lookup: StallLookup, samples: seq<Sample>, m: int, held: nat, prefix: nat): seq<Sample> {
    if samples == [] then []
    else
      var x, rest := samples[0], Rising(lookup, samples[1..], m, held, prefix);
      if x.weight > 0.0 && lookup(m, x.inputTokens, prefix) > lookup(m, x.inputTokens, held) then [x] + rest else rest
  }

  function Reweighed(x: Sample, c: real): Sample {
    x.(weight := c * x.weight)
  }

  function Scaled(samples: seq<Sample>, c: real): seq<Sample> {
    if samples == [] then []
    else Scaled(samples[..|samples| - 1], c) + [Reweighed(samples[|samples| - 1], c)]
  }

  /** The damage of two sample lists, one after the other, is the sum of theirs. */
  lemma {:induction false} DamageJoins(lookup: StallLookup, a: seq<Sample>, b: seq<Sample>, m: int, held: nat, prefix: nat)
    ensures Damage(lookup, a + b, m, held, prefix) == Damage(lookup, a, m, held, prefix) + Damage(lookup, b, m, held, prefix)
  {
    if b == [] {
      assert a + b == a;
    } else {
      var front := b[..|b| - 1];
      assert (a + b)[..|a + b| - 1] == a + front;
      DamageJoins(lookup, a, front, m, held, prefix);
    }
  }

  lemma {:induction false} DamageFromFirst(lookup: StallLookup, samples: seq<Sample>, m: int, held: nat, prefix: nat)
    requires samples != []
    ensures Damage(lookup, samples, m, held, prefix)
      == Increase(lookup, m, held, prefix, samples[0]) + Damage(lookup, samples[1..], m, held, prefix)
  {
    assert samples == [samples[0]] + samples[1..];
    DamageJoins(lookup, [samples[0]], samples[1..], m, held, prefix);
    assert [samples[0]][..0] == [];
  }

  /** Weighing every sample `c` times as much makes the damage `c` times as large. */
  lemma {:induction false} DamageScales(lookup: StallLookup, samples: seq<Sample>, c: real, m: int, held: nat, prefix: nat)
    requires c > 0.0
    ensures |Scaled(samples, c)| == |samples|
    ensures Damage(lookup, Scaled(samples, c), m, held, prefix) == c * Damage(lookup, samples, m, held, prefix)
  {
    hide Reweighed, Increase, Damage;
    if samples == [] {
      NoDamage(lookup, m, held, prefix);
    } else {
      var n := |samples| - 1;
      var x, scaled := samples[n], Scaled(samples, c);
      DamageScales(lookup, samples[..n], c, m, held, prefix);
      assert scaled[..n] == Scaled(samples[..n], c) && scaled[n] == Reweighed(x, c);
      IncreaseScales(lookup, x, c, m, held, prefix);
      DamageLast(lookup, samples, m, held, prefix);
      DamageLast(lookup, scaled, m, held, prefix);
      ScaleSum(c, Damage(lookup, samples[..n], m, held, prefix), Increase(lookup, m, held, prefix, x));
    }
  }

  lemma {:induction false} NoDamage(lookup: StallLookup, m: int, held: nat, prefix: nat)
    ensures Damage(lookup, [], m, held, prefix) == 0.0
  {
  }

  lemma {:induction false} DamageLast(lookup: StallLookup, samples: seq<Sample>, m: int, held: nat, prefix: nat)
    requires samples != []
    ensures Damage(lookup, samples, m, held, prefix)
      == Damage(lookup, samples[..|samples| - 1], m, held, prefix) + Increase(lookup, m, held, prefix, samples[|samples| - 1])
  {
  }

  lemma {:induction false} ScaleSum(c: real, a: real, b: real)
    ensures c * (a + b) == c * a + c * b
  {
  }

  lemma {:induction false} IncreaseScales(lookup: StallLookup, x: Sample, c: real, m: int, held: nat, prefix: nat)
    requires c > 0.0
    ensures Increase(lookup, m, held, prefix, Reweighed(x, c)) == c * Increase(lookup, m, held, prefix, x)
  {
    var rise := MaxReal(0.0, lookup(m, x.inputTokens, prefix) - lookup(m, x.inputTokens, held));
    assert x.weight > 0.0 <==> c * x.weight > 0.0;
    assert (c * x.weight) * rise == c * (x.weight * rise);
  }

  /** Samples without positive weight can be left out. */
  lemma {:induction false} DamageOfWeighted(lookup: StallLookup, samples: seq<Sample>, m: int, held: nat, prefix: nat)
    ensures Damage(lookup, samples, m, held, prefix) == Damage(lookup, Weighted(samples), m, held, prefix)
  {
    if samples != [] {
      DamageFromFirst(lookup, samples, m, held, prefix);
      DamageOfWeighted(lookup, samples[1..], m, held, prefix);
      if samples[0].weight > 0.0 {
        DamageFromFirst(lookup, Weighted(samples), m, held, prefix);
        assert Weighted(samples)[1..] == Weighted(samples[1..]);
      }
    }
  }

  lemma {:induction false} IncreaseIs(lookup: StallLookup, x: Sample, m: int, held: nat, prefix: nat)
    ensures var kept, before := lookup(m, x.inputTokens, prefix), lookup(m, x.inputTokens, held);
      Increase(lookup, m, held, prefix, x) ==
        if x.weight > 0.0 && kept >= before then OneStall(lookup, x, m, prefix) - OneStall(lookup, x, m, held) else 0.0
  {
  }

  /** The damage is the weighted stall at the prefix less that at the held one, over
      the samples with positive weight that this makes slower. */
  lemma {:induction false} DamageIsRise(lookup: StallLookup, samples: seq<Sample>, m: int, held: nat, prefix: nat)
    ensures var rising := Rising(lookup, samples, m, held, prefix);
      Damage(lookup, samples, m, held, prefix)
      == WeightedStall(lookup, rising, m, prefix) - WeightedStall(lookup, rising, m, held)
  {
    if samples != [] {
      var x, rest := samples[0], Rising(lookup, samples[1..], m, held, prefix);
      DamageFromFirst(lookup, samples, m, held, prefix);
      DamageIsRise(lookup, samples[1..], m, held, prefix);
      IncreaseIs(lookup, x, m, held, prefix);
      hide Increase, Damage, OneStall;
      if x.weight > 0.0 && lookup(m, x.inputTokens, prefix) > lookup(m, x.inputTokens, held) {
        assert ([x] + rest)[1..] == rest;
      }
    }
  }

  /** Where stalls fall with the prefix, that is all samples with positive weight. */
  lemma {:induction false} FallingDamageIsRise(lookup: StallLookup, samples: seq<Sample>, m: int, held: nat, prefix: nat)
    requires prefix <= held && FallingStall(lookup, samples, m, held)
    requires forall i :: 0 <= i < |samples| ==> samples[i].weight > 0.0
    ensures Damage(lookup, samples, m, held, prefix)
      == WeightedStall(lookup, samples, m, prefix) - WeightedStall(lookup, samples, m, held)
  {
    if samples != [] {
      var x, rest := samples[0], samples[1..];
      assert forall i :: 0 <= i < |rest| ==> rest[i] == samples[i + 1];
      assert FallingStall(lookup, rest, m, held);
      DamageFromFirst(lookup, samples, m, held, prefix);
      FallingDamageIsRise(lookup, rest, m, held, prefix);
      IncreaseIs(lookup, x, m, held, prefix);
      hide Increase, Damage, OneStall;
      assert lookup(m, samples[0].inputTokens, held) <= lookup(m, samples[0].inputTokens, prefix);
    }
  }

  /** What the planner is given is this damage, of the model's own samples. */
  lemma {:induction false} PlannedDamage(lookup: StallLookup, samples: map<int, seq<Sample>>, m: int, held: nat, prefix: nat)
    ensures m !in samples ==> DamageOf(lookup, samples)(m, held, prefix) == 0.0
    ensures m in samples ==>
      var rising := Rising(lookup, samples[m], m, held, prefix);
      DamageOf(lookup, samples)(m, held, prefix)
      == WeightedStall(lookup, rising, m, prefix) - WeightedStall(lookup, rising, m, held)
  {
    if m in samples {
      DamageIsRise(lookup, samples[m], m, held, prefix);
    }
  }
}
