/**
 * Per-position entropy, `-sum(p * log(p) for p in probs if p > 0)`, with the
 * logarithm passed in as a function: the model fixes which probabilities
 * contribute and how the terms combine, not the floating-point logarithm.
 */
module Entropy {

  /** Python's `sum` over a list of numbers, adding from the left. */
  function Sum(xs: seq<real>): real
  {
    if xs == [] then 0.0 else Sum(xs[..|xs| - 1]) + xs[|xs| - 1]
  }

  lemma {:induction false} SumAppend(xs: seq<real>, ys: seq<real>)
    ensures Sum(xs + ys) == Sum(xs) + Sum(ys)
    decreases |ys|
  {
    if ys == [] {
      assert xs + ys == xs;
    } else {
      SumAppend(xs, ys[..|ys| - 1]);
      assert (xs + ys)[..|xs + ys| - 1] == xs + ys[..|ys| - 1];
    }
  }

  lemma {:induction false} SumNonNegative(xs: seq<real>)
    requires forall i :: 0 <= i < |xs| ==> xs[i] >= 0.0
    ensures Sum(xs) >= 0.0
  {
    if xs != [] {
      SumNonNegative(xs[..|xs| - 1]);
    }
  }

  /** Each element of a list of non-negative numbers is at most their sum. */
  lemma {:induction false} ElementBelowSum(xs: seq<real>, k: nat)
    requires k < |xs|
    requires forall i :: 0 <= i < |xs| ==> xs[i] >= 0.0
    ensures xs[k] <= Sum(xs)
  {
    var init := xs[..|xs| - 1];
    SumNonNegative(init);
    if k < |xs| - 1 {
      ElementBelowSum(init, k);
    }
  }

  /** One term of the entropy sum: `p * log(p)` when `p > 0`, and nothing otherwise. */
  function Term(p: real, log: real -> real): real
  {
    if p > 0.0 then p * log(p) else 0.0
  }

  function TermSum(ps: seq<real>, log: real -> real): real
  {
    if ps == [] then 0.0 else TermSum(ps[..|ps| - 1], log) + Term(ps[|ps| - 1], log)
  }

  /** The entropy of one distribution. */
  function GroupEntropy(ps: seq<real>, log: real -> real): real
  {
    -TermSum(ps, log)
  }

  /** The probabilities the generator keeps. */
  function Positives(ps: seq<real>): (r: seq<real>)
    ensures forall i :: 0 <= i < |r| ==> r[i] > 0.0
    ensures |r| <= |ps|
  {
    if ps == [] then []
    else Positives(ps[..|ps| - 1]) + (if ps[|ps| - 1] > 0.0 then [ps[|ps| - 1]] else [])
  }

  lemma {:induction false} TermSumAppend(xs: seq<real>, ys: seq<real>, log: real -> real)
    ensures TermSum(xs + ys, log) == TermSum(xs, log) + TermSum(ys, log)
    decreases |ys|
  {
    if ys == [] {
      assert xs + ys == xs;
    } else {
      TermSumAppend(xs, ys[..|ys| - 1], log);
      assert (xs + ys)[..|xs + ys| - 1] == xs + ys[..|ys| - 1];
    }
  }

  /** Probabilities that are not positive contribute nothing: the entropy is that of the positive ones. */
  lemma {:induction false} EntropyOfPositives(ps: seq<real>, log: real -> real)
    ensures GroupEntropy(ps, log) == GroupEntropy(Positives(ps), log)
  {
    if ps != [] {
      var init := ps[..|ps| - 1];
      var last := ps[|ps| - 1];
      EntropyOfPositives(init, log);
      if last > 0.0 {
        TermSumAppend(Positives(init), [last], log);
        assert [last][..0] == [];
      } else {
        assert Positives(ps) == Positives(init) + [] == Positives(init);
        assert Term(last, log) == 0.0;
      }
    }
  }

  /**
   * Where the logarithm is not positive on (0, 1] (as every logarithm with a
   * base above 1 is), the entropy of probabilities at most 1 is non-negative.
   */
  lemma {:induction false} EntropyNonNegative(ps: seq<real>, log: real -> real)
    requires forall i :: 0 <= i < |ps| ==> ps[i] <= 1.0
    requires forall i :: 0 <= i < |ps| && ps[i] > 0.0 ==> log(ps[i]) <= 0.0
    ensures GroupEntropy(ps, log) >= 0.0
  {
    if ps != [] {
      var init := ps[..|ps| - 1];
      var p := ps[|ps| - 1];
      EntropyNonNegative(init, log);
      if p > 0.0 {
        assert log(p) <= 0.0;
        assert p * log(p) <= 0.0;
      }
    }
  }

  /** A kept probability is one of the given ones. */
  lemma {:induction false} PositivesFrom(ps: seq<real>)
    ensures forall i :: 0 <= i < |Positives(ps)| ==> Positives(ps)[i] in ps
  {
    if ps != [] {
      var init := ps[..|ps| - 1];
      PositivesFrom(init);
      forall i | 0 <= i < |Positives(ps)|
        ensures Positives(ps)[i] in ps
      {
        if i < |Positives(init)| {
          assert Positives(ps)[i] == Positives(init)[i];
          assert Positives(init)[i] in init;
        } else {
          assert Positives(ps)[i] == ps[|ps| - 1];
        }
      }
    }
  }

  /** Dropping non-positive numbers from non-negative ones leaves the sum unchanged. */
  lemma {:induction false} SumOfPositives(ps: seq<real>)
    requires forall i :: 0 <= i < |ps| ==> ps[i] >= 0.0
    ensures Sum(Positives(ps)) == Sum(ps)
  {
    if ps != [] {
      var init := ps[..|ps| - 1];
      var last := ps[|ps| - 1];
      SumOfPositives(init);
      if last > 0.0 {
        SumAppend(Positives(init), [last]);
        assert [last][..0] == [];
      } else {
        assert Positives(ps) == Positives(init) + [] == Positives(init);
      }
    }
  }

  /** Of two or more positive numbers, each is strictly below their sum. */
  lemma ElementBelowSumStrict(xs: seq<real>, k: nat)
    requires 2 <= |xs| && k < |xs|
    requires forall i :: 0 <= i < |xs| ==> xs[i] > 0.0
    ensures xs[k] < Sum(xs)
  {
    var before := xs[..k];
    var after := xs[k + 1..];
    assert xs == before + [xs[k]] + after;
    SumAppend(before + [xs[k]], after);
    SumAppend(before, [xs[k]]);
    assert [xs[k]][..0] == [];
    SumNonNegative(before);
    SumNonNegative(after);
    if k == 0 {
      assert after[0] == xs[1];
      ElementBelowSum(after, 0);
    } else {
      assert before[0] == xs[0];
      ElementBelowSum(before, 0);
    }
  }

  /** Where the logarithm is negative on (0, 1), probabilities strictly inside it give a negative term sum. */
  lemma {:induction false} TermSumNegative(qs: seq<real>, log: real -> real)
    requires qs != []
    requires forall i :: 0 <= i < |qs| ==> 0.0 < qs[i] < 1.0
    requires forall p: real :: 0.0 < p < 1.0 ==> log(p) < 0.0
    ensures TermSum(qs, log) < 0.0
  {
    var init := qs[..|qs| - 1];
    var q := qs[|qs| - 1];
    assert log(q) < 0.0;
    assert q * log(q) < 0.0;
    if init != [] {
      TermSumNegative(init, log);
    }
  }

  /**
   * For a distribution (numbers in [0, 1] summing to 1) and a logarithm that
   * is 0 at 1 and negative on (0, 1), the entropy is 0 exactly when at most
   * one probability is positive.
   */
  lemma DistributionEntropyZeroIff(ps: seq<real>, log: real -> real)
    requires forall i :: 0 <= i < |ps| ==> 0.0 <= ps[i] <= 1.0
    requires Sum(ps) == 1.0
    requires log(1.0) == 0.0
    requires forall p: real :: 0.0 < p < 1.0 ==> log(p) < 0.0
    ensures GroupEntropy(Positives(ps), log) == 0.0 <==> |Positives(ps)| <= 1
  {
    var qs := Positives(ps);
    SumOfPositives(ps);
    if |qs| == 1 {
      PointMassTerm(qs, log);
    } else if |qs| >= 2 {
      SpreadTerms(qs, log);
    }
  }

  /** A single probability that makes up the whole sum is 1, and contributes nothing. */
  lemma PointMassTerm(qs: seq<real>, log: real -> real)
    requires |qs| == 1 && Sum(qs) == 1.0
    requires log(1.0) == 0.0
    ensures TermSum(qs, log) == 0.0
  {
    assert qs[..0] == [];
    assert qs[0] == 1.0;
  }

  /** Two or more positive probabilities summing to 1 all lie in (0, 1), so their term sum is negative. */
  lemma SpreadTerms(qs: seq<real>, log: real -> real)
    requires |qs| >= 2 && Sum(qs) == 1.0
    requires forall i :: 0 <= i < |qs| ==> qs[i] > 0.0
    requires forall p: real :: 0.0 < p < 1.0 ==> log(p) < 0.0
    ensures TermSum(qs, log) < 0.0
  {
    forall i | 0 <= i < |qs|
      ensures 0.0 < qs[i] < 1.0
    {
      ElementBelowSumStrict(qs, i);
    }
    TermSumNegative(qs, log);
  }
}
