/**
 * The gateway's importance-corrected entropy and its highlight selection.
 * Each alternative's probability is weighted by the importance score its
 * analysis assigned (0.5 when there is none), the weights of a position are
 * normalised when their total is positive, and the entropy of the result is
 * taken. The entropy term is given by an abstract logarithm.
 */
module ApiGateway {
  import opened Wrappers
  import Entropy
  import Highlights

  /** The default importance when an alternative carries no analysis score. */
  const DefaultImportance: real := 0.5

  /** One entry of `top_k_tokens`; `importance` is `analysis.importance_score` when present. */
  datatype Alternative = Alternative(token: string, probability: real, importance: Option<real>)

  /** The adjusted probability: probability times importance, the missing importance counting as 0.5. */
  function Weight(alt: Alternative): (w: real)
    ensures alt.importance.None? ==> w == alt.probability * DefaultImportance
    ensures alt.importance.Some? ==> w == alt.probability * alt.importance.value
    ensures alt.probability >= 0.0 && alt.importance.GetOr(DefaultImportance) >= 0.0 ==> w >= 0.0
  {
    alt.probability * alt.importance.GetOr(DefaultImportance)
  }

  function Weights(alts: seq<Alternative>): (r: seq<real>)
    ensures |r| == |alts|
    ensures forall j :: 0 <= j < |alts| ==> r[j] == Weight(alts[j])
  {
    if alts == [] then [] else Weights(alts[..|alts| - 1]) + [Weight(alts[|alts| - 1])]
  }

  /** Every weight divided by `total`. */
  function DivideAll(ws: seq<real>, total: real): (r: seq<real>)
    requires total != 0.0
    ensures |r| == |ws|
    ensures forall j :: 0 <= j < |ws| ==> r[j] == ws[j] / total
  {
    if ws == [] then [] else DivideAll(ws[..|ws| - 1], total) + [ws[|ws| - 1] / total]
  }

  /** Normalisation: divide by the total when it is positive, leave the weights alone otherwise. */
  function Normalised(ws: seq<real>): (r: seq<real>)
    ensures |r| == |ws|
    ensures Entropy.Sum(ws) <= 0.0 ==> r == ws
  {
    var total := Entropy.Sum(ws);
    if total > 0.0 then DivideAll(ws, total) else ws
  }

  /** The corrected entropy of one position; a position with fewer than two alternatives has none. */
  function PositionEntropy(alts: seq<Alternative>, log: real -> real): real
  {
    if |alts| < 2 then 0.0 else Entropy.GroupEntropy(Normalised(Weights(alts)), log)
  }

  /**
   * `_calculate_corrected_entropy` with the entropy term `p * log(p)`: one
   * value per position, short positions giving exactly 0.0.
   */
  method CorrectedEntropy(topK: seq<seq<Alternative>>, log: real -> real) returns (corrected: seq<real>)
    ensures |corrected| == |topK|
    ensures forall i :: 0 <= i < |topK| ==> corrected[i] == PositionEntropy(topK[i], log)
    ensures forall i :: 0 <= i < |topK| && |topK[i]| < 2 ==> corrected[i] == 0.0
  {
    corrected := [];
    var i := 0;
    while i < |topK|
      invariant 0 <= i <= |topK|
      invariant |corrected| == i
      invariant forall k :: 0 <= k < i ==> corrected[k] == PositionEntropy(topK[k], log)
    {
      var alternatives := topK[i];
      if |alternatives| < 2 {
        corrected := corrected + [0.0];
      } else {
        var probs := AdjustedProbabilities(alternatives);
        var total := Entropy.Sum(probs);
        if total > 0.0 {
          probs := DivideAll(probs, total);
        }
        corrected := corrected + [Entropy.GroupEntropy(probs, log)];
      }
      i := i + 1;
    }
  }

  /** The inner loop of `_calculate_corrected_entropy`, appending one adjusted probability per alternative. */
  method AdjustedProbabilities(alts: seq<Alternative>) returns (probs: seq<real>)
    ensures probs == Weights(alts)
  {
    probs := [];
    var j := 0;
    while j < |alts|
      invariant 0 <= j <= |alts|
      invariant probs == Weights(alts[..j])
    {
      assert alts[..j + 1][..j] == alts[..j];
      probs := probs + [Weight(alts[j])];
      j := j + 1;
    }
    assert alts[..j] == alts;
  }

  /** `_identify_highlights` with its default threshold of 0.3. */
  function IdentifyHighlights(corrected: seq<real>): (r: seq<nat>)
    ensures forall k :: 0 <= k < |r| ==> r[k] < |corrected|
    ensures forall i :: 0 <= i < |corrected| ==> (i in r <==> corrected[i] > Highlights.GatewayThreshold)
    ensures Highlights.StrictlyIncreasing(r)
  {
    Highlights.SelectAboveExactly(corrected, Highlights.GatewayThreshold);
    Highlights.SelectAbove(corrected, Highlights.GatewayThreshold)
  }

  lemma DivideAdd(a: real, b: real, t: real)
    requires t != 0.0
    ensures a / t + b / t == (a + b) / t
  {
    calc {
      (a / t + b / t) * t;
      a / t * t + b / t * t;
      a + b;
    }
  }

  lemma DivideBounds(w: real, t: real)
    requires 0.0 <= w <= t && t > 0.0
    ensures 0.0 <= w / t <= 1.0
    ensures w > 0.0 ==> w / t > 0.0
  {
    assert w / t * t == w;
  }

  lemma {:induction false} SumDivided(ws: seq<real>, total: real)
    requires total != 0.0
    ensures Entropy.Sum(DivideAll(ws, total)) == Entropy.Sum(ws) / total
  {
    if ws != [] {
      var init := ws[..|ws| - 1];
      SumDivided(init, total);
      var d := DivideAll(ws, total);
      assert d[..|d| - 1] == DivideAll(init, total);
      assert Entropy.Sum(d) == Entropy.Sum(init) / total + ws[|ws| - 1] / total;
      DivideAdd(Entropy.Sum(init), ws[|ws| - 1], total);
    }
  }

  /** When the total weight is positive, the normalised weights sum to 1. */
  lemma NormalisedSumsToOne(ws: seq<real>)
    requires Entropy.Sum(ws) > 0.0
    ensures Entropy.Sum(Normalised(ws)) == 1.0
  {
    var total := Entropy.Sum(ws);
    assert Normalised(ws) == DivideAll(ws, total);
    SumDivided(ws, total);
    SelfQuotient(total);
  }

  lemma SelfQuotient(t: real)
    requires t != 0.0
    ensures t / t == 1.0
  {
  }

  /** Normalising non-negative weights with a positive total puts each of them in [0, 1]. */
  lemma NormalisedInUnit(ws: seq<real>)
    requires forall j :: 0 <= j < |ws| ==> ws[j] >= 0.0
    requires Entropy.Sum(ws) > 0.0
    ensures forall j :: 0 <= j < |ws| ==> 0.0 <= Normalised(ws)[j] <= 1.0
  {
    var total := Entropy.Sum(ws);
    forall j | 0 <= j < |ws|
      ensures 0.0 <= Normalised(ws)[j] <= 1.0
    {
      Entropy.ElementBelowSum(ws, j);
      assert Normalised(ws) == DivideAll(ws, total);
      DivideBounds(ws[j], total);
    }
  }

  /**
   * With non-negative probabilities and importances and a logarithm that is
   * not positive on (0, 1], the corrected entropy of every position is non-negative.
   */
  lemma PositionEntropyNonNegative(alts: seq<Alternative>, log: real -> real)
    requires forall j :: 0 <= j < |alts| ==> alts[j].probability >= 0.0
    requires forall j :: 0 <= j < |alts| ==> alts[j].importance.GetOr(DefaultImportance) >= 0.0
    requires forall p: real :: 0.0 < p <= 1.0 ==> log(p) <= 0.0
    ensures PositionEntropy(alts, log) >= 0.0
  {
    if |alts| >= 2 {
      var ws := Weights(alts);
      var total := Entropy.Sum(ws);
      if total > 0.0 {
        NormalisedInUnit(ws);
        Entropy.EntropyNonNegative(Normalised(ws), log);
      } else {
        Entropy.SumNonNegative(ws);
        assert total == 0.0;
        forall j | 0 <= j < |ws|
          ensures ws[j] == 0.0
        {
          Entropy.ElementBelowSum(ws, j);
        }
        Entropy.EntropyOfPositives(ws, log);
        ZeroPositives(ws);
      }
    }
  }

  /** The sum of `f` over the alternatives, adding from the left as `Entropy.Sum` does. */
  function SumOver(alts: seq<Alternative>, f: Alternative -> real): real
  {
    if alts == [] then 0.0 else SumOver(alts[..|alts| - 1], f) + f(alts[|alts| - 1])
  }

  /** A sum over the alternatives does not depend on their order. */
  lemma {:induction false} SumOverPermutation(a: seq<Alternative>, b: seq<Alternative>, f: Alternative -> real)
    requires multiset(a) == multiset(b)
    ensures SumOver(a, f) == SumOver(b, f)
    decreases |a|
  {
    assert |a| == |multiset(a)| == |multiset(b)| == |b|;
    if a != [] {
      var x := a[|a| - 1];
      assert x in multiset(b);
      var k :| 0 <= k < |b| && b[k] == x;
      RemovedAtMultiset(a, b, k);
      SumOverPermutation(a[..|a| - 1], RemovedAt(b, k), f);
      SumOverRemovedAt(b, k, f);
    }
  }

  /** `b` without its element at `k`. */
  function RemovedAt(b: seq<Alternative>, k: nat): seq<Alternative>
    requires k < |b|
  {
    b[..k] + b[k + 1..]
  }

  lemma RemovedAtMultiset(a: seq<Alternative>, b: seq<Alternative>, k: nat)
    requires a != [] && k < |b| && b[k] == a[|a| - 1]
    requires multiset(a) == multiset(b)
    ensures multiset(a[..|a| - 1]) == multiset(RemovedAt(b, k))
  {
    var x := b[k];
    assert a == a[..|a| - 1] + [x];
    assert b == b[..k] + [x] + b[k + 1..];
    assert multiset(RemovedAt(b, k)) == multiset(b) - multiset{x};
  }

  lemma {:induction false} SumOverRemovedAt(b: seq<Alternative>, k: nat, f: Alternative -> real)
    requires k < |b|
    ensures SumOver(b, f) == SumOver(RemovedAt(b, k), f) + f(b[k])
  {
    var init := b[..|b| - 1];
    if k == |b| - 1 {
      assert RemovedAt(b, k) == init;
    } else {
      SumOverRemovedAt(init, k, f);
      var r := RemovedAt(b, k);
      assert r == RemovedAt(init, k) + [b[|b| - 1]];
      assert r[..|r| - 1] == RemovedAt(init, k);
    }
  }

  lemma {:induction false} SumWeightsOver(alts: seq<Alternative>, f: Alternative -> real)
    requires forall alt :: f(alt) == Weight(alt)
    ensures Entropy.Sum(Weights(alts)) == SumOver(alts, f)
  {
    if alts != [] {
      SumWeightsOver(alts[..|alts| - 1], f);
      assert Weights(alts)[..|alts| - 1] == Weights(alts[..|alts| - 1]);
    }
  }

  lemma {:induction false} TermSumWeightsOver(alts: seq<Alternative>, log: real -> real, f: Alternative -> real)
    requires forall alt :: f(alt) == Entropy.Term(Weight(alt), log)
    ensures Entropy.TermSum(Weights(alts), log) == SumOver(alts, f)
  {
    if alts != [] {
      TermSumWeightsOver(alts[..|alts| - 1], log, f);
      assert Weights(alts)[..|alts| - 1] == Weights(alts[..|alts| - 1]);
    }
  }

  lemma {:induction false} TermSumDividedOver(alts: seq<Alternative>, total: real, log: real -> real, f: Alternative -> real)
    requires total != 0.0
    requires forall alt :: f(alt) == Entropy.Term(Weight(alt) / total, log)
    ensures Entropy.TermSum(DivideAll(Weights(alts), total), log) == SumOver(alts, f)
  {
    if alts != [] {
      var init := alts[..|alts| - 1];
      TermSumDividedOver(init, total, log, f);
      assert Weights(alts)[..|alts| - 1] == Weights(init);
      var d := DivideAll(Weights(alts), total);
      assert d[..|d| - 1] == DivideAll(Weights(init), total);
    }
  }

  /** The corrected entropy of a position does not depend on the order of its alternatives. */
  lemma PositionEntropyPermutation(a: seq<Alternative>, b: seq<Alternative>, log: real -> real)
    requires multiset(a) == multiset(b)
    ensures PositionEntropy(a, log) == PositionEntropy(b, log)
  {
    assert |a| == |multiset(a)| == |multiset(b)| == |b|;
    if |a| >= 2 {
      var w := (alt: Alternative) => Weight(alt);
      SumWeightsOver(a, w);
      SumWeightsOver(b, w);
      SumOverPermutation(a, b, w);
      var total := Entropy.Sum(Weights(a));
      assert total == Entropy.Sum(Weights(b));
      if total > 0.0 {
        var f := (alt: Alternative) => Entropy.Term(Weight(alt) / total, log);
        TermSumDividedOver(a, total, log, f);
        TermSumDividedOver(b, total, log, f);
        SumOverPermutation(a, b, f);
      } else {
        var f := (alt: Alternative) => Entropy.Term(Weight(alt), log);
        TermSumWeightsOver(a, log, f);
        TermSumWeightsOver(b, log, f);
        SumOverPermutation(a, b, f);
      }
    }
  }

  /**
   * For non-negative inputs and a logarithm that is 0 at 1 and negative on
   * (0, 1), a position's corrected entropy is 0 exactly when it has fewer
   * than two alternatives or at most one positive normalised weight (a point
   * mass, or a zero total).
   */
  lemma PositionEntropyZeroIff(alts: seq<Alternative>, log: real -> real)
    requires forall j :: 0 <= j < |alts| ==> alts[j].probability >= 0.0
    requires forall j :: 0 <= j < |alts| ==> alts[j].importance.GetOr(DefaultImportance) >= 0.0
    requires log(1.0) == 0.0
    requires forall p: real :: 0.0 < p < 1.0 ==> log(p) < 0.0
    ensures PositionEntropy(alts, log) == 0.0 <==>
      |alts| < 2 || |Entropy.Positives(Normalised(Weights(alts)))| <= 1
  {
    if |alts| >= 2 {
      var ws := Weights(alts);
      assert forall j :: 0 <= j < |ws| ==> ws[j] == Weight(alts[j]);
      NormalisedEntropyZeroIff(ws, log);
    }
  }

  /** The same on the weights: their normalised entropy is 0 iff at most one normalised weight is positive. */
  lemma NormalisedEntropyZeroIff(ws: seq<real>, log: real -> real)
    requires forall j :: 0 <= j < |ws| ==> ws[j] >= 0.0
    requires log(1.0) == 0.0
    requires forall p: real :: 0.0 < p < 1.0 ==> log(p) < 0.0
    ensures Entropy.GroupEntropy(Normalised(ws), log) == 0.0 <==> |Entropy.Positives(Normalised(ws))| <= 1
  {
    var ps := Normalised(ws);
    Entropy.EntropyOfPositives(ps, log);
    if Entropy.Sum(ws) > 0.0 {
      NormalisedInUnit(ws);
      NormalisedSumsToOne(ws);
      Entropy.DistributionEntropyZeroIff(ps, log);
    } else {
      assert ps == ws;
      ZeroTotalNoPositives(ws);
    }
  }

  /** Non-negative weights with a total of at most 0 are all 0, so none is positive. */
  lemma ZeroTotalNoPositives(ws: seq<real>)
    requires forall j :: 0 <= j < |ws| ==> ws[j] >= 0.0
    requires Entropy.Sum(ws) <= 0.0
    ensures Entropy.Positives(ws) == []
  {
    Entropy.SumNonNegative(ws);
    forall j | 0 <= j < |ws|
      ensures ws[j] == 0.0
    {
      Entropy.ElementBelowSum(ws, j);
    }
    ZeroPositives(ws);
  }

  lemma {:induction false} ZeroPositives(ws: seq<real>)
    requires forall j :: 0 <= j < |ws| ==> ws[j] == 0.0
    ensures Entropy.Positives(ws) == []
  {
    if ws != [] {
      ZeroPositives(ws[..|ws| - 1]);
    }
  }

  // The code as written takes `p.bit_length()` of every positive weight,
  // which a float does not have: the evaluation raises whenever a position
  // with two or more alternatives has a positive normalised weight.

  /** One position as written: `None` where the evaluation raises, otherwise the value (always 0). */
  function AsWrittenPosition(alts: seq<Alternative>): (r: Option<real>)
    ensures r.Some? ==> r.value == 0.0
  {
    if |alts| < 2 then Some(0.0)
    else
      var probs := Normalised(Weights(alts));
      if SomePositive(probs) then None else Some(0.0)
  }

  /** Some weight is positive: the evaluation reaches `p.bit_length()` for it. */
  predicate SomePositive(ws: seq<real>)
  {
    exists j :: 0 <= j < |ws| && ws[j] > 0.0
  }

  /** The whole computation as written: it raises as soon as one position does. */
  function AsWrittenEntropy(topK: seq<seq<Alternative>>): (r: Option<seq<real>>)
    ensures r.Some? <==> forall i :: 0 <= i < |topK| ==> AsWrittenPosition(topK[i]).Some?
    ensures r.Some? ==> |r.value| == |topK|
  {
    if topK == [] then Some([])
    else
      var init := AsWrittenEntropy(topK[..|topK| - 1]);
      var last := AsWrittenPosition(topK[|topK| - 1]);
      assert forall i :: 0 <= i < |topK| - 1 ==> topK[..|topK| - 1][i] == topK[i];
      if init.None? || last.None? then None else Some(init.value + [last.value])
  }

  /** A positive total weight always leaves some positive normalised weight. */
  lemma {:induction false} PositiveTotalHasPositive(ws: seq<real>)
    requires Entropy.Sum(ws) > 0.0
    ensures exists j :: 0 <= j < |ws| && ws[j] > 0.0
  {
    var init := ws[..|ws| - 1];
    if ws[|ws| - 1] <= 0.0 {
      PositiveTotalHasPositive(init);
      var j :| 0 <= j < |init| && init[j] > 0.0;
      assert ws[j] > 0.0;
    }
  }

  /** So every position with two or more alternatives and a positive total weight raises. */
  lemma AsWrittenRaises(alts: seq<Alternative>)
    requires |alts| >= 2
    requires Entropy.Sum(Weights(alts)) > 0.0
    ensures AsWrittenPosition(alts) == None
  {
    NormalisedPositive(Weights(alts));
  }

  /** A positive total leaves a positive normalised weight. */
  lemma NormalisedPositive(ws: seq<real>)
    requires Entropy.Sum(ws) > 0.0
    ensures SomePositive(Normalised(ws))
  {
    var total := Entropy.Sum(ws);
    PositiveTotalHasPositive(ws);
    var j :| 0 <= j < |ws| && ws[j] > 0.0;
    var d := DivideAll(ws, total);
    assert Normalised(ws) == d;
    PositiveQuotient(ws[j], total);
    assert d[j] == ws[j] / total;
  }

  lemma PositiveQuotient(w: real, t: real)
    requires w > 0.0 && t > 0.0
    ensures w / t > 0.0
  {
    assert w / t * t == w;
  }

  /** Two unanalysed alternatives of probability 0.5 each are enough. */
  lemma AsWrittenCounterexample()
    ensures AsWrittenEntropy([[Alternative("a", 0.5, None), Alternative("b", 0.5, None)]]) == None
  {
    var alts := [Alternative("a", 0.5, None), Alternative("b", 0.5, None)];
    var ws := Weights(alts);
    assert ws == [0.25, 0.25];
    assert ws[..1] == [0.25];
    assert [0.25][..0] == [];
    assert Entropy.Sum([0.25]) == 0.25;
    assert Entropy.Sum(ws) == Entropy.Sum(ws[..1]) + 0.25;
    AsWrittenRaises(alts);
  }
}
