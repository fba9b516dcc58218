/**
 * Highlight selection: the positions whose entropy is strictly above a
 * threshold, in increasing order (`[i for i, e in enumerate(scores) if e > t]`).
 */
module Highlights {

  /** The gateway highlights above 0.3, the lightweight completion engine above 0.5. */
  const GatewayThreshold: real := 0.3
  const EngineThreshold: real := 0.5

  predicate StrictlyIncreasing(r: seq<nat>)
  {
    forall a, b :: 0 <= a < b < |r| ==> r[a] < r[b]
  }

  /** The indices of `scores` whose value exceeds `threshold`. */
  function SelectAbove(scores: seq<real>, threshold: real): (r: seq<nat>)
    ensures forall k :: 0 <= k < |r| ==> r[k] < |scores| && scores[r[k]] > threshold
    ensures forall i :: 0 <= i < |scores| && scores[i] > threshold ==> i in r
    ensures StrictlyIncreasing(r)
    ensures |r| <= |scores|
  {
    if scores == [] then []
    else
      var init := SelectAbove(scores[..|scores| - 1], threshold);
      assert forall i :: 0 <= i < |scores| - 1 ==> scores[..|scores| - 1][i] == scores[i];
      init + (if scores[|scores| - 1] > threshold then [|scores| - 1] else [])
  }

  /** A position is highlighted exactly when its score is above the threshold; a score equal to it is not. */
  lemma SelectAboveIff(scores: seq<real>, threshold: real, i: nat)
    requires i < |scores|
    ensures i in SelectAbove(scores, threshold) <==> scores[i] > threshold
    ensures scores[i] == threshold ==> i !in SelectAbove(scores, threshold)
  {
  }

  /** The selection is exactly the positions whose score is above the threshold. */
  lemma SelectAboveExactly(scores: seq<real>, threshold: real)
    ensures forall i :: 0 <= i < |scores| ==> (i in SelectAbove(scores, threshold) <==> scores[i] > threshold)
  {
    forall i | 0 <= i < |scores|
      ensures i in SelectAbove(scores, threshold) <==> scores[i] > threshold
    {
      SelectAboveIff(scores, threshold, i);
    }
  }

  /** Raising the threshold never adds a highlight. */
  lemma SelectAboveMonotone(scores: seq<real>, low: real, high: real, i: nat)
    requires low <= high
    requires i in SelectAbove(scores, high)
    ensures i in SelectAbove(scores, low)
  {
  }
}
