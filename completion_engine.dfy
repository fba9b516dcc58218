/**
 * The lightweight completion engine's bookkeeping around one generation:
 * the per-position entropy scores, the highlight filter and the shape of
 * the result, including the one returned when generation fails. The model
 * itself (tokeniser, sampling, softmax and top-k) is an input: the outcome
 * of a generation is given as a value.
 */
module CompletionEngine {
  import opened Wrappers
  import Entropy
  import Highlights

  /** One entry of a position's top-k list (`log_prob` is not modelled). */
  datatype TokenAlternative = TokenAlternative(token: string, tokenId: int, probability: real)

  /** What the model produced, or the message of the exception it raised. */
  datatype GenerationOutcome =
    | Generated(completion: string, alternatives: seq<seq<TokenAlternative>>)
    | Failed(message: string)

  /** The dictionary returned by `generate_with_alternatives`; `error` is present only on failure. */
  datatype CompletionResult = CompletionResult(
    completion: string,
    tokenAlternatives: seq<seq<TokenAlternative>>,
    entropyScores: seq<real>,
    highlightedPositions: seq<nat>,
    prompt: string,
    error: Option<string>)

  /** `[alt["probability"] for alt in alts]` */
  function Probabilities(alts: seq<TokenAlternative>): (r: seq<real>)
    ensures |r| == |alts|
    ensures forall j :: 0 <= j < |alts| ==> r[j] == alts[j].probability
  {
    if alts == [] then [] else Probabilities(alts[..|alts| - 1]) + [alts[|alts| - 1].probability]
  }

  /** The entropy of one position. */
  function PositionEntropy(alts: seq<TokenAlternative>, log: real -> real): real
  {
    Entropy.GroupEntropy(Probabilities(alts), log)
  }

  /**
   * `_identify_highlights` with its default threshold of 0.5: exactly the
   * positions whose score is strictly above it, in increasing order.
   */
  function IdentifyHighlights(scores: seq<real>): (r: seq<nat>)
    ensures forall k :: 0 <= k < |r| ==> r[k] < |scores|
    ensures forall i :: 0 <= i < |scores| ==> (i in r <==> scores[i] > Highlights.EngineThreshold)
    ensures Highlights.StrictlyIncreasing(r)
    ensures scores == [] ==> r == []
  {
    Highlights.SelectAboveExactly(scores, Highlights.EngineThreshold);
    Highlights.SelectAbove(scores, Highlights.EngineThreshold)
  }

  /** `_calculate_entropy_scores`: one score per alternative group, in order. */
  method CalculateEntropyScores(groups: seq<seq<TokenAlternative>>, log: real -> real)
    returns (scores: seq<real>)
    ensures |scores| == |groups|
    ensures forall i :: 0 <= i < |groups| ==> scores[i] == PositionEntropy(groups[i], log)
  {
    scores := [];
    var i := 0;
    while i < |groups|
      invariant 0 <= i <= |groups|
      invariant |scores| == i
      invariant forall k :: 0 <= k < i ==> scores[k] == PositionEntropy(groups[k], log)
    {
      var probs := Probabilities(groups[i]);
      var entropy := Entropy.GroupEntropy(probs, log);
      scores := scores + [entropy];
      i := i + 1;
    }
  }

  /**
   * `generate_with_alternatives` once the model has run: a successful
   * generation is scored and highlighted; a failure gives the empty result
   * carrying the error message.
   */
  method GenerateWithAlternatives(prompt: string, outcome: GenerationOutcome, log: real -> real)
    returns (result: CompletionResult)
    ensures result.prompt == prompt
    ensures outcome.Failed? ==>
      result == CompletionResult("", [], [], [], prompt, Some(outcome.message))
    ensures outcome.Generated? ==>
      && result.error == None
      && result.completion == outcome.completion
      && result.tokenAlternatives == outcome.alternatives
      && |result.entropyScores| == |outcome.alternatives|
      && (forall i :: 0 <= i < |outcome.alternatives| ==>
            result.entropyScores[i] == PositionEntropy(outcome.alternatives[i], log))
      && result.highlightedPositions == IdentifyHighlights(result.entropyScores)
  {
    match outcome
    case Failed(message) =>
      result := CompletionResult("", [], [], [], prompt, Some(message));
    case Generated(completion, alternatives) =>
      var scores := CalculateEntropyScores(alternatives, log);
      var highlighted := IdentifyHighlights(scores);
      result := CompletionResult(completion, alternatives, scores, highlighted, prompt, None);
  }

  /** Alternatives with a probability that is not positive leave a position's entropy unchanged. */
  lemma NonPositiveIgnored(alts: seq<TokenAlternative>, extra: TokenAlternative, log: real -> real)
    requires extra.probability <= 0.0
    ensures PositionEntropy(alts + [extra], log) == PositionEntropy(alts, log)
  {
    var ps := Probabilities(alts + [extra]);
    assert ps[..|ps| - 1] == Probabilities(alts);
  }
}
