/**
 * The completion service's stand-in token information: one token per
 * character of the completion with a fixed probability, and a fixed,
 * deterministic list of `top_k` alternatives per position.
 */
module CompletionService {

  /** A token with its probability (`log_prob` is not modelled). */
  datatype TokenInfo = TokenInfo(token: string, probability: real)

  /** `str.isalpha` on ASCII letters. */
  predicate IsAlpha(c: char)
  {
    'a' <= c <= 'z' || 'A' <= c <= 'Z'
  }

  /** The probability of the character at `i`: 0.8 in the first half (by floor division), 0.6 after. */
  function TokenProbability(i: nat, length: nat): real
  {
    if i < length / 2 then 0.8 else 0.6
  }

  /** The `j`-th alternative's probability. */
  function AlternativeProbability(j: nat): real
  {
    0.1 + 0.8 / ((j + 1) as real)
  }

  /** The alternative token: a letter cycling from 'a' for alphabetic characters, the character itself otherwise. */
  function AlternativeToken(c: char, i: nat, j: nat): string
  {
    if IsAlpha(c) then [(('a' as int) + (i + j) % 26) as char] else [c]
  }

  /** The concatenation of the tokens' texts. */
  function Text(tokens: seq<TokenInfo>): string
  {
    if tokens == [] then "" else Text(tokens[..|tokens| - 1]) + tokens[|tokens| - 1].token
  }

  /** `_extract_tokens_with_alternatives`: one single-character token per character. */
  method ExtractTokens(completion: string) returns (tokens: seq<TokenInfo>)
    ensures |tokens| == |completion|
    ensures forall i :: 0 <= i < |completion| ==>
      tokens[i] == TokenInfo([completion[i]], TokenProbability(i, |completion|))
    ensures Text(tokens) == completion
  {
    tokens := [];
    var i := 0;
    while i < |completion|
      invariant 0 <= i <= |completion|
      invariant |tokens| == i
      invariant forall k :: 0 <= k < i ==>
        tokens[k] == TokenInfo([completion[k]], TokenProbability(k, |completion|))
      invariant Text(tokens) == completion[..i]
    {
      var prob := if i < |completion| / 2 then 0.8 else 0.6;
      var before := tokens;
      tokens := tokens + [TokenInfo([completion[i]], prob)];
      assert tokens[..|tokens| - 1] == before;
      assert completion[..i + 1] == completion[..i] + [completion[i]];
      i := i + 1;
    }
    assert completion[..i] == completion;
  }

  /** The alternatives at one position: `top_k` of them, none when `top_k` is not positive. */
  method PositionAlternatives(completion: string, i: nat, topK: int) returns (alts: seq<TokenInfo>)
    requires i < |completion|
    ensures |alts| == if topK > 0 then topK else 0
    ensures forall j :: 0 <= j < |alts| ==>
      alts[j] == TokenInfo(AlternativeToken(completion[i], i, j), AlternativeProbability(j))
  {
    alts := [];
    var j := 0;
    while j < topK
      invariant 0 <= j && |alts| == j
      invariant if topK > 0 then j <= topK else j == 0
      invariant forall k :: 0 <= k < j ==>
        alts[k] == TokenInfo(AlternativeToken(completion[i], i, k), AlternativeProbability(k))
    {
      var altToken := if IsAlpha(completion[i]) then [(('a' as int) + (i + j) % 26) as char] else [completion[i]];
      var prob := 0.1 + 0.8 / ((j + 1) as real);
      alts := alts + [TokenInfo(altToken, prob)];
      j := j + 1;
    }
  }

  /** `_generate_top_k_tokens`: one list of alternatives per character. */
  method TopKTokens(completion: string, topK: int) returns (alternatives: seq<seq<TokenInfo>>)
    ensures |alternatives| == |completion|
    ensures forall i :: 0 <= i < |completion| ==> |alternatives[i]| == if topK > 0 then topK else 0
    ensures forall i, j :: 0 <= i < |completion| && 0 <= j < |alternatives[i]| ==>
      alternatives[i][j] == TokenInfo(AlternativeToken(completion[i], i, j), AlternativeProbability(j))
  {
    alternatives := [];
    var i := 0;
    while i < |completion|
      invariant 0 <= i <= |completion|
      invariant |alternatives| == i
      invariant forall k :: 0 <= k < i ==> |alternatives[k]| == if topK > 0 then topK else 0
      invariant forall k, j :: 0 <= k < i && 0 <= j < |alternatives[k]| ==>
        alternatives[k][j] == TokenInfo(AlternativeToken(completion[k], k, j), AlternativeProbability(j))
    {
      var posAlternatives := PositionAlternatives(completion, i, topK);
      alternatives := alternatives + [posAlternatives];
      i := i + 1;
    }
  }

  /** Token probabilities never increase along the completion. */
  lemma TokenProbabilityNonIncreasing(i: nat, k: nat, length: nat)
    requires i <= k
    ensures TokenProbability(k, length) <= TokenProbability(i, length)
    ensures TokenProbability(i, length) == 0.8 || TokenProbability(i, length) == 0.6
  {
  }

  lemma QuotientDecreasing(a: real, b: real)
    requires 0.0 < a < b
    ensures 0.8 / b < 0.8 / a
  {
    assert 0.8 / b * b == 0.8;
    assert 0.8 / a * a == 0.8;
  }

  lemma QuotientBounds(a: real)
    requires a >= 1.0
    ensures 0.0 < 0.8 / a <= 0.8
  {
    assert 0.8 / a * a == 0.8;
  }

  /** Alternative probabilities strictly decrease with the rank. */
  lemma AlternativeProbabilityOrder(j: nat, k: nat)
    requires j < k
    ensures AlternativeProbability(k) < AlternativeProbability(j)
  {
    QuotientDecreasing((j + 1) as real, (k + 1) as real);
  }

  /** Every alternative probability lies in (0.1, 0.9], the top one being 0.9. */
  lemma AlternativeProbabilityBounds(j: nat)
    ensures 0.1 < AlternativeProbability(j) <= 0.9
    ensures j == 0 ==> AlternativeProbability(j) == 0.9
  {
    QuotientBounds((j + 1) as real);
  }

  /** For an alphabetic character the alternatives are lower-case letters, and any 26 consecutive ranks are all different. */
  lemma AlternativeTokensDistinct(c: char, i: nat, j: nat, k: nat)
    requires IsAlpha(c)
    requires j < k < j + 26
    ensures AlternativeToken(c, i, j) != AlternativeToken(c, i, k)
    ensures |AlternativeToken(c, i, j)| == 1 && 'a' <= AlternativeToken(c, i, j)[0] <= 'z'
  {
    assert (i + j) % 26 != (i + k) % 26;
    assert AlternativeToken(c, i, j)[0] != AlternativeToken(c, i, k)[0];
  }
}
