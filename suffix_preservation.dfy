/**
 * Suffix regeneration after a token is replaced: ten candidate suffixes are
 * asked of the completion engine, each is scored against the original
 * suffix, and the best one is kept when it is similar enough. The
 * completion engine, `SequenceMatcher.ratio` and `ast.parse` are inputs.
 */
module SuffixPreservation {
  import opened Wrappers
  import opened Text
  import PyAst

  /** `self.similarity_threshold`. */
  const SimilarityThreshold: real := 0.7

  /** How many completions are asked for. */
  const Attempts: nat := 10

  /** The temperature of attempt `i` (modelled over the reals). */
  function Temperature(i: nat): real
  {
    0.1 + (i as real) * 0.1
  }

  /** `_count_ast_nodes`: one for the node plus the counts of its children. */
  method CountAstNodes(tree: PyAst.Node) returns (count: nat)
    ensures count == PyAst.Size(tree)
    ensures count >= 1
    decreases tree
  {
    count := 1;
    var i := 0;
    while i < |tree.children|
      invariant 0 <= i <= |tree.children|
      invariant count == 1 + PyAst.SizeAll(tree.children[..i])
    {
      var child := tree.children[i];
      var childCount := CountAstNodes(child);
      assert tree.children[..i + 1] == tree.children[..i] + [child];
      assert [child][1..] == [];
      PyAst.SizeAllAppend(tree.children[..i], [child]);
      count := count + childCount;
      i := i + 1;
    }
    assert tree.children[..i] == tree.children;
    PyAst.SizeChildren(tree);
  }

  /**
   * `_calculate_ast_similarity`: the ratio of the smaller node count to the
   * larger when both sides parse, 0.1 when either raises `SyntaxError`.
   */
  function AstSimilarity(candidate: string, original: string, parse: string -> PyAst.ParseResult): (r: real)
    ensures (parse(candidate).SyntaxError? || parse(original).SyntaxError?) ==> r == 0.1
    ensures parse(candidate).Parsed? && parse(original).Parsed? ==> 0.0 < r <= 1.0
    ensures parse(candidate).Parsed? && parse(original).Parsed? ==>
      (r == 1.0 <==> PyAst.Size(parse(candidate).tree) == PyAst.Size(parse(original).tree))
  {
    match (parse(candidate), parse(original))
    case (Parsed(c), Parsed(o)) =>
      var cn := PyAst.Size(c);
      var on := PyAst.Size(o);
      if on == 0 then 0.0
      else
        var lo := if cn <= on then cn else on;
        var hi := if cn <= on then on else cn;
        RatioBounds(lo, hi);
        lo as real / hi as real
    case _ => 0.1
  }

  lemma RatioBounds(lo: nat, hi: nat)
    requires 1 <= lo <= hi
    ensures 0.0 < lo as real / hi as real <= 1.0
    ensures lo as real / hi as real == 1.0 <==> lo == hi
  {
    var q := lo as real / hi as real;
    assert q * hi as real == lo as real;
  }

  /**
   * `_calculate_similarity`: 0.0 when either side is empty, otherwise 0.7 of
   * the string ratio plus 0.3 of the AST similarity. `ratio` is `None` where
   * scoring the pair raised.
   */
  function Similarity(candidate: string, original: string,
                      ratio: (string, string) -> Option<real>, parse: string -> PyAst.ParseResult): (r: Option<real>)
    ensures candidate == [] || original == [] ==> r == Some(0.0)
    ensures candidate != [] && original != [] ==>
      (r.None? <==> ratio(candidate, original).None?)
    ensures candidate != [] && original != [] && ratio(candidate, original).Some? ==>
      r == Some(ratio(candidate, original).value * 0.7 + AstSimilarity(candidate, original, parse) * 0.3)
  {
    if candidate == [] || original == [] then Some(0.0)
    else
      match ratio(candidate, original)
      case None => None
      case Some(stringSimilarity) =>
        Some(stringSimilarity * 0.7 + AstSimilarity(candidate, original, parse) * 0.3)
  }

  /** Where both similarity measures lie in [0, 1], so does their combination. */
  lemma SimilarityInUnit(candidate: string, original: string,
                         ratio: (string, string) -> Option<real>, parse: string -> PyAst.ParseResult)
    requires ratio(candidate, original).Some? ==> 0.0 <= ratio(candidate, original).value <= 1.0
    ensures Similarity(candidate, original, ratio, parse).Some? ==>
      0.0 <= Similarity(candidate, original, ratio, parse).value <= 1.0
  {
  }

  /** The similarity of a candidate to the original suffix, read as 0.0 where scoring raised. */
  function Score(candidate: string, original: string,
                 ratio: (string, string) -> Option<real>, parse: string -> PyAst.ParseResult): real
  {
    Similarity(candidate, original, ratio, parse).GetOr(0.0)
  }

  predicate Scored(candidate: string, original: string,
                   ratio: (string, string) -> Option<real>, parse: string -> PyAst.ParseResult)
  {
    Similarity(candidate, original, ratio, parse).Some?
  }

  /** Candidate `k` has the largest score, and every earlier candidate a strictly smaller one. */
  predicate EarliestBest(candidates: seq<string>, k: nat, original: string,
                         ratio: (string, string) -> Option<real>, parse: string -> PyAst.ParseResult)
    requires k < |candidates|
  {
    && (forall j :: 0 <= j < |candidates| ==> Score(candidates[j], original, ratio, parse) <= Score(candidates[k], original, ratio, parse))
    && (forall j :: 0 <= j < k ==> Score(candidates[j], original, ratio, parse) < Score(candidates[k], original, ratio, parse))
  }

  /**
   * `_select_best_suffix`: `""` for no candidates; the earliest best candidate
   * when its similarity reaches 0.7; the original suffix otherwise. `None`
   * when scoring some candidate raised.
   */
  method SelectBestSuffix(candidates: seq<string>, originalCode: string, position: int,
                          ratio: (string, string) -> Option<real>, parse: string -> PyAst.ParseResult)
    returns (r: Option<string>)
    ensures candidates == [] ==> r == Some("")
    ensures candidates != [] ==>
      (r.None? <==> exists k :: 0 <= k < |candidates| && !Scored(candidates[k], SliceFrom(originalCode, position), ratio, parse))
    ensures r.Some? && candidates != [] && r.value != SliceFrom(originalCode, position) ==>
      exists k :: 0 <= k < |candidates| && r.value == candidates[k] &&
        Score(candidates[k], SliceFrom(originalCode, position), ratio, parse) >= SimilarityThreshold &&
        EarliestBest(candidates, k, SliceFrom(originalCode, position), ratio, parse)
    ensures (r.Some? && candidates != [] &&
             exists k :: 0 <= k < |candidates| && Score(candidates[k], SliceFrom(originalCode, position), ratio, parse) >= SimilarityThreshold) ==>
      exists k :: 0 <= k < |candidates| && r.value == candidates[k] &&
        EarliestBest(candidates, k, SliceFrom(originalCode, position), ratio, parse)
    ensures (r.Some? && candidates != [] &&
             forall k :: 0 <= k < |candidates| ==> Score(candidates[k], SliceFrom(originalCode, position), ratio, parse) < SimilarityThreshold) ==>
      r.value == SliceFrom(originalCode, position)
  {
    if candidates == [] {
      return Some("");
    }
    var originalSuffix := SliceFrom(originalCode, position);
    var bestCandidate := candidates[0];
    var bestSimilarity := 0.0;
    ghost var bestIndex := 0;
    var i := 0;
    while i < |candidates|
      invariant 0 <= i <= |candidates|
      invariant 0 <= bestIndex < |candidates| && bestCandidate == candidates[bestIndex]
      invariant forall j :: 0 <= j < i ==> Scored(candidates[j], originalSuffix, ratio, parse)
      invariant forall j :: 0 <= j < i ==> Score(candidates[j], originalSuffix, ratio, parse) <= bestSimilarity
      invariant bestSimilarity == 0.0 || (bestIndex < i && bestSimilarity == Score(candidates[bestIndex], originalSuffix, ratio, parse))
      invariant bestSimilarity > 0.0 ==> forall j :: 0 <= j < bestIndex ==> Score(candidates[j], originalSuffix, ratio, parse) < bestSimilarity
      invariant bestSimilarity >= 0.0
    {
      var candidate := candidates[i];
      var similarity := Similarity(candidate, originalSuffix, ratio, parse);
      if similarity.None? {
        return None;
      }
      if similarity.value > bestSimilarity {
        bestSimilarity := similarity.value;
        bestCandidate := candidate;
        bestIndex := i;
      }
      i := i + 1;
    }
    if bestSimilarity >= SimilarityThreshold {
      assert EarliestBest(candidates, bestIndex, originalSuffix, ratio, parse);
      r := Some(bestCandidate);
    } else {
      forall k | 0 <= k < |candidates|
        ensures Score(candidates[k], originalSuffix, ratio, parse) < SimilarityThreshold
      {
      }
      r := Some(originalSuffix);
    }
  }

  /** The suffix taken from one completion: what follows the prompt when it is echoed, else all of it. */
  function CandidateSuffix(prompt: string, completion: string): (r: string)
    ensures StartsWith(completion, prompt) ==> prompt + r == completion
    ensures !StartsWith(completion, prompt) ==> r == completion
  {
    if StartsWith(completion, prompt) then completion[|prompt|..] else completion
  }

  /**
   * The candidates of the first `n` attempts: one per attempt that returns,
   * none for an attempt whose call raised. `engine(prompt, t)` is the
   * completion at temperature `t`.
   */
  function Candidates(prompt: string, engine: (string, real) -> Option<string>, n: nat): (r: seq<string>)
    ensures |r| <= n
  {
    if n == 0 then []
    else
      Candidates(prompt, engine, n - 1) +
      (match engine(prompt, Temperature(n - 1))
       case None => []
       case Some(completion) => [CandidateSuffix(prompt, completion)])
  }

  /** `_generate_candidate_suffixes`: ask for ten completions of `original_code[:position] + new_token`. */
  method GenerateCandidateSuffixes(originalCode: string, newToken: string, position: int,
                                   engine: (string, real) -> Option<string>)
    returns (candidates: seq<string>)
    ensures candidates == Candidates(SliceTo(originalCode, position) + newToken, engine, Attempts)
  {
    candidates := [];
    var context := SliceTo(originalCode, position);
    var prompt := context + newToken;
    var i := 0;
    while i < Attempts
      invariant 0 <= i <= Attempts
      invariant candidates == Candidates(prompt, engine, i)
    {
      var temperature := 0.1 + (i as real) * 0.1;
      var completion := engine(prompt, temperature);
      if completion.Some? {
        if StartsWith(completion.value, prompt) {
          var suffix := completion.value[|prompt|..];
          candidates := candidates + [suffix];
        } else {
          candidates := candidates + [completion.value];
        }
      }
      i := i + 1;
    }
  }

  /** Every candidate comes from one attempt's completion. */
  lemma {:induction false} CandidatesFromAttempts(prompt: string, engine: (string, real) -> Option<string>, n: nat, c: string)
    requires c in Candidates(prompt, engine, n)
    ensures exists i: nat, completion :: i < n && engine(prompt, Temperature(i)) == Some(completion) && c == CandidateSuffix(prompt, completion)
  {
    if n > 0 {
      var init := Candidates(prompt, engine, n - 1);
      if c in init {
        CandidatesFromAttempts(prompt, engine, n - 1, c);
      } else {
        var i := n - 1;
        var completion := engine(prompt, Temperature(i)).value;
        assert c == CandidateSuffix(prompt, completion);
      }
    }
  }

  /** When no call raises, there is exactly one candidate per attempt. */
  lemma {:induction false} CandidatesComplete(prompt: string, engine: (string, real) -> Option<string>, n: nat)
    requires forall i: nat :: i < n ==> engine(prompt, Temperature(i)).Some?
    ensures |Candidates(prompt, engine, n)| == n
  {
    if n > 0 {
      CandidatesComplete(prompt, engine, n - 1);
      assert engine(prompt, Temperature(n - 1)).Some?;
    }
  }

  /**
   * `regenerate_suffix`: the selected suffix, or the original code after the
   * replaced token when scoring raised.
   */
  method RegenerateSuffix(originalCode: string, newToken: string, position: int,
                          engine: (string, real) -> Option<string>,
                          ratio: (string, string) -> Option<real>, parse: string -> PyAst.ParseResult)
    returns (suffix: string)
    ensures var cands := Candidates(SliceTo(originalCode, position) + newToken, engine, Attempts);
      (exists k :: 0 <= k < |cands| && !Scored(cands[k], SliceFrom(originalCode, position), ratio, parse)) ==>
        suffix == SliceFrom(originalCode, position + |newToken|)
    ensures Candidates(SliceTo(originalCode, position) + newToken, engine, Attempts) == [] ==> suffix == ""
    ensures var cands := Candidates(SliceTo(originalCode, position) + newToken, engine, Attempts);
      var original := SliceFrom(originalCode, position);
      (forall k :: 0 <= k < |cands| ==> Scored(cands[k], original, ratio, parse)) &&
      (exists k :: 0 <= k < |cands| && Score(cands[k], original, ratio, parse) >= SimilarityThreshold) ==>
        exists k :: 0 <= k < |cands| && suffix == cands[k] && EarliestBest(cands, k, original, ratio, parse)
    ensures var cands := Candidates(SliceTo(originalCode, position) + newToken, engine, Attempts);
      var original := SliceFrom(originalCode, position);
      cands != [] &&
      (forall k :: 0 <= k < |cands| ==> Scored(cands[k], original, ratio, parse)) &&
      (forall k :: 0 <= k < |cands| ==> Score(cands[k], original, ratio, parse) < SimilarityThreshold) ==>
        suffix == original
  {
    var candidates := GenerateCandidateSuffixes(originalCode, newToken, position, engine);
    var best := SelectBestSuffix(candidates, originalCode, position, ratio, parse);
    match best
    case None =>
      suffix := SliceFrom(originalCode, position + |newToken|);
    case Some(s) =>
      suffix := s;
  }
}
