/**
 * The lightweight analysis engine: it attaches an analysis to every token
 * alternative, either a fixed one (no API key) or one read from the
 * language model's reply for that position. The model's reply for each
 * position and the JSON decoder are inputs.
 */
module LiteAnalysisEngine {
  import opened Wrappers
  import opened BraceJson

  /** An `analysis` dictionary: `Empty` is `{}`. */
  datatype AnalysisValue =
    | Empty
    | Analysis(explanation: string, category: string, importance: real)

  /** One alternative; `analysis` is `None` until an analysis is attached. */
  datatype Alternative = Alternative(token: string, probability: real, analysis: Option<AnalysisValue>)

  /**
   * A decoded reply: `topAnalysis` is `Empty` when the key is missing, and
   * `alternatives` is empty when that key is missing.
   */
  datatype ParsedReply = ParsedReply(topAnalysis: AnalysisValue, alternatives: seq<AnalysisValue>)

  /**
   * What `json.loads` makes of the candidate, as far as the loop that uses
   * it can tell: `NotJson` when it raises, `Malformed` when the object's
   * `alternatives` entry is one on which `len` or the index raises inside
   * the call's `try` (a number, null, a boolean, a non-empty object), and
   * `Reply` otherwise, with a list entry or an empty object (no analyses).
   */
  datatype Decoded = NotJson | Malformed | Reply(reply: ParsedReply)

  const NoKeyAnalysis: AnalysisValue := Analysis("GPT-4 analysis not available (no API key)", "Minor", 0.5)
  const UnavailableAnalysis: AnalysisValue := Analysis("Analysis unavailable", "Minor", 0.5)
  const AlternativeDefault: AnalysisValue := Analysis("Alternative token", "Minor", 0.3)
  const ParseFailedReply: ParsedReply := ParsedReply(Analysis("Analysis parsing failed", "Minor", 0.5), [])

  /**
   * `_parse_analysis_response`: decode the brace-delimited part of the reply,
   * falling back when there is none or it does not decode.
   */
  function ParseAnalysisResponse(content: string, loads: string -> Decoded): (r: Decoded)
    ensures r != NotJson
    ensures !('{' in content && '}' in content) ==> r == Reply(ParseFailedReply)
    ensures '{' in content && '}' in content ==>
      (loads(JsonCandidate(content).value) == NotJson ==> r == Reply(ParseFailedReply))
    ensures '{' in content && '}' in content ==>
      (loads(JsonCandidate(content).value) != NotJson ==> r == loads(JsonCandidate(content).value))
  {
    match JsonCandidate(content)
    case None => Reply(ParseFailedReply)
    case Some(json) => if loads(json) == NotJson then Reply(ParseFailedReply) else loads(json)
  }

  /** A reply whose braces enclose nothing decodes as nothing, so it takes the parse-failed reply. */
  lemma EmptyCandidateFallback(content: string, loads: string -> Decoded)
    requires JsonCandidate(content) == Some("")
    requires loads("") == NotJson
    ensures ParseAnalysisResponse(content, loads) == Reply(ParseFailedReply)
  {
  }

  /** The analysis given to the `j`-th alternative of an analysed group. */
  function AssignedAnalysis(j: nat, reply: Option<ParsedReply>): (a: AnalysisValue)
    ensures reply.None? ==> a == UnavailableAnalysis
    ensures reply.Some? && j == 0 ==> a == reply.value.topAnalysis
    ensures reply.Some? && 1 <= j <= |reply.value.alternatives| ==> a == reply.value.alternatives[j - 1]
    ensures reply.Some? && j > |reply.value.alternatives| ==> a == AlternativeDefault
  {
    match reply
    case None => UnavailableAnalysis
    case Some(parsed) =>
      if j == 0 then parsed.topAnalysis
      else if j - 1 < |parsed.alternatives| then parsed.alternatives[j - 1]
      else AlternativeDefault
  }

  /** The decoded reply for one position, or `None` when the model call or the loop over the reply raised. */
  function Outcome(content: Option<string>, loads: string -> Decoded): Option<ParsedReply>
  {
    match content
    case None => None
    case Some(text) =>
      match ParseAnalysisResponse(text, loads)
      case Reply(parsed) => Some(parsed)
      case _ => None
  }

  /** The group at position `i` after analysis. */
  function AnalysedGroup(group: seq<Alternative>, content: Option<string>, loads: string -> Decoded): (r: seq<Alternative>)
    ensures |r| == |group|
  {
    if |group| < 2 then group
    else seq(|group|, j requires 0 <= j < |group| => group[j].(analysis := Some(AssignedAnalysis(j, Outcome(content, loads)))))
  }

  /** Attach `analysis` to every alternative of a group (the inner loops of both paths). */
  method AttachAll(group: seq<Alternative>, analysis: nat -> AnalysisValue) returns (annotated: seq<Alternative>)
    ensures |annotated| == |group|
    ensures forall j :: 0 <= j < |group| ==> annotated[j] == group[j].(analysis := Some(analysis(j)))
  {
    annotated := [];
    var j := 0;
    while j < |group|
      invariant 0 <= j <= |group|
      invariant |annotated| == j
      invariant forall k :: 0 <= k < j ==> annotated[k] == group[k].(analysis := Some(analysis(k)))
    {
      annotated := annotated + [group[j].(analysis := Some(analysis(j)))];
      j := j + 1;
    }
  }

  /** `_fallback_analysis`: every alternative of every group gets the no-key analysis. */
  method FallbackAnalysis(groups: seq<seq<Alternative>>) returns (result: seq<seq<Alternative>>)
    ensures |result| == |groups|
    ensures forall i :: 0 <= i < |groups| ==> |result[i]| == |groups[i]|
    ensures forall i, j :: 0 <= i < |groups| && 0 <= j < |groups[i]| ==>
      result[i][j] == groups[i][j].(analysis := Some(NoKeyAnalysis))
  {
    result := [];
    var i := 0;
    while i < |groups|
      invariant 0 <= i <= |groups|
      invariant |result| == i
      invariant forall k :: 0 <= k < i ==> |result[k]| == |groups[k]|
      invariant forall k, j :: 0 <= k < i && 0 <= j < |groups[k]| ==>
        result[k][j] == groups[k][j].(analysis := Some(NoKeyAnalysis))
    {
      var annotated := AttachAll(groups[i], (j: nat) => NoKeyAnalysis);
      result := result + [annotated];
      i := i + 1;
    }
  }

  /**
   * `analyze_alternatives`. `replies(i)` is the model's reply for position
   * `i`, or `None` when that call raised; with no API key nothing is asked.
   */
  method AnalyzeAlternatives(groups: seq<seq<Alternative>>, hasApiKey: bool,
                             replies: nat -> Option<string>, loads: string -> Decoded)
    returns (result: seq<seq<Alternative>>)
    ensures |result| == |groups|
    ensures !hasApiKey ==> forall i :: 0 <= i < |groups| ==> |result[i]| == |groups[i]|
    ensures !hasApiKey ==> forall i, j :: 0 <= i < |groups| && 0 <= j < |groups[i]| ==>
      result[i][j] == groups[i][j].(analysis := Some(NoKeyAnalysis))
    ensures hasApiKey ==> forall i :: 0 <= i < |groups| ==> result[i] == AnalysedGroup(groups[i], replies(i), loads)
  {
    if !hasApiKey {
      result := FallbackAnalysis(groups);
      return;
    }
    result := [];
    var i := 0;
    while i < |groups|
      invariant 0 <= i <= |groups|
      invariant |result| == i
      invariant forall k :: 0 <= k < i ==> result[k] == AnalysedGroup(groups[k], replies(k), loads)
    {
      var altGroup := groups[i];
      if |altGroup| < 2 {
        result := result + [altGroup];
      } else {
        var outcome := Outcome(replies(i), loads);
        var annotated := AttachAll(altGroup, (j: nat) => AssignedAnalysis(j, outcome));
        assert annotated == AnalysedGroup(altGroup, replies(i), loads);
        result := result + [annotated];
      }
      i := i + 1;
    }
  }

  /** Analysis changes only the `analysis` entries: tokens and probabilities stay, short groups stay whole. */
  lemma AnalysedGroupKeepsTokens(group: seq<Alternative>, content: Option<string>, loads: string -> Decoded)
    ensures |group| < 2 ==> AnalysedGroup(group, content, loads) == group
    ensures forall j :: 0 <= j < |group| ==>
      AnalysedGroup(group, content, loads)[j].token == group[j].token &&
      AnalysedGroup(group, content, loads)[j].probability == group[j].probability
    ensures |group| >= 2 ==> forall j :: 0 <= j < |group| ==> AnalysedGroup(group, content, loads)[j].analysis.Some?
  {
  }

  /**
   * A reply without a `{` or without a `}` gives the top alternative the
   * parsing-failed analysis and every other alternative the 0.3 default.
   */
  lemma ReplyWithoutJson(group: seq<Alternative>, text: string, loads: string -> Decoded)
    requires |group| >= 2
    requires !('{' in text && '}' in text)
    ensures AnalysedGroup(group, Some(text), loads)[0].analysis == Some(ParseFailedReply.topAnalysis)
    ensures forall j :: 1 <= j < |group| ==> AnalysedGroup(group, Some(text), loads)[j].analysis == Some(AlternativeDefault)
  {
    assert ParseAnalysisResponse(text, loads) == Reply(ParseFailedReply);
  }

  /**
   * A failed call, or a reply whose `alternatives` entry is not a list, gives
   * every alternative of the group the unavailable analysis.
   */
  lemma FailedCallUniform(group: seq<Alternative>, content: Option<string>, loads: string -> Decoded)
    requires |group| >= 2
    requires content.None? || ParseAnalysisResponse(content.value, loads) == Malformed
    ensures forall j :: 0 <= j < |group| ==> AnalysedGroup(group, content, loads)[j].analysis == Some(UnavailableAnalysis)
  {
    assert Outcome(content, loads) == None;
  }
}
