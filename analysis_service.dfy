/**
 * The analysis service's reply handling: the brace-delimited JSON of the
 * model's reply, read with defaults for missing fields, and the heuristic
 * fallback used when there is no usable JSON. The JSON decoder is an input.
 */
module AnalysisService {
  import opened Wrappers
  import opened Text
  import opened BraceJson

  /** The fields of `AnalysisRequest` the parsing reads. */
  datatype AnalysisRequest = AnalysisRequest(originalToken: string, alternativeToken: string)

  datatype AnalysisResponse = AnalysisResponse(
    detailedExplanation: string,
    explanationSummary: string,
    category: string,
    importanceScore: real)

  /** The `importance_score` entry: absent, something `float()` accepts, or something it rejects. */
  datatype ImportanceEntry = Missing | Number(value: real) | NotANumber

  /** A decoded JSON object, reduced to the four keys the service reads. */
  datatype JsonObject = JsonObject(
    detailedExplanation: Option<string>,
    explanationSummary: Option<string>,
    category: Option<string>,
    importanceScore: ImportanceEntry)

  /** `_fallback_analysis`: a fixed judgement from comparing the two tokens. */
  function FallbackAnalysis(request: AnalysisRequest): (r: AnalysisResponse)
    ensures r.category == "Minor"
    ensures 0.0 <= r.importanceScore <= 0.3
    ensures request.originalToken == request.alternativeToken ==>
      r.importanceScore == 0.0 && r.explanationSummary == "No change"
    ensures |request.originalToken| != |request.alternativeToken| ==>
      r.importanceScore == 0.3 && r.explanationSummary == "Token length change"
    ensures |request.originalToken| == |request.alternativeToken| && request.originalToken != request.alternativeToken ==>
      r.importanceScore == 0.2 && r.explanationSummary == "Token substitution"
  {
    var original := request.originalToken;
    var alternative := request.alternativeToken;
    if original == alternative then
      AnalysisResponse("No change detected", "No change", "Minor", 0.0)
    else if |original| != |alternative| then
      AnalysisResponse("Token length changed from " + NatToString(|original|) + " to " + NatToString(|alternative|),
                       "Token length change", "Minor", 0.3)
    else
      AnalysisResponse("Token changed from '" + original + "' to '" + alternative + "'",
                       "Token substitution", "Minor", 0.2)
  }

  /** The response built from a decoded object, or `None` where `float()` raises. */
  function FromJson(data: JsonObject): (r: Option<AnalysisResponse>)
    ensures r.None? <==> data.importanceScore == NotANumber
    ensures r.Some? ==> r.value.category == data.category.GetOr("Minor")
    ensures r.Some? ==> r.value.detailedExplanation == data.detailedExplanation.GetOr("No explanation provided")
    ensures r.Some? ==> r.value.explanationSummary == data.explanationSummary.GetOr("No summary")
    ensures data.importanceScore == Missing ==> r.Some? && r.value.importanceScore == 0.5
    ensures data.importanceScore.Number? ==> r.Some? && r.value.importanceScore == data.importanceScore.value
  {
    match data.importanceScore
    case NotANumber => None
    case Missing =>
      Some(AnalysisResponse(data.detailedExplanation.GetOr("No explanation provided"),
                            data.explanationSummary.GetOr("No summary"), data.category.GetOr("Minor"), 0.5))
    case Number(v) =>
      Some(AnalysisResponse(data.detailedExplanation.GetOr("No explanation provided"),
                            data.explanationSummary.GetOr("No summary"), data.category.GetOr("Minor"), v))
  }

  /** `_parse_analysis_response`. */
  function ParseAnalysisResponse(content: string, request: AnalysisRequest, loads: string -> Option<JsonObject>)
    : (r: AnalysisResponse)
    ensures !('{' in content && '}' in content) ==> r == FallbackAnalysis(request)
    ensures '{' in content && '}' in content && loads(JsonCandidate(content).value).None? ==>
      r == FallbackAnalysis(request)
    ensures '{' in content && '}' in content && loads(JsonCandidate(content).value).Some? ==>
      var data := loads(JsonCandidate(content).value).value;
      r == if data.importanceScore == NotANumber then FallbackAnalysis(request) else FromJson(data).value
  {
    match JsonCandidate(content)
    case None => FallbackAnalysis(request)
    case Some(json) =>
      match loads(json)
      case None => FallbackAnalysis(request)
      case Some(data) => FromJson(data).GetOr(FallbackAnalysis(request))
  }

  /** A reply whose braces enclose nothing decodes as nothing, so it gets the fallback judgement. */
  lemma EmptyCandidateFallback(content: string, request: AnalysisRequest, loads: string -> Option<JsonObject>)
    requires JsonCandidate(content) == Some("")
    requires loads("").None?
    ensures ParseAnalysisResponse(content, request, loads) == FallbackAnalysis(request)
  {
  }

  /** The fallback gives zero importance exactly when nothing changed. */
  lemma FallbackZeroIff(request: AnalysisRequest)
    ensures FallbackAnalysis(request).importanceScore == 0.0 <==> request.originalToken == request.alternativeToken
  {
  }

  /** A reply without usable JSON leaves the category `Minor` and the importance at most 0.3. */
  lemma UnparsedReplyIsMinor(content: string, request: AnalysisRequest, loads: string -> Option<JsonObject>)
    requires !('{' in content && '}' in content)
    ensures ParseAnalysisResponse(content, request, loads).category == "Minor"
    ensures ParseAnalysisResponse(content, request, loads).importanceScore <= 0.3
  {
  }

  /** An object with none of the keys reads as `Minor` with importance 0.5. */
  lemma EmptyObjectDefaults(content: string, request: AnalysisRequest, loads: string -> Option<JsonObject>)
    requires '{' in content && '}' in content
    requires loads(JsonCandidate(content).value) == Some(JsonObject(None, None, None, Missing))
    ensures ParseAnalysisResponse(content, request, loads) ==
      AnalysisResponse("No explanation provided", "No summary", "Minor", 0.5)
  {
  }
}
