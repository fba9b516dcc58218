/**
 * The analytics service's derived figures and its recommendation rules.
 * The SQLite tables are given as sequences of rows, and each query as the
 * function of those rows it computes.
 */
module LoggingAnalytics {
  import opened Wrappers

  /**
   * One `user_interactions` row, reduced to the columns the insights read:
   * `action_type`, whether `alternative_token` is not NULL,
   * `decision_time_ms` and `entropy_score` (NULL as `None`).
   */
  datatype Interaction = Interaction(
    actionType: string,
    hasAlternativeToken: bool,
    decisionTimeMs: Option<int>,
    entropyScore: Option<real>)

  const EngagementAdvice: string := "Consider highlighting more critical decisions to increase user engagement"
  const DecisionTimeAdvice: string := "Users are taking long to make decisions - consider simplifying the interface"
  const SecurityAdvice: string := "Continue monitoring security improvements and user adoption of secure alternatives"
  const DefaultAdvice: string := "System is performing well - continue current practices"

  /** The rows whose `action_type` is `alternative_selected`. */
  function SelectionRows(rows: seq<Interaction>): nat
  {
    if rows == [] then 0
    else SelectionRows(rows[..|rows| - 1]) + (if rows[|rows| - 1].actionType == "alternative_selected" then 1 else 0)
  }

  /** Those of them with an alternative token. */
  function SelectedRows(rows: seq<Interaction>): (r: nat)
    ensures r <= SelectionRows(rows)
  {
    if rows == [] then 0
    else
      var last := rows[|rows| - 1];
      SelectedRows(rows[..|rows| - 1]) + (if last.actionType == "alternative_selected" && last.hasAlternativeToken then 1 else 0)
  }

  /** `alternative_selection_rate`: selected over total, or 0.0 when there are no such rows. */
  function SelectionRate(rows: seq<Interaction>): (r: real)
    ensures SelectionRows(rows) == 0 ==> r == 0.0
    ensures 0.0 <= r <= 1.0
    ensures SelectionRows(rows) > 0 ==> r == SelectedRows(rows) as real / SelectionRows(rows) as real
  {
    Rate(SelectedRows(rows), SelectionRows(rows))
  }

  /** `part / whole` in true division when `whole` is positive, 0.0 otherwise. */
  function Rate(part: nat, whole: nat): (q: real)
    requires part <= whole
    ensures whole == 0 ==> q == 0.0
    ensures 0.0 <= q <= 1.0
    ensures whole > 0 ==> q == part as real / whole as real
  {
    if whole == 0 then 0.0
    else
      var q := part as real / whole as real;
      assert q * whole as real == part as real;
      q
  }

  /** The sum and number of the non-NULL decision times. */
  function TimeSum(rows: seq<Interaction>): int
  {
    if rows == [] then 0 else TimeSum(rows[..|rows| - 1]) + rows[|rows| - 1].decisionTimeMs.GetOr(0)
  }

  function TimeCount(rows: seq<Interaction>): nat
  {
    if rows == [] then 0 else TimeCount(rows[..|rows| - 1]) + (if rows[|rows| - 1].decisionTimeMs.Some? then 1 else 0)
  }

  /** `AVG(decision_time_ms) ... or 0`: the mean of the recorded times, 0 when none is recorded. */
  function AverageDecisionTime(rows: seq<Interaction>): (r: real)
    ensures TimeCount(rows) == 0 ==> r == 0.0
  {
    if TimeCount(rows) == 0 then 0.0 else TimeSum(rows) as real / TimeCount(rows) as real
  }

  /** Recorded times that are all at most `bound` sum to at most `bound` per time. */
  lemma {:induction false} TimeSumBound(rows: seq<Interaction>, bound: int)
    requires forall i :: 0 <= i < |rows| && rows[i].decisionTimeMs.Some? ==> rows[i].decisionTimeMs.value <= bound
    ensures TimeSum(rows) <= bound * TimeCount(rows)
  {
    if rows != [] {
      TimeSumBound(rows[..|rows| - 1], bound);
    }
  }

  /** The average of times that are all at most `bound` is at most `bound`. */
  lemma AverageBelowBound(rows: seq<Interaction>, bound: int)
    requires bound >= 0
    requires forall i :: 0 <= i < |rows| && rows[i].decisionTimeMs.Some? ==> rows[i].decisionTimeMs.value <= bound
    ensures AverageDecisionTime(rows) <= bound as real
  {
    TimeSumBound(rows, bound);
    if TimeCount(rows) > 0 {
      QuotientBelow(TimeSum(rows) as real, TimeCount(rows) as real, bound as real);
    }
  }

  /** A quotient by a positive number is at most `b` when the dividend is at most `b` times it. */
  lemma QuotientBelow(s: real, n: real, b: real)
    requires n > 0.0 && s <= b * n
    ensures s / n <= b
  {
    var q := s / n;
    assert q * n == s;
    assert (q - b) * n <= 0.0;
  }

  /** The entropy level of a row: below 0.3 low, below 0.7 medium, otherwise (NULL included) high. */
  function EntropyBucket(score: Option<real>): (level: string)
    ensures level == "low" <==> score.Some? && score.value < 0.3
    ensures level == "medium" <==> score.Some? && 0.3 <= score.value < 0.7
    ensures level == "high" <==> score.None? || score.value >= 0.7
  {
    match score
    case None => "high"
    case Some(e) => if e < 0.3 then "low" else if e < 0.7 then "medium" else "high"
  }

  /** The `entropy_distribution` entry for `level`: the number of rows in that bucket. */
  function BucketCount(rows: seq<Interaction>, level: string): nat
  {
    if rows == [] then 0
    else BucketCount(rows[..|rows| - 1], level) + (if EntropyBucket(rows[|rows| - 1].entropyScore) == level then 1 else 0)
  }

  /** Every row falls in exactly one of the three buckets. */
  lemma {:induction false} BucketsPartition(rows: seq<Interaction>)
    ensures BucketCount(rows, "low") + BucketCount(rows, "medium") + BucketCount(rows, "high") == |rows|
  {
    if rows != [] {
      BucketsPartition(rows[..|rows| - 1]);
    }
  }

  /** `total_vulnerabilities_found`: `SUM(vulnerabilities_found) or 0` over the `security_metrics` rows. */
  function TotalVulnerabilitiesFound(found: seq<int>): int
  {
    if found == [] then 0 else TotalVulnerabilitiesFound(found[..|found| - 1]) + found[|found| - 1]
  }

  /** Scans that found vulnerabilities make the total positive when no count is negative. */
  lemma {:induction false} FoundMakesTotalPositive(found: seq<int>, k: nat)
    requires forall i :: 0 <= i < |found| ==> found[i] >= 0
    requires k < |found| && found[k] > 0
    ensures TotalVulnerabilitiesFound(found) > 0
  {
    var init := found[..|found| - 1];
    if k < |found| - 1 {
      FoundMakesTotalPositive(init, k);
    } else {
      TotalNonNegative(init);
    }
  }

  lemma {:induction false} TotalNonNegative(found: seq<int>)
    requires forall i :: 0 <= i < |found| ==> found[i] >= 0
    ensures TotalVulnerabilitiesFound(found) >= 0
  {
    if found != [] {
      TotalNonNegative(found[..|found| - 1]);
    }
  }

  /**
   * `_generate_recommendations` on the insight values: engagement advice for
   * a selection rate below 0.3, interface advice for an average decision
   * above 60000 ms, monitoring advice when vulnerabilities were found, and
   * the all-well line exactly when none of these applies.
   */
  method GenerateRecommendations(selectionRate: real, averageDecisionTimeMs: real, vulnerabilitiesFound: int)
    returns (recommendations: seq<string>)
    ensures EngagementAdvice in recommendations <==> selectionRate < 0.3
    ensures DecisionTimeAdvice in recommendations <==> averageDecisionTimeMs > 60000.0
    ensures SecurityAdvice in recommendations <==> vulnerabilitiesFound > 0
    ensures recommendations == [DefaultAdvice] <==>
      !(selectionRate < 0.3) && !(averageDecisionTimeMs > 60000.0) && !(vulnerabilitiesFound > 0)
    ensures recommendations != []
    ensures forall a :: 0 <= a < |recommendations| ==>
      recommendations[a] in [EngagementAdvice, DecisionTimeAdvice, SecurityAdvice, DefaultAdvice]
    ensures recommendations != [DefaultAdvice] ==> DefaultAdvice !in recommendations
    ensures forall a, b :: 0 <= a < b < |recommendations| ==> Rank(recommendations[a]) < Rank(recommendations[b])
  {
    recommendations := [];
    if selectionRate < 0.3 {
      recommendations := recommendations + [EngagementAdvice];
    }
    if averageDecisionTimeMs > 60000.0 {
      recommendations := recommendations + [DecisionTimeAdvice];
    }
    if vulnerabilitiesFound > 0 {
      recommendations := recommendations + [SecurityAdvice];
    }
    if recommendations == [] {
      recommendations := recommendations + [DefaultAdvice];
    }
  }

  /** The order in which the rules are checked. */
  function Rank(advice: string): nat
  {
    if advice == EngagementAdvice then 0
    else if advice == DecisionTimeAdvice then 1
    else if advice == SecurityAdvice then 2
    else 3
  }

  /** With no `alternative_selected` rows the rate is 0.0, so the engagement advice is always given. */
  lemma NoSelectionsGiveEngagementAdvice(rows: seq<Interaction>)
    requires SelectionRows(rows) == 0
    ensures SelectionRate(rows) < 0.3
  {
  }

  /** Decision times all within a minute never produce the interface advice. */
  lemma QuickDecisionsNoInterfaceAdvice(rows: seq<Interaction>)
    requires forall i :: 0 <= i < |rows| && rows[i].decisionTimeMs.Some? ==> rows[i].decisionTimeMs.value <= 60000
    ensures !(AverageDecisionTime(rows) > 60000.0)
  {
    AverageBelowBound(rows, 60000);
  }
}
