/**
 * The security service's aggregation of scanner findings into a summary,
 * and its language-to-file-extension mapping. The scanners themselves
 * (Bandit and Semgrep subprocesses) are not part of this model.
 */
module SecurityIntegration {
  import opened Text
  import Tally

  /** One scanner finding. */
  datatype SecurityIssue = SecurityIssue(
    ruleId: string,
    message: string,
    severity: string,
    line: int,
    column: int,
    filePath: string,
    description: string)

  datatype SecuritySummary = SecuritySummary(
    status: string,
    totalIssues: nat,
    severityBreakdown: Tally.Counts,
    recommendations: seq<string>)

  const HighAdvice: string := "Address high-severity issues immediately"
  const MediumAdvice: string := "Review medium-severity issues"
  const LowAdvice: string := "Consider addressing low-severity issues"

  /** The three pieces of advice in the order they are given. */
  const AdviceOrder: seq<string> := [HighAdvice, MediumAdvice, LowAdvice]

  /** The severities that carry advice. */
  const AdviceSeverities: seq<string> := ["high", "medium", "low"]

  /** The lower-cased severity of every issue, in order. */
  function LoweredSeverities(issues: seq<SecurityIssue>): (r: seq<string>)
    ensures |r| == |issues|
    ensures forall i :: 0 <= i < |issues| ==> r[i] == Lower(issues[i].severity)
  {
    seq(|issues|, i requires 0 <= i < |issues| => Lower(issues[i].severity))
  }

  /**
   * The advice for a breakdown: one line for each of high, medium and low
   * that occurs, in that order; other severities give none.
   */
  function Recommendations(breakdown: Tally.Counts): (r: seq<string>)
    ensures HighAdvice in r <==> Tally.Get(breakdown, "high") > 0
    ensures MediumAdvice in r <==> Tally.Get(breakdown, "medium") > 0
    ensures LowAdvice in r <==> Tally.Get(breakdown, "low") > 0
    ensures forall a :: 0 <= a < |r| ==> r[a] in AdviceOrder
    ensures forall a, b :: 0 <= a < b < |r| ==> AdviceRank(r[a]) < AdviceRank(r[b])
  {
    (if Tally.Get(breakdown, "high") > 0 then [HighAdvice] else [])
    + (if Tally.Get(breakdown, "medium") > 0 then [MediumAdvice] else [])
    + (if Tally.Get(breakdown, "low") > 0 then [LowAdvice] else [])
  }

  /** The position of a piece of advice in `AdviceOrder`. */
  function AdviceRank(advice: string): nat
  {
    if advice == HighAdvice then 0 else if advice == MediumAdvice then 1 else 2
  }

  /** What `get_security_summary` returns for `issues`. */
  function Summarize(issues: seq<SecurityIssue>): (s: SecuritySummary)
    ensures s.status == "secure"
    ensures s.totalIssues == |issues|
    ensures issues == [] ==> s.severityBreakdown == [] && s.recommendations == []
    ensures Tally.Total(s.severityBreakdown) == |issues|
    ensures forall k :: Tally.Get(s.severityBreakdown, k) == Tally.Occurrences(LoweredSeverities(issues), k)
    ensures forall k :: Tally.HasKey(s.severityBreakdown, k) <==> k in LoweredSeverities(issues)
    ensures Tally.DistinctKeys(s.severityBreakdown)
  {
    Tally.TallyOfCounts(LoweredSeverities(issues));
    if issues == [] then SecuritySummary("secure", 0, [], [])
    else
      var breakdown := Tally.TallyOf(LoweredSeverities(issues));
      SecuritySummary("secure", |issues|, breakdown, Recommendations(breakdown))
  }

  /** `get_security_summary`, counting severities one issue at a time. */
  method GetSecuritySummary(issues: seq<SecurityIssue>) returns (s: SecuritySummary)
    ensures s == Summarize(issues)
  {
    if issues == [] {
      return SecuritySummary("secure", 0, [], []);
    }
    var severityCounts := CountSeverities(issues);
    var recommendations := AdviceFor(severityCounts);
    s := SecuritySummary("secure", |issues|, severityCounts, recommendations);
  }

  /** The severity breakdown, built by counting each lower-cased severity in turn. */
  method CountSeverities(issues: seq<SecurityIssue>) returns (severityCounts: Tally.Counts)
    ensures severityCounts == Tally.TallyOf(LoweredSeverities(issues))
  {
    severityCounts := [];
    var i := 0;
    while i < |issues|
      invariant 0 <= i <= |issues|
      invariant severityCounts == Tally.TallyOf(LoweredSeverities(issues[..i]))
    {
      var severity := Lower(issues[i].severity);
      assert LoweredSeverities(issues[..i + 1]) == LoweredSeverities(issues[..i]) + [severity];
      severityCounts := Tally.Increment(severityCounts, severity);
      i := i + 1;
    }
    assert issues[..i] == issues;
  }

  /** The advice lines for a breakdown, checked high, medium, low. */
  method AdviceFor(severityCounts: Tally.Counts) returns (recommendations: seq<string>)
    ensures recommendations == Recommendations(severityCounts)
  {
    recommendations := [];
    if Tally.Get(severityCounts, "high") > 0 {
      recommendations := recommendations + [HighAdvice];
    }
    if Tally.Get(severityCounts, "medium") > 0 {
      recommendations := recommendations + [MediumAdvice];
    }
    if Tally.Get(severityCounts, "low") > 0 {
      recommendations := recommendations + [LowAdvice];
    }
  }

  /** An issue whose severity is written `HIGH`, `High` or `high` makes the summary advise on high-severity issues. */
  lemma HighIssueAdvised(issues: seq<SecurityIssue>, k: nat)
    requires k < |issues| && Lower(issues[k].severity) == "high"
    ensures HighAdvice in Summarize(issues).recommendations
  {
    var keys := LoweredSeverities(issues);
    assert keys[k] == "high";
    Tally.OccurrencesPositive(keys, "high");
  }

  /** With no issue of severity high, medium or low there is no advice at all, whatever else is present. */
  lemma OtherSeveritiesNoAdvice(issues: seq<SecurityIssue>)
    requires forall k :: 0 <= k < |issues| ==> Lower(issues[k].severity) !in AdviceSeverities
    ensures Summarize(issues).recommendations == []
  {
    var keys := LoweredSeverities(issues);
    assert forall k :: 0 <= k < |keys| ==> keys[k] != "high" && keys[k] != "medium" && keys[k] != "low";
    AbsentSeverity(keys, "high");
    AbsentSeverity(keys, "medium");
    AbsentSeverity(keys, "low");
  }

  /** A severity no issue has is counted zero times. */
  lemma AbsentSeverity(keys: seq<string>, sev: string)
    requires forall k :: 0 <= k < |keys| ==> keys[k] != sev
    ensures Tally.Occurrences(keys, sev) == 0
  {
    Tally.OccurrencesPositive(keys, sev);
  }

  /** `_get_file_extension`'s table. */
  const Extensions: map<string, string> := map[
    "python" := ".py",
    "javascript" := ".js",
    "typescript" := ".ts",
    "java" := ".java",
    "cpp" := ".cpp",
    "c" := ".c"]

  /** `_get_file_extension`: the table entry for the lower-cased language, `.txt` when there is none. */
  function FileExtension(language: string): (r: string)
    ensures Lower(language) in Extensions ==> r == Extensions[Lower(language)]
    ensures r == ".txt" <==> Lower(language) !in Extensions
  {
    var key := Lower(language);
    if key in Extensions then Extensions[key] else ".txt"
  }

  /** The lookup ignores ASCII case: a name and its lower-case form map alike. */
  lemma FileExtensionIgnoresCase(a: string, b: string)
    requires Lower(a) == Lower(b)
    ensures FileExtension(a) == FileExtension(b)
    ensures FileExtension(a) == FileExtension(Lower(a))
  {
    assert Lower(Lower(a)) == Lower(a);
  }
}
