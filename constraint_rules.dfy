/**
 * What the constraint checker reports, as functions of the code, the rule
 * configuration and the parse result: one function per check, the rule
 * dispatch, the per-language analysis and the summary. The class in
 * ConstraintDebugger computes the same lists step by step.
 */
module ConstraintRules {
  import opened Wrappers
  import opened Text
  import opened PyAst
  import opened Patterns
  import Tally

  /** A reported breach: rule name, 1-based line, 0-based column, explanation, severity, source snippet. */
  datatype Violation = Violation(rule: string, line: int, column: int, explanation: string, severity: string, snippet: string)

  /** One rule's entry in the configuration; a missing key is `None`. */
  datatype RuleConfig = RuleConfig(enabled: Option<bool>, severity: Option<string>, message: Option<string>)

  /** The `constraints` dictionary: rule names with their entries, in file order. */
  type Config = seq<(string, RuleConfig)>

  /** The configuration written when no configuration file exists: two rules, both enabled. */
  const DefaultConfig: Config := [
    ("no_global_vars", RuleConfig(Some(true), Some("warning"),
      Some("Global variables can cause hidden side effects and make code harder to test and maintain."))),
    ("sanitize_inputs", RuleConfig(Some(true), Some("error"),
      Some("User inputs should be sanitized to prevent injection attacks and data corruption.")))
  ]

  /** `rule_config.get("enabled", False)`. */
  predicate Enabled(rc: RuleConfig)
  {
    rc.enabled == Some(true)
  }

  /** The names the Python dispatch recognises, in the order it tests them. */
  const PythonRuleNames: seq<string> := ["no_global_vars", "sanitize_inputs", "disallow_raw_sql",
    "no_hardcoded_secrets", "require_error_handling", "require_type_hints"]

  // ---------------------------------------------------------------------------
  // Concatenating the violations of a sequence of items

  /** The violations `f` yields for each item of `xs`, one item after the other. */
  function ConcatMap<T>(xs: seq<T>, f: T -> seq<Violation>): seq<Violation>
  {
    if xs == [] then [] else ConcatMap(xs[..|xs| - 1], f) + f(xs[|xs| - 1])
  }

  lemma ConcatMapSnoc<T>(xs: seq<T>, x: T, f: T -> seq<Violation>)
    ensures ConcatMap(xs + [x], f) == ConcatMap(xs, f) + f(x)
  {
    assert (xs + [x])[..|xs|] == xs;
  }

  /** Extending a prefix of `xs` by its next item appends that item's violations. */
  lemma ConcatMapPrefix<T>(xs: seq<T>, i: nat, f: T -> seq<Violation>)
    requires i < |xs|
    ensures ConcatMap(xs[..i + 1], f) == ConcatMap(xs[..i], f) + f(xs[i])
  {
    assert xs[..i + 1][..i] == xs[..i];
  }

  lemma {:induction false} ConcatMapAppend<T>(a: seq<T>, b: seq<T>, f: T -> seq<Violation>)
    ensures ConcatMap(a + b, f) == ConcatMap(a, f) + ConcatMap(b, f)
    decreases |b|
  {
    if b == [] {
      assert a + b == a;
    } else {
      var init := b[..|b| - 1];
      var last := b[|b| - 1];
      assert a + b == (a + init) + [last];
      calc {
        ConcatMap(a + b, f);
      == { ConcatMapSnoc(a + init, last, f); }
        ConcatMap(a + init, f) + f(last);
      == { ConcatMapAppend(a, init, f); }
        ConcatMap(a, f) + ConcatMap(init, f) + f(last);
      }
    }
  }

  lemma {:induction false} ConcatMapMember<T>(xs: seq<T>, f: T -> seq<Violation>, v: Violation)
    ensures v in ConcatMap(xs, f) <==> exists i :: 0 <= i < |xs| && v in f(xs[i])
  {
    if xs != [] {
      var init := xs[..|xs| - 1];
      ConcatMapMember(init, f, v);
      if v in ConcatMap(init, f) {
        var i :| 0 <= i < |init| && v in f(init[i]);
        assert xs[i] == init[i];
      }
      if exists i :: 0 <= i < |xs| && v in f(xs[i]) {
        var i :| 0 <= i < |xs| && v in f(xs[i]);
        if i < |init| { assert init[i] == xs[i]; }
      }
    }
  }

  /** The violations `f` yields for each line, with the line's 1-based number. */
  function LineWise(lines: seq<string>, f: (int, string) -> seq<Violation>): seq<Violation>
  {
    if lines == [] then [] else LineWise(lines[..|lines| - 1], f) + f(|lines|, lines[|lines| - 1])
  }

  /** Extending a prefix of the lines by the next line appends that line's violations. */
  lemma LineWisePrefix(lines: seq<string>, i: nat, f: (int, string) -> seq<Violation>)
    requires i < |lines|
    ensures LineWise(lines[..i + 1], f) == LineWise(lines[..i], f) + f(i + 1, lines[i])
  {
    assert lines[..i + 1][..i] == lines[..i];
  }

  lemma {:induction false} LineWiseMember(lines: seq<string>, f: (int, string) -> seq<Violation>, v: Violation)
    ensures v in LineWise(lines, f) <==> exists i :: 0 <= i < |lines| && v in f(i + 1, lines[i])
  {
    if lines != [] {
      var init := lines[..|lines| - 1];
      LineWiseMember(init, f, v);
      if v in LineWise(init, f) {
        var i :| 0 <= i < |init| && v in f(i + 1, init[i]);
        assert lines[i] == init[i];
      }
      if exists i :: 0 <= i < |lines| && v in f(i + 1, lines[i]) {
        var i :| 0 <= i < |lines| && v in f(i + 1, lines[i]);
        if i < |init| { assert init[i] == lines[i]; }
      }
    }
  }

  // ---------------------------------------------------------------------------
  // Tree-based checks

  /**
   * `code.split('\n')[n - 1]`, or `""` past the last line. Line numbers of
   * nodes that `ast.parse` returns for the code always lie in `1..|lines|`,
   * so for them this is exactly the source line.
   */
  function SourceLine(lines: seq<string>, n: int): string
  {
    if 1 <= n <= |lines| then lines[n - 1] else ""
  }

  /** `no_global_vars`: a `global` statement. */
  function GlobalFor(n: Node, lines: seq<string>, rc: RuleConfig): seq<Violation>
  {
    if n.kind.Global? then [GlobalViolation(n, lines, rc)] else []
  }

  function GlobalViolation(n: Node, lines: seq<string>, rc: RuleConfig): Violation
  {
    Violation("no_global_vars", n.line, n.col, rc.message.GetOr("Global variable declaration found"),
      rc.severity.GetOr("warning"), Strip(SourceLine(lines, n.line)))
  }

  function GlobalCheck(tree: Node, lines: seq<string>, rc: RuleConfig): seq<Violation>
  {
    ConcatMap(Walk(tree), (n: Node) => GlobalFor(n, lines, rc))
  }

  const InputFunctions: seq<string> := ["input", "raw_input", "sys.stdin.read", "sys.stdin.readline"]
  const SanitisationFunctions: seq<string> := ["strip", "escape", "sanitize", "validate", "clean"]

  /** A call whose callee is a plain name from the input-function list. */
  predicate IsInputCall(n: Node)
  {
    n.kind.Call? && n.kind.name.Some? && n.kind.name.value in InputFunctions
  }

  /** The line mentions one of the sanitisation function names. */
  predicate Sanitised(line: string)
  {
    exists f :: f in SanitisationFunctions && Contains(line, f)
  }

  /** `sanitize_inputs`: an input call on a line that mentions no sanitiser. */
  function InputFor(n: Node, lines: seq<string>, rc: RuleConfig): seq<Violation>
  {
    if IsInputCall(n) && !Sanitised(SourceLine(lines, n.line)) then [InputViolation(n, lines, rc)] else []
  }

  function InputViolation(n: Node, lines: seq<string>, rc: RuleConfig): Violation
  {
    Violation("sanitize_inputs", n.line, n.col, rc.message.GetOr("Input not properly sanitized"),
      rc.severity.GetOr("error"), Strip(SourceLine(lines, n.line)))
  }

  function InputCheck(tree: Node, lines: seq<string>, rc: RuleConfig): seq<Violation>
  {
    ConcatMap(Walk(tree), (n: Node) => InputFor(n, lines, rc))
  }

  predicate IsTry(k: NodeKind) { k.Try? }
  predicate IsRisky(k: NodeKind) { k.Call? || k.Attribute? }

  /** Some node of `nodes` is a `try` statement. */
  predicate AnyTry(nodes: seq<Node>)
  {
    exists i :: 0 <= i < |nodes| && IsTry(nodes[i].kind)
  }

  /** Some node of `nodes` is a call or an attribute access. */
  predicate AnyRisky(nodes: seq<Node>)
  {
    exists i :: 0 <= i < |nodes| && IsRisky(nodes[i].kind)
  }

  function ErrorHandlingViolation(n: Node, lines: seq<string>, rc: RuleConfig): Violation
  {
    Violation("require_error_handling", n.line, n.col, rc.message.GetOr("Function lacks proper error handling"),
      rc.severity.GetOr("warning"), Strip(SourceLine(lines, n.line)))
  }

  /** `require_error_handling`: a `def` with a body, no `try` in its walk and a call or attribute in it. */
  function ErrorHandlingFor(n: Node, lines: seq<string>, rc: RuleConfig): seq<Violation>
  {
    if n.kind.FunctionDef? && !AnyTry(Walk(n)) && n.kind.bodyLen > 0 && AnyRisky(Walk(n)) then
      [ErrorHandlingViolation(n, lines, rc)]
    else []
  }

  function ErrorHandlingCheck(tree: Node, lines: seq<string>, rc: RuleConfig): seq<Violation>
  {
    ConcatMap(Walk(tree), (n: Node) => ErrorHandlingFor(n, lines, rc))
  }

  function TypeHintViolation(n: Node, lines: seq<string>, rc: RuleConfig, fallback: string): Violation
  {
    Violation("require_type_hints", n.line, n.col, rc.message.GetOr(fallback),
      rc.severity.GetOr("info"), Strip(SourceLine(lines, n.line)))
  }

  function ParamHint(n: Node, lines: seq<string>, rc: RuleConfig, p: Param): seq<Violation>
  {
    if p.annotated then [] else [TypeHintViolation(n, lines, rc, "Parameter '" + p.name + "' missing type hint")]
  }

  /** The per-parameter check of one definition, as a function value. */
  function ParamHints(n: Node, lines: seq<string>, rc: RuleConfig): Param -> seq<Violation>
  {
    (p: Param) => ParamHint(n, lines, rc, p)
  }

  /** The return-annotation part of `require_type_hints`. */
  function ReturnHint(n: Node, lines: seq<string>, rc: RuleConfig): seq<Violation>
    requires n.kind.FunctionDef?
  {
    if n.kind.hasReturns then [] else [TypeHintViolation(n, lines, rc, "Function missing return type hint")]
  }

  /** `require_type_hints`: a missing return annotation, then one entry per unannotated parameter. */
  function TypeHintsFor(n: Node, lines: seq<string>, rc: RuleConfig): seq<Violation>
  {
    if n.kind.FunctionDef? then ReturnHint(n, lines, rc) + ConcatMap(n.kind.params, ParamHints(n, lines, rc))
    else []
  }

  function TypeHintsCheck(tree: Node, lines: seq<string>, rc: RuleConfig): seq<Violation>
  {
    ConcatMap(Walk(tree), (n: Node) => TypeHintsFor(n, lines, rc))
  }

  // ---------------------------------------------------------------------------
  // Line-based checks

  function SqlViolation(n: int, line: string, rc: RuleConfig): Violation
  {
    Violation("disallow_raw_sql", n, 0, rc.message.GetOr("Raw SQL query detected without parameterization"),
      rc.severity.GetOr("error"), Strip(line))
  }

  /** `disallow_raw_sql` on one line: one entry per matching pattern unless the line is parameterised. */
  function SqlFor(n: int, line: string, rc: RuleConfig): seq<Violation>
  {
    ConcatMap(SqlPatterns, SqlHits(n, line, rc))
  }

  /** One pattern on one line: a violation when it matches and the line has no parameter marker. */
  function SqlPatternFor(n: int, line: string, rc: RuleConfig, p: SqlPattern): seq<Violation>
  {
    if SqlMatches(p, line) && !Parameterised(line) then [SqlViolation(n, line, rc)] else []
  }

  /** The per-pattern check of one line, as a function value. */
  function SqlHits(n: int, line: string, rc: RuleConfig): SqlPattern -> seq<Violation>
  {
    (p: SqlPattern) => SqlPatternFor(n, line, rc, p)
  }

  function RawSqlCheck(lines: seq<string>, rc: RuleConfig): seq<Violation>
  {
    LineWise(lines, (n: int, line: string) => SqlFor(n, line, rc))
  }

  function SecretViolation(n: int, line: string, rc: RuleConfig): Violation
  {
    Violation("no_hardcoded_secrets", n, 0, rc.message.GetOr("Hardcoded secret detected"),
      rc.severity.GetOr("error"), Strip(line))
  }

  /** One secret pattern on one line. */
  function SecretPattern(n: int, line: string, rc: RuleConfig, kw: string): seq<Violation>
  {
    if QuotedAssign(line, kw) then [SecretViolation(n, line, rc)] else []
  }

  /** `no_hardcoded_secrets` on one line: one entry per matching pattern. */
  function SecretFor(n: int, line: string, rc: RuleConfig): seq<Violation>
  {
    ConcatMap(SecretKeywords, (kw: string) => SecretPattern(n, line, rc, kw))
  }

  function SecretCheck(lines: seq<string>, rc: RuleConfig): seq<Violation>
  {
    LineWise(lines, (n: int, line: string) => SecretFor(n, line, rc))
  }

  const EvalExplanation := "eval() can execute arbitrary code and is a security risk"

  function EvalViolation(n: int, line: string): Violation
  {
    Violation("no_eval", n, Find(line, "eval("), EvalExplanation, "error", Strip(line))
  }

  /** The JavaScript check on one line: one entry when the line contains `eval(`. */
  function EvalFor(n: int, line: string): seq<Violation>
  {
    if Contains(line, "eval(") then [EvalViolation(n, line)] else []
  }

  function JavaScriptAnalysis(lines: seq<string>): seq<Violation>
  {
    LineWise(lines, EvalFor)
  }

  function GenericViolation(p: GenericPattern, n: int, line: string): Violation
  {
    Violation(GenericName(p), n, 0, "Potential " + ReplaceChar(GenericName(p), '_', ' ') + " detected",
      "warning", Strip(line))
  }

  function GenericFor(n: int, line: string): seq<Violation>
  {
    ConcatMap(GenericPatterns, GenericHits(n, line))
  }

  /** One fallback pattern on one line: a violation when it matches. */
  function GenericPatternFor(n: int, line: string, p: GenericPattern): seq<Violation>
  {
    if GenericMatches(p, line) then [GenericViolation(p, n, line)] else []
  }

  /** The per-pattern fallback check of one line, as a function value. */
  function GenericHits(n: int, line: string): GenericPattern -> seq<Violation>
  {
    (p: GenericPattern) => GenericPatternFor(n, line, p)
  }

  function GenericAnalysis(lines: seq<string>): seq<Violation>
  {
    LineWise(lines, GenericFor)
  }

  // ---------------------------------------------------------------------------
  // Dispatch

  /** What one configuration entry contributes: nothing when disabled or not a known rule. */
  function RuleViolations(name: string, rc: RuleConfig, tree: Node, lines: seq<string>): seq<Violation>
  {
    if !Enabled(rc) then []
    else if name == "no_global_vars" then GlobalCheck(tree, lines, rc)
    else if name == "sanitize_inputs" then InputCheck(tree, lines, rc)
    else if name == "disallow_raw_sql" then RawSqlCheck(lines, rc)
    else if name == "no_hardcoded_secrets" then SecretCheck(lines, rc)
    else if name == "require_error_handling" then ErrorHandlingCheck(tree, lines, rc)
    else if name == "require_type_hints" then TypeHintsCheck(tree, lines, rc)
    else []
  }

  function PythonRules(config: Config, tree: Node, lines: seq<string>): seq<Violation>
  {
    ConcatMap(config, (e: (string, RuleConfig)) => RuleViolations(e.0, e.1, tree, lines))
  }

  /** The single violation a syntax error produces. */
  function SyntaxViolation(lines: seq<string>, lineno: Option<int>, offset: Option<int>, msg: string): Violation
  {
    var l := lineno.GetOr(0);
    var o := offset.GetOr(0);
    Violation("syntax_error", if l == 0 then 1 else l, o, "Syntax error in code: " + msg, "error",
      if l == 0 then "" else SourceLine(lines, l))
  }

  /** The Python analysis: the enabled rules in configuration order, or the syntax error alone. */
  function PythonAnalysis(config: Config, code: string, parse: ParseResult): (r: seq<Violation>)
    ensures parse.SyntaxError? ==> |r| == 1 && r[0].rule == "syntax_error" && r[0].severity == "error"
    ensures parse.SyntaxError? ==> r[0].line == (if parse.lineno.GetOr(0) == 0 then 1 else parse.lineno.value)
    ensures parse.SyntaxError? ==> r[0].column == parse.offset.GetOr(0)
    ensures parse.SyntaxError? ==> r[0].explanation == "Syntax error in code: " + parse.msg
    ensures parse.SyntaxError? ==>
      r[0].snippet == (if parse.lineno.GetOr(0) == 0 then "" else SourceLine(SplitLines(code), parse.lineno.value))
  {
    match parse
    case Parsed(tree) => PythonRules(config, tree, SplitLines(code))
    case SyntaxError(lineno, offset, msg) => [SyntaxViolation(SplitLines(code), lineno, offset, msg)]
  }

  /** `analyze_code`: the analysis chosen by the lower-cased language name. */
  function Analysis(config: Config, code: string, language: string, parse: ParseResult): seq<Violation>
  {
    var lang := Lower(language);
    if lang == "python" then PythonAnalysis(config, code, parse)
    else if lang == "javascript" || lang == "js" then JavaScriptAnalysis(SplitLines(code))
    else if lang == "typescript" || lang == "ts" then JavaScriptAnalysis(SplitLines(code))
    else GenericAnalysis(SplitLines(code))
  }

  // ---------------------------------------------------------------------------
  // Summary

  datatype Summary = Summary(total: nat, bySeverity: Tally.Counts, byRule: Tally.Counts, status: string)

  function Severities(vs: seq<Violation>): (r: seq<string>)
    ensures |r| == |vs| && forall i :: 0 <= i < |vs| ==> r[i] == vs[i].severity
  {
    seq(|vs|, i requires 0 <= i < |vs| => vs[i].severity)
  }

  function Rules(vs: seq<Violation>): (r: seq<string>)
    ensures |r| == |vs| && forall i :: 0 <= i < |vs| ==> r[i] == vs[i].rule
  {
    seq(|vs|, i requires 0 <= i < |vs| => vs[i].rule)
  }

  predicate HasSeverity(vs: seq<Violation>, s: string)
  {
    exists i :: 0 <= i < |vs| && vs[i].severity == s
  }

  function StatusOf(bySeverity: Tally.Counts): string
  {
    if Tally.Get(bySeverity, "error") > 0 then "non_compliant"
    else if Tally.Get(bySeverity, "warning") > 0 then "warnings"
    else "compliant"
  }

  /**
   * `get_violations_summary`: the counts add up to the number of violations,
   * each count is the number of violations with that severity or rule, and
   * the status is decided by the presence of errors, then of warnings.
   */
  function Summarize(vs: seq<Violation>): (r: Summary)
    ensures r.total == |vs| == Tally.Total(r.bySeverity) == Tally.Total(r.byRule)
    ensures forall s :: Tally.Get(r.bySeverity, s) == Tally.Occurrences(Severities(vs), s)
    ensures forall s :: Tally.Get(r.byRule, s) == Tally.Occurrences(Rules(vs), s)
    ensures forall s :: Tally.HasKey(r.bySeverity, s) <==> s in Severities(vs)
    ensures forall s :: Tally.HasKey(r.byRule, s) <==> s in Rules(vs)
    ensures Tally.DistinctKeys(r.bySeverity) && Tally.DistinctKeys(r.byRule)
    ensures vs == [] ==> r.status == "compliant" && r.bySeverity == [] && r.byRule == []
    ensures r.status == "non_compliant" <==> HasSeverity(vs, "error")
    ensures r.status == "warnings" <==> !HasSeverity(vs, "error") && HasSeverity(vs, "warning")
    ensures r.status == "compliant" <==> !HasSeverity(vs, "error") && !HasSeverity(vs, "warning")
  {
    if vs == [] then Summary(0, [], [], "compliant")
    else
      var bySeverity := Tally.TallyOf(Severities(vs));
      var byRule := Tally.TallyOf(Rules(vs));
      Tally.TallyOfCounts(Severities(vs));
      Tally.TallyOfCounts(Rules(vs));
      Tally.OccurrencesPositive(Severities(vs), "error");
      Tally.OccurrencesPositive(Severities(vs), "warning");
      assert HasSeverity(vs, "error") <==> "error" in Severities(vs) by {
        if "error" in Severities(vs) {
          var i :| 0 <= i < |vs| && Severities(vs)[i] == "error";
        }
      }
      assert HasSeverity(vs, "warning") <==> "warning" in Severities(vs) by {
        if "warning" in Severities(vs) {
          var i :| 0 <= i < |vs| && Severities(vs)[i] == "warning";
        }
      }
      Summary(|vs|, bySeverity, byRule, StatusOf(bySeverity))
  }
}
