/**
 * The constraint checker object: it holds the rule configuration and the
 * violations of the last analysis. Each check walks the nodes, or the lines
 * and patterns, and collects its violations in the order it meets them; the
 * object appends them to `violations`. Every loop is proved to produce
 * exactly the list that the functions of ConstraintRules describe.
 */
module ConstraintDebugger {
  import opened Wrappers
  import opened Text
  import opened PyAst
  import opened Patterns
  import opened ConstraintRules
  import Tally

  /** `code.split('\n')[n - 1]` for a line number inside the code, `""` otherwise. */
  method LineContent(lines: seq<string>, n: int) returns (content: string)
    ensures content == SourceLine(lines, n)
    ensures 1 <= n <= |lines| ==> content == lines[n - 1]
  {
    content := if 1 <= n <= |lines| then lines[n - 1] else "";
  }

  /** The global check on one node: a `global` statement. */
  method GlobalHit(node: Node, lines: seq<string>, rc: RuleConfig) returns (hit: seq<Violation>)
    ensures hit == GlobalFor(node, lines, rc)
  {
    hit := [];
    if node.kind.Global? {
      var content := LineContent(lines, node.line);
      hit := [Violation("no_global_vars", node.line, node.col,
        rc.message.GetOr("Global variable declaration found"), rc.severity.GetOr("warning"), Strip(content))];
    }
  }

  /** `_check_global_variables`: the `global` statements in walk order. */
  method CollectGlobalVariables(tree: Node, code: string, rc: RuleConfig) returns (found: seq<Violation>)
    ensures found == GlobalCheck(tree, SplitLines(code), rc)
  {
    var lines := SplitLines(code);
    var nodes := Walk(tree);
    ghost var f := (n: Node) => GlobalFor(n, lines, rc);
    found := [];
    var i := 0;
    while i < |nodes|
      invariant 0 <= i <= |nodes|
      invariant found == ConcatMap(nodes[..i], f)
    {
      var node := nodes[i];
      var hit := GlobalHit(node, lines, rc);
      found := found + hit;
      ConcatMapPrefix(nodes, i, f);
      i := i + 1;
    }
    assert nodes[..i] == nodes;
  }

  /** Whether the line mentions one of the sanitisation names, trying them in order. */
  method MentionsSanitiser(content: string) returns (sanitised: bool)
    ensures sanitised == Sanitised(content)
  {
    sanitised := false;
    var k := 0;
    while k < |SanitisationFunctions|
      invariant 0 <= k <= |SanitisationFunctions|
      invariant sanitised <==> exists j :: 0 <= j < k && Contains(content, SanitisationFunctions[j])
    {
      sanitised := sanitised || Contains(content, SanitisationFunctions[k]);
      k := k + 1;
    }
    if Sanitised(content) {
      var g :| g in SanitisationFunctions && Contains(content, g);
      var j :| 0 <= j < |SanitisationFunctions| && SanitisationFunctions[j] == g;
    }
  }

  /** The input check on one node: a plain-name input call on a line that mentions no sanitiser. */
  method InputHit(node: Node, lines: seq<string>, rc: RuleConfig) returns (hit: seq<Violation>)
    ensures hit == InputFor(node, lines, rc)
  {
    hit := [];
    if node.kind.Call? && node.kind.name.Some? && node.kind.name.value in InputFunctions {
      var content := LineContent(lines, node.line);
      var sanitised := MentionsSanitiser(content);
      if !sanitised {
        hit := [Violation("sanitize_inputs", node.line, node.col,
          rc.message.GetOr("Input not properly sanitized"), rc.severity.GetOr("error"), Strip(content))];
      }
    }
  }

  /** `_check_input_sanitization`: input calls whose line mentions no sanitiser, in walk order. */
  method CollectInputSanitization(tree: Node, code: string, rc: RuleConfig) returns (found: seq<Violation>)
    ensures found == InputCheck(tree, SplitLines(code), rc)
  {
    var lines := SplitLines(code);
    var nodes := Walk(tree);
    ghost var f := (n: Node) => InputFor(n, lines, rc);
    found := [];
    var i := 0;
    while i < |nodes|
      invariant 0 <= i <= |nodes|
      invariant found == ConcatMap(nodes[..i], f)
    {
      var node := nodes[i];
      var hit := InputHit(node, lines, rc);
      found := found + hit;
      ConcatMapPrefix(nodes, i, f);
      i := i + 1;
    }
    assert nodes[..i] == nodes;
  }

  /** One SQL pattern on one line: a violation when it matches and the line has no parameter marker. */
  method SqlPatternHit(n: int, line: string, rc: RuleConfig, p: SqlPattern) returns (hit: seq<Violation>)
    ensures hit == SqlPatternFor(n, line, rc, p)
  {
    hit := [];
    if SqlMatches(p, line) {
      if !Parameterised(line) {
        hit := [Violation("disallow_raw_sql", n, 0,
          rc.message.GetOr("Raw SQL query detected without parameterization"), rc.severity.GetOr("error"), Strip(line))];
      }
    }
  }

  /** The raw-SQL violations of one line, one per matching pattern in pattern order. */
  method SqlLine(n: int, line: string, rc: RuleConfig) returns (found: seq<Violation>)
    ensures found == SqlFor(n, line, rc)
  {
    ghost var f := SqlHits(n, line, rc);
    found := [];
    var j := 0;
    while j < |SqlPatterns|
      invariant 0 <= j <= |SqlPatterns|
      invariant found == ConcatMap(SqlPatterns[..j], f)
    {
      var p := SqlPatterns[j];
      var hit := SqlPatternHit(n, line, rc, p);
      found := found + hit;
      ConcatMapPrefix(SqlPatterns, j, f);
      j := j + 1;
    }
    assert SqlPatterns[..j] == SqlPatterns;
  }

  /** `_check_raw_sql`: lines in order, numbered from 1. */
  method CollectRawSql(code: string, rc: RuleConfig) returns (found: seq<Violation>)
    ensures found == RawSqlCheck(SplitLines(code), rc)
  {
    var lines := SplitLines(code);
    ghost var g := (n: int, line: string) => SqlFor(n, line, rc);
    found := [];
    var i := 0;
    while i < |lines|
      invariant 0 <= i <= |lines|
      invariant found == LineWise(lines[..i], g)
    {
      var hits := SqlLine(i + 1, lines[i], rc);
      found := found + hits;
      LineWisePrefix(lines, i, g);
      i := i + 1;
    }
    assert lines[..i] == lines;
  }

  /** One secret pattern on one line. */
  method SecretPatternHit(n: int, line: string, rc: RuleConfig, kw: string) returns (hit: seq<Violation>)
    ensures hit == SecretPattern(n, line, rc, kw)
  {
    hit := [];
    if QuotedAssign(line, kw) {
      hit := [Violation("no_hardcoded_secrets", n, 0,
        rc.message.GetOr("Hardcoded secret detected"), rc.severity.GetOr("error"), Strip(line))];
    }
  }

  /** The hardcoded-secret violations of one line, one per matching keyword pattern in order. */
  method SecretLine(n: int, line: string, rc: RuleConfig) returns (found: seq<Violation>)
    ensures found == SecretFor(n, line, rc)
  {
    ghost var f := (kw: string) => SecretPattern(n, line, rc, kw);
    found := [];
    var j := 0;
    while j < |SecretKeywords|
      invariant 0 <= j <= |SecretKeywords|
      invariant found == ConcatMap(SecretKeywords[..j], f)
    {
      var kw := SecretKeywords[j];
      var hit := SecretPatternHit(n, line, rc, kw);
      found := found + hit;
      ConcatMapPrefix(SecretKeywords, j, f);
      j := j + 1;
    }
    assert SecretKeywords[..j] == SecretKeywords;
  }

  /** `_check_hardcoded_secrets`: lines in order, numbered from 1. */
  method CollectHardcodedSecrets(code: string, rc: RuleConfig) returns (found: seq<Violation>)
    ensures found == SecretCheck(SplitLines(code), rc)
  {
    var lines := SplitLines(code);
    ghost var g := (n: int, line: string) => SecretFor(n, line, rc);
    found := [];
    var i := 0;
    while i < |lines|
      invariant 0 <= i <= |lines|
      invariant found == LineWise(lines[..i], g)
    {
      var hits := SecretLine(i + 1, lines[i], rc);
      found := found + hits;
      LineWisePrefix(lines, i, g);
      i := i + 1;
    }
    assert lines[..i] == lines;
  }

  /** Whether some node of `nodes` is a `try` statement, stopping at the first one. */
  method HasTry(nodes: seq<Node>) returns (found: bool)
    ensures found == AnyTry(nodes)
  {
    found := false;
    var j := 0;
    while j < |nodes|
      invariant 0 <= j <= |nodes|
      invariant forall k :: 0 <= k < j ==> !IsTry(nodes[k].kind)
    {
      if nodes[j].kind.Try? {
        found := true;
        break;
      }
      j := j + 1;
    }
  }

  /** Whether some node of `nodes` is a call or an attribute access, stopping at the first one. */
  method HasRiskyOperation(nodes: seq<Node>) returns (found: bool)
    ensures found == AnyRisky(nodes)
  {
    found := false;
    var j := 0;
    while j < |nodes|
      invariant 0 <= j <= |nodes|
      invariant forall k :: 0 <= k < j ==> !IsRisky(nodes[k].kind)
    {
      if nodes[j].kind.Call? || nodes[j].kind.Attribute? {
        found := true;
        break;
      }
      j := j + 1;
    }
  }

  /** The error-handling check on one node: a `def` with a body, no `try`, and a call or attribute. */
  method ErrorHandlingHit(node: Node, lines: seq<string>, rc: RuleConfig) returns (hit: seq<Violation>)
    ensures hit == ErrorHandlingFor(node, lines, rc)
  {
    hit := [];
    if node.kind.FunctionDef? {
      var hasTry := HasTry(Walk(node));
      if !hasTry && node.kind.bodyLen > 0 {
        var hasRisky := HasRiskyOperation(Walk(node));
        if hasRisky {
          var content := LineContent(lines, node.line);
          hit := [Violation("require_error_handling", node.line, node.col,
            rc.message.GetOr("Function lacks proper error handling"), rc.severity.GetOr("warning"), Strip(content))];
        }
      }
    }
  }

  /** `_check_error_handling`: function definitions without `try` that call or access attributes, in walk order. */
  method CollectErrorHandling(tree: Node, code: string, rc: RuleConfig) returns (found: seq<Violation>)
    ensures found == ErrorHandlingCheck(tree, SplitLines(code), rc)
  {
    var lines := SplitLines(code);
    var nodes := Walk(tree);
    ghost var f := (n: Node) => ErrorHandlingFor(n, lines, rc);
    found := [];
    var i := 0;
    while i < |nodes|
      invariant 0 <= i <= |nodes|
      invariant found == ConcatMap(nodes[..i], f)
    {
      var node := nodes[i];
      var hit := ErrorHandlingHit(node, lines, rc);
      found := found + hit;
      ConcatMapPrefix(nodes, i, f);
      i := i + 1;
    }
    assert nodes[..i] == nodes;
  }

  /** The return-annotation hint of one definition. */
  method ReturnHintOf(node: Node, lines: seq<string>, rc: RuleConfig, snippet: string) returns (hit: seq<Violation>)
    requires node.kind.FunctionDef? && snippet == Strip(SourceLine(lines, node.line))
    ensures hit == ReturnHint(node, lines, rc)
  {
    hit := [];
    if !node.kind.hasReturns {
      hit := [Violation("require_type_hints", node.line, node.col,
        rc.message.GetOr("Function missing return type hint"), rc.severity.GetOr("info"), snippet)];
    }
  }

  /** The hint for one parameter of a definition. */
  method ParamHintOf(node: Node, lines: seq<string>, rc: RuleConfig, arg: Param, snippet: string) returns (hit: seq<Violation>)
    requires snippet == Strip(SourceLine(lines, node.line))
    ensures hit == ParamHint(node, lines, rc, arg)
  {
    hit := [];
    if !arg.annotated {
      hit := [Violation("require_type_hints", node.line, node.col,
        rc.message.GetOr("Parameter '" + arg.name + "' missing type hint"), rc.severity.GetOr("info"), snippet)];
    }
  }

  /** The type-hint violations of one definition: the return annotation first, then each parameter in order. */
  method TypeHintsOf(node: Node, lines: seq<string>, rc: RuleConfig) returns (found: seq<Violation>)
    requires node.kind.FunctionDef?
    ensures found == TypeHintsFor(node, lines, rc)
  {
    var content := LineContent(lines, node.line);
    var snippet := Strip(content);
    found := ReturnHintOf(node, lines, rc, snippet);
    ghost var first := found;
    var params := node.kind.params;
    ghost var h := ParamHints(node, lines, rc);
    var k := 0;
    while k < |params|
      invariant 0 <= k <= |params|
      invariant found == first + ConcatMap(params[..k], h)
    {
      var hit := ParamHintOf(node, lines, rc, params[k], snippet);
      found := found + hit;
      ConcatMapPrefix(params, k, h);
      k := k + 1;
    }
    assert params[..k] == params;
  }

  /** `_check_type_hints`: every function definition in walk order. */
  method CollectTypeHints(tree: Node, code: string, rc: RuleConfig) returns (found: seq<Violation>)
    ensures found == TypeHintsCheck(tree, SplitLines(code), rc)
  {
    var lines := SplitLines(code);
    var nodes := Walk(tree);
    ghost var f := (n: Node) => TypeHintsFor(n, lines, rc);
    found := [];
    var i := 0;
    while i < |nodes|
      invariant 0 <= i <= |nodes|
      invariant found == ConcatMap(nodes[..i], f)
    {
      var node := nodes[i];
      var hints := [];
      if node.kind.FunctionDef? {
        hints := TypeHintsOf(node, lines, rc);
      }
      assert hints == TypeHintsFor(node, lines, rc);
      found := found + hints;
      ConcatMapPrefix(nodes, i, f);
      i := i + 1;
    }
    assert nodes[..i] == nodes;
  }

  /** The dispatch of `_analyze_python_code` for one configuration entry. */
  method CollectRule(name: string, rc: RuleConfig, tree: Node, code: string) returns (found: seq<Violation>)
    ensures found == RuleViolations(name, rc, tree, SplitLines(code))
  {
    found := [];
    if !Enabled(rc) {
      return;
    }
    if name == "no_global_vars" {
      found := CollectGlobalVariables(tree, code, rc);
    } else if name == "sanitize_inputs" {
      found := CollectInputSanitization(tree, code, rc);
    } else if name == "disallow_raw_sql" {
      found := CollectRawSql(code, rc);
    } else if name == "no_hardcoded_secrets" {
      found := CollectHardcodedSecrets(code, rc);
    } else if name == "require_error_handling" {
      found := CollectErrorHandling(tree, code, rc);
    } else if name == "require_type_hints" {
      found := CollectTypeHints(tree, code, rc);
    }
  }

  /** The configuration entries in order, each through the dispatch. */
  method CollectPythonRules(config: Config, tree: Node, code: string) returns (found: seq<Violation>)
    ensures found == PythonRules(config, tree, SplitLines(code))
  {
    ghost var f := (e: (string, RuleConfig)) => RuleViolations(e.0, e.1, tree, SplitLines(code));
    found := [];
    var i := 0;
    while i < |config|
      invariant 0 <= i <= |config|
      invariant found == ConcatMap(config[..i], f)
    {
      var (name, rc) := config[i];
      var more := CollectRule(name, rc, tree, code);
      found := found + more;
      ConcatMapPrefix(config, i, f);
      i := i + 1;
    }
    assert config[..i] == config;
  }

  /** The JavaScript check on one line: `eval(` at the column of its first occurrence. */
  method EvalHit(n: int, line: string) returns (hit: seq<Violation>)
    ensures hit == EvalFor(n, line)
  {
    hit := [];
    if Contains(line, "eval(") {
      hit := [Violation("no_eval", n, Find(line, "eval("), EvalExplanation, "error", Strip(line))];
    }
  }

  /** `_analyze_javascript_code`: lines containing `eval(`, at the column of the first occurrence. */
  method CollectJavaScript(code: string) returns (found: seq<Violation>)
    ensures found == JavaScriptAnalysis(SplitLines(code))
  {
    var lines := SplitLines(code);
    found := [];
    var i := 0;
    while i < |lines|
      invariant 0 <= i <= |lines|
      invariant found == LineWise(lines[..i], EvalFor)
    {
      var hit := EvalHit(i + 1, lines[i]);
      found := found + hit;
      LineWisePrefix(lines, i, EvalFor);
      i := i + 1;
    }
    assert lines[..i] == lines;
  }

  /** One fallback pattern on one line, reported under the pattern's name. */
  method GenericPatternHit(n: int, line: string, p: GenericPattern) returns (hit: seq<Violation>)
    ensures hit == GenericPatternFor(n, line, p)
  {
    hit := [];
    if GenericMatches(p, line) {
      var name := GenericName(p);
      hit := [Violation(name, n, 0, "Potential " + ReplaceChar(name, '_', ' ') + " detected", "warning", Strip(line))];
    }
  }

  /** The fallback violations of one line, one per matching pattern in dictionary order. */
  method GenericLine(n: int, line: string) returns (found: seq<Violation>)
    ensures found == GenericFor(n, line)
  {
    ghost var f := GenericHits(n, line);
    found := [];
    var j := 0;
    while j < |GenericPatterns|
      invariant 0 <= j <= |GenericPatterns|
      invariant found == ConcatMap(GenericPatterns[..j], f)
    {
      var p := GenericPatterns[j];
      var hit := GenericPatternHit(n, line, p);
      found := found + hit;
      ConcatMapPrefix(GenericPatterns, j, f);
      j := j + 1;
    }
    assert GenericPatterns[..j] == GenericPatterns;
  }

  /** `_analyze_generic_code`: lines in order, numbered from 1. */
  method CollectGeneric(code: string) returns (found: seq<Violation>)
    ensures found == GenericAnalysis(SplitLines(code))
  {
    var lines := SplitLines(code);
    found := [];
    var i := 0;
    while i < |lines|
      invariant 0 <= i <= |lines|
      invariant found == LineWise(lines[..i], GenericFor)
    {
      var hits := GenericLine(i + 1, lines[i]);
      found := found + hits;
      LineWisePrefix(lines, i, GenericFor);
      i := i + 1;
    }
    assert lines[..i] == lines;
  }

  /** The counts and status of `get_violations_summary`, built by one pass of increments. */
  method SummaryOf(vs: seq<Violation>) returns (s: Summary)
    ensures s == Summarize(vs)
  {
    if vs == [] {
      return Summary(0, [], [], "compliant");
    }
    var bySeverity: Tally.Counts := [];
    var byRule: Tally.Counts := [];
    var i := 0;
    while i < |vs|
      invariant 0 <= i <= |vs|
      invariant bySeverity == Tally.TallyOf(Severities(vs[..i]))
      invariant byRule == Tally.TallyOf(Rules(vs[..i]))
    {
      var v := vs[i];
      assert Severities(vs[..i + 1]) == Severities(vs[..i]) + [v.severity];
      assert Rules(vs[..i + 1]) == Rules(vs[..i]) + [v.rule];
      bySeverity := Tally.Increment(bySeverity, v.severity);
      byRule := Tally.Increment(byRule, v.rule);
      i := i + 1;
    }
    assert vs[..i] == vs;
    var status;
    if Tally.Get(bySeverity, "error") > 0 {
      status := "non_compliant";
    } else if Tally.Get(bySeverity, "warning") > 0 {
      status := "warnings";
    } else {
      status := "compliant";
    }
    s := Summary(|vs|, bySeverity, byRule, status);
  }

  class ConstraintDebugger {
    /** The `constraints` section of the loaded configuration. */
    const constraints: Config
    /** The violations found by the last call of `AnalyzeCode`. */
    var violations: seq<Violation>

    constructor(constraints: Config)
      ensures this.constraints == constraints && violations == []
    {
      this.constraints := constraints;
      violations := [];
    }

    /** Clears the list, runs the analysis for the language and returns the list. */
    method AnalyzeCode(code: string, language: string, parse: ParseResult) returns (result: seq<Violation>)
      modifies this
      ensures result == violations == Analysis(constraints, code, language, parse)
    {
      violations := [];
      var lang := Lower(language);
      if lang == "python" {
        AnalyzePython(code, parse);
      } else if lang == "javascript" || lang == "js" {
        AnalyzeJavaScript(code);
      } else if lang == "typescript" || lang == "ts" {
        AnalyzeTypeScript(code);
      } else {
        AnalyzeGeneric(code, language);
      }
      result := violations;
    }

    /** Appends the enabled rules' violations in configuration order, or the syntax error alone. */
    method AnalyzePython(code: string, parse: ParseResult)
      modifies this
      ensures violations == old(violations) + PythonAnalysis(constraints, code, parse)
    {
      match parse {
        case SyntaxError(lineno, offset, msg) =>
          var lines := SplitLines(code);
          var l := lineno.GetOr(0);
          var snippet := "";
          if l != 0 {
            snippet := LineContent(lines, l);
          }
          violations := violations + [Violation("syntax_error", if l == 0 then 1 else l, offset.GetOr(0),
            "Syntax error in code: " + msg, "error", snippet)];
        case Parsed(tree) =>
          var found := CollectPythonRules(constraints, tree, code);
          violations := violations + found;
      }
    }

    method AnalyzeJavaScript(code: string)
      modifies this
      ensures violations == old(violations) + JavaScriptAnalysis(SplitLines(code))
    {
      var found := CollectJavaScript(code);
      violations := violations + found;
    }

    /** TypeScript is checked by the JavaScript analysis. */
    method AnalyzeTypeScript(code: string)
      modifies this
      ensures violations == old(violations) + JavaScriptAnalysis(SplitLines(code))
    {
      AnalyzeJavaScript(code);
    }

    /** The fallback patterns for any other language; the language name itself is not used. */
    method AnalyzeGeneric(code: string, language: string)
      modifies this
      ensures violations == old(violations) + GenericAnalysis(SplitLines(code))
    {
      var found := CollectGeneric(code);
      violations := violations + found;
    }

    /** Counts the current violations by severity and by rule, in first-seen order, and derives the status. */
    method GetViolationsSummary() returns (s: Summary)
      ensures s == Summarize(violations)
    {
      s := SummaryOf(violations);
    }
  }
}
