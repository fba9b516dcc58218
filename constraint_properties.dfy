/**
 * Properties of the constraint checker's reports: which nodes and lines give
 * a violation, how many, at which position, with which rule and severity;
 * rule order and the configuration switches.
 */
module ConstraintProperties {
  import opened Wrappers
  import opened Text
  import opened PyAst
  import opened Patterns
  import opened ConstraintRules

  /** The number of elements of `xs` that satisfy `p`. */
  function CountIf<T>(xs: seq<T>, p: T -> bool): nat
  {
    if xs == [] then 0 else CountIf(xs[..|xs| - 1], p) + (if p(xs[|xs| - 1]) then 1 else 0)
  }

  lemma {:induction false} CountIfNone<T>(xs: seq<T>, p: T -> bool)
    requires forall i :: 0 <= i < |xs| ==> !p(xs[i])
    ensures CountIf(xs, p) == 0
  {
    if xs != [] {
      CountIfNone(xs[..|xs| - 1], p);
    }
  }

  lemma {:induction false} CountIfSnoc<T>(xs: seq<T>, x: T, p: T -> bool)
    ensures CountIf(xs + [x], p) == CountIf(xs, p) + (if p(x) then 1 else 0)
  {
    assert (xs + [x])[..|xs|] == xs;
  }

  /** When each item yields one violation if `p` holds of it and none otherwise, the concatenation has one per such item. */
  lemma {:induction false} ConcatMapCount<T>(xs: seq<T>, f: T -> seq<Violation>, p: T -> bool)
    requires forall i :: 0 <= i < |xs| ==> |f(xs[i])| == if p(xs[i]) then 1 else 0
    ensures |ConcatMap(xs, f)| == CountIf(xs, p)
  {
    if xs != [] {
      ConcatMapCount(xs[..|xs| - 1], f, p);
    }
  }

  /** The same for one violation per line that satisfies `p`. */
  lemma {:induction false} LineWiseCount(lines: seq<string>, f: (int, string) -> seq<Violation>, p: string -> bool)
    requires forall i :: 0 <= i < |lines| ==> |f(i + 1, lines[i])| == if p(lines[i]) then 1 else 0
    ensures |LineWise(lines, f)| == CountIf(lines, p)
  {
    if lines != [] {
      LineWiseCount(lines[..|lines| - 1], f, p);
    }
  }

  // ---------------------------------------------------------------------------
  // Dispatch

  /** Configuration entries are applied one after the other, in configuration order. */
  lemma {:induction false} PythonRulesAppend(c1: Config, c2: Config, tree: Node, lines: seq<string>)
    ensures PythonRules(c1 + c2, tree, lines) == PythonRules(c1, tree, lines) + PythonRules(c2, tree, lines)
  {
    ConcatMapAppend(c1, c2, (e: (string, RuleConfig)) => RuleViolations(e.0, e.1, tree, lines));
  }

  /** An entry that is disabled (or has no `enabled` key), or names no known rule, adds nothing. */
  lemma RuleSwitch(name: string, rc: RuleConfig, tree: Node, lines: seq<string>)
    requires !Enabled(rc) || name !in PythonRuleNames
    ensures RuleViolations(name, rc, tree, lines) == []
  {
  }

  /** A violation of the Python analysis comes from an enabled entry of a known rule, and every violation of such an entry is reported. */
  lemma PythonRulesMember(config: Config, tree: Node, lines: seq<string>, v: Violation)
    ensures v in PythonRules(config, tree, lines) <==>
      exists i :: 0 <= i < |config| && Enabled(config[i].1) && config[i].0 in PythonRuleNames &&
        v in RuleViolations(config[i].0, config[i].1, tree, lines)
  {
    ConcatMapMember(config, (e: (string, RuleConfig)) => RuleViolations(e.0, e.1, tree, lines), v);
  }

  /** A two-entry configuration runs its first entry's rule, then its second's. */
  lemma PythonRulesPair(a: (string, RuleConfig), b: (string, RuleConfig), tree: Node, lines: seq<string>)
    ensures PythonRules([a, b], tree, lines) ==
      RuleViolations(a.0, a.1, tree, lines) + RuleViolations(b.0, b.1, tree, lines)
  {
    var f := (e: (string, RuleConfig)) => RuleViolations(e.0, e.1, tree, lines);
    assert [a, b][..1] == [a];
    assert [a][..0] == [];
    assert ConcatMap([a], f) == f(a);
  }

  /** The default configuration runs the global check, then the input check, with its own messages and severities. */
  lemma DefaultConfigChecks(tree: Node, lines: seq<string>)
    ensures PythonRules(DefaultConfig, tree, lines) ==
      GlobalCheck(tree, lines, DefaultConfig[0].1) + InputCheck(tree, lines, DefaultConfig[1].1)
  {
    PythonRulesPair(DefaultConfig[0], DefaultConfig[1], tree, lines);
    assert DefaultConfig == [DefaultConfig[0], DefaultConfig[1]];
  }

  /** Unparseable Python gives the syntax error alone, whatever the configuration. */
  lemma SyntaxErrorShortCircuit(c1: Config, c2: Config, code: string, parse: ParseResult)
    requires parse.SyntaxError?
    ensures PythonAnalysis(c1, code, parse) == PythonAnalysis(c2, code, parse)
    ensures |PythonAnalysis(c1, code, parse)| == 1
  {
  }

  /** TypeScript is analysed exactly like JavaScript, whatever the case of the language name. */
  lemma TypeScriptIsJavaScript(config: Config, code: string, ts: string, js: string, parse: ParseResult)
    requires Lower(ts) == "typescript" || Lower(ts) == "ts"
    requires Lower(js) == "javascript" || Lower(js) == "js"
    ensures Analysis(config, code, ts, parse) == Analysis(config, code, js, parse) == JavaScriptAnalysis(SplitLines(code))
  {
    assert "typescript"[0] != "javascript"[0];
  }

  // ---------------------------------------------------------------------------
  // Tree-based checks

  /** A concatenation over the walk collects what `f` yields for each node of the tree. */
  lemma WalkConcatMember(tree: Node, f: Node -> seq<Violation>, v: Violation)
    ensures v in ConcatMap(Walk(tree), f) <==> exists m :: InTree(m, tree) && v in f(m)
  {
    var w := Walk(tree);
    ConcatMapMember(w, f, v);
    if v in ConcatMap(w, f) {
      var i :| 0 <= i < |w| && v in f(w[i]);
      WalkMembers(tree, w[i]);
    }
    if exists m :: InTree(m, tree) && v in f(m) {
      var m :| InTree(m, tree) && v in f(m);
      WalkMembers(tree, m);
      var i :| 0 <= i < |w| && w[i] == m;
    }
  }

  /** The global check reports exactly the `global` statements of the tree, at their own line and column. */
  lemma GlobalCheckMember(tree: Node, lines: seq<string>, rc: RuleConfig, v: Violation)
    ensures v in GlobalCheck(tree, lines, rc) <==>
      exists m :: InTree(m, tree) && m.kind.Global? && v == GlobalViolation(m, lines, rc)
  {
    WalkConcatMember(tree, (n: Node) => GlobalFor(n, lines, rc), v);
  }

  /** The input check reports exactly the input calls whose line mentions no sanitiser. */
  lemma InputCheckMember(tree: Node, lines: seq<string>, rc: RuleConfig, v: Violation)
    ensures v in InputCheck(tree, lines, rc) <==>
      exists m :: InTree(m, tree) && IsInputCall(m) && !Sanitised(SourceLine(lines, m.line)) &&
        v == InputViolation(m, lines, rc)
  {
    WalkConcatMember(tree, (n: Node) => InputFor(n, lines, rc), v);
  }

  /** A `try` statement lies somewhere inside `m` (or is `m`). */
  ghost predicate ContainsTry(m: Node)
  {
    exists t :: InTree(t, m) && IsTry(t.kind)
  }

  /** A call or attribute access lies somewhere inside `m`. */
  ghost predicate ContainsRisky(m: Node)
  {
    exists t :: InTree(t, m) && IsRisky(t.kind)
  }

  lemma AnyTryIff(m: Node)
    ensures AnyTry(Walk(m)) <==> ContainsTry(m)
  {
    var w := Walk(m);
    if AnyTry(w) {
      var i :| 0 <= i < |w| && IsTry(w[i].kind);
      WalkMembers(m, w[i]);
    }
    if ContainsTry(m) {
      var t :| InTree(t, m) && IsTry(t.kind);
      WalkMembers(m, t);
      var i :| 0 <= i < |w| && w[i] == t;
    }
  }

  lemma AnyRiskyIff(m: Node)
    ensures AnyRisky(Walk(m)) <==> ContainsRisky(m)
  {
    var w := Walk(m);
    if AnyRisky(w) {
      var i :| 0 <= i < |w| && IsRisky(w[i].kind);
      WalkMembers(m, w[i]);
    }
    if ContainsRisky(m) {
      var t :| InTree(t, m) && IsRisky(t.kind);
      WalkMembers(m, t);
      var i :| 0 <= i < |w| && w[i] == t;
    }
  }

  /** A function definition breaks the error-handling rule when its body is non-empty, holds no `try` and holds a call or attribute. */
  ghost predicate LacksErrorHandling(m: Node)
  {
    m.kind.FunctionDef? && m.kind.bodyLen > 0 && !ContainsTry(m) && ContainsRisky(m)
  }

  /** A definition gets exactly one violation, at its own line and column, when it lacks error handling, and none otherwise. */
  lemma ErrorHandlingForIff(m: Node, lines: seq<string>, rc: RuleConfig)
    ensures LacksErrorHandling(m) ==> ErrorHandlingFor(m, lines, rc) == [ErrorHandlingViolation(m, lines, rc)]
    ensures !LacksErrorHandling(m) ==> ErrorHandlingFor(m, lines, rc) == []
    ensures ErrorHandlingViolation(m, lines, rc).line == m.line && ErrorHandlingViolation(m, lines, rc).column == m.col
  {
    AnyTryIff(m);
    AnyRiskyIff(m);
  }

  lemma ErrorHandlingForMember(m: Node, lines: seq<string>, rc: RuleConfig, v: Violation)
    ensures v in ErrorHandlingFor(m, lines, rc) <==> LacksErrorHandling(m) && v == ErrorHandlingViolation(m, lines, rc)
  {
    ErrorHandlingForIff(m, lines, rc);
  }

  /** The error-handling check reports exactly the definitions of the tree that lack error handling. */
  lemma ErrorHandlingCheckMember(tree: Node, lines: seq<string>, rc: RuleConfig, v: Violation)
    ensures v in ErrorHandlingCheck(tree, lines, rc) <==>
      exists m :: InTree(m, tree) && LacksErrorHandling(m) && v == ErrorHandlingViolation(m, lines, rc)
  {
    var f := (n: Node) => ErrorHandlingFor(n, lines, rc);
    WalkConcatMember(tree, f, v);
    forall m ensures v in f(m) <==> LacksErrorHandling(m) && v == ErrorHandlingViolation(m, lines, rc) {
      ErrorHandlingForMember(m, lines, rc, v);
    }
  }

  predicate Unannotated(p: Param)
  {
    !p.annotated
  }

  /**
   * A definition gets one type-hint violation for a missing return
   * annotation plus one per unannotated positional parameter, all at the
   * definition's line and column; anything else gets none.
   */
  lemma TypeHintsForCount(n: Node, lines: seq<string>, rc: RuleConfig)
    ensures |TypeHintsFor(n, lines, rc)| ==
      if n.kind.FunctionDef? then (if n.kind.hasReturns then 0 else 1) + CountIf(n.kind.params, Unannotated) else 0
    ensures forall v :: v in TypeHintsFor(n, lines, rc) ==>
      v.rule == "require_type_hints" && v.line == n.line && v.column == n.col && v.severity == rc.severity.GetOr("info")
  {
    if n.kind.FunctionDef? {
      var f := ParamHints(n, lines, rc);
      ConcatMapCount(n.kind.params, f, Unannotated);
      forall v | v in ConcatMap(n.kind.params, f)
        ensures v.rule == "require_type_hints" && v.line == n.line && v.column == n.col && v.severity == rc.severity.GetOr("info")
      {
        ConcatMapMember(n.kind.params, f, v);
      }
    }
  }

  // ---------------------------------------------------------------------------
  // Line-based checks

  predicate SqlHit(line: string, p: SqlPattern)
  {
    SqlMatches(p, line)
  }

  /**
   * A line gets one raw-SQL violation per matching pattern, all at column 0
   * of that line, unless it carries a parameter marker, in which case it
   * gets none.
   */
  lemma SqlForCount(n: int, line: string, rc: RuleConfig)
    ensures |SqlFor(n, line, rc)| == if Parameterised(line) then 0 else CountIf(SqlPatterns, (p: SqlPattern) => SqlHit(line, p))
    ensures forall v :: v in SqlFor(n, line, rc) ==> v == SqlViolation(n, line, rc)
    ensures SqlViolation(n, line, rc).line == n && SqlViolation(n, line, rc).column == 0
  {
    var f := SqlHits(n, line, rc);
    if Parameterised(line) {
      ConcatMapCount(SqlPatterns, f, (p: SqlPattern) => false);
      CountIfNone(SqlPatterns, (p: SqlPattern) => false);
    } else {
      ConcatMapCount(SqlPatterns, f, (p: SqlPattern) => SqlHit(line, p));
    }
    forall v | v in SqlFor(n, line, rc) ensures v == SqlViolation(n, line, rc) {
      ConcatMapMember(SqlPatterns, f, v);
    }
  }

  /** A line the raw-SQL rule reports: some pattern matches and no parameter marker occurs. */
  predicate RawSqlLine(line: string)
  {
    !Parameterised(line) && exists p :: p in SqlPatterns && SqlMatches(p, line)
  }

  lemma SqlForMember(n: int, line: string, rc: RuleConfig, v: Violation)
    ensures v in SqlFor(n, line, rc) <==> RawSqlLine(line) && v == SqlViolation(n, line, rc)
  {
    var f := SqlHits(n, line, rc);
    ConcatMapMember(SqlPatterns, f, v);
    if RawSqlLine(line) && v == SqlViolation(n, line, rc) {
      var p :| p in SqlPatterns && SqlMatches(p, line);
      var k :| 0 <= k < |SqlPatterns| && SqlPatterns[k] == p;
      assert v in f(SqlPatterns[k]);
    }
  }

  /** The raw-SQL check reports line `i + 1` exactly when line `i` matches a pattern and has no parameter marker. */
  lemma RawSqlCheckMember(lines: seq<string>, rc: RuleConfig, v: Violation)
    ensures v in RawSqlCheck(lines, rc) <==>
      exists i :: 0 <= i < |lines| && RawSqlLine(lines[i]) && v == SqlViolation(i + 1, lines[i], rc)
  {
    var g := (n: int, line: string) => SqlFor(n, line, rc);
    LineWiseMember(lines, g, v);
    forall i | 0 <= i < |lines|
      ensures v in g(i + 1, lines[i]) <==> RawSqlLine(lines[i]) && v == SqlViolation(i + 1, lines[i], rc)
    {
      SqlForMember(i + 1, lines[i], rc, v);
    }
  }

  predicate SecretHit(line: string, kw: string)
  {
    QuotedAssign(line, kw)
  }

  /** A line gets one hardcoded-secret violation per matching keyword pattern, all at column 0 of that line. */
  lemma SecretForCount(n: int, line: string, rc: RuleConfig)
    ensures |SecretFor(n, line, rc)| == CountIf(SecretKeywords, (kw: string) => SecretHit(line, kw))
    ensures forall v :: v in SecretFor(n, line, rc) ==> v == SecretViolation(n, line, rc)
    ensures SecretViolation(n, line, rc).line == n && SecretViolation(n, line, rc).column == 0
  {
    var f := (kw: string) => SecretPattern(n, line, rc, kw);
    ConcatMapCount(SecretKeywords, f, (kw: string) => SecretHit(line, kw));
    forall v | v in SecretFor(n, line, rc) ensures v == SecretViolation(n, line, rc) {
      ConcatMapMember(SecretKeywords, f, v);
    }
  }

  /** A lower-case keyword written out literally at `i` is found there. */
  lemma KeywordLiteral(s: string, kw: string, i: int)
    requires 0 <= i && i + |kw| <= |s| && s[i..i + |kw|] == kw
    requires forall t :: 0 <= t < |kw| ==> !('A' <= kw[t] <= 'Z')
    ensures KeywordAt(s, kw, i)
  {
    forall t | 0 <= t < |kw| ensures CharMatches(s[i + t], kw[t]) {
      assert s[i + t] == s[i..i + |kw|][t];
    }
  }

  /** A keyword one of whose letters matches no character of `s` occurs nowhere in `s`. */
  lemma KeywordAbsent(s: string, kw: string, t: nat, i: int)
    requires t < |kw| && forall c :: c in s ==> !CharMatches(c, kw[t])
    ensures !KeywordAt(s, kw, i)
  {
    if 0 <= i && i + |kw| <= |s| {
      assert s[i + t] in s;
      assert !CharMatches(s[i + t], kw[t]);
    }
  }

  lemma KeywordAbsentEverywhere(s: string, kw: string, t: nat)
    requires t < |kw| && forall c :: c in s ==> !CharMatches(c, kw[t])
    ensures !QuotedAssign(s, kw)
  {
    forall i ensures !KeywordAt(s, kw, i) {
      KeywordAbsent(s, kw, t, i);
    }
  }

  const ApiKeyLine := "api_key = \"x\""

  lemma ApiKeyMatches()
    ensures QuotedAssign(ApiKeyLine, "api_key") && QuotedAssign(ApiKeyLine, "key")
    ensures !QuotedAssign(ApiKeyLine, "password") && !QuotedAssign(ApiKeyLine, "secret") && !QuotedAssign(ApiKeyLine, "token")
  {
    ApiKeyAssignments();
    ApiKeyOthersAbsent();
  }

  /** The sample line assigns to none of `password`, `secret` and `token`. */
  lemma ApiKeyOthersAbsent()
    ensures !QuotedAssign(ApiKeyLine, "password") && !QuotedAssign(ApiKeyLine, "secret") && !QuotedAssign(ApiKeyLine, "token")
  {
    ApiKeyLacks("password", 4);
    ApiKeyLacks("secret", 0);
    ApiKeyLacks("token", 0);
  }

  /** A keyword with a letter the sample line does not contain, in either case, is not assigned there. */
  lemma ApiKeyLacks(kw: string, t: nat)
    requires t < |kw| && kw[t] in "stw"
    ensures !QuotedAssign(ApiKeyLine, kw)
  {
    forall c | c in ApiKeyLine ensures !CharMatches(c, kw[t]) {
    }
    KeywordAbsentEverywhere(ApiKeyLine, kw, t);
  }

  /** The sample line assigns a quoted value to `api_key`, and so to its suffix `key`. */
  lemma ApiKeyAssignments()
    ensures QuotedAssign(ApiKeyLine, "api_key") && QuotedAssign(ApiKeyLine, "key")
  {
    var s := ApiKeyLine;
    assert s[0..7] == "api_key";
    assert s[4..7] == "key";
    KeywordLiteral(s, "api_key", 0);
    KeywordLiteral(s, "key", 4);
    assert s[7] == ' ' && s[8] == '=' && s[9] == ' ' && s[10] == '"' && s[11] == 'x' && s[12] == '"';
    assert SpacesIn(s, 7, 8) && SpacesIn(s, 9, 10) && NoQuoteIn(s, 11, 12);
    assert QuotedAssignAt(s, "api_key", 0, 8, 10);
    assert QuotedAssignAt(s, "key", 4, 8, 10);
  }

  /** Of five items, exactly the second and the fifth satisfy `p`. */
  lemma CountSecondAndFifth<T>(xs: seq<T>, p: T -> bool)
    requires |xs| == 5 && !p(xs[0]) && p(xs[1]) && !p(xs[2]) && !p(xs[3]) && p(xs[4])
    ensures CountIf(xs, p) == 2
  {
    var a, b, c, d := xs[..4], xs[..3], xs[..2], xs[..1];
    assert a[..3] == b && b[..2] == c && c[..1] == d && d[..0] == [];
    assert a[3] == xs[3] && b[2] == xs[2] && c[1] == xs[1] && d[0] == xs[0];
    assert CountIf(d, p) == 0;
    assert CountIf(c, p) == 1;
    assert CountIf(b, p) == 1;
    assert CountIf(a, p) == 1;
  }

  /** A line matching exactly the `api_key` and `key` patterns is reported twice. */
  lemma TwoSecretMatches(n: int, line: string, rc: RuleConfig)
    requires QuotedAssign(line, "api_key") && QuotedAssign(line, "key")
    requires !QuotedAssign(line, "password") && !QuotedAssign(line, "secret") && !QuotedAssign(line, "token")
    ensures |SecretFor(n, line, rc)| == 2
  {
    SecretForCount(n, line, rc);
    CountSecondAndFifth(SecretKeywords, (kw: string) => SecretHit(line, kw));
  }

  /** `api_key = "x"` matches both the `api_key` and the `key` pattern, so the line is reported twice. */
  lemma ApiKeyReportedTwice(n: int, rc: RuleConfig)
    ensures |SecretFor(n, ApiKeyLine, rc)| == 2
  {
    ApiKeyMatches();
    TwoSecretMatches(n, ApiKeyLine, rc);
  }

  /** A matching assignment has a non-empty literal: the opening quote is followed by a character that is not a quote. */
  lemma MatchedLiteralNonEmpty(s: string, kw: string, i: int, a: int, b: int)
    requires QuotedAssignAt(s, kw, i, a, b)
    ensures b + 1 < |s| && !IsQuote(s[b + 1])
  {
  }

  /** A line matching no secret pattern is not reported. */
  lemma NoSecretMatches(n: int, line: string, rc: RuleConfig)
    requires forall kw :: kw in SecretKeywords ==> !QuotedAssign(line, kw)
    ensures SecretFor(n, line, rc) == []
  {
    var f := (kw: string) => SecretPattern(n, line, rc, kw);
    ConcatMapCount(SecretKeywords, f, (kw: string) => false);
    CountIfNone(SecretKeywords, (kw: string) => false);
  }

  const EmptyPasswordLine := "password = \"\""

  /** In `password = ""` the only quotes are the last two characters, so no pattern finds a non-empty literal. */
  lemma EmptyPasswordMatchesNothing(kw: string)
    ensures !QuotedAssign(EmptyPasswordLine, kw)
  {
    var s := EmptyPasswordLine;
    assert s[..11] == "password = ";
  }

  /** The empty literal `""` matches no secret pattern. */
  lemma EmptyLiteralNotReported(n: int, rc: RuleConfig)
    ensures SecretFor(n, EmptyPasswordLine, rc) == []
  {
    forall kw | kw in SecretKeywords ensures !QuotedAssign(EmptyPasswordLine, kw) {
      EmptyPasswordMatchesNothing(kw);
    }
    NoSecretMatches(n, EmptyPasswordLine, rc);
  }

  predicate HasEval(line: string)
  {
    Contains(line, "eval(")
  }

  /** JavaScript: one `no_eval` error per line containing `eval(`, at the column of its first occurrence. */
  lemma JavaScriptAnalysisMember(lines: seq<string>, v: Violation)
    ensures |JavaScriptAnalysis(lines)| == CountIf(lines, HasEval)
    ensures v in JavaScriptAnalysis(lines) <==>
      exists i :: 0 <= i < |lines| && HasEval(lines[i]) && v == EvalViolation(i + 1, lines[i])
    ensures forall i :: 0 <= i < |lines| && HasEval(lines[i]) ==>
      var c := EvalViolation(i + 1, lines[i]).column;
      0 <= c && OccursAt(lines[i], "eval(", c) && forall k :: 0 <= k < c ==> !OccursAt(lines[i], "eval(", k)
  {
    LineWiseCount(lines, EvalFor, HasEval);
    LineWiseMember(lines, EvalFor, v);
  }

  /** The fallback analysis reports a line once per fallback pattern it matches, under that pattern's name, as a warning. */
  lemma GenericAnalysisMember(lines: seq<string>, v: Violation)
    ensures v in GenericAnalysis(lines) <==>
      exists i, p :: 0 <= i < |lines| && GenericMatches(p, lines[i]) && v == GenericViolation(p, i + 1, lines[i])
  {
    LineWiseMember(lines, GenericFor, v);
    if v in GenericAnalysis(lines) {
      var i :| 0 <= i < |lines| && v in GenericFor(i + 1, lines[i]);
      GenericForMember(i + 1, lines[i], v);
      var p :| GenericMatches(p, lines[i]) && v == GenericViolation(p, i + 1, lines[i]);
    }
    if exists i, p :: 0 <= i < |lines| && GenericMatches(p, lines[i]) && v == GenericViolation(p, i + 1, lines[i]) {
      var i, p :| 0 <= i < |lines| && GenericMatches(p, lines[i]) && v == GenericViolation(p, i + 1, lines[i]);
      GenericForMember(i + 1, lines[i], v);
    }
  }

  /** One line is reported once per fallback pattern it matches. */
  lemma GenericForMember(n: int, line: string, v: Violation)
    ensures v in GenericFor(n, line) <==> exists p :: GenericMatches(p, line) && v == GenericViolation(p, n, line)
  {
    var f := GenericHits(n, line);
    ConcatMapMember(GenericPatterns, f, v);
    if exists p :: GenericMatches(p, line) && v == GenericViolation(p, n, line) {
      var p :| GenericMatches(p, line) && v == GenericViolation(p, n, line);
      var k := match p case HardcodedSecrets => 0 case RawSql => 1 case EvalUsage => 2;
      assert GenericPatterns[k] == p;
      assert v in f(GenericPatterns[k]);
    }
  }

  lemma SecretCheckNamed(lines: seq<string>, rc: RuleConfig, v: Violation)
    requires v in SecretCheck(lines, rc)
    ensures v.rule == "no_hardcoded_secrets" && v.column == 0
  {
    LineWiseMember(lines, (n: int, line: string) => SecretFor(n, line, rc), v);
    var i :| 0 <= i < |lines| && v in SecretFor(i + 1, lines[i], rc);
    SecretForCount(i + 1, lines[i], rc);
  }

  lemma TypeHintsCheckNamed(tree: Node, lines: seq<string>, rc: RuleConfig, v: Violation)
    requires v in TypeHintsCheck(tree, lines, rc)
    ensures v.rule == "require_type_hints"
  {
    var f := (n: Node) => TypeHintsFor(n, lines, rc);
    ConcatMapMember(Walk(tree), f, v);
    var i :| 0 <= i < |Walk(tree)| && v in f(Walk(tree)[i]);
    TypeHintsForCount(Walk(tree)[i], lines, rc);
  }

  /** Every violation an entry contributes carries that entry's rule name. */
  lemma RuleViolationsNamed(name: string, rc: RuleConfig, tree: Node, lines: seq<string>, v: Violation)
    requires v in RuleViolations(name, rc, tree, lines)
    ensures v.rule == name
  {
    if name == "no_global_vars" {
      GlobalCheckMember(tree, lines, rc, v);
    } else if name == "sanitize_inputs" {
      InputCheckMember(tree, lines, rc, v);
    } else if name == "disallow_raw_sql" {
      RawSqlCheckMember(lines, rc, v);
    } else if name == "no_hardcoded_secrets" {
      SecretCheckNamed(lines, rc, v);
    } else if name == "require_error_handling" {
      ErrorHandlingCheckMember(tree, lines, rc, v);
    } else {
      TypeHintsCheckNamed(tree, lines, rc, v);
    }
  }
}
