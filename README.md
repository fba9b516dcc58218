# HILDE: constraint checker and decision logic, modelled in Dafny

HILDE is a code-completion assistant. It produces a completion and,
for every generated token, the model's top-k alternatives. It scores
how uncertain each position is (entropy) and highlights the uncertain
positions. It asks a language model to explain what choosing an
alternative would change. It regenerates the rest of the code after the
user picks an alternative. Around that sit a security-issue summary, an
analytics service with recommendation rules, and a constraint checker
that reports rule violations in generated code.

This project models the following parts and proves properties about them:

- **The constraint checker** (`ConstraintDebugger`). It keeps a list of
  violations. The list is cleared and refilled on every analysis, then
  summarised.
  - Python code is parsed and checked against the enabled rules of a
    configuration, in configuration order. The tree-based rules are
    `global` statements, unsanitised `input` calls, functions without
    `try` and missing type hints. The line-based rules are raw SQL and
    hardcoded secrets.
  - A syntax error replaces all rule checks with a single violation.
  - JavaScript and TypeScript are checked for `eval(`. Other languages
    get a generic keyword scan.
- **Entropy weighting and highlight selection** in the gateway and in
  the lightweight completion engine.
- **The deterministic stub generator** of alternatives in the
  completion service.
- **The merge of model-written analyses into alternative groups**, and
  the brace-delimited JSON extraction with its fallbacks, in both
  analysis engines.
- **The security summary** and the language-to-extension table.
- **Suffix regeneration**: candidate extraction, similarity scoring,
  best-candidate selection and counting syntax-tree nodes.
- **The analytics figures** (selection rate, average decision time,
  entropy buckets, total vulnerabilities) and the recommendation rules.

Parsing and walking Python syntax trees, regular expressions, JSON
decoding, language-model calls, string similarity and logarithms are
not modelled. Each is a parameter of the model:

- A parse result (`PyAst.ParseResult`) is a tree of nodes or a syntax
  error. `ast.walk` is modelled by its breadth-first order
  (`PyAst.Walk`), and a lemma proves that this order visits exactly the
  nodes of the tree. The order matters: the checker lists violations in
  walk order.
- The regular expressions are written out by hand as case-insensitive
  matchers (module `Patterns`).
- A JSON decoder is a function from text to a decoded value. In the
  analysis service it is `None` where `json.loads` raises. In the
  lightweight engine it is `NotJson` where `json.loads` raises,
  `Malformed` for an object whose `alternatives` entry makes `len` or the
  index raise (a number, null, a boolean, a non-empty object), and a reply
  otherwise.
- A language-model reply, a completion engine and a string-similarity
  ratio are functions. Each returns `None` where the call would raise.
- Floating-point values are `real`s.

Where the informal description of the checker and the code disagree,
the model follows the code:

- Only `global` statements count as global variables
  (hilde/analysis/constraint_debugger.py:128). A module-level
  assignment is not reported.
- The default configuration has two rules, `no_global_vars` and
  `sanitize_inputs` (hilde/analysis/constraint_debugger.py:46-61).
- There is no function-length rule in the dispatch
  (hilde/analysis/constraint_debugger.py:101-112).
- "Sanitised" means that one of the words `strip`, `escape`,
  `sanitize`, `validate` or `clean` occurs as a substring of the same
  line (hilde/analysis/constraint_debugger.py:155).
- The input check compares only plain-name callees with the list of
  input functions (hilde/analysis/constraint_debugger.py:149). So the
  dotted entries `sys.stdin.read` and `sys.stdin.readline` never match.
  The model keeps this: `Call(name)` carries a name only for a
  plain-name callee.
- `10 / 0` contains no call and no attribute access, so a function
  whose only risky-looking operation is a division is not reported
  (hilde/analysis/constraint_debugger.py:230).

## Model

| member | source | states |
|---|---|---|
| ConstraintDebugger.ConstraintDebugger.constructor | hilde/analysis/constraint_debugger.py:25-28 | A new checker holds the given configuration and no violations. |
| ConstraintDebugger.ConstraintDebugger.AnalyzeCode | hilde/analysis/constraint_debugger.py:66-89 | The list is reset first. Afterwards the returned list and the stored list both equal the analysis of this code alone, selected by the lower-cased language name, and nothing from earlier calls survives. |
| ConstraintDebugger.ConstraintDebugger.AnalyzePython | hilde/analysis/constraint_debugger.py:91-123 | Appends exactly the Python analysis of the code to the stored violations. |
| ConstraintDebugger.ConstraintDebugger.AnalyzeJavaScript | hilde/analysis/constraint_debugger.py:271-285 | Appends exactly the `eval(` violations of the code's lines to the stored violations. |
| ConstraintDebugger.ConstraintDebugger.AnalyzeTypeScript | hilde/analysis/constraint_debugger.py:287-289 | Appends the same violations that the JavaScript analysis appends. |
| ConstraintDebugger.ConstraintDebugger.AnalyzeGeneric | hilde/analysis/constraint_debugger.py:291-312 | Appends exactly the generic-pattern violations of the code's lines to the stored violations. |
| ConstraintDebugger.ConstraintDebugger.GetViolationsSummary | hilde/analysis/constraint_debugger.py:314-347 | Counts the stored violations and returns the summary whose totals, counts and status are characterised by `ConstraintRules.Summarize`. |
| ConstraintDebugger.LineContent | hilde/analysis/constraint_debugger.py:130 | Returns the 1-based line `n` of the code, or `""` past the last line. |
| ConstraintDebugger.CollectGlobalVariables | hilde/analysis/constraint_debugger.py:125-139 | The loop over the walk yields exactly the global-statement violations, whose members `ConstraintProperties.GlobalCheckMember` characterises. |
| ConstraintDebugger.GlobalHit | hilde/analysis/constraint_debugger.py:128-139 | One walked node gives the global-statement violation exactly when the rule reports it. |
| ConstraintDebugger.MentionsSanitiser | hilde/analysis/constraint_debugger.py:144-155 | It is true exactly when one of the five sanitiser words occurs in the line. |
| ConstraintDebugger.CollectInputSanitization | hilde/analysis/constraint_debugger.py:141-165 | The loop over the walk yields exactly the unsanitised-input violations. |
| ConstraintDebugger.InputHit | hilde/analysis/constraint_debugger.py:147-165 | One walked node gives the unsanitised-input violation exactly when the rule reports it. |
| ConstraintDebugger.SqlLine | hilde/analysis/constraint_debugger.py:180-191 | It yields one violation per matching SQL pattern on a line without a parameter marker. |
| ConstraintDebugger.SqlPatternHit | hilde/analysis/constraint_debugger.py:181-191 | One SQL pattern on one line gives one violation iff it matches and the line has no parameter marker. |
| ConstraintDebugger.CollectRawSql | hilde/analysis/constraint_debugger.py:167-191 | The loop over lines and patterns yields exactly the raw-SQL violations. |
| ConstraintDebugger.SecretLine | hilde/analysis/constraint_debugger.py:205-214 | It yields one violation per matching secret pattern on the line. |
| ConstraintDebugger.SecretPatternHit | hilde/analysis/constraint_debugger.py:206-214 | One secret pattern on one line gives one violation iff it matches. |
| ConstraintDebugger.CollectHardcodedSecrets | hilde/analysis/constraint_debugger.py:193-214 | The loop over lines and patterns yields exactly the hardcoded-secret violations. |
| ConstraintDebugger.HasTry | hilde/analysis/constraint_debugger.py:220-224 | The early-exit search is true exactly when some walked node is a `try`. |
| ConstraintDebugger.HasRiskyOperation | hilde/analysis/constraint_debugger.py:228-232 | The early-exit search is true exactly when some walked node is a call or an attribute access. |
| ConstraintDebugger.CollectErrorHandling | hilde/analysis/constraint_debugger.py:216-242 | The loop over the walk yields exactly the missing-error-handling violations. |
| ConstraintDebugger.ErrorHandlingHit | hilde/analysis/constraint_debugger.py:219-242 | One walked node gives the error-handling violation exactly when the rule reports it. |
| ConstraintDebugger.TypeHintsOf | hilde/analysis/constraint_debugger.py:247-269 | For one `def` it yields the missing-return entry first, then one entry per unannotated parameter in order. |
| ConstraintDebugger.ReturnHintOf | hilde/analysis/constraint_debugger.py:249-257 | A `def` without a return annotation gives the missing-return entry, and one with it gives none. |
| ConstraintDebugger.ParamHintOf | hilde/analysis/constraint_debugger.py:260-269 | An unannotated parameter gives one entry naming it, and an annotated one gives none. |
| ConstraintDebugger.CollectTypeHints | hilde/analysis/constraint_debugger.py:244-269 | The loop over the walk yields exactly the type-hint violations. |
| ConstraintDebugger.CollectRule | hilde/analysis/constraint_debugger.py:98-112 | One configuration entry yields what its rule contributes: nothing when disabled or unknown. |
| ConstraintDebugger.CollectPythonRules | hilde/analysis/constraint_debugger.py:97-112 | The loop over the configuration yields the rules' violations concatenated in configuration order. |
| ConstraintDebugger.CollectJavaScript | hilde/analysis/constraint_debugger.py:271-285 | The loop over lines yields exactly the `eval(` violations. |
| ConstraintDebugger.EvalHit | hilde/analysis/constraint_debugger.py:277-285 | One line gives the `no_eval` violation exactly when it contains `eval(`. |
| ConstraintDebugger.GenericLine | hilde/analysis/constraint_debugger.py:303-312 | It yields one violation per matching generic pattern on the line, in pattern order. |
| ConstraintDebugger.GenericPatternHit | hilde/analysis/constraint_debugger.py:304-312 | One fallback pattern on one line gives one violation iff it matches. |
| ConstraintDebugger.CollectGeneric | hilde/analysis/constraint_debugger.py:291-312 | The loop over lines yields exactly the generic-pattern violations. |
| ConstraintDebugger.SummaryOf | hilde/analysis/constraint_debugger.py:314-347 | The incremental severity and rule counting produces `ConstraintRules.Summarize`. |
| ConstraintRules.PythonAnalysis | hilde/analysis/constraint_debugger.py:114-123 | A syntax error gives exactly one `syntax_error` violation with severity `error`. Its line is `lineno`, or 1 when missing or 0. Its column is `offset`, or 0. Its explanation quotes the message. Its snippet is that line of the code, or `""` when `lineno` is missing or 0. |
| ConstraintRules.Summarize | hilde/analysis/constraint_debugger.py:314-347 | The total equals the list length, the sum of the severity counts and the sum of the rule counts. Each count equals that key's occurrences. Both dictionaries have distinct keys, and their keys are exactly the severities and rules that occur. An empty list is `compliant` with empty counts. The status is `non_compliant` iff some violation is an error, `warnings` iff none is an error and one is a warning, and otherwise `compliant`. |
| ConstraintRules.ConcatMapMember | hilde/analysis/constraint_debugger.py:127 | A violation is reported for a sequence of items iff some item reports it. |
| ConstraintRules.LineWiseMember | hilde/analysis/constraint_debugger.py:179 | A violation is reported for the lines iff some 1-based line reports it. |
| ConstraintProperties.SyntaxErrorShortCircuit | hilde/analysis/constraint_debugger.py:93-123 | With a syntax error the configuration is irrelevant: any two configurations give the same single violation. |
| ConstraintProperties.PythonRulesAppend | hilde/analysis/constraint_debugger.py:97 | Rules are applied in configuration order: the violations of a configuration split into those of its first part followed by those of the rest. |
| ConstraintProperties.PythonRulesPair | hilde/analysis/constraint_debugger.py:97-112 | A two-entry configuration gives the first entry's violations followed by the second's. |
| ConstraintProperties.RuleSwitch | hilde/analysis/constraint_debugger.py:98-112 | A disabled entry (a missing flag counts as disabled) or an unrecognised rule name contributes nothing. |
| ConstraintProperties.PythonRulesMember | hilde/analysis/constraint_debugger.py:97-112 | A violation is reported iff some enabled configuration entry's rule reports it. |
| ConstraintProperties.DefaultConfigChecks | hilde/analysis/constraint_debugger.py:46-61 | The default configuration runs exactly the global check followed by the input check. |
| ConstraintProperties.TypeScriptIsJavaScript | hilde/analysis/constraint_debugger.py:287-289 | TypeScript code gives exactly the JavaScript result, whatever the spelling of either language name. |
| ConstraintProperties.WalkConcatMember | hilde/analysis/constraint_debugger.py:127 | A check over the walk reports a violation iff some node of the tree reports it. |
| ConstraintProperties.GlobalCheckMember | hilde/analysis/constraint_debugger.py:127-139 | Each violation is one `global` statement of the tree, at its line and column. |
| ConstraintProperties.InputCheckMember | hilde/analysis/constraint_debugger.py:146-165 | Each violation is one call of plain-name `input` or `raw_input` in the tree, on a line that mentions no sanitiser word. |
| ConstraintProperties.AnyTryIff | hilde/analysis/constraint_debugger.py:221-224 | The walk of a function contains a `try` iff its subtree does. |
| ConstraintProperties.AnyRiskyIff | hilde/analysis/constraint_debugger.py:229-232 | The walk of a function contains a call or attribute iff its subtree does. |
| ConstraintProperties.ErrorHandlingForIff | hilde/analysis/constraint_debugger.py:219-242 | A `def` gives exactly one violation, at its line and column, when it has a body, contains no `try` and contains a call or attribute. Otherwise it gives none. |
| ConstraintProperties.ErrorHandlingForMember | hilde/analysis/constraint_debugger.py:219-242 | The same, stated as membership. |
| ConstraintProperties.ErrorHandlingCheckMember | hilde/analysis/constraint_debugger.py:216-242 | Each violation is the violation of one such function of the tree. |
| ConstraintProperties.TypeHintsForCount | hilde/analysis/constraint_debugger.py:247-269 | A `def` gives one entry for a missing return annotation plus one per unannotated parameter. All entries are `require_type_hints` at the def's line and column with the default severity `info`. |
| ConstraintProperties.SqlForCount | hilde/analysis/constraint_debugger.py:179-191 | A line gives one column-0 violation per matching SQL pattern, and none when it contains a parameter marker. |
| ConstraintProperties.SqlForMember | hilde/analysis/constraint_debugger.py:179-191 | A line reports the SQL violation iff some pattern matches and no parameter marker is present. |
| ConstraintProperties.RawSqlCheckMember | hilde/analysis/constraint_debugger.py:167-191 | Each raw-SQL violation belongs to one 1-based line that is a raw-SQL line. |
| ConstraintProperties.SecretForCount | hilde/analysis/constraint_debugger.py:204-214 | A line gives one column-0 violation per matching secret pattern. |
| ConstraintProperties.KeywordLiteral | hilde/analysis/constraint_debugger.py:206 | A lower-case keyword written literally matches case-insensitively. |
| ConstraintProperties.KeywordAbsent | hilde/analysis/constraint_debugger.py:206 | A keyword cannot match where one of its letters occurs nowhere in the line. |
| ConstraintProperties.KeywordAbsentEverywhere | hilde/analysis/constraint_debugger.py:206 | Such a line matches no quoted assignment to that keyword. |
| ConstraintProperties.ApiKeyMatches | hilde/analysis/constraint_debugger.py:195-201 | `api_key = "x"` matches the `api_key` and `key` patterns and no other. |
| ConstraintProperties.ApiKeyAssignments | hilde/analysis/constraint_debugger.py:197-200 | `api_key = "x"` matches the `api_key` pattern and its suffix pattern `key`. |
| ConstraintProperties.ApiKeyOthersAbsent | hilde/analysis/constraint_debugger.py:196-199 | `api_key = "x"` matches none of the `password`, `secret` and `token` patterns. |
| ConstraintProperties.ApiKeyLacks | hilde/analysis/constraint_debugger.py:196-199 | A keyword containing `s`, `t` or `w` in either case cannot be assigned on `api_key = "x"`. |
| ConstraintProperties.CountSecondAndFifth | hilde/analysis/constraint_debugger.py:205 | Counting helper: two matches among five patterns when exactly the second and the fifth match. |
| ConstraintProperties.TwoSecretMatches | hilde/analysis/constraint_debugger.py:204-214 | A line that matches exactly the `api_key` and `key` patterns gives two violations. |
| ConstraintProperties.ApiKeyReportedTwice | hilde/analysis/constraint_debugger.py:195-214 | `api_key = "x"` is reported twice. |
| ConstraintProperties.MatchedLiteralNonEmpty | hilde/analysis/constraint_debugger.py:196-200 | A matched quoted value has at least one character that is not a quote. |
| ConstraintProperties.NoSecretMatches | hilde/analysis/constraint_debugger.py:204-214 | A line matching no secret pattern gives no violation. |
| ConstraintProperties.EmptyPasswordMatchesNothing | hilde/analysis/constraint_debugger.py:196-200 | `password = ""` matches no secret pattern. |
| ConstraintProperties.EmptyLiteralNotReported | hilde/analysis/constraint_debugger.py:193-214 | `password = ""` gives no violation. |
| ConstraintProperties.JavaScriptAnalysisMember | hilde/analysis/constraint_debugger.py:271-285 | There is one `no_eval` error per line containing `eval(`. Its column is the index of the first `eval(`. Nothing else is reported. |
| ConstraintProperties.GenericAnalysisMember | hilde/analysis/constraint_debugger.py:291-312 | Each generic violation is a column-0 warning on a line matching its named pattern. |
| ConstraintProperties.GenericForMember | hilde/analysis/constraint_debugger.py:303-312 | A line is reported under a pattern's name iff that fallback pattern matches it. |
| ConstraintProperties.SecretCheckNamed | hilde/analysis/constraint_debugger.py:207-210 | Secret violations carry rule `no_hardcoded_secrets` and column 0. |
| ConstraintProperties.TypeHintsCheckNamed | hilde/analysis/constraint_debugger.py:250-263 | Type-hint violations carry rule `require_type_hints`. |
| ConstraintProperties.RuleViolationsNamed | hilde/analysis/constraint_debugger.py:101-112 | Every violation a configuration entry contributes carries that entry's rule name. |
| ConstraintProperties.LineWiseCount | hilde/analysis/constraint_debugger.py:179 | A per-line check giving one violation per qualifying line yields as many violations as there are qualifying lines. |
| PyAst.WalkMembers | hilde/analysis/constraint_debugger.py:127 | The walk order visits a node iff it lies in the tree. |
| PyAst.WalkLength | hilde/analysis/constraint_debugger.py:127 | The walk visits every node exactly as often as the tree has nodes. |
| Tally.TallyOfCounts | hilde/analysis/constraint_debugger.py:327-332 | Incremental counting into an insertion-ordered dictionary gives distinct keys. Each key's count is its number of occurrences, the counts sum to the number of keys counted, and the keys are exactly those that occur. |
| Tally.IncrementGet | hilde/analysis/constraint_debugger.py:329 | `d[k] = d.get(k, 0) + 1` raises the count of `k` by one and leaves every other count unchanged. |
| ApiGateway.Weight | hilde/gateway/api_gateway.py:162-166 | A missing importance defaults to 0.5. The weight is probability times importance and is non-negative for non-negative inputs. |
| ApiGateway.Normalised | hilde/gateway/api_gateway.py:169-171 | A total of at most 0 leaves the weights undivided. |
| ApiGateway.NormalisedSumsToOne | hilde/gateway/api_gateway.py:169-171 | With a positive total, the normalised weights sum to 1. |
| ApiGateway.NormalisedInUnit | hilde/gateway/api_gateway.py:169-171 | With a positive total of non-negative weights, each normalised weight lies in [0, 1]. |
| ApiGateway.CorrectedEntropy | hilde/gateway/api_gateway.py:151-177 | There is exactly one value per position. A position with fewer than two alternatives gets 0.0. Every other position gets the entropy of its normalised weights (corrected formula, see Findings). |
| ApiGateway.AdjustedProbabilities | hilde/gateway/api_gateway.py:161-166 | The inner loop yields the weight of each alternative, in order. |
| ApiGateway.PositionEntropyNonNegative | hilde/gateway/api_gateway.py:169-175 | For non-negative inputs and a logarithm that is non-positive on (0, 1], the corrected entropy of a position is non-negative. |
| ApiGateway.PositionEntropyPermutation | hilde/gateway/api_gateway.py:157-175 | The corrected entropy of a position does not depend on the order of its alternatives: any two orderings of the same alternatives give the same value. |
| ApiGateway.PositionEntropyZeroIff | hilde/gateway/api_gateway.py:157-175 | For non-negative inputs and a logarithm that is 0 at 1 and negative on (0, 1), the corrected entropy of a position is 0 iff it has fewer than two alternatives or at most one positive normalised weight. That covers a point mass, and a zero total weight, which is left undivided. |
| Entropy.DistributionEntropyZeroIff | hilde/gateway/api_gateway.py:169-175 | For numbers in [0, 1] summing to 1 and such a logarithm, the entropy is 0 iff at most one of them is positive. |
| ApiGateway.IdentifyHighlights | hilde/gateway/api_gateway.py:179-181 | Returns exactly the indices whose value is strictly above 0.3, below the list length, in strictly increasing order. |
| ApiGateway.AsWrittenEntropy | hilde/gateway/api_gateway.py:151-177 | The code as written: the result exists iff no position raises, and then has one value per position. |
| ApiGateway.AsWrittenRaises | hilde/gateway/api_gateway.py:169-174 | As written, a position with at least two alternatives and a positive total weight always raises. |
| ApiGateway.AsWrittenCounterexample | hilde/gateway/api_gateway.py:174 | Two alternatives of probability 0.5 with no analysis make the computation raise. |
| Highlights.SelectAbove | hilde/gateway/api_gateway.py:181 | The selected indices are exactly those whose score is strictly above the threshold. They are in bounds and strictly increasing. |
| Highlights.SelectAboveIff | hilde_lite_completion_engine.py:194 | An index is selected iff its score exceeds the threshold. A score equal to the threshold is not selected. |
| Highlights.SelectAboveMonotone | hilde_lite_completion_engine.py:194 | An index selected at a higher threshold is also selected at a lower one. |
| Highlights.SelectAboveExactly | hilde_lite_completion_engine.py:194 | For every index of the list, it is selected iff its score exceeds the threshold. |
| CompletionEngine.IdentifyHighlights | hilde_lite_completion_engine.py:183-194 | The default threshold is 0.5. Exactly the indices with entropy strictly above it are returned, in increasing order and in bounds. Empty input gives empty output. |
| CompletionEngine.CalculateEntropyScores | hilde_lite_completion_engine.py:171-181 | There is one score per alternative group: the negated sum of `p·log p` over the group's positive probabilities. |
| CompletionEngine.NonPositiveIgnored | hilde_lite_completion_engine.py:178 | An alternative with probability at most 0 does not change a group's entropy. |
| CompletionEngine.Probabilities | hilde_lite_completion_engine.py:176 | The probabilities of a group's alternatives, in order. |
| CompletionEngine.GenerateWithAlternatives | hilde_lite_completion_engine.py:72-141 | On an error, the completion, alternatives, scores and highlights are empty and the error text is recorded. Otherwise the scores and highlights are those of the alternatives. The prompt is always echoed. |
| Entropy.EntropyOfPositives | hilde_lite_completion_engine.py:178 | A group's entropy depends only on its positive probabilities. |
| Entropy.EntropyNonNegative | hilde_lite_completion_engine.py:178 | For probabilities in [0, 1] and a logarithm that is non-positive there, the entropy is non-negative. |
| CompletionService.ExtractTokens | hilde/completion/completion_service.py:88-101 | There is one token per character, and the token is that character. Its probability is 0.8 when `i < len // 2`, else 0.6. The tokens spell the completion. |
| CompletionService.PositionAlternatives | hilde/completion/completion_service.py:109-118 | A position gets exactly `top_k` entries (none when `top_k` ≤ 0). Entry `j` is letter `(i + j) mod 26` for an alphabetic character, else the character itself. Its probability is `0.1 + 0.8/(j+1)`. |
| CompletionService.TopKTokens | hilde/completion/completion_service.py:103-120 | There are `len(completion)` positions, each holding exactly the entries described above. |
| CompletionService.TokenProbabilityNonIncreasing | hilde/completion/completion_service.py:95 | The per-character probability is 0.8 or 0.6 and never rises along the completion. |
| CompletionService.AlternativeProbabilityOrder | hilde/completion/completion_service.py:113 | An alternative's probability is strictly decreasing in its rank. |
| CompletionService.AlternativeProbabilityBounds | hilde/completion/completion_service.py:113 | An alternative's probability lies in (0.1, 0.9], and the first is 0.9. |
| CompletionService.AlternativeTokensDistinct | hilde/completion/completion_service.py:112 | For an alphabetic character, alternatives less than 26 ranks apart are different lower-case letters. |
| BraceJson.JsonCandidate | hilde/analysis/analysis_service.py:107-110 | A candidate exists iff the text contains both `{` and `}`. A non-empty candidate starts with `{` and ends with `}`. It is empty iff every `}` comes before every `{`. |
| BraceJson.JsonCandidateSpan | hilde_lite_analysis_engine.py:151-154 | The candidate is the text from the first `{` through the last `}`. |
| BraceJson.ReversedBracesEmpty | hilde_lite_analysis_engine.py:151-154 | The reply `} {` gives the empty candidate, the slice `content[2:1]`. |
| LiteAnalysisEngine.ParseAnalysisResponse | hilde_lite_analysis_engine.py:147-167 | Without both braces, or when decoding fails, the result is the parse-failed reply (`Minor`, 0.5, no alternatives). Otherwise it is what the decoder makes of the slice, a reply or a malformed object, and never a decoding failure. |
| LiteAnalysisEngine.EmptyCandidateFallback | hilde_lite_analysis_engine.py:151-167 | When the braces enclose nothing (a `}` before every `{`) and the empty text does not decode, the result is the parse-failed reply. |
| LiteAnalysisEngine.AssignedAnalysis | hilde_lite_analysis_engine.py:80-100 | Index 0 gets the top analysis. Index `j ≥ 1` gets `alternatives[j-1]` when present, else the default (`Minor`, 0.3). A failed call gives "Analysis unavailable" (`Minor`, 0.5). |
| LiteAnalysisEngine.AnalysedGroup | hilde_lite_analysis_engine.py:51-102 | An analysed group keeps its length. |
| LiteAnalysisEngine.AttachAll | hilde_lite_analysis_engine.py:80-100 | Each alternative gets its own analysis, and nothing else about it changes. |
| LiteAnalysisEngine.FallbackAnalysis | hilde_lite_analysis_engine.py:169-178 | Every alternative of every group gets the no-key analysis (`Minor`, 0.5), and the group structure is unchanged. |
| LiteAnalysisEngine.AnalyzeAlternatives | hilde_lite_analysis_engine.py:33-107 | The output has exactly one group per input group, in order. Without a key, every group keeps its length and every alternative gets the no-key analysis. With a key, every group is its analysed form. |
| LiteAnalysisEngine.AnalysedGroupKeepsTokens | hilde_lite_analysis_engine.py:51-102 | Groups of fewer than two pass unchanged. Tokens and probabilities are never changed. Every alternative of a longer group receives an analysis. |
| LiteAnalysisEngine.ReplyWithoutJson | hilde_lite_analysis_engine.py:151-167 | A reply lacking a brace gives index 0 the parse-failed analysis and every other index the 0.3 default. |
| LiteAnalysisEngine.FailedCallUniform | hilde_lite_analysis_engine.py:80-100 | A failed call, or a reply whose `alternatives` entry is not a list, gives every alternative of the group "Analysis unavailable" (`Minor`, 0.5). |
| AnalysisService.FallbackAnalysis | hilde/analysis/analysis_service.py:125-149 | The category is always `Minor` and the importance lies in [0, 0.3]. Identical tokens give 0.0 and "No change". Different lengths give 0.3 and "Token length change". The same length with different text gives 0.2 and "Token substitution". |
| AnalysisService.FromJson | hilde/analysis/analysis_service.py:113-118 | Missing fields default to "No explanation provided", "No summary", `Minor` and 0.5. The result is absent exactly when `float()` rejects the importance. |
| AnalysisService.ParseAnalysisResponse | hilde/analysis/analysis_service.py:103-123 | Without both braces, when decoding fails, or when the importance is not a number, the result is the fallback analysis. Otherwise it is the decoded response. |
| AnalysisService.FallbackZeroIff | hilde/analysis/analysis_service.py:127-149 | The fallback gives importance 0.0 iff the two tokens are identical. |
| AnalysisService.UnparsedReplyIsMinor | hilde/analysis/analysis_service.py:107-123 | A reply without both braces is judged `Minor` with importance at most 0.3. |
| AnalysisService.EmptyObjectDefaults | hilde/analysis/analysis_service.py:113-118 | A decoded object with none of the keys gives the four defaults. |
| AnalysisService.EmptyCandidateFallback | hilde/analysis/analysis_service.py:107-123 | When the braces enclose nothing and the empty text does not decode, the result is the fallback judgement. |
| SecurityIntegration.Summarize | hilde/security_integration.py:152-183 | The status is always `secure`. The total equals the number of issues. An empty list gives an empty breakdown and no advice. The breakdown counts the lower-cased severities. Its keys are distinct and are exactly the lowered severities that occur. Its counts sum to the number of issues. |
| SecurityIntegration.Recommendations | hilde/security_integration.py:169-175 | Each of the three pieces of advice is present iff its severity's count is positive, in the order high, medium, low. No other advice appears. |
| SecurityIntegration.GetSecuritySummary | hilde/security_integration.py:152-183 | The counting loop produces `Summarize` of the issues. |
| SecurityIntegration.CountSeverities | hilde/security_integration.py:163-166 | Counting the lower-cased severities one issue at a time gives their tally. |
| SecurityIntegration.AdviceFor | hilde/security_integration.py:169-175 | The three checks give exactly `Recommendations` of the breakdown. |
| SecurityIntegration.HighIssueAdvised | hilde/security_integration.py:165-171 | An issue of severity `high`, in any case, makes the summary advise addressing high-severity issues. |
| SecurityIntegration.OtherSeveritiesNoAdvice | hilde/security_integration.py:169-175 | Issues none of whose severities is high, medium or low give no advice. |
| SecurityIntegration.AbsentSeverity | hilde/security_integration.py:166-174 | A severity no issue has is counted zero times. |
| SecurityIntegration.FileExtension | hilde/security_integration.py:140-150 | Returns the table's extension for the lower-cased name, and `.txt` exactly when the name is not in the table. |
| SecurityIntegration.FileExtensionIgnoresCase | hilde/security_integration.py:150 | Names equal up to case map to the same extension. |
| SuffixPreservation.CountAstNodes | hilde/suffix_preservation.py:145-150 | The recursive count equals the number of nodes in the tree, which is at least 1. |
| SuffixPreservation.AstSimilarity | hilde/suffix_preservation.py:124-143 | It is 0.1 when either side fails to parse. Otherwise it is a ratio in (0, 1], and equals 1 exactly when the node counts are equal. |
| SuffixPreservation.Similarity | hilde/suffix_preservation.py:107-122 | It is 0.0 when either string is empty. Otherwise it is `0.7 × ratio + 0.3 × AST similarity`, and absent exactly when the ratio raises. |
| SuffixPreservation.SimilarityInUnit | hilde/suffix_preservation.py:120 | With a ratio in [0, 1], the combined similarity lies in [0, 1]. |
| SuffixPreservation.SelectBestSuffix | hilde/suffix_preservation.py:82-105 | No candidates give `""`. A best score of at least 0.7 selects the earliest candidate with the strictly largest score. Otherwise `original_code[position:]` is returned. Scoring that raises gives no result. |
| SuffixPreservation.CandidateSuffix | hilde/suffix_preservation.py:69-74 | An echoed prompt is stripped: the prompt followed by the suffix is the completion. Otherwise the whole completion is the suffix. |
| SuffixPreservation.Candidates | hilde/suffix_preservation.py:56-78 | There are at most ten candidates. |
| SuffixPreservation.GenerateCandidateSuffixes | hilde/suffix_preservation.py:48-80 | The loop asks for ten completions of `original_code[:position] + new_token` at temperatures 0.1, 0.2, … and keeps one suffix per attempt that returns. |
| SuffixPreservation.CandidatesFromAttempts | hilde/suffix_preservation.py:57-74 | Every candidate is the suffix of some attempt's completion. |
| SuffixPreservation.CandidatesComplete | hilde/suffix_preservation.py:57-78 | When no attempt raises, there is one candidate per attempt. |
| SuffixPreservation.RegenerateSuffix | hilde/suffix_preservation.py:16-46 | When scoring raises, the result is `original_code[position + len(new_token):]`. Otherwise it is exactly what `_select_best_suffix` picks: `""` for no candidates, the earliest candidate with the largest score when some score reaches 0.7, and `original_code[position:]` when none does. |
| LoggingAnalytics.SelectionRate | hilde/logging_analytics.py:153-164 | It is 0.0 without `alternative_selected` rows. Otherwise it is selected over total, and lies in [0, 1]. |
| LoggingAnalytics.SelectedRows | hilde/logging_analytics.py:157 | The selected rows are at most all the selection rows. |
| LoggingAnalytics.Rate | hilde/logging_analytics.py:162-164 | The rate is 0.0 for an empty whole. Otherwise it is part over whole, and it lies in [0, 1] when the part is at most the whole. |
| LoggingAnalytics.AverageDecisionTime | hilde/logging_analytics.py:166-172 | It is 0 when no decision time is recorded. |
| LoggingAnalytics.AverageBelowBound | hilde/logging_analytics.py:166-172 | When every recorded time is at most a bound, the average is at most that bound. |
| LoggingAnalytics.QuotientBelow | hilde/logging_analytics.py:168 | A dividend of at most `b` times a positive divisor gives a quotient of at most `b`. |
| LoggingAnalytics.EntropyBucket | hilde/logging_analytics.py:176-181 | Below 0.3 is `low`, below 0.7 is `medium`, and anything else (a NULL score included) is `high`. |
| LoggingAnalytics.BucketsPartition | hilde/logging_analytics.py:174-186 | Every row falls in exactly one bucket, so the three counts add up to the number of rows. |
| LoggingAnalytics.FoundMakesTotalPositive | hilde/logging_analytics.py:216-229 | With non-negative counts, one scan that found vulnerabilities makes the total positive. |
| LoggingAnalytics.TotalNonNegative | hilde/logging_analytics.py:216-229 | Non-negative counts give a non-negative total. |
| LoggingAnalytics.GenerateRecommendations | hilde/logging_analytics.py:251-273 | The engagement advice is given iff the rate is below 0.3. The interface advice is given iff the average exceeds 60000 ms. The monitoring advice is given iff vulnerabilities were found. The list is exactly the all-well line iff none of these applies, so it is never empty. The advice keeps that order. Nothing but these four lines appears. |
| LoggingAnalytics.NoSelectionsGiveEngagementAdvice | hilde/logging_analytics.py:260-261 | Without selection rows the rate is 0.0, so the engagement advice is given. |
| LoggingAnalytics.QuickDecisionsNoInterfaceAdvice | hilde/logging_analytics.py:263-264 | Decision times all within a minute never trigger the interface advice. |

## Left out

- Configuration file I/O (`_load_constraints`, writing the default file) is not modelled. The configuration is a value, and the two-rule default is the constant `ConstraintRules.DefaultConfig`.
- `ast.parse`, `ast.walk` and `ast.iter_child_nodes`: the parse result is an input. The tree keeps only the node kinds the checks distinguish.
- The `re` engine: each pattern is a hand-written predicate. Case-insensitive matching follows Python's folding on the keywords' letters: ASCII upper and lower case, plus U+0130 and U+0131 for `i`, U+017F for `s` and U+212A for `k` (`Patterns.CharMatches`). `\s` is the whitespace set of `str.isspace`.
- `Text.Lower` and `CompletionService.IsAlpha` are ASCII only, where `str.lower` and `str.isalpha` also act on non-ASCII letters. Two results differ from the source because of this:
  - CompletionService.PositionAlternatives: a non-ASCII letter of the completion is treated as a non-letter. For the completion `é` with `top_k` 1, the source yields the alternative `a` (`'é'.isalpha()` is true), and the model yields `é`.
  - SecurityIntegration.Summarize: a non-ASCII severity keeps its case in the breakdown's keys. The severity `É` is counted under `é` by the source and under `É` by the model. Matching against `high`, `medium` and `low`, and the language lookup, is unaffected.
- Code snippets: `code.split('\n')[n - 1]` is modelled as the line, or `""` past the last line. The source would raise `IndexError` there (hilde/analysis/constraint_debugger.py:122, 241, 256, 268), and would index from the end for a negative line number. This case occurs: `ast.parse` also breaks lines at a lone `\r`, and `code.split('\n')` does not. For the code `x = 1\rdef f():\r    g()` with `require_error_handling` enabled, the `def` is on line 2 of a one-element list. The source raises `IndexError` at line 241, and the model reports the violation with the snippet `""`.
- Floating-point arithmetic: all probabilities, weights and scores are `real`s, with no rounding.
- `np.log`, softmax and `topk`, and `log_prob` via `torch.log`: the logarithm is a parameter. The top-k extraction (`_extract_token_alternatives`) and the `log_prob` fields are not modelled.
- Model and GPU loading (`transformers`, `vllm`, `torch.cuda`), memory reporting and cache clearing.
- Network and service layers are not modelled: FastAPI and Flask endpoints, `httpx` clients, OpenAI calls and `time.sleep`. hilde_lite_api_gateway.py is not part of this model. Neither are the gateway's `_analyze_alternatives` and `_check_constraints`, which only forward to other services.
- The analysis prompts (`_create_analysis_prompt`, `_get_system_prompt`, `_build_analysis_prompt`) are not modelled. They only shape the model's reply, which is an input.
- LiteAnalysisEngine.AnalyzeAlternatives: the source writes each `alt["analysis"]` into the caller's dictionaries and may return the same list object. The model returns new values, so aliasing between input and output is not captured. The candidate runs from a `{` to a `}`, so it can only decode to an object. Some `alternatives` entries make the loop raise. A number, null or a boolean makes `len()` raise at line 83. A non-empty object makes the index raise `KeyError` at line 84, because every group reaching the loop has at least two alternatives. The decoder reports these cases as `Malformed`, and the group takes the failure path (`FailedCallUniform`). An empty object or an empty string has length 0 and is a reply with no alternative analyses, so every later alternative gets the 0.3 default. The elements of an `alternatives` list and the `top_analysis` value are taken to be analysis dictionaries.
- LiteAnalysisEngine.AnalyzeAlternatives: a non-empty string as the `alternatives` entry is not modelled. The source then attaches its characters as analyses, for example `"a"` and `"b"` for `{"alternatives": "ab"}`, and an analysis in the model is a dictionary or `{}`.
- Rule configuration values are typed: `enabled` is an optional boolean, and `severity` and `message` are optional strings. The source tests `rule_config.get("enabled", False)` for truthiness, so a hand-edited `1` or `"yes"` enables a rule and `0` or `[]` disables it. A `severity` or `message` of another type would be passed through unchanged. Neither is modelled.
- AnalysisService.FromJson: the decoded fields are strings or a number. A JSON value of another type in a text field is not modelled.
- SQLite persistence: tables are sequences of rows, and each query is the function of the rows it computes. `entropy_distribution` is given per bucket (`LoggingAnalytics.BucketCount`). The order of the returned dictionary's keys is not modelled.
- LoggingAnalytics.AverageDecisionTime: only the no-data default is stated as a contract. The mean itself is bounded by `AverageBelowBound`.
- The `bandit` and `semgrep` subprocesses, their JSON output and the temporary files are not modelled. The issues are an input.
- hilde/security_integration.py does not parse as written: line 127 passes the keyword `line=` a second time, and line 140 repeats `-> str)`. The model follows the evident intent of `get_security_summary` and `_get_file_extension`. The status is `secure` whether or not there are issues (line 178), and the model keeps that.
- `difflib.SequenceMatcher.ratio` is a parameter. `None` stands for any exception raised while scoring. `regenerate_suffix` catches that exception and returns its fallback.
- `_calculate_ast_similarity`: the branch for `original_nodes == 0` cannot be taken, because a count is always at least 1.
- Scripts, demos and tests that only drive HTTP and print are not part of this model: test_hilde_lite.py, hilde/test_hilde.py, hilde/test_constraint_debugging.py, hilde/constraint_example.py, hilde/demo_hilde.py, hilde_lite_colab_setup.py and test_new_workflow.py.
- ApiGateway.CorrectedEntropy: the corrected entropy uses an abstract logarithm, because the as-written term cannot be evaluated (see Findings).

## Findings

| source | as written | input that shows it | evidently intended | confidence | as-written member | corrected member |
|---|---|---|---|---|---|---|
| hilde/gateway/api_gateway.py:174 | The entropy term calls `p.bit_length()` on the normalised weight `p`, which is a `float`. `float` has no `bit_length`, so an `AttributeError` is raised for every positive `p`. After normalisation with a positive total, some `p` is always positive, so every position with at least two alternatives and a positive total weight raises. | `top_k_tokens = [[{"token": "a", "probability": 0.5}, {"token": "b", "probability": 0.5}]]` | The Shannon entropy `-Σ p·log p` over the positive normalised weights, as in the completion engine (hilde_lite_completion_engine.py:178). It is non-negative for weights in [0, 1]. | not executed | ApiGateway.AsWrittenEntropy (with ApiGateway.AsWrittenRaises, ApiGateway.AsWrittenCounterexample) | ApiGateway.CorrectedEntropy (with ApiGateway.PositionEntropyNonNegative) |
