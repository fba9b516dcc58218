/**
 * Hand-written matchers for the regular expressions of the constraint
 * checker, each searched anywhere in a line (`re.search`) with
 * `re.IGNORECASE`. Keywords are written in lower case.
 */
module Patterns {
  import opened Text

  /**
   * One character of the text against a lower-case keyword letter under
   * `re.IGNORECASE`: the letter itself, its upper case, and the three
   * non-ASCII characters Python's matcher folds onto `i`, `s` and `k`.
   */
  predicate CharMatches(c: char, x: char)
  {
    LowerChar(c) == x ||
    (x == 'i' && (c == '\U{130}' || c == '\U{131}')) ||
    (x == 's' && c == '\U{17F}') ||
    (x == 'k' && c == '\U{212A}')
  }

  /** The keyword `kw` occurs at index `i`, ignoring case. */
  predicate KeywordAt(s: string, kw: string, i: int)
  {
    0 <= i && i + |kw| <= |s| && forall t :: 0 <= t < |kw| ==> CharMatches(s[i + t], kw[t])
  }

  /** Every character of `s[a..b]` is whitespace (`\s*` over that span). */
  predicate SpacesIn(s: string, a: int, b: int)
  {
    0 <= a <= b <= |s| && forall t :: a <= t < b ==> IsSpace(s[t])
  }

  /** `kw1\s+kw2`: the first keyword, at least one whitespace character, the second keyword. */
  predicate AdjacentKeywords(s: string, kw1: string, kw2: string)
  {
    exists i, q :: 0 <= i < q <= |s| && KeywordAt(s, kw1, i) && i + |kw1| < q &&
      SpacesIn(s, i + |kw1|, q) && KeywordAt(s, kw2, q)
  }

  /** `kw1\s+.*kw2`: the first keyword, whitespace, any characters except newline, the second keyword. */
  predicate SeparatedKeywords(s: string, kw1: string, kw2: string)
  {
    exists i, q, j :: 0 <= i < q <= j <= |s| && KeywordAt(s, kw1, i) && i + |kw1| < q &&
      SpacesIn(s, i + |kw1|, q) && NoNewlineIn(s, q, j) && KeywordAt(s, kw2, j)
  }

  /** No character of `s[a..b]` is a newline (`.*` over that span). */
  predicate NoNewlineIn(s: string, a: int, b: int)
  {
    0 <= a <= b <= |s| && forall t :: a <= t < b ==> s[t] != '\n'
  }

  /** No character of `s[a..b]` is a quote (`[^"']*` over that span). */
  predicate NoQuoteIn(s: string, a: int, b: int)
  {
    0 <= a <= b <= |s| && forall t :: a <= t < b ==> !IsQuote(s[t])
  }

  predicate IsQuote(c: char)
  {
    c == '"' || c == '\''
  }

  /**
   * `kw\s*=\s*["'][^"']+["']` with the keyword at `i`, the `=` at `a` and the
   * opening quote at `b`: at least one non-quote character follows the
   * opening quote, and a closing quote comes after them.
   */
  predicate QuotedAssignAt(s: string, kw: string, i: int, a: int, b: int)
  {
    KeywordAt(s, kw, i) && SpacesIn(s, i + |kw|, a) && a < |s| && s[a] == '=' &&
    SpacesIn(s, a + 1, b) && b < |s| && IsQuote(s[b]) &&
    exists c :: b + 1 < c < |s| && IsQuote(s[c]) && NoQuoteIn(s, b + 1, c)
  }

  /** `kw\s*=\s*["'][^"']+["']` somewhere in `s`. */
  predicate QuotedAssign(s: string, kw: string)
  {
    exists i, a, b :: 0 <= i <= a < b < |s| && QuotedAssignAt(s, kw, i, a, b)
  }

  /** `kw\s+.*`: the keyword followed by one whitespace character. */
  predicate KeywordThenSpace(s: string, kw: string)
  {
    exists i :: 0 <= i && i + |kw| < |s| && KeywordAt(s, kw, i) && IsSpace(s[i + |kw|])
  }

  /** `eval\s*\(`. */
  predicate EvalCall(s: string)
  {
    exists i, a :: 0 <= i <= a < |s| && KeywordAt(s, "eval", i) && SpacesIn(s, i + 4, a) && s[a] == '('
  }

  /** The six SQL patterns of the raw-SQL rule, in the order the rule tries them. */
  datatype SqlPattern = SelectFrom | InsertInto | UpdateSet | DeleteFrom | DropTable | CreateTable

  const SqlPatterns: seq<SqlPattern> := [SelectFrom, InsertInto, UpdateSet, DeleteFrom, DropTable, CreateTable]

  predicate SqlMatches(p: SqlPattern, line: string)
  {
    match p
    case SelectFrom => SeparatedKeywords(line, "select", "from")
    case InsertInto => AdjacentKeywords(line, "insert", "into")
    case UpdateSet => SeparatedKeywords(line, "update", "set")
    case DeleteFrom => AdjacentKeywords(line, "delete", "from")
    case DropTable => AdjacentKeywords(line, "drop", "table")
    case CreateTable => AdjacentKeywords(line, "create", "table")
  }

  /** The identifiers of the five secret patterns, in the order the rule tries them. */
  const SecretKeywords: seq<string> := ["password", "api_key", "secret", "token", "key"]

  /** The markers whose presence makes a SQL line count as parameterised. */
  const ParamMarkers: seq<string> := ["%s", "?", ":", "format(", "f\""]

  predicate Parameterised(line: string)
  {
    exists m :: m in ParamMarkers && Contains(line, m)
  }

  /** The fallback checks' patterns, in dictionary order. */
  datatype GenericPattern = HardcodedSecrets | RawSql | EvalUsage

  const GenericPatterns: seq<GenericPattern> := [HardcodedSecrets, RawSql, EvalUsage]

  predicate GenericMatches(p: GenericPattern, line: string)
  {
    match p
    case HardcodedSecrets =>
      QuotedAssign(line, "password") || QuotedAssign(line, "api_key") ||
      QuotedAssign(line, "secret") || QuotedAssign(line, "token")
    case RawSql =>
      KeywordThenSpace(line, "select") || KeywordThenSpace(line, "insert") ||
      KeywordThenSpace(line, "update") || KeywordThenSpace(line, "delete") ||
      KeywordThenSpace(line, "drop") || KeywordThenSpace(line, "create")
    case EvalUsage => EvalCall(line)
  }

  /** The rule name a fallback pattern reports (the dictionary key). */
  function GenericName(p: GenericPattern): string
  {
    match p
    case HardcodedSecrets => "hardcoded_secrets"
    case RawSql => "raw_sql"
    case EvalUsage => "eval_usage"
  }
}
