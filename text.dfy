/**
 * The Python string operations the services rely on: `str.split('\n')`,
 * `in` on strings, `find`, `rfind`, `startswith`, `strip()`, `lower()` and
 * slicing with Python's index rules.
 */
module Text {

  /** `str.isspace()` for one character (the code points Python treats as whitespace). */
  predicate IsSpace(c: char)
  {
    ('\t' <= c <= '\r') || ('\U{1C}' <= c <= ' ') || c == '\U{85}' || c == '\U{A0}' ||
    c == '\U{1680}' || ('\U{2000}' <= c <= '\U{200A}') || c == '\U{2028}' || c == '\U{2029}' ||
    c == '\U{202F}' || c == '\U{205F}' || c == '\U{3000}'
  }

  /** `lower()` on one character; only the ASCII letters are folded. */
  function LowerChar(c: char): (r: char)
    ensures 'A' <= c <= 'Z' ==> r as int == c as int + 32
    ensures !('A' <= c <= 'Z') ==> r == c
  {
    if 'A' <= c <= 'Z' then (c as int + 32) as char else c
  }

  function Lower(s: string): (r: string)
    ensures |r| == |s|
    ensures forall i :: 0 <= i < |s| ==> r[i] == LowerChar(s[i])
  {
    if s == [] then [] else [LowerChar(s[0])] + Lower(s[1..])
  }

  /** `sub` occurs in `s` starting at index `i`. */
  predicate OccursAt(s: string, sub: string, i: int)
  {
    0 <= i && i + |sub| <= |s| && s[i..i + |sub|] == sub
  }

  /** Python's `sub in s`. */
  predicate Contains(s: string, sub: string)
  {
    exists i :: 0 <= i <= |s| - |sub| && OccursAt(s, sub, i)
  }

  /** Python's `s.find(sub)`: the first index where `sub` occurs, or -1. */
  function Find(s: string, sub: string): (r: int)
    ensures -1 <= r <= |s|
    ensures r == -1 <==> !Contains(s, sub)
    ensures r >= 0 ==> OccursAt(s, sub, r) && forall j :: 0 <= j < r ==> !OccursAt(s, sub, j)
  {
    FindFrom(s, sub, 0)
  }

  function FindFrom(s: string, sub: string, k: nat): (r: int)
    requires forall j :: 0 <= j < k ==> !OccursAt(s, sub, j)
    ensures -1 <= r <= |s|
    ensures r == -1 <==> !Contains(s, sub)
    ensures r >= 0 ==> k <= r && OccursAt(s, sub, r) && forall j :: 0 <= j < r ==> !OccursAt(s, sub, j)
    decreases |s| - k
  {
    if k + |sub| > |s| then
      assert forall j :: k <= j ==> !OccursAt(s, sub, j);
      -1
    else if s[k..k + |sub|] == sub then
      assert OccursAt(s, sub, k);
      k
    else FindFrom(s, sub, k + 1)
  }

  /** Python's `s.rfind(sub)`: the last index where `sub` occurs, or -1. */
  function RFind(s: string, sub: string): (r: int)
    ensures -1 <= r <= |s|
    ensures r == -1 <==> !Contains(s, sub)
    ensures r >= 0 ==> OccursAt(s, sub, r) && forall j :: r < j <= |s| ==> !OccursAt(s, sub, j)
  {
    RFindBelow(s, sub, |s| + 1)
  }

  function RFindBelow(s: string, sub: string, k: nat): (r: int)
    requires k <= |s| + 1
    requires forall j :: k <= j <= |s| ==> !OccursAt(s, sub, j)
    ensures -1 <= r < k
    ensures r == -1 <==> !Contains(s, sub)
    ensures r >= 0 ==> OccursAt(s, sub, r) && forall j :: r < j <= |s| ==> !OccursAt(s, sub, j)
  {
    if k == 0 then -1
    else if OccursAt(s, sub, k - 1) then k - 1
    else RFindBelow(s, sub, k - 1)
  }

  /** Python's `s.startswith(prefix)`. */
  predicate StartsWith(s: string, prefix: string)
  {
    |prefix| <= |s| && s[..|prefix|] == prefix
  }

  /** Python's `s[i:]`, with negative indices counted from the end and clamping. */
  function SliceFrom(s: string, i: int): (r: string)
    ensures 0 <= i <= |s| ==> r == s[i..]
    ensures i > |s| ==> r == []
    ensures |r| <= |s|
  {
    if i >= |s| then []
    else if i >= 0 then s[i..]
    else if i + |s| >= 0 then s[i + |s|..]
    else s
  }

  /** Python's `s[:i]`, with negative indices counted from the end and clamping. */
  function SliceTo(s: string, i: int): (r: string)
    ensures 0 <= i <= |s| ==> r == s[..i]
    ensures i > |s| ==> r == s
    ensures |r| <= |s|
  {
    if i >= |s| then s
    else if i >= 0 then s[..i]
    else if i + |s| >= 0 then s[..i + |s|]
    else []
  }

  /** Python's `s[i:j]` for indices already within `0..|s|`: empty when `j <= i`. */
  function Slice(s: string, i: nat, j: nat): (r: string)
    requires i <= |s| && j <= |s|
    ensures i <= j ==> r == s[i..j]
    ensures j <= i ==> r == []
  {
    if i <= j then s[i..j] else []
  }

  /** Python's `s.strip()`: leading and trailing whitespace removed. */
  function Strip(s: string): (r: string)
    ensures |r| <= |s|
    ensures r != [] ==> !IsSpace(r[0]) && !IsSpace(r[|r| - 1])
    ensures forall i :: 0 <= i < |s| && !IsSpace(s[i]) ==> r != []
  {
    StripEnd(StripStart(s))
  }

  /** The number of whitespace characters `s` starts with. */
  function LeadingSpaces(s: string): (k: nat)
    ensures k <= |s|
    ensures forall j :: 0 <= j < k ==> IsSpace(s[j])
    ensures k < |s| ==> !IsSpace(s[k])
  {
    if s != [] && IsSpace(s[0]) then 1 + LeadingSpaces(s[1..]) else 0
  }

  function StripStart(s: string): (r: string)
    ensures |r| <= |s|
    ensures r != [] ==> !IsSpace(r[0])
    ensures r == s[LeadingSpaces(s)..]
  {
    s[LeadingSpaces(s)..]
  }

  function StripEnd(s: string): (r: string)
    ensures |r| <= |s|
    ensures r != [] ==> !IsSpace(r[|r| - 1])
    ensures r != [] ==> r[0] == s[0]
    ensures forall i :: 0 <= i < |s| && !IsSpace(s[i]) ==> r != []
  {
    if s != [] && IsSpace(s[|s| - 1]) then
      var r := StripEnd(s[..|s| - 1]);
      assert forall i :: 0 <= i < |s| - 1 ==> s[..|s| - 1][i] == s[i];
      r
    else s
  }

  /** Python's `s.split('\n')`: the pieces between newlines, at least one. */
  function SplitLines(s: string): (r: seq<string>)
    ensures |r| >= 1
    ensures forall k :: 0 <= k < |r| ==> '\n' !in r[k]
  {
    SplitFrom(s, [])
  }

  /** Splits `s` where the current piece so far is `cur`. */
  function SplitFrom(s: string, cur: string): (r: seq<string>)
    requires '\n' !in cur
    ensures |r| >= 1
    ensures forall k :: 0 <= k < |r| ==> '\n' !in r[k]
    decreases |s|
  {
    if s == [] then [cur]
    else if s[0] == '\n' then [cur] + SplitFrom(s[1..], [])
    else SplitFrom(s[1..], cur + [s[0]])
  }

  /** Joins the pieces with newlines: the inverse of `SplitLines`. */
  function JoinLines(lines: seq<string>): string
    requires |lines| >= 1
  {
    if |lines| == 1 then lines[0] else lines[0] + "\n" + JoinLines(lines[1..])
  }

  lemma {:induction false} SplitFromJoin(s: string, cur: string)
    requires '\n' !in cur
    ensures JoinLines(SplitFrom(s, cur)) == cur + s
    decreases |s|
  {
    if s == [] {
    } else if s[0] == '\n' {
      SplitFromJoin(s[1..], []);
      assert s == "\n" + s[1..];
    } else {
      SplitFromJoin(s[1..], cur + [s[0]]);
      assert s == [s[0]] + s[1..];
    }
  }

  /** Splitting on newlines loses nothing: joining the lines gives back the text. */
  lemma SplitJoin(s: string)
    ensures JoinLines(SplitLines(s)) == s
  {
    SplitFromJoin(s, []);
  }

  /** Decimal rendering of a natural number, as `str(n)` or an f-string gives it. */
  function NatToString(n: nat): (r: string)
    ensures |r| >= 1
    ensures forall i :: 0 <= i < |r| ==> '0' <= r[i] <= '9'
  {
    if n < 10 then [Digit(n)] else NatToString(n / 10) + [Digit(n % 10)]
  }

  function Digit(d: nat): (c: char)
    requires d < 10
    ensures '0' <= c <= '9' && c as int - '0' as int == d
  {
    ('0' as int + d) as char
  }

  /** Python's `s.replace(a, b)` for single characters. */
  function ReplaceChar(s: string, a: char, b: char): (r: string)
    ensures |r| == |s|
    ensures forall i :: 0 <= i < |s| ==> r[i] == if s[i] == a then b else s[i]
  {
    if s == [] then [] else [if s[0] == a then b else s[0]] + ReplaceChar(s[1..], a, b)
  }
}
