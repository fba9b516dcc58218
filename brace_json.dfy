/**
 * The JSON extraction shared by both analysis engines: the reply text from
 * its first `{` to its last `}` inclusive, taken only when both characters
 * occur (`content[content.find("{"):content.rfind("}") + 1]`).
 */
module BraceJson {
  import opened Wrappers
  import opened Text

  function JsonCandidate(content: string): (r: Option<string>)
    ensures r.Some? <==> '{' in content && '}' in content
    ensures r.Some? && r.value != [] ==> r.value[0] == '{' && r.value[|r.value| - 1] == '}'
    ensures r.Some? ==>
      (r.value == [] <==>
        forall a, b :: 0 <= a < |content| && 0 <= b < |content| && content[a] == '{' && content[b] == '}' ==> b < a)
  {
    if Contains(content, "{") && Contains(content, "}") then
      var start := Find(content, "{");
      var end := RFind(content, "}") + 1;
      CharOccurs(content, '{', start);
      CharOccurs(content, '}', end - 1);
      assert forall b :: 0 <= b < |content| && content[b] == '}' ==> b < end by {
        forall b | 0 <= b < |content| && content[b] == '}'
          ensures b < end
        {
          CharOccurs(content, '}', b);
        }
      }
      assert forall a :: 0 <= a < |content| && content[a] == '{' ==> start <= a by {
        forall a | 0 <= a < |content| && content[a] == '{'
          ensures start <= a
        {
          CharOccurs(content, '{', a);
        }
      }
      Some(Slice(content, start, end))
    else
      NoChar(content, '{');
      NoChar(content, '}');
      None
  }

  /** A `}` before the only `{` gives an empty candidate, the slice `content[2:1]`. */
  lemma ReversedBracesEmpty()
    ensures JsonCandidate("} {") == Some("")
  {
    var content := "} {";
    assert content[0] == '}' && content[2] == '{' && content[1] == ' ';
  }

  /** A one-character pattern occurs exactly where that character stands. */
  lemma CharOccurs(s: string, c: char, i: int)
    ensures OccursAt(s, [c], i) <==> 0 <= i < |s| && s[i] == c
  {
    if 0 <= i < |s| {
      assert s[i..i + 1] == [s[i]];
    }
  }

  lemma NoChar(s: string, c: char)
    ensures Contains(s, [c]) <==> c in s
  {
    if c in s {
      var i :| 0 <= i < |s| && s[i] == c;
      CharOccurs(s, c, i);
    }
    if Contains(s, [c]) {
      var i :| 0 <= i <= |s| - 1 && OccursAt(s, [c], i);
      CharOccurs(s, c, i);
    }
  }

  /**
   * A non-empty candidate is the stretch of `content` that starts at its
   * first `{` and ends at its last `}`.
   */
  lemma JsonCandidateSpan(content: string) returns (start: nat, end: nat)
    requires JsonCandidate(content).Some? && JsonCandidate(content).value != []
    ensures start < end <= |content|
    ensures JsonCandidate(content).value == content[start..end]
    ensures content[start] == '{' && forall k :: 0 <= k < start ==> content[k] != '{'
    ensures content[end - 1] == '}' && forall k :: end <= k < |content| ==> content[k] != '}'
  {
    NoChar(content, '{');
    NoChar(content, '}');
    start := Find(content, "{");
    end := RFind(content, "}") + 1;
    CharOccurs(content, '{', start);
    CharOccurs(content, '}', end - 1);
    forall k | 0 <= k < start
      ensures content[k] != '{'
    {
      CharOccurs(content, '{', k);
    }
    forall k | end <= k < |content|
      ensures content[k] != '}'
    {
      CharOccurs(content, '}', k);
    }
  }
}
