/**
 * Text helpers of the data-extraction stage: the cleanup applied to every
 * model reply that should hold SQL, and the test that decides whether a
 * failed query is worth one repair attempt.
 */
module Replies {
  import opened Text

  /** A markdown code fence. */
  const Fence: string := "```"

  /** Drops one leading lower-case `sql` language tag. */
  function DropSqlTag(s: string): (r: string)
    ensures |r| <= |s| && r == s[|s| - |r|..]
  {
    if StartsWith(s, "sql") then s[3..] else s
  }

  /** The reply cleanup: strip; if the text opens with a fence, keep what lies
      between the first and the second fence (`split("```")[1]`), drop a
      leading `sql` tag and strip again. */
  function CleanReply(content: string): (r: string)
  {
    var t := Strip(content);
    if StartsWith(t, Fence) then Strip(DropSqlTag(UpTo(t[|Fence|..], Fence)))
    else t
  }

  /** Text without a fence has no fence in any of its slices. */
  lemma NoFenceInSlice(s: string, a: int, b: int)
    requires 0 <= a <= b <= |s| && !Contains(s, Fence)
    ensures !Contains(s[a..b], Fence)
  {
    if Contains(s[a..b], Fence) {
      ContainsInSlice(s, a, b, Fence);
    }
  }

  lemma NoFenceAfterTag(inner: string)
    requires !Contains(inner, Fence)
    ensures !Contains(DropSqlTag(inner), Fence)
  {
    var body := DropSqlTag(inner);
    assert body == inner[|inner| - |body|..|inner|];
    NoFenceInSlice(inner, |inner| - |body|, |inner|);
  }

  lemma NoFenceAfterStrip(body: string)
    requires !Contains(body, Fence)
    ensures !Contains(Strip(body), Fence)
  {
    var start := |body| - |TrimStart(body)|;
    NoFenceInSlice(body, start, start + |Strip(body)|);
  }

  /** What is left of a fenced reply holds no fence. */
  lemma FencedPartHasNoFence(t: string)
    requires StartsWith(t, Fence)
    ensures !Contains(Strip(DropSqlTag(UpTo(t[|Fence|..], Fence))), Fence)
  {
    var inner := UpTo(t[|Fence|..], Fence);
    NoFenceAfterTag(inner);
    NoFenceAfterStrip(DropSqlTag(inner));
  }

  /** The cleaned text is stripped and never opens with a fence; when the
      reply was fenced it holds no fence at all. */
  lemma CleanReplyShape(content: string)
    ensures Strip(CleanReply(content)) == CleanReply(content)
    ensures !StartsWith(CleanReply(content), Fence)
    ensures StartsWith(Strip(content), Fence) ==> !Contains(CleanReply(content), Fence)
  {
    var t := Strip(content);
    if StartsWith(t, Fence) {
      FencedPartHasNoFence(t);
      StripIdempotent(DropSqlTag(UpTo(t[|Fence|..], Fence)));
    } else {
      StripIdempotent(content);
    }
  }

  /** Cleaning an already cleaned reply changes nothing. */
  lemma CleanReplyIdempotent(content: string)
    ensures CleanReply(CleanReply(content)) == CleanReply(content)
  {
    CleanReplyShape(content);
  }

  /** The lower-case markers of SQL errors the extraction stage tries to
      repair. */
  const FixableKeywords: seq<string> := [
    "sum(varchar)", "type", "strftime", "date", "parser",
    "syntax", "union", "table", "does not exist", "catalog error",
    "binder error", "conversion error", "list_aggr", "no function matches",
    "string_agg", "group_concat", "referenced column", "not found"
  ]

  /** An execution error is fixable when its lower-cased message contains one
      of the keywords. */
  predicate IsFixable(message: string)
  {
    ContainsAny(Lower(message), FixableKeywords)
  }

  lemma IsFixableIff(message: string)
    ensures IsFixable(message) <==> exists k :: 0 <= k < |FixableKeywords| && Contains(Lower(message), FixableKeywords[k])
  {
    ContainsAnyIff(Lower(message), FixableKeywords);
  }

  /** The test ignores case: a message and its lower-cased form are judged
      alike. */
  lemma IsFixableIgnoresCase(message: string)
    ensures IsFixable(Lower(message)) == IsFixable(message)
  {
    LowerIdempotent(message);
  }

  /** A DuckDB syntax error is fixable, whatever its capitals. */
  lemma SyntaxErrorIsFixable()
    ensures IsFixable("Syntax Error")
  {
    var low := "syntax error";
    assert Lower("Syntax Error") == low;
    assert StartsWith(low, "syntax");
    ContainsAnyIff(low, FixableKeywords);
    assert FixableKeywords[5] == "syntax";
  }
}
