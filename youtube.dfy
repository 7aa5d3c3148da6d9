/**
 * The rewrite `html.replace(/\[youtube:([^\]]+)\]/g, (_, id) => <player for id>)`
 * applied to modal content before it is shown. The player markup is a
 * parameter `embed` of the rewrite, a function of the captured ID.
 */
module YouTube {
  import opened Options

  const Tag: string := "[youtube:"

  /** `id` is a nonempty run of characters other than `]`, the capture `([^\]]+)`. */
  predicate IsId(id: string) {
    |id| > 0 && forall k :: 0 <= k < |id| ==> id[k] != ']'
  }

  /** The pattern matches at the start of `s`, capturing `id`. */
  predicate MatchesAt(s: string, id: string) {
    IsId(id) && Tag + id + "]" <= s
  }

  /** Length of the longest prefix of `s` free of `]`: what the greedy `[^\]]+` consumes. */
  function RunLength(s: string): (n: nat)
    ensures n <= |s|
    ensures forall k :: 0 <= k < n ==> s[k] != ']'
    ensures n < |s| ==> s[n] == ']'
  {
    if s == [] || s[0] == ']' then 0 else 1 + RunLength(s[1..])
  }

  /** The match of the pattern at the start of `s`, if there is one. */
  function MatchAt(s: string): (r: Option<string>)
    ensures r.Some? ==> MatchesAt(s, r.value)
  {
    if |s| > |Tag| && s[..|Tag|] == Tag then
      var t := s[|Tag|..];
      var n := RunLength(t);
      if 0 < n && n < |t| then
        var id := t[..n];
        assert forall k :: 0 <= k < n ==> id[k] == t[k];
        assert Tag + id + "]" == s[..|Tag| + n + 1];
        Some(id)
      else None
    else None
  }

  /** The global, left-to-right replacement. */
  function Rewrite(s: string, embed: string -> string): string
    decreases |s|
  {
    if s == [] then []
    else match MatchAt(s)
      case Some(id) => embed(id) + Rewrite(s[|Tag| + |id| + 1..], embed)
      case None => [s[0]] + Rewrite(s[1..], embed)
  }

  /** `MatchAt` finds exactly the matches the pattern describes. */
  lemma MatchAtComplete(s: string, id: string)
    requires MatchesAt(s, id)
    ensures MatchAt(s) == Some(id)
  {
    var t := s[|Tag|..];
    assert s[..|Tag|] == Tag;
    assert t[..|id|] == id && t[|id|] == ']';
    assert forall k :: 0 <= k < |id| ==> t[k] == id[k];
    assert RunLength(t) == |id|;
  }

  /** The pattern matches at most one way at any position. */
  lemma MatchIsUnique(s: string, id1: string, id2: string)
    requires MatchesAt(s, id1) && MatchesAt(s, id2)
    ensures id1 == id2
  {
    MatchAtComplete(s, id1);
    MatchAtComplete(s, id2);
  }

  /** A placeholder with a well-formed ID is replaced by the player for exactly that ID. */
  lemma RewritePlaceholder(id: string, rest: string, embed: string -> string)
    requires IsId(id)
    ensures Rewrite(Tag + id + "]" + rest, embed) == embed(id) + Rewrite(rest, embed)
  {
    var s := Tag + id + "]" + rest;
    MatchAtComplete(s, id);
    assert s[|Tag| + |id| + 1..] == rest;
  }

  /** Text containing no `[` passes through unchanged, whatever follows it. */
  lemma {:induction false} PlainTextKept(a: string, rest: string, embed: string -> string)
    requires forall k :: 0 <= k < |a| ==> a[k] != '['
    ensures Rewrite(a + rest, embed) == a + Rewrite(rest, embed)
    decreases |a|
  {
    if a != [] {
      var s := a + rest;
      assert s[0] == a[0] != Tag[0];
      assert MatchAt(s) == None;
      assert s[1..] == a[1..] + rest;
      PlainTextKept(a[1..], rest, embed);
    } else {
      assert a + rest == rest;
    }
  }

  /** `[youtube:]`, with an empty ID, is left as it is. */
  lemma EmptyIdKept(rest: string, embed: string -> string)
    ensures Rewrite("[youtube:]" + rest, embed) == "[youtube:]" + Rewrite(rest, embed)
  {
    var s := "[youtube:]" + rest;
    assert RunLength(s[|Tag|..]) == 0;
    assert MatchAt(s) == None;
    assert s[1..] == "youtube:]" + rest;
    PlainTextKept("youtube:]", rest, embed);
  }

  /** Content in which the pattern matches nowhere is returned unchanged. */
  lemma {:induction false} NoPlaceholderKept(s: string, embed: string -> string)
    requires forall k :: 0 <= k < |s| ==> MatchAt(s[k..]) == None
    ensures Rewrite(s, embed) == s
    decreases |s|
  {
    if s != [] {
      assert s[0..] == s;
      forall k | 0 <= k < |s[1..]|
        ensures MatchAt(s[1..][k..]) == None
      {
        assert s[1..][k..] == s[k + 1..];
      }
      NoPlaceholderKept(s[1..], embed);
    }
  }

  /** The pattern needs a closing `]`. */
  lemma NoClosingBracketNoMatch(t: string)
    requires forall k :: 0 <= k < |t| ==> t[k] != ']'
    ensures MatchAt(t) == None
  {
  }

  /** Content without any `]` cannot hold a placeholder and is returned unchanged. */
  lemma NoClosingBracketKept(s: string, embed: string -> string)
    requires forall k :: 0 <= k < |s| ==> s[k] != ']'
    ensures Rewrite(s, embed) == s
  {
    forall k | 0 <= k < |s|
      ensures MatchAt(s[k..]) == None
    {
      assert forall j :: 0 <= j < |s[k..]| ==> s[k..][j] == s[k + j];
      NoClosingBracketNoMatch(s[k..]);
    }
    NoPlaceholderKept(s, embed);
  }

  /** The text the pattern matched for `id`. */
  function Placeholder(id: string): string {
    Tag + id + "]"
  }

  /**
   * Replacing every match by its own text returns the content unchanged:
   * only the matched placeholders are altered, and everything between them
   * is kept, in order.
   */
  lemma {:induction false} RewriteOnlyTouchesMatches(s: string)
    ensures Rewrite(s, Placeholder) == s
    decreases |s|
  {
    if s != [] {
      match MatchAt(s)
      case Some(id) =>
        var n := |Tag| + |id| + 1;
        assert s[..n] == Placeholder(id);
        RewriteOnlyTouchesMatches(s[n..]);
        assert s == s[..n] + s[n..];
      case None =>
        RewriteOnlyTouchesMatches(s[1..]);
        assert s == [s[0]] + s[1..];
    }
  }
}
