/**
 * The script block of a Vue single-file component, as the accumulator reads
 * it with the regular expression `<script.*?>([\s\S]*?)<\/script>`: from the
 * leftmost `<script` whose tag closes with `>` on the same line, the text
 * between that `>` and the next `</script>`.
 */
module ScriptBlocks {
  import opened Wrappers
  import opened Strings

  const ScriptOpen := "<script"
  const ScriptClose := "</script>"

  /** The characters `.` does not match: ECMAScript's line terminators. */
  predicate IsLineTerminator(c: char) {
    c == '\n' || c == '\r' || c == '\U{2028}' || c == '\U{2029}'
  }

  /** `<script.*?>` matches `s[p..q + 1]`: `q` is the first `>` after `<script`, with no line break before it. */
  ghost predicate OpensBlockAt(s: string, p: nat, q: nat) {
    && StartsAt(s, p, ScriptOpen)
    && p + |ScriptOpen| <= q < |s| && s[q] == '>'
    && forall k :: p + |ScriptOpen| <= k < q ==> s[k] != '>' && !IsLineTerminator(s[k])
  }

  /** `([\s\S]*?)<\/script>` matches from `q + 1`: `e` is the first `</script>` after `q`. */
  ghost predicate ClosesBlockAt(s: string, q: nat, e: nat) {
    && q < e && StartsAt(s, e, ScriptClose)
    && forall k :: q < k < e ==> !StartsAt(s, k, ScriptClose)
  }

  /** The whole pattern matches at `p`. */
  ghost predicate BlockAt(s: string, p: nat) {
    exists q: nat, e: nat :: OpensBlockAt(s, p, q) && ClosesBlockAt(s, q, e)
  }

  /** The first index from `i` on holding `>` or a line terminator, or `|s|`. */
  function TagEnd(s: string, i: nat): (q: nat)
    requires i <= |s|
    ensures i <= q <= |s|
    ensures forall k :: i <= k < q ==> s[k] != '>' && !IsLineTerminator(s[k])
    ensures q < |s| ==> s[q] == '>' || IsLineTerminator(s[q])
    decreases |s| - i
  {
    if i == |s| || s[i] == '>' || IsLineTerminator(s[i]) then i else TagEnd(s, i + 1)
  }

  /** The first index from `i` on where `</script>` starts, if any. */
  function FindClose(s: string, i: nat): (e: Option<nat>)
    requires i <= |s|
    ensures e.Some? ==> i <= e.value && StartsAt(s, e.value, ScriptClose)
    ensures e.Some? ==> forall k :: i <= k < e.value ==> !StartsAt(s, k, ScriptClose)
    ensures e.None? ==> forall k :: i <= k <= |s| ==> !StartsAt(s, k, ScriptClose)
    decreases |s| - i
  {
    if StartsAt(s, i, ScriptClose) then Some(i)
    else if i == |s| then None
    else FindClose(s, i + 1)
  }

  /** The pattern tried at `p`: the captured text, or `None` when it does not match there. */
  function BlockAtIndex(s: string, p: nat): Option<string>
    requires p <= |s|
  {
    if !StartsAt(s, p, ScriptOpen) then None
    else
      var q := TagEnd(s, p + |ScriptOpen|);
      if q == |s| || s[q] != '>' then None
      else match FindClose(s, q + 1)
        case None => None
        case Some(e) => Some(s[q + 1..e])
  }

  /** The pattern tried at `p` agrees with its declarative reading. */
  lemma BlockAtIndexMeaning(s: string, p: nat)
    requires p <= |s|
    ensures BlockAtIndex(s, p).Some? <==> BlockAt(s, p)
    ensures BlockAtIndex(s, p).Some? ==>
              exists q: nat, e: nat :: OpensBlockAt(s, p, q) && ClosesBlockAt(s, q, e) && BlockAtIndex(s, p).value == s[q + 1..e]
  {
    if StartsAt(s, p, ScriptOpen) {
      var q := TagEnd(s, p + |ScriptOpen|);
      if q < |s| && s[q] == '>' {
        assert OpensBlockAt(s, p, q);
        match FindClose(s, q + 1)
        case None =>
        case Some(e) =>
          assert ClosesBlockAt(s, q, e);
      }
    }
  }

  /** The `>` that closes the opening tag is the first one. */
  lemma OpeningIsUnique(s: string, p: nat, q: nat, q': nat)
    requires OpensBlockAt(s, p, q) && OpensBlockAt(s, p, q')
    ensures q == q'
  {
  }

  /** The pattern tried at every index from `p` on, leftmost first. */
  function SearchBlock(s: string, p: nat): Option<string>
    requires p <= |s|
    decreases |s| - p
  {
    if BlockAtIndex(s, p).Some? then BlockAtIndex(s, p)
    else if p == |s| then None
    else SearchBlock(s, p + 1)
  }

  /** The search finds a block exactly when the pattern matches at some index from `p` on. */
  lemma {:induction false} SearchBlockFinds(s: string, p: nat)
    requires p <= |s|
    ensures SearchBlock(s, p).Some? <==> exists p': nat :: p <= p' <= |s| && BlockAt(s, p')
    decreases |s| - p
  {
    BlockAtIndexMeaning(s, p);
    if BlockAtIndex(s, p).None? && p < |s| {
      SearchBlockFinds(s, p + 1);
      if exists p': nat :: p <= p' <= |s| && BlockAt(s, p') {
        var p': nat :| p <= p' <= |s| && BlockAt(s, p');
        assert p' != p;
      }
    }
  }

  /**
   * `content.match(/<script.*?>([\s\S]*?)<\/script>/)?.[1]`: the text
   * captured at the leftmost index where the pattern matches.
   */
  function ScriptBlock(content: string): (block: Option<string>)
    ensures block.Some? <==> exists p: nat :: p <= |content| && BlockAt(content, p)
  {
    SearchBlockFinds(content, 0);
    SearchBlock(content, 0)
  }

  /**
   * The captured text lies between the `>` closing the leftmost matching
   * `<script` tag and the first `</script>` after it.
   */
  lemma {:induction false} ScriptBlockIsLeftmostMatch(s: string, p: nat)
    requires p <= |s| && SearchBlock(s, p).Some?
    ensures exists p': nat, q: nat, e: nat ::
              && p <= p' && OpensBlockAt(s, p', q) && ClosesBlockAt(s, q, e)
              && SearchBlock(s, p).value == s[q + 1..e]
              && forall k: nat :: p <= k < p' ==> !BlockAt(s, k)
    decreases |s| - p
  {
    BlockAtIndexMeaning(s, p);
    if BlockAtIndex(s, p).None? {
      assert p < |s| && SearchBlock(s, p) == SearchBlock(s, p + 1);
      ScriptBlockIsLeftmostMatch(s, p + 1);
      var p': nat, q: nat, e: nat :|
        && p + 1 <= p' && OpensBlockAt(s, p', q) && ClosesBlockAt(s, q, e)
        && SearchBlock(s, p + 1).value == s[q + 1..e]
        && forall k: nat :: p + 1 <= k < p' ==> !BlockAt(s, k);
      NoBlockBefore(s, p, p');
    } else {
      var q: nat, e: nat :| OpensBlockAt(s, p, q) && ClosesBlockAt(s, q, e) && BlockAtIndex(s, p).value == s[q + 1..e];
      assert SearchBlock(s, p).value == s[q + 1..e];
      assert forall k: nat :: p <= k < p ==> !BlockAt(s, k);
    }
  }

  /** Where the pattern fails at `p` and at every index up to `p'`, it matches nowhere from `p` to `p'`. */
  lemma NoBlockBefore(s: string, p: nat, p': nat)
    requires p <= |s| && BlockAtIndex(s, p).None?
    requires forall k: nat :: p + 1 <= k < p' ==> !BlockAt(s, k)
    ensures forall k: nat :: p <= k < p' ==> !BlockAt(s, k)
  {
    BlockAtIndexMeaning(s, p);
  }

  /** Without any `</script>` there is no script block. */
  lemma NoCloseTagNoBlock(s: string)
    requires forall k :: 0 <= k <= |s| ==> !StartsAt(s, k, ScriptClose)
    ensures ScriptBlock(s) == None
  {
  }

  /** With no `<script` before `p`, a match at `p` is the one the search returns. */
  lemma FirstOpeningDecides(s: string, p: nat, q: nat, e: nat)
    requires OpensBlockAt(s, p, q) && ClosesBlockAt(s, q, e)
    requires forall k :: 0 <= k < p ==> !StartsAt(s, k, ScriptOpen)
    ensures ScriptBlock(s) == Some(s[q + 1..e])
  {
    SearchSkipsNonOpenings(s, 0, p);
    MatchAtIndex(s, p, q, e);
  }

  /** The search passes over indices where no `<script` starts. */
  lemma {:induction false} SearchSkipsNonOpenings(s: string, k: nat, p: nat)
    requires k <= p <= |s|
    requires forall j :: k <= j < p ==> !StartsAt(s, j, ScriptOpen)
    ensures SearchBlock(s, k) == SearchBlock(s, p)
    decreases p - k
  {
    if k < p {
      assert BlockAtIndex(s, k) == None;
      SearchSkipsNonOpenings(s, k + 1, p);
    }
  }

  /** Where the pattern matches, the pattern tried there captures the text between the tags. */
  lemma MatchAtIndex(s: string, p: nat, q: nat, e: nat)
    requires OpensBlockAt(s, p, q) && ClosesBlockAt(s, q, e)
    ensures p <= |s| && BlockAtIndex(s, p) == Some(s[q + 1..e])
  {
    var t := TagEnd(s, p + |ScriptOpen|);
    assert s[q] == '>';
    assert t <= q;
    assert t == q;
    var close := FindClose(s, q + 1);
    assert StartsAt(s, e, ScriptClose);
    assert close.Some?;
    assert close.value <= e;
    assert close.value == e;
  }

  /** A pattern absent from `a + pattern` except at its end is absent from `a + pattern + rest` before `|a|`. */
  lemma OnlyAtEnd(a: string, pattern: string, rest: string)
    requires forall k :: 0 <= k <= |a| ==> !StartsAt(a + pattern, k, pattern) || k == |a|
    ensures forall k :: 0 <= k < |a| ==> !StartsAt(a + pattern + rest, k, pattern)
  {
    var s := a + pattern + rest;
    var front := a + pattern;
    assert s[..|front|] == front;
    forall k | 0 <= k < |a| ensures !StartsAt(s, k, pattern) {
      assert front[k..k + |pattern|] == s[..|front|][k..k + |pattern|] == s[k..k + |pattern|];
      assert StartsAt(s, k, pattern) <==> StartsAt(front, k, pattern);
    }
  }

  /**
   * A `<script` tag closed on its own line, followed by the body and
   * `</script>`, with no earlier `<script`: the block is exactly the body.
   */
  lemma SingleBlock(pre: string, attributes: string, body: string, post: string)
    requires forall k :: 0 <= k <= |pre| ==> !StartsAt(pre + ScriptOpen, k, ScriptOpen) || k == |pre|
    requires forall k :: 0 <= k < |attributes| ==> attributes[k] != '>' && !IsLineTerminator(attributes[k])
    requires forall k :: 0 <= k <= |body| ==> !StartsAt(body + ScriptClose, k, ScriptClose) || k == |body|
    ensures ScriptBlock(pre + ScriptOpen + attributes + ">" + body + ScriptClose + post) == Some(body)
  {
    var head := pre + ScriptOpen + attributes + ">";
    var s := head + (body + ScriptClose + post);
    assert s == pre + ScriptOpen + attributes + ">" + body + ScriptClose + post;
    OpensAfterPrefix(pre, attributes, body + ScriptClose + post);
    ClosesAfterBody(head, body, post);
    var q, e := |head| - 1, |head| + |body|;
    assert s[q + 1..e] == body;
    FirstOpeningDecides(s, |pre|, q, e);
  }

  /** The `<script` tag right after `pre` opens a block, and none opens earlier. */
  lemma OpensAfterPrefix(pre: string, attributes: string, rest: string)
    requires forall k :: 0 <= k <= |pre| ==> !StartsAt(pre + ScriptOpen, k, ScriptOpen) || k == |pre|
    requires forall k :: 0 <= k < |attributes| ==> attributes[k] != '>' && !IsLineTerminator(attributes[k])
    ensures var s := pre + ScriptOpen + attributes + ">" + rest;
      && OpensBlockAt(s, |pre|, |pre| + |ScriptOpen| + |attributes|)
      && forall k :: 0 <= k < |pre| ==> !StartsAt(s, k, ScriptOpen)
  {
    var s := pre + ScriptOpen + attributes + ">" + rest;
    assert s == pre + ScriptOpen + (attributes + ">" + rest);
    OnlyAtEnd(pre, ScriptOpen, attributes + ">" + rest);
    var p := |pre|;
    assert s[p..p + |ScriptOpen|] == ScriptOpen;
    forall k | p + |ScriptOpen| <= k < p + |ScriptOpen| + |attributes|
      ensures s[k] != '>' && !IsLineTerminator(s[k])
    {
      assert s[k] == attributes[k - p - |ScriptOpen|];
    }
  }

  /** The first `</script>` after `head` is the one right after `body`. */
  lemma ClosesAfterBody(head: string, body: string, post: string)
    requires head != []
    requires forall k :: 0 <= k <= |body| ==> !StartsAt(body + ScriptClose, k, ScriptClose) || k == |body|
    ensures ClosesBlockAt(head + (body + ScriptClose + post), |head| - 1, |head| + |body|)
  {
    var tail := body + ScriptClose + post;
    var s := head + tail;
    var q, e := |head| - 1, |head| + |body|;
    OnlyAtEnd(body, ScriptClose, post);
    forall k | q < k <= e ensures StartsAt(s, k, ScriptClose) <==> StartsAt(tail, k - q - 1, ScriptClose) {
      assert s[k..] == tail[k - q - 1..];
    }
  }
}
