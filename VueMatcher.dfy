/**
 * The script-kind matcher for Vue single-file components
 * (`getVueSfcScriptType`): two regular expressions tried in order,
 *   tsPattern  <script\s+(setup\s+)?lang="ts"
 *   jsPattern  <script(?![^>]*\blang="ts")[^>]*>
 * each written here twice: as a declarative statement of where the pattern
 * matches, and as a left-to-right scan, proved to agree.
 */
module VueMatcher {
  import opened Strings

  /** The matcher's three answers: 'ts', 'js' and null. */
  datatype ScriptKind = Ts | Js | NoScript

  const ScriptOpen := "<script"
  const Setup := "setup"
  const LangTs := "lang=\"ts\""

  /** The characters of the regular-expression class `\w`. */
  predicate IsWordChar(c: char) {
    ('a' <= c <= 'z') || ('A' <= c <= 'Z') || ('0' <= c <= '9') || c == '_'
  }

  /** A nonempty run of whitespace (`\s+`) spans `s[from..to]`. */
  predicate WhitespaceRun(s: string, from: nat, to: nat) {
    from < to <= |s| && AllWhitespace(s[from..to])
  }

  /** After the first whitespace run of tsPattern: `lang="ts"`, or `setup`, whitespace and `lang="ts"`. */
  ghost predicate TsAttributesAt(s: string, j: nat) {
    || StartsAt(s, j, LangTs)
    || (StartsAt(s, j, Setup) && exists k: nat :: WhitespaceRun(s, j + |Setup|, k) && StartsAt(s, k, LangTs))
  }

  /** tsPattern matches at index `i`: `<script`, whitespace, optionally `setup` and whitespace, then `lang="ts"`. */
  ghost predicate TsTagAt(s: string, i: nat) {
    && StartsAt(s, i, ScriptOpen)
    && exists j: nat :: WhitespaceRun(s, i + |ScriptOpen|, j) && TsAttributesAt(s, j)
  }

  /** `tsPattern.test(s)`. */
  ghost predicate HasTsTag(s: string) {
    exists i :: 0 <= i <= |s| && TsTagAt(s, i)
  }

  /**
   * The lookahead of jsPattern fails at `m` for the tag opened at `i`:
   * `lang="ts"` starts at `m`, after a character that is not a word character
   * (the `\b`), and no `>` lies between `<script` and `m`.
   */
  predicate LangTsInOpenTag(s: string, i: nat, m: nat) {
    i + |ScriptOpen| <= m <= |s| && '>' !in s[i + |ScriptOpen|..m] && !IsWordChar(s[m - 1]) && StartsAt(s, m, LangTs)
  }

  /**
   * jsPattern matches at index `i`: `<script`, then no `lang="ts"` at a word
   * boundary before the next `>`, and a `>` does follow.
   */
  ghost predicate JsTagAt(s: string, i: nat) {
    && StartsAt(s, i, ScriptOpen)
    && (exists q :: i + |ScriptOpen| <= q < |s| && s[q] == '>')
    && !exists m: nat :: LangTsInOpenTag(s, i, m)
  }

  /** `jsPattern.test(s)`. */
  ghost predicate HasJsTag(s: string) {
    exists i :: 0 <= i <= |s| && JsTagAt(s, i)
  }

  /** The index of the first `c` at or after `i`, or `|s|`. */
  function FindChar(s: string, c: char, i: nat): (r: nat)
    requires i <= |s|
    ensures i <= r <= |s|
    ensures c !in s[i..r]
    ensures r < |s| ==> s[r] == c
    decreases |s| - i
  {
    if i == |s| || s[i] == c then i
    else
      var r := FindChar(s, c, i + 1);
      assert s[i..r] == [s[i]] + s[i + 1..r];
      r
  }

  /** The scan for tsPattern at `i`: each whitespace run is taken whole. */
  predicate TsTagMatchesAt(s: string, i: nat) {
    && StartsAt(s, i, ScriptOpen)
    && var j := SkipWhitespace(s, i + |ScriptOpen|);
       && j > i + |ScriptOpen|
       && (|| StartsAt(s, j, LangTs)
           || (&& StartsAt(s, j, Setup)
               && var k := SkipWhitespace(s, j + |Setup|);
                  k > j + |Setup| && StartsAt(s, k, LangTs)))
  }

  /** Whether `lang="ts"` follows a non-word character at some index from `m` up to, not including, `end`. */
  function LangTsBefore(s: string, m: nat, end: nat): (found: bool)
    requires 1 <= m <= end <= |s|
    ensures found <==> exists p :: m <= p < end && !IsWordChar(s[p - 1]) && StartsAt(s, p, LangTs)
    decreases end - m
  {
    if m == end then false
    else if !IsWordChar(s[m - 1]) && StartsAt(s, m, LangTs) then true
    else LangTsBefore(s, m + 1, end)
  }

  /** The scan for jsPattern at `i`: find the first `>`, then look for `lang="ts"` before it. */
  predicate JsTagMatchesAt(s: string, i: nat) {
    && StartsAt(s, i, ScriptOpen)
    && var q := FindChar(s, '>', i + |ScriptOpen|);
       q < |s| && !LangTsBefore(s, i + |ScriptOpen|, q)
  }

  /** tsPattern tried at every index from `i` on. */
  function SearchTs(s: string, i: nat): (found: bool)
    requires i <= |s|
    ensures found <==> exists p :: i <= p <= |s| && TsTagAt(s, p)
    decreases |s| - i
  {
    TsScanAgrees(s, i);
    if TsTagMatchesAt(s, i) then true
    else if i == |s| then false
    else SearchTs(s, i + 1)
  }

  /** jsPattern tried at every index from `i` on. */
  function SearchJs(s: string, i: nat): (found: bool)
    requires i <= |s|
    ensures found <==> exists p :: i <= p <= |s| && JsTagAt(s, p)
    decreases |s| - i
  {
    JsScanAgrees(s, i);
    if JsTagMatchesAt(s, i) then true
    else if i == |s| then false
    else SearchJs(s, i + 1)
  }

  /** `getVueSfcScriptType(content)`: tsPattern first, then jsPattern, else null. */
  function GetVueSfcScriptType(content: string): (kind: ScriptKind)
    ensures kind == Ts <==> HasTsTag(content)
    ensures kind == Js <==> !HasTsTag(content) && HasJsTag(content)
    ensures kind == NoScript <==> !HasTsTag(content) && !HasJsTag(content)
  {
    if SearchTs(content, 0) then Ts
    else if SearchJs(content, 0) then Js
    else NoScript
  }

  /** The whitespace run after `from` is nonempty and taken whole, so it ends where the skip stops. */
  lemma WhitespaceRunEndsAtSkip(s: string, from: nat, to: nat, c: char)
    requires WhitespaceRun(s, from, to) && to < |s| && s[to] == c && !IsWhitespace(c)
    ensures SkipWhitespace(s, from) == to
  {
  }

  /** A match the scan for tsPattern finds is a match of the pattern. */
  lemma TsScanSound(s: string, i: nat)
    requires TsTagMatchesAt(s, i)
    ensures TsTagAt(s, i)
  {
    var from := i + |ScriptOpen|;
    var j := SkipWhitespace(s, from);
    assert WhitespaceRun(s, from, j);
    if !StartsAt(s, j, LangTs) {
      var k := SkipWhitespace(s, j + |Setup|);
      assert WhitespaceRun(s, j + |Setup|, k);
    }
    assert TsAttributesAt(s, j);
  }

  /** A text starting with a nonempty `pattern` at `j` holds the pattern's first character there. */
  lemma StartsAtFirst(s: string, j: nat, pattern: string)
    requires StartsAt(s, j, pattern) && pattern != []
    ensures j < |s| && s[j] == pattern[0]
  {
    assert s[j..j + |pattern|][0] == s[j];
  }

  /** Every match of tsPattern is found by the scan. */
  lemma TsScanComplete(s: string, i: nat)
    requires TsTagAt(s, i)
    ensures TsTagMatchesAt(s, i)
  {
    var from := i + |ScriptOpen|;
    var j: nat :| WhitespaceRun(s, from, j) && TsAttributesAt(s, j);
    SkipReachesAttributes(s, from, j);
    if !StartsAt(s, j, LangTs) {
      SetupScanComplete(s, j);
    }
  }

  /** The whitespace run before the attributes of tsPattern ends where the skip stops. */
  lemma SkipReachesAttributes(s: string, from: nat, j: nat)
    requires WhitespaceRun(s, from, j) && TsAttributesAt(s, j)
    ensures SkipWhitespace(s, from) == j
  {
    if StartsAt(s, j, LangTs) {
      StartsAtFirst(s, j, LangTs);
      WhitespaceRunEndsAtSkip(s, from, j, 'l');
    } else {
      StartsAtFirst(s, j, Setup);
      WhitespaceRunEndsAtSkip(s, from, j, 's');
    }
  }

  /** `setup`, whitespace and `lang="ts"` at `j` are found by skipping the whitespace after `setup`. */
  lemma SetupScanComplete(s: string, j: nat)
    requires StartsAt(s, j, Setup) && exists k: nat :: WhitespaceRun(s, j + |Setup|, k) && StartsAt(s, k, LangTs)
    ensures var k := SkipWhitespace(s, j + |Setup|); k > j + |Setup| && StartsAt(s, k, LangTs)
  {
    var k: nat :| WhitespaceRun(s, j + |Setup|, k) && StartsAt(s, k, LangTs);
    StartsAtFirst(s, k, LangTs);
    WhitespaceRunEndsAtSkip(s, j + |Setup|, k, 'l');
  }

  /** The scan for tsPattern at `i` agrees with its declarative reading. */
  lemma TsScanAgrees(s: string, i: nat)
    ensures TsTagMatchesAt(s, i) <==> TsTagAt(s, i)
  {
    if TsTagMatchesAt(s, i) {
      TsScanSound(s, i);
    }
    if TsTagAt(s, i) {
      TsScanComplete(s, i);
    }
  }

  /** The scan for jsPattern at `i` agrees with its declarative reading. */
  lemma JsScanAgrees(s: string, i: nat)
    ensures JsTagMatchesAt(s, i) <==> JsTagAt(s, i)
  {
    if StartsAt(s, i, ScriptOpen) {
      var from := i + |ScriptOpen|;
      var q := FindChar(s, '>', from);
      if q < |s| {
        LangTsBeforeClose(s, i, q);
      } else {
        forall p | from <= p < |s| ensures s[p] != '>' {
          CharInSlice(s, from, |s|, p);
        }
      }
    }
  }

  /** Before the first `>` of the tag, the scan finds `lang="ts"` exactly where the lookahead of jsPattern does. */
  lemma LangTsBeforeClose(s: string, i: nat, q: nat)
    requires StartsAt(s, i, ScriptOpen) && q < |s|
    requires q == FindChar(s, '>', i + |ScriptOpen|)
    ensures LangTsBefore(s, i + |ScriptOpen|, q) <==> exists m: nat :: LangTsInOpenTag(s, i, m)
  {
    var from := i + |ScriptOpen|;
    if LangTsBefore(s, from, q) {
      var p :| from <= p < q && !IsWordChar(s[p - 1]) && StartsAt(s, p, LangTs);
      LangTsBeforeCloseInOpenTag(s, i, q, p);
    }
    forall m: nat | LangTsInOpenTag(s, i, m) ensures from <= m < q {
      CharInSlice(s, from, m, q);
      StartsAtFirst(s, m, LangTs);
    }
  }

  /** A `lang="ts"` the scan finds before the first `>` is one the lookahead sees. */
  lemma LangTsBeforeCloseInOpenTag(s: string, i: nat, q: nat, p: nat)
    requires i + |ScriptOpen| <= p < q <= |s| && '>' !in s[i + |ScriptOpen|..q]
    requires !IsWordChar(s[p - 1]) && StartsAt(s, p, LangTs)
    ensures LangTsInOpenTag(s, i, p)
  {
    var from := i + |ScriptOpen|;
    assert s[from..p] == s[from..q][..p - from];
  }

  /** A character of `s` between `a` and `b` is in the slice `s[a..b]`. */
  lemma CharInSlice(s: string, a: nat, b: nat, k: nat)
    ensures a <= k < b <= |s| ==> s[k] in s[a..b]
  {
    if a <= k < b <= |s| {
      assert s[a..b][k - a] == s[k];
    }
  }

  /** `<script`, a whitespace run and `lang="ts"` anywhere in the text make it 'ts', whatever else the text holds. */
  lemma TsTagGivesTs(pre: string, gap: string, post: string)
    requires gap != [] && AllWhitespace(gap)
    ensures GetVueSfcScriptType(pre + ScriptOpen + gap + LangTs + post) == Ts
  {
    var s := pre + ScriptOpen + gap + LangTs + post;
    var i := |pre|;
    var j := i + |ScriptOpen| + |gap|;
    assert s[i..i + |ScriptOpen|] == ScriptOpen;
    assert s[i + |ScriptOpen|..j] == gap;
    assert s[j..j + |LangTs|] == LangTs;
    assert WhitespaceRun(s, i + |ScriptOpen|, j) && TsAttributesAt(s, j);
    assert TsTagAt(s, i);
  }

  /** The same with `setup` and a second whitespace run before `lang="ts"`. */
  lemma SetupTsTagGivesTs(pre: string, gap: string, gap': string, post: string)
    requires gap != [] && AllWhitespace(gap) && gap' != [] && AllWhitespace(gap')
    ensures GetVueSfcScriptType(pre + ScriptOpen + gap + Setup + gap' + LangTs + post) == Ts
  {
    var s := pre + ScriptOpen + gap + Setup + gap' + LangTs + post;
    var i := |pre|;
    var j := i + |ScriptOpen| + |gap|;
    var k := j + |Setup| + |gap'|;
    assert s[i..i + |ScriptOpen|] == ScriptOpen;
    assert s[i + |ScriptOpen|..j] == gap;
    assert s[j..j + |Setup|] == Setup;
    assert s[j + |Setup|..k] == gap';
    assert s[k..k + |LangTs|] == LangTs;
    assert WhitespaceRun(s, j + |Setup|, k) && StartsAt(s, k, LangTs);
    assert WhitespaceRun(s, i + |ScriptOpen|, j) && TsAttributesAt(s, j);
    assert TsTagAt(s, i);
  }

  /** No `<script` starts anywhere in `s`. */
  ghost predicate NoOpenTag(s: string) {
    forall p: nat :: !StartsAt(s, p, ScriptOpen)
  }

  /** Both patterns begin with `<script`, so a text without it is a component without a script block. */
  lemma NoOpenTagGivesNull(s: string)
    requires NoOpenTag(s)
    ensures GetVueSfcScriptType(s) == NoScript
  {
  }

  /** A text with no `c` holds no `<script`. */
  lemma NoOpenTagWithoutC(s: string)
    requires 'c' !in s
    ensures NoOpenTag(s)
  {
    forall p: nat | StartsAt(s, p, ScriptOpen) ensures false {
      StartsAtThird(s, p);
    }
  }

  /** A text that is empty or ends with `>` cannot hold the start of a `<script` that runs past its end. */
  predicate EndsTag(s: string) {
    s == [] || s[|s| - 1] == '>'
  }

  /**
   * Where `<script` starts in `a + b` when `a` ends a tag: inside `a`, or
   * inside `b`, never across the join.
   */
  lemma OpenTagInConcat(a: string, b: string, p: nat)
    requires EndsTag(a) && StartsAt(a + b, p, ScriptOpen)
    ensures || (p + |ScriptOpen| <= |a| && StartsAt(a, p, ScriptOpen))
            || (p >= |a| && StartsAt(b, p - |a|, ScriptOpen))
  {
    var s := a + b;
    if p < |a| < p + |ScriptOpen| {
      StartsAtHasNoClose(s, p, |a| - 1);
      assert false;
    }
    if p + |ScriptOpen| <= |a| {
      assert a[p..p + |ScriptOpen|] == s[p..p + |ScriptOpen|];
    } else {
      assert b[p - |a|..p - |a| + |ScriptOpen|] == s[p..p + |ScriptOpen|];
    }
  }

  /** Two texts without `<script`, the first ending a tag, give a text without it. */
  lemma NoOpenTagAppend(a: string, b: string)
    requires NoOpenTag(a) && NoOpenTag(b) && EndsTag(a)
    ensures NoOpenTag(a + b)
  {
    forall p: nat | StartsAt(a + b, p, ScriptOpen) ensures false {
      OpenTagInConcat(a, b, p);
    }
  }

  /** The third character of a `<script` is `c`. */
  lemma StartsAtThird(s: string, p: nat)
    requires StartsAt(s, p, ScriptOpen)
    ensures s[p + 2] == 'c'
  {
    assert s[p..p + |ScriptOpen|][2] == s[p + 2];
  }

  /** A `<script` holds no `>`. */
  lemma StartsAtHasNoClose(s: string, p: nat, k: nat)
    requires StartsAt(s, p, ScriptOpen) && p <= k < p + |ScriptOpen|
    ensures s[k] != '>'
  {
    assert s[p..p + |ScriptOpen|][k - p] == s[k];
  }

  /** In `<script` + `attributes` + `>`, with no `<` in the attributes, the only `<` is the first character. */
  lemma OpenTagHasOneAngle(attributes: string, q: nat)
    requires '<' !in attributes && 0 < q < |ScriptOpen + attributes + ">"|
    ensures (ScriptOpen + attributes + ">")[q] != '<'
  {
    var tag := ScriptOpen + attributes + ">";
    if q < |ScriptOpen| {
      assert tag[q] == ScriptOpen[q];
    } else if q < |ScriptOpen| + |attributes| {
      assert tag[q] == attributes[q - |ScriptOpen|];
    }
  }

  /**
   * An opening tag `<script` + `attributes` + `>` whose attributes hold no
   * `<`, between texts without `<script` of which the first ends a tag, is
   * the only place where either pattern can match, so it alone decides the
   * kind.
   */
  lemma OnlyOpenTagDecides(pre: string, attributes: string, post: string)
    requires NoOpenTag(pre) && EndsTag(pre) && NoOpenTag(post) && '<' !in attributes
    ensures var s := pre + ScriptOpen + attributes + ">" + post;
            && (HasTsTag(s) <==> TsTagAt(s, |pre|))
            && (HasJsTag(s) <==> JsTagAt(s, |pre|))
  {
    var tag := ScriptOpen + attributes + ">";
    var s := pre + ScriptOpen + attributes + ">" + post;
    assert s == pre + (tag + post);
    forall p: nat | StartsAt(s, p, ScriptOpen) ensures p == |pre| {
      OpenTagInConcat(pre, tag + post, p);
      var q := p - |pre|;
      StartsAtFirst(tag + post, q, ScriptOpen);
      if 0 < q < |tag| {
        OpenTagHasOneAngle(attributes, q);
        assert false;
      } else if q >= |tag| {
        OpenTagInConcat(tag, post, q);
        assert false;
      }
    }
  }

  /**
   * jsPattern matches an opening tag `<script` + `attributes` + `>` whose
   * attributes hold no `>` exactly when no `lang="ts"` in the attributes
   * follows a character that is not a word character.
   */
  lemma JsTagAtOpenTag(pre: string, attributes: string, post: string)
    requires '>' !in attributes
    ensures JsTagAt(pre + ScriptOpen + attributes + ">" + post, |pre|) <==>
              !exists m: nat :: 1 <= m && StartsAt(attributes, m, LangTs) && !IsWordChar(attributes[m - 1])
  {
    var s := pre + ScriptOpen + attributes + ">" + post;
    var from := |pre| + |ScriptOpen|;
    var close := from + |attributes|;
    assert s[|pre|..from] == ScriptOpen;
    assert s[from..close] == attributes;
    assert s[close] == '>';
    forall m: nat | LangTsInOpenTag(s, |pre|, m)
      ensures m - from >= 1 && StartsAt(attributes, m - from, LangTs) && !IsWordChar(attributes[m - from - 1])
    {
      if m > close || m + |LangTs| > close || m == from {
        assert false;
      }
      assert attributes[m - from..m - from + |LangTs|] == s[m..m + |LangTs|];
    }
    forall m: nat | 1 <= m && StartsAt(attributes, m, LangTs) && !IsWordChar(attributes[m - 1])
      ensures LangTsInOpenTag(s, |pre|, from + m)
    {
      assert s[from + m..from + m + |LangTs|] == attributes[m..m + |LangTs|];
      assert s[from..from + m] == attributes[..m];
    }
    assert s[close] == '>' && from <= close < |s|;
  }

  /** tsPattern fails at a `<script` not followed by whitespace. */
  lemma NotTsWithoutGap(s: string, i: nat)
    requires StartsAt(s, i, ScriptOpen) && i + |ScriptOpen| < |s| && !IsWhitespace(s[i + |ScriptOpen|])
    ensures !TsTagAt(s, i)
  {
    TsScanAgrees(s, i);
  }

  /** tsPattern fails at a `<script` whose whitespace run is followed by neither `lang="ts"` nor `setup`. */
  lemma NotTsAfterGap(s: string, i: nat, j: nat)
    requires StartsAt(s, i, ScriptOpen) && WhitespaceRun(s, i + |ScriptOpen|, j) && j < |s| && !IsWhitespace(s[j])
    requires !StartsAt(s, j, LangTs) && !StartsAt(s, j, Setup)
    ensures !TsTagAt(s, i)
  {
    TsScanAgrees(s, i);
    SkipPaddingSlice(s, j, i + |ScriptOpen|);
  }

  /** tsPattern fails at `<script`, whitespace and `setup` not followed by whitespace and `lang="ts"`. */
  lemma NotTsAfterSetup(s: string, i: nat, j: nat, k: nat)
    requires StartsAt(s, i, ScriptOpen) && WhitespaceRun(s, i + |ScriptOpen|, j) && StartsAt(s, j, Setup)
    requires j + |Setup| <= k < |s| && AllWhitespace(s[j + |Setup|..k]) && !IsWhitespace(s[k])
    requires k == j + |Setup| || !StartsAt(s, k, LangTs)
    ensures !TsTagAt(s, i)
  {
    TsScanAgrees(s, i);
    StartsAtFirst(s, j, Setup);
    SkipPaddingSlice(s, j, i + |ScriptOpen|);
    SkipPaddingSlice(s, k, j + |Setup|);
  }
}
