/**
 * The patterns a scan ignores: the default patterns followed by the lines
 * of the scanned directory's `.gitignore`, and the test of a path against
 * them. The glob matcher itself is a parameter.
 */
module IgnorePatterns {
  import opened Wrappers
  import opened Strings
  import opened Constants

  /** A trimmed `.gitignore` line that is kept: not empty and not a `#` comment. */
  predicate IsPattern(trimmedLine: string) {
    trimmedLine != [] && !StartsWith(trimmedLine, "#")
  }

  /** What the `map(trim)` and `filter` of `getIgnorePatterns` make of one line. */
  function KeptLine(line: string): seq<string> {
    var pattern := Trim(line);
    if IsPattern(pattern) then [pattern] else []
  }

  /** The `map(trim)` and `filter` of `getIgnorePatterns` over the lines from the first. */
  function KeptPatterns(lines: seq<string>): seq<string>
    decreases lines
  {
    if lines == [] then [] else KeptLine(lines[0]) + KeptPatterns(lines[1..])
  }

  /**
   * What `getIgnorePatterns` returns, with `gitignore` the text of the
   * `.gitignore` file, or `None` when it cannot be read.
   */
  function IgnorePatterns(gitignore: Option<string>): seq<string> {
    match gitignore
    case None => DefaultExcludedFilePatterns
    case Some(content) => DefaultExcludedFilePatterns + KeptPatterns(Split(content, '\n'))
  }

  /** `getIgnorePatterns`: a copy of the defaults, then every kept line of the file pushed in order. */
  method GetIgnorePatterns(gitignore: Option<string>) returns (excludedFilePatterns: seq<string>)
    ensures excludedFilePatterns == IgnorePatterns(gitignore)
  {
    excludedFilePatterns := DefaultExcludedFilePatterns;
    if gitignore.Some? {
      var lines := Split(gitignore.value, '\n');
      for i := 0 to |lines|
        invariant excludedFilePatterns == DefaultExcludedFilePatterns + KeptPatterns(lines[..i])
      {
        var pattern := Trim(lines[i]);
        if pattern != [] && !StartsWith(pattern, "#") {
          excludedFilePatterns := excludedFilePatterns + [pattern];
        }
        KeptPatternsStep(lines, i);
      }
      assert lines[..|lines|] == lines;
    }
  }

  /** The patterns kept from two runs of lines are those kept from each, in order. */
  lemma {:induction false} KeptPatternsAppend(a: seq<string>, b: seq<string>)
    ensures KeptPatterns(a + b) == KeptPatterns(a) + KeptPatterns(b)
    decreases a
  {
    if a == [] {
      assert a + b == b;
    } else {
      var ab := a + b;
      assert ab[0] == a[0] && ab[1..] == a[1..] + b;
      KeptPatternsAppend(a[1..], b);
      var first, rest, tail := KeptLine(a[0]), KeptPatterns(a[1..]), KeptPatterns(b);
      calc {
        KeptPatterns(ab);
        KeptLine(ab[0]) + KeptPatterns(ab[1..]);
        first + (rest + tail);
        (first + rest) + tail;
      }
    }
  }

  /** One more line adds what is kept of it. */
  lemma KeptPatternsStep(lines: seq<string>, i: nat)
    requires i < |lines|
    ensures KeptPatterns(lines[..i + 1]) == KeptPatterns(lines[..i]) + KeptLine(lines[i])
  {
    var before, line := lines[..i], [lines[i]];
    assert lines[..i + 1] == before + line;
    KeptPatternsAppend(before, line);
    assert line[0] == lines[i] && line[1..] == [];
    assert KeptPatterns(line) == KeptLine(lines[i]) + [];
  }

  /** The four defaults always come first, and a file that cannot be read adds nothing to them. */
  lemma DefaultsComeFirst(gitignore: Option<string>)
    ensures |IgnorePatterns(gitignore)| >= 4
    ensures IgnorePatterns(gitignore)[..4] == ["**/node_modules", "**/dist", "**/build", "**/.*"]
    ensures gitignore == None ==> IgnorePatterns(gitignore) == ["**/node_modules", "**/dist", "**/build", "**/.*"]
  {
  }

  /** Some line of `lines` trims to `pattern`. */
  predicate HasLineTrimmedTo(lines: seq<string>, pattern: string) {
    exists i :: 0 <= i < |lines| && Trim(lines[i]) == pattern
  }

  /**
   * A pattern is kept exactly when it is the trim of some line and neither
   * empty nor a comment; kept patterns have no whitespace at either end.
   */
  lemma {:induction false} KeptPatternsAreTrimmedLines(lines: seq<string>, pattern: string)
    ensures pattern in KeptPatterns(lines) <==> IsPattern(pattern) && HasLineTrimmedTo(lines, pattern)
    ensures pattern in KeptPatterns(lines) ==> !IsWhitespace(pattern[0]) && !IsWhitespace(pattern[|pattern| - 1])
    decreases lines
  {
    if lines != [] {
      KeptPatternsAreTrimmedLines(lines[1..], pattern);
      var first, rest := KeptLine(lines[0]), KeptPatterns(lines[1..]);
      assert KeptPatterns(lines) == first + rest;
      assert pattern in first + rest <==> pattern in first || pattern in rest;
      assert pattern in first <==> IsPattern(pattern) && Trim(lines[0]) == pattern;
      HasLineTrimmedToFirstOrRest(lines, pattern);
    }
  }

  lemma HasLineTrimmedToFirstOrRest(lines: seq<string>, pattern: string)
    requires lines != []
    ensures HasLineTrimmedTo(lines, pattern) <==> Trim(lines[0]) == pattern || HasLineTrimmedTo(lines[1..], pattern)
  {
    if HasLineTrimmedTo(lines, pattern) && Trim(lines[0]) != pattern {
      var i :| 0 <= i < |lines| && Trim(lines[i]) == pattern;
      assert Trim(lines[1..][i - 1]) == pattern;
    }
    if HasLineTrimmedTo(lines[1..], pattern) {
      var j :| 0 <= j < |lines[1..]| && Trim(lines[1..][j]) == pattern;
      assert Trim(lines[j + 1]) == pattern;
    }
  }

  /** A line of a pattern after indentation keeps the pattern; a comment or blank line keeps nothing. */
  lemma LineKinds(indent: string, text: string)
    requires AllWhitespace(indent)
    ensures text != [] && !IsWhitespace(text[0]) && !IsWhitespace(text[|text| - 1]) ==>
              KeptPatterns([indent + text]) == if text[0] == '#' then [] else [text]
    ensures KeptPatterns([indent]) == []
  {
    if text != [] && !IsWhitespace(text[0]) && !IsWhitespace(text[|text| - 1]) {
      TrimPadded(indent, text);
      assert [indent + text][1..] == [];
      assert StartsWith(text, "#") <==> text[0] == '#';
    }
    assert [indent][1..] == [];
  }

  /**
   * A file whose lines are all patterns already, with no whitespace around
   * them, contributes exactly those lines, in order.
   */
  lemma {:induction false} CleanFileKeepsEveryLine(patterns: seq<string>)
    requires |patterns| >= 1
    requires forall i :: 0 <= i < |patterns| ==>
               && IsPattern(patterns[i]) && '\n' !in patterns[i]
               && !IsWhitespace(patterns[i][0]) && !IsWhitespace(patterns[i][|patterns[i]| - 1])
    ensures IgnorePatterns(Some(Join(patterns, '\n'))) == DefaultExcludedFilePatterns + patterns
  {
    SplitJoin(patterns, '\n');
    KeptEveryPattern(patterns);
  }

  lemma {:induction false} KeptEveryPattern(patterns: seq<string>)
    requires forall i :: 0 <= i < |patterns| ==>
               IsPattern(patterns[i]) && !IsWhitespace(patterns[i][0]) && !IsWhitespace(patterns[i][|patterns[i]| - 1])
    ensures KeptPatterns(patterns) == patterns
    decreases patterns
  {
    if patterns != [] {
      TrimUnpadded(patterns[0]);
      KeptEveryPattern(patterns[1..]);
    }
  }

  /**
   * `isFileIgnored`: some pattern matches the path. The glob matcher is
   * `matches`, applied as `matches(filePath, pattern)`.
   */
  predicate IsFileIgnored(filePath: string, excludedFilePatterns: seq<string>, matches: (string, string) -> bool): (ignored: bool)
    ensures ignored == SomeMatches(filePath, excludedFilePatterns, matches)
  {
    SomeMatchesFindsMatch(filePath, excludedFilePatterns, matches);
    exists i :: 0 <= i < |excludedFilePatterns| && matches(filePath, excludedFilePatterns[i])
  }

  /** `Array.prototype.some` as it runs: the patterns tried from the first, stopping at a match. */
  predicate SomeMatches(filePath: string, patterns: seq<string>, matches: (string, string) -> bool)
    decreases patterns
  {
    patterns != [] && (matches(filePath, patterns[0]) || SomeMatches(filePath, patterns[1..], matches))
  }

  /** The scan stops at a match exactly when some pattern matches. */
  lemma {:induction false} SomeMatchesFindsMatch(filePath: string, patterns: seq<string>, matches: (string, string) -> bool)
    ensures SomeMatches(filePath, patterns, matches)
        <==> exists i :: 0 <= i < |patterns| && matches(filePath, patterns[i])
    decreases patterns
  {
    if patterns != [] {
      SomeMatchesFindsMatch(filePath, patterns[1..], matches);
      if exists i :: 0 <= i < |patterns| && matches(filePath, patterns[i]) {
        var i :| 0 <= i < |patterns| && matches(filePath, patterns[i]);
        if i > 0 {
          assert patterns[1..][i - 1] == patterns[i];
        }
      }
      if exists j :: 0 <= j < |patterns[1..]| && matches(filePath, patterns[1..][j]) {
        var j :| 0 <= j < |patterns[1..]| && matches(filePath, patterns[1..][j]);
        assert patterns[j + 1] == patterns[1..][j];
      }
    }
  }

  /** Ignored under some patterns means ignored under any list that contains them. */
  lemma IgnoredUnderMorePatterns(filePath: string, patterns: seq<string>, more: seq<string>, matches: (string, string) -> bool)
    ensures IsFileIgnored(filePath, patterns + more, matches)
        <==> IsFileIgnored(filePath, patterns, matches) || IsFileIgnored(filePath, more, matches)
  {
    var all := patterns + more;
    if IsFileIgnored(filePath, patterns, matches) {
      var i :| 0 <= i < |patterns| && matches(filePath, patterns[i]);
      assert all[i] == patterns[i];
    }
    if IsFileIgnored(filePath, more, matches) {
      var i :| 0 <= i < |more| && matches(filePath, more[i]);
      assert all[|patterns| + i] == more[i];
    }
    if IsFileIgnored(filePath, all, matches) {
      var i :| 0 <= i < |all| && matches(filePath, all[i]);
      if i >= |patterns| {
        assert all[i] == more[i - |patterns|];
      } else {
        assert all[i] == patterns[i];
      }
    }
  }
}
