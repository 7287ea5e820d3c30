// The logical-line counter (`countLinesOfCode`): the text is split on '\n',
// every line is trimmed, and one flag remembers whether a block comment opened
// by a line starting with slash-star is still open.
module LineCounter {
  import opened Strings

  /** What the filter callback decides for one trimmed line, and the flag it leaves behind. */
  datatype Verdict = Verdict(counted: bool, inBlockComment: bool)

  /** A trimmed line the counter can keep: not blank, and no comment marker at its start or end. */
  predicate IsCodeText(trimmedLine: string) {
    && trimmedLine != []
    && !StartsWith(trimmedLine, "/*") && !StartsWith(trimmedLine, "//") && !EndsWith(trimmedLine, "*/")
  }

  /** The filter callback of `countLinesOfCode` on one trimmed line. */
  function Judge(inBlockComment: bool, trimmedLine: string): (v: Verdict)
    ensures v.counted <==> !inBlockComment && IsCodeText(trimmedLine)
    ensures v.inBlockComment <==>
      !EndsWith(trimmedLine, "*/") && (inBlockComment || StartsWith(trimmedLine, "/*"))
  {
    var flag := inBlockComment || StartsWith(trimmedLine, "/*");
    if EndsWith(trimmedLine, "*/") then Verdict(false, false)
    else if flag || StartsWith(trimmedLine, "//") then Verdict(false, flag)
    else if trimmedLine == [] then Verdict(false, flag)
    else Verdict(true, flag)
  }

  /** The lines the filter has kept so far and the block-comment flag. */
  datatype ScanState = ScanState(codeLines: seq<string>, inBlockComment: bool)

  const Start := ScanState([], false)

  /** The filter's work on one line. */
  function Step(state: ScanState, line: string): ScanState
  {
    var v := Judge(state.inBlockComment, Trim(line));
    ScanState(if v.counted then state.codeLines + [line] else state.codeLines, v.inBlockComment)
  }

  /** The filter run over `lines` from the first to the last, from `state`. */
  function Scan(state: ScanState, lines: seq<string>): ScanState
    decreases lines
  {
    if lines == [] then state else Scan(Step(state, lines[0]), lines[1..])
  }

  /** The value `countLinesOfCode(content)` returns. */
  function LinesOfCode(content: string): nat
  {
    |Scan(Start, Split(content, '\n')).codeLines|
  }

  method CountLinesOfCode(content: string) returns (n: nat)
    ensures n == LinesOfCode(content)
  {
    var lines := Split(content, '\n');
    var inBlockComment := false;
    var codeLines: seq<string> := [];
    for i := 0 to |lines|
      invariant Scan(ScanState(codeLines, inBlockComment), lines[i..]) == Scan(Start, lines)
    {
      ghost var before := ScanState(codeLines, inBlockComment);
      var line := lines[i];
      var trimmedLine := Trim(line);
      var keep: bool;
      if StartsWith(trimmedLine, "/*") {
        inBlockComment := true;
      }
      if EndsWith(trimmedLine, "*/") {
        inBlockComment := false;
        keep := false;
      } else if inBlockComment || StartsWith(trimmedLine, "//") {
        keep := false;
      } else if trimmedLine == [] {
        keep := false;
      } else {
        keep := true;
      }
      if keep {
        codeLines := codeLines + [line];
      }
      assert ScanState(codeLines, inBlockComment) == Step(before, line);
      assert lines[i..][1..] == lines[i + 1..];
    }
    n := |codeLines|;
  }

  /** The first line is judged first, the others after it. */
  lemma ScanFirst(state: ScanState, lines: seq<string>)
    requires lines != []
    ensures Scan(state, lines) == Scan(Step(state, lines[0]), lines[1..])
  {
  }

  /** Scanning two runs of lines one after the other is scanning their concatenation. */
  lemma {:induction false} ScanAppend(state: ScanState, a: seq<string>, b: seq<string>)
    ensures Scan(state, a + b) == Scan(Scan(state, a), b)
    decreases a
  {
    if a != [] {
      assert (a + b)[1..] == a[1..] + b;
      ScanAppend(Step(state, a[0]), a[1..], b);
    } else {
      assert a + b == b;
    }
  }

  /**
   * Line `i` is counted exactly when the lines before it leave no block
   * comment open and its trimmed text is code.
   */
  lemma CountedExactlyWhen(lines: seq<string>, i: nat)
    requires i < |lines|
    ensures var before := Scan(Start, lines[..i]);
            |Scan(Start, lines[..i + 1]).codeLines| == |before.codeLines| + 1
            <==> !before.inBlockComment && IsCodeText(Trim(lines[i]))
    ensures |Scan(Start, lines[..i + 1]).codeLines| <= |Scan(Start, lines[..i]).codeLines| + 1
  {
    assert lines[..i + 1] == lines[..i] + [lines[i]];
    ScanAppend(Start, lines[..i], [lines[i]]);
  }

  /**
   * The kept lines are lines of the input, in their order, as a sub-multiset,
   * so there are never more of them than there are lines.
   */
  lemma {:induction false} KeptLinesComeFromInput(state: ScanState, lines: seq<string>)
    ensures multiset(Scan(state, lines).codeLines) <= multiset(state.codeLines) + multiset(lines)
    ensures |Scan(state, lines).codeLines| <= |state.codeLines| + |lines|
    decreases lines
  {
    if lines != [] {
      var first, rest := lines[0], lines[1..];
      var next := Step(state, first);
      StepKeepsAtMostTheLine(state, first);
      KeptLinesComeFromInput(next, rest);
      assert lines == [first] + rest;
      assert multiset(lines) == multiset([first]) + multiset(rest);
    }
  }

  /** One line adds itself or nothing to the kept lines. */
  lemma StepKeepsAtMostTheLine(state: ScanState, line: string)
    ensures var next := Step(state, line).codeLines;
      && multiset(next) <= multiset(state.codeLines) + multiset([line])
      && |next| <= |state.codeLines| + 1
  {
  }

  /** Every kept line is code once trimmed. */
  lemma {:induction false} KeptLinesAreCode(state: ScanState, lines: seq<string>)
    requires forall k :: 0 <= k < |state.codeLines| ==> IsCodeText(Trim(state.codeLines[k]))
    ensures forall k :: 0 <= k < |Scan(state, lines).codeLines| ==> IsCodeText(Trim(Scan(state, lines).codeLines[k]))
    decreases lines
  {
    if lines != [] {
      var next := Step(state, lines[0]);
      assert forall k :: 0 <= k < |next.codeLines| ==> IsCodeText(Trim(next.codeLines[k])) by {
        forall k | 0 <= k < |next.codeLines| ensures IsCodeText(Trim(next.codeLines[k])) {
          if k < |state.codeLines| {
            assert next.codeLines[k] == state.codeLines[k];
          }
        }
      }
      KeptLinesAreCode(next, lines[1..]);
    }
  }

  /**
   * A block comment that is open and never closed by a later line ending in
   * star-slash swallows every remaining line.
   */
  lemma {:induction false} UnclosedCommentSwallowsRest(state: ScanState, lines: seq<string>)
    requires state.inBlockComment
    requires forall j :: 0 <= j < |lines| ==> !EndsWith(Trim(lines[j]), "*/")
    ensures Scan(state, lines) == state
    decreases lines
  {
    if lines != [] {
      UnclosedCommentSwallowsRest(Step(state, lines[0]), lines[1..]);
    }
  }

  /** A line that is code once trimmed. */
  predicate IsCodeLine(line: string) {
    IsCodeText(Trim(line))
  }

  /** Outside a block comment a code line is kept and leaves the flag clear. */
  lemma StepOnCodeLine(state: ScanState, line: string)
    requires !state.inBlockComment && IsCodeLine(line)
    ensures Step(state, line) == ScanState(state.codeLines + [line], false)
  {
  }

  /** Scanning from a first line that is code, outside a block comment. */
  lemma ScanFromCodeLine(state: ScanState, lines: seq<string>)
    requires lines != [] && !state.inBlockComment && IsCodeLine(lines[0])
    ensures Scan(state, lines) == Scan(ScanState(state.codeLines + [lines[0]], false), lines[1..])
  {
    StepOnCodeLine(state, lines[0]);
    ScanFirst(state, lines);
  }

  /** Lines that are all code once trimmed are all kept, and the flag stays clear. */
  lemma {:induction false} AllCodeLinesCounted(state: ScanState, lines: seq<string>)
    requires !state.inBlockComment
    requires forall k {:trigger IsCodeLine(lines[k])} :: 0 <= k < |lines| ==> IsCodeLine(lines[k])
    ensures Scan(state, lines) == ScanState(state.codeLines + lines, false)
    decreases lines
  {
    if lines == [] {
      assert state.codeLines + lines == state.codeLines;
    } else {
      var next := ScanState(state.codeLines + [lines[0]], false);
      ScanFromCodeLine(state, lines);
      AllCodeLinesCounted(next, lines[1..]);
      AppendFirst(state.codeLines, lines);
    }
  }

  /** Moving the first of `lines` onto `kept` leaves the concatenation unchanged. */
  lemma AppendFirst(kept: seq<string>, lines: seq<string>)
    requires lines != []
    ensures (kept + [lines[0]]) + lines[1..] == kept + lines
  {
    assert lines == [lines[0]] + lines[1..];
  }

  /** Lines made only of whitespace are never kept. */
  lemma {:induction false} BlankLinesCountNothing(state: ScanState, lines: seq<string>)
    requires forall k :: 0 <= k < |lines| ==> AllWhitespace(lines[k])
    ensures Scan(state, lines).codeLines == state.codeLines
    decreases lines
  {
    if lines != [] {
      BlankLinesCountNothing(Step(state, lines[0]), lines[1..]);
    }
  }

  /** Empty, whitespace-only and newline-only text has no lines of code. */
  lemma WhitespaceHasNoCode(content: string)
    requires AllWhitespace(content)
    ensures LinesOfCode(content) == 0
  {
    var lines := Split(content, '\n');
    SplitPiecesFromText(content, '\n');
    forall k | 0 <= k < |lines| ensures AllWhitespace(lines[k]) {
      forall j | 0 <= j < |lines[k]| ensures IsWhitespace(lines[k][j]) {
        var c := lines[k][j];
        assert c in content;
      }
    }
    BlankLinesCountNothing(Start, lines);
  }

  /** A newline at the end of the text adds nothing. */
  lemma TrailingNewlineAddsNothing(content: string)
    ensures LinesOfCode(content + "\n") == LinesOfCode(content)
  {
    SplitTrailingSeparator(content, '\n');
    ScanAppend(Start, Split(content, '\n'), [""]);
  }

  /** Scanning the suffix of `lines` that starts at `i`, one line at a time. */
  lemma ScanFrom(state: ScanState, lines: seq<string>, i: nat)
    requires i < |lines|
    ensures Scan(state, lines[i..]) == Scan(Step(state, lines[i]), lines[i + 1..])
  {
    ScanFirst(state, lines[i..]);
    assert lines[i..][1..] == lines[i + 1..];
  }
}
