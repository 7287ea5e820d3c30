// The inputs of the line counter's unit tests, worked through the model.
// The tests use one statement and one indentation throughout; the lemmas
// below hold for any one-line statement and any indentation, and the last
// one instantiates them with the tests' own text.
module LineCounterExamples {
  import opened Strings
  import opened LineCounter

  /** A one-line statement: code with no surrounding whitespace and no line break. */
  predicate IsStatement(code: string) {
    code != [] && !IsWhitespace(code[0]) && !IsWhitespace(code[|code| - 1])
    && IsCodeText(code) && '\n' !in code
  }

  /** Indentation: whitespace with no line break. */
  predicate IsIndentation(indent: string) {
    AllWhitespace(indent) && '\n' !in indent
  }

  /** The lines of the mixed test: comments of every kind, blank lines and six statements. */
  function MixedLines(code: string, indent: string): seq<string> {
    [
      "// Comment", indent + "// Comment", indent + code,
      indent + "// Comment", indent + code, indent + "/* Comment */",
      indent + code, "", "",
      indent + "/**", indent + " * Comment", indent + " * Comment",
      indent + " */", indent + code, indent + "/*",
      indent + "Comment */", indent + code, indent + "/*",
      indent + "* Comment", indent + "*/", indent + code,
      indent
    ]
  }

  lemma StepLineComment(s: ScanState, code: string, indent: string)
    requires IsStatement(code) && IsIndentation(indent)
    requires !s.inBlockComment
    ensures Step(s, "// Comment") == ScanState(s.codeLines, false)
  {
    TrimUnpadded("// Comment");
    assert "// Comment"[1] != "/*"[1];
    assert StartsWith("// Comment", "//");
    assert "// Comment"[8] != "*/"[0];
    assert Judge(false, "// Comment") == Verdict(false, false);
  }

  lemma StepIndentedComment(s: ScanState, code: string, indent: string)
    requires IsStatement(code) && IsIndentation(indent)
    requires !s.inBlockComment
    ensures Step(s, indent + "// Comment") == ScanState(s.codeLines, false)
  {
    TrimPadded(indent, "// Comment");
    assert "// Comment"[1] != "/*"[1];
    assert StartsWith("// Comment", "//");
    assert "// Comment"[8] != "*/"[0];
    assert Judge(false, "// Comment") == Verdict(false, false);
  }

  lemma StepCode(s: ScanState, code: string, indent: string)
    requires IsStatement(code) && IsIndentation(indent)
    requires !s.inBlockComment
    ensures Step(s, indent + code) == ScanState(s.codeLines + [indent + code], false)
  {
    TrimPadded(indent, code);
    assert Judge(false, code) == Verdict(true, false);
  }

  lemma StepInlineBlock(s: ScanState, code: string, indent: string)
    requires IsStatement(code) && IsIndentation(indent)
    requires !s.inBlockComment
    ensures Step(s, indent + "/* Comment */") == ScanState(s.codeLines, false)
  {
    TrimPadded(indent, "/* Comment */");
    assert StartsWith("/* Comment */", "/*");
    assert "/* Comment */"[1] != "//"[1];
    assert EndsWith("/* Comment */", "*/");
    assert Judge(false, "/* Comment */") == Verdict(false, false);
  }

  lemma StepBlank(s: ScanState, code: string, indent: string)
    requires IsStatement(code) && IsIndentation(indent)
    requires !s.inBlockComment
    ensures Step(s, "") == s
  {
  }

  lemma StepDocOpen(s: ScanState, code: string, indent: string)
    requires IsStatement(code) && IsIndentation(indent)
    requires !s.inBlockComment
    ensures Step(s, indent + "/**") == ScanState(s.codeLines, true)
  {
    TrimPadded(indent, "/**");
    assert StartsWith("/**", "/*");
    assert "/**"[1] != "//"[1];
    assert "/**"[2] != "*/"[1];
    assert Judge(false, "/**") == Verdict(false, true);
  }

  lemma StepDocBody(s: ScanState, code: string, indent: string)
    requires IsStatement(code) && IsIndentation(indent)
    requires s.inBlockComment
    ensures Step(s, indent + " * Comment") == ScanState(s.codeLines, true)
  {
    TrimPadded(indent + " ", "* Comment");
    assert indent + " * Comment" == (indent + " ") + "* Comment";
    assert "* Comment"[0] != "/*"[0];
    assert "* Comment"[0] != "//"[0];
    assert "* Comment"[7] != "*/"[0];
    assert Judge(true, "* Comment") == Verdict(false, true);
  }

  lemma StepDocClose(s: ScanState, code: string, indent: string)
    requires IsStatement(code) && IsIndentation(indent)
    requires s.inBlockComment
    ensures Step(s, indent + " */") == ScanState(s.codeLines, false)
  {
    TrimPadded(indent + " ", "*/");
    assert indent + " */" == (indent + " ") + "*/";
    assert "*/"[0] != "/*"[0];
    assert "*/"[0] != "//"[0];
    assert EndsWith("*/", "*/");
    assert Judge(true, "*/") == Verdict(false, false);
  }

  lemma StepBlockOpen(s: ScanState, code: string, indent: string)
    requires IsStatement(code) && IsIndentation(indent)
    requires !s.inBlockComment
    ensures Step(s, indent + "/*") == ScanState(s.codeLines, true)
  {
    TrimPadded(indent, "/*");
    assert StartsWith("/*", "/*");
    assert "/*"[1] != "//"[1];
    assert "/*"[0] != "*/"[0];
    assert Judge(false, "/*") == Verdict(false, true);
  }

  /** Inside a block comment, a line ending the comment is dropped and closes it. */
  lemma StepCommentEnd(s: ScanState, text: string, indent: string)
    requires IsIndentation(indent) && s.inBlockComment
    requires text == "Comment */" || text == "*/"
    ensures Step(s, indent + text) == ScanState(s.codeLines, false)
  {
    TrimPadded(indent, text);
    assert EndsWith(text, "*/");
  }

  lemma StepBlockBody(s: ScanState, code: string, indent: string)
    requires IsStatement(code) && IsIndentation(indent)
    requires s.inBlockComment
    ensures Step(s, indent + "* Comment") == ScanState(s.codeLines, true)
  {
    TrimPadded(indent, "* Comment");
    assert "* Comment"[0] != "/*"[0];
    assert "* Comment"[0] != "//"[0];
    assert "* Comment"[7] != "*/"[0];
    assert Judge(true, "* Comment") == Verdict(false, true);
  }

  lemma StepIndent(s: ScanState, code: string, indent: string)
    requires IsStatement(code) && IsIndentation(indent)
    requires !s.inBlockComment
    ensures Step(s, indent) == s
  {
    assert Trim(indent) == [];
  }

  lemma ScanLineCommentAt(lines: seq<string>, i: nat, kept: seq<string>, after: seq<string>, code: string, indent: string)
    requires IsStatement(code) && IsIndentation(indent)
    requires i < |lines| && lines[i] == "// Comment"
    requires after == kept
    ensures Scan(ScanState(kept, false), lines[i..]) == Scan(ScanState(after, false), lines[i + 1..])
  {
    ScanFrom(ScanState(kept, false), lines, i);
    StepLineComment(ScanState(kept, false), code, indent);
  }

  lemma ScanIndentedCommentAt(lines: seq<string>, i: nat, kept: seq<string>, after: seq<string>, code: string, indent: string)
    requires IsStatement(code) && IsIndentation(indent)
    requires i < |lines| && lines[i] == indent + "// Comment"
    requires after == kept
    ensures Scan(ScanState(kept, false), lines[i..]) == Scan(ScanState(after, false), lines[i + 1..])
  {
    ScanFrom(ScanState(kept, false), lines, i);
    StepIndentedComment(ScanState(kept, false), code, indent);
  }

  lemma ScanCodeAt(lines: seq<string>, i: nat, kept: seq<string>, after: seq<string>, code: string, indent: string)
    requires IsStatement(code) && IsIndentation(indent)
    requires i < |lines| && lines[i] == indent + code
    requires after == kept + [indent + code]
    ensures Scan(ScanState(kept, false), lines[i..]) == Scan(ScanState(after, false), lines[i + 1..])
  {
    ScanFrom(ScanState(kept, false), lines, i);
    StepCode(ScanState(kept, false), code, indent);
  }

  lemma ScanInlineBlockAt(lines: seq<string>, i: nat, kept: seq<string>, after: seq<string>, code: string, indent: string)
    requires IsStatement(code) && IsIndentation(indent)
    requires i < |lines| && lines[i] == indent + "/* Comment */"
    requires after == kept
    ensures Scan(ScanState(kept, false), lines[i..]) == Scan(ScanState(after, false), lines[i + 1..])
  {
    ScanFrom(ScanState(kept, false), lines, i);
    StepInlineBlock(ScanState(kept, false), code, indent);
  }

  lemma ScanBlankAt(lines: seq<string>, i: nat, kept: seq<string>, after: seq<string>, code: string, indent: string)
    requires IsStatement(code) && IsIndentation(indent)
    requires i < |lines| && lines[i] == ""
    requires after == kept
    ensures Scan(ScanState(kept, false), lines[i..]) == Scan(ScanState(after, false), lines[i + 1..])
  {
    ScanFrom(ScanState(kept, false), lines, i);
    StepBlank(ScanState(kept, false), code, indent);
  }

  lemma ScanDocOpenAt(lines: seq<string>, i: nat, kept: seq<string>, after: seq<string>, code: string, indent: string)
    requires IsStatement(code) && IsIndentation(indent)
    requires i < |lines| && lines[i] == indent + "/**"
    requires after == kept
    ensures Scan(ScanState(kept, false), lines[i..]) == Scan(ScanState(after, true), lines[i + 1..])
  {
    ScanFrom(ScanState(kept, false), lines, i);
    StepDocOpen(ScanState(kept, false), code, indent);
  }

  lemma ScanDocBodyAt(lines: seq<string>, i: nat, kept: seq<string>, after: seq<string>, code: string, indent: string)
    requires IsStatement(code) && IsIndentation(indent)
    requires i < |lines| && lines[i] == indent + " * Comment"
    requires after == kept
    ensures Scan(ScanState(kept, true), lines[i..]) == Scan(ScanState(after, true), lines[i + 1..])
  {
    ScanFrom(ScanState(kept, true), lines, i);
    StepDocBody(ScanState(kept, true), code, indent);
  }

  lemma ScanDocCloseAt(lines: seq<string>, i: nat, kept: seq<string>, after: seq<string>, code: string, indent: string)
    requires IsStatement(code) && IsIndentation(indent)
    requires i < |lines| && lines[i] == indent + " */"
    requires after == kept
    ensures Scan(ScanState(kept, true), lines[i..]) == Scan(ScanState(after, false), lines[i + 1..])
  {
    ScanFrom(ScanState(kept, true), lines, i);
    StepDocClose(ScanState(kept, true), code, indent);
  }

  lemma ScanBlockOpenAt(lines: seq<string>, i: nat, kept: seq<string>, after: seq<string>, code: string, indent: string)
    requires IsStatement(code) && IsIndentation(indent)
    requires i < |lines| && lines[i] == indent + "/*"
    requires after == kept
    ensures Scan(ScanState(kept, false), lines[i..]) == Scan(ScanState(after, true), lines[i + 1..])
  {
    ScanFrom(ScanState(kept, false), lines, i);
    StepBlockOpen(ScanState(kept, false), code, indent);
  }

  lemma ScanCommentEndAt(lines: seq<string>, i: nat, kept: seq<string>, after: seq<string>, text: string, indent: string)
    requires IsIndentation(indent) && (text == "Comment */" || text == "*/")
    requires i < |lines| && lines[i] == indent + text
    requires after == kept
    ensures Scan(ScanState(kept, true), lines[i..]) == Scan(ScanState(after, false), lines[i + 1..])
  {
    ScanFrom(ScanState(kept, true), lines, i);
    StepCommentEnd(ScanState(kept, true), text, indent);
  }

  lemma ScanBlockBodyAt(lines: seq<string>, i: nat, kept: seq<string>, after: seq<string>, code: string, indent: string)
    requires IsStatement(code) && IsIndentation(indent)
    requires i < |lines| && lines[i] == indent + "* Comment"
    requires after == kept
    ensures Scan(ScanState(kept, true), lines[i..]) == Scan(ScanState(after, true), lines[i + 1..])
  {
    ScanFrom(ScanState(kept, true), lines, i);
    StepBlockBody(ScanState(kept, true), code, indent);
  }

  lemma ScanIndentAt(lines: seq<string>, i: nat, kept: seq<string>, after: seq<string>, code: string, indent: string)
    requires IsStatement(code) && IsIndentation(indent)
    requires i < |lines| && lines[i] == indent
    requires after == kept
    ensures Scan(ScanState(kept, false), lines[i..]) == Scan(ScanState(after, false), lines[i + 1..])
  {
    ScanFrom(ScanState(kept, false), lines, i);
    StepIndent(ScanState(kept, false), code, indent);
  }

  /** Lines 1 to 2 of the mixed test. */
  lemma MixedPart1(lines: seq<string>, kept: seq<string>, after: seq<string>, code: string, indent: string)
    requires IsStatement(code) && IsIndentation(indent)
    requires |lines| >= 2
    requires lines[0] == "// Comment"
    requires lines[1] == indent + "// Comment"
    requires after == kept
    ensures Scan(ScanState(kept, false), lines[0..]) == Scan(ScanState(after, false), lines[2..])
  {
    ScanLineCommentAt(lines, 0, kept, kept, code, indent);
    ScanIndentedCommentAt(lines, 1, kept, kept, code, indent);
  }

  lemma MixedTextPart1(content: string, kept: seq<string>, after: seq<string>, code: string, indent: string)
    requires IsStatement(code) && IsIndentation(indent)
    requires content == Join(MixedLines(code, indent), '\n')
    requires after == kept
    ensures |Split(content, '\n')| == 22
    ensures Scan(ScanState(kept, false), Split(content, '\n')[0..])
            == Scan(ScanState(after, false), Split(content, '\n')[2..])
  {
    MixedLinesSplit(content, code, indent);
    MixedLinesAt(Split(content, '\n'), code, indent);
    MixedPart1(Split(content, '\n'), kept, after, code, indent);
  }

  /** Lines 3 to 4 of the mixed test. */
  lemma MixedPart2(lines: seq<string>, kept: seq<string>, after: seq<string>, code: string, indent: string)
    requires IsStatement(code) && IsIndentation(indent)
    requires |lines| >= 4
    requires lines[2] == indent + code
    requires lines[3] == indent + "// Comment"
    requires after == kept + [indent + code]
    ensures Scan(ScanState(kept, false), lines[2..]) == Scan(ScanState(after, false), lines[4..])
  {
    var k3 := kept + [indent + code];
    ScanCodeAt(lines, 2, kept, k3, code, indent);
    ScanIndentedCommentAt(lines, 3, k3, k3, code, indent);
  }

  lemma MixedTextPart2(content: string, kept: seq<string>, after: seq<string>, code: string, indent: string)
    requires IsStatement(code) && IsIndentation(indent)
    requires content == Join(MixedLines(code, indent), '\n')
    requires after == kept + [indent + code]
    ensures |Split(content, '\n')| == 22
    ensures Scan(ScanState(kept, false), Split(content, '\n')[2..])
            == Scan(ScanState(after, false), Split(content, '\n')[4..])
  {
    MixedLinesSplit(content, code, indent);
    MixedLinesAt(Split(content, '\n'), code, indent);
    MixedPart2(Split(content, '\n'), kept, after, code, indent);
  }

  /** Lines 5 to 6 of the mixed test. */
  lemma MixedPart3(lines: seq<string>, kept: seq<string>, after: seq<string>, code: string, indent: string)
    requires IsStatement(code) && IsIndentation(indent)
    requires |lines| >= 6
    requires lines[4] == indent + code
    requires lines[5] == indent + "/* Comment */"
    requires after == kept + [indent + code]
    ensures Scan(ScanState(kept, false), lines[4..]) == Scan(ScanState(after, false), lines[6..])
  {
    var k5 := kept + [indent + code];
    ScanCodeAt(lines, 4, kept, k5, code, indent);
    ScanInlineBlockAt(lines, 5, k5, k5, code, indent);
  }

  lemma MixedTextPart3(content: string, kept: seq<string>, after: seq<string>, code: string, indent: string)
    requires IsStatement(code) && IsIndentation(indent)
    requires content == Join(MixedLines(code, indent), '\n')
    requires after == kept + [indent + code]
    ensures |Split(content, '\n')| == 22
    ensures Scan(ScanState(kept, false), Split(content, '\n')[4..])
            == Scan(ScanState(after, false), Split(content, '\n')[6..])
  {
    MixedLinesSplit(content, code, indent);
    MixedLinesAt(Split(content, '\n'), code, indent);
    MixedPart3(Split(content, '\n'), kept, after, code, indent);
  }

  /** Lines 7 to 8 of the mixed test. */
  lemma MixedPart4(lines: seq<string>, kept: seq<string>, after: seq<string>, code: string, indent: string)
    requires IsStatement(code) && IsIndentation(indent)
    requires |lines| >= 8
    requires lines[6] == indent + code
    requires lines[7] == ""
    requires after == kept + [indent + code]
    ensures Scan(ScanState(kept, false), lines[6..]) == Scan(ScanState(after, false), lines[8..])
  {
    var k7 := kept + [indent + code];
    ScanCodeAt(lines, 6, kept, k7, code, indent);
    ScanBlankAt(lines, 7, k7, k7, code, indent);
  }

  lemma MixedTextPart4(content: string, kept: seq<string>, after: seq<string>, code: string, indent: string)
    requires IsStatement(code) && IsIndentation(indent)
    requires content == Join(MixedLines(code, indent), '\n')
    requires after == kept + [indent + code]
    ensures |Split(content, '\n')| == 22
    ensures Scan(ScanState(kept, false), Split(content, '\n')[6..])
            == Scan(ScanState(after, false), Split(content, '\n')[8..])
  {
    MixedLinesSplit(content, code, indent);
    MixedLinesAt(Split(content, '\n'), code, indent);
    MixedPart4(Split(content, '\n'), kept, after, code, indent);
  }

  /** Lines 9 to 10 of the mixed test. */
  lemma MixedPart5(lines: seq<string>, kept: seq<string>, after: seq<string>, code: string, indent: string)
    requires IsStatement(code) && IsIndentation(indent)
    requires |lines| >= 10
    requires lines[8] == ""
    requires lines[9] == indent + "/**"
    requires after == kept
    ensures Scan(ScanState(kept, false), lines[8..]) == Scan(ScanState(after, true), lines[10..])
  {
    ScanBlankAt(lines, 8, kept, kept, code, indent);
    ScanDocOpenAt(lines, 9, kept, kept, code, indent);
  }

  lemma MixedTextPart5(content: string, kept: seq<string>, after: seq<string>, code: string, indent: string)
    requires IsStatement(code) && IsIndentation(indent)
    requires content == Join(MixedLines(code, indent), '\n')
    requires after == kept
    ensures |Split(content, '\n')| == 22
    ensures Scan(ScanState(kept, false), Split(content, '\n')[8..])
            == Scan(ScanState(after, true), Split(content, '\n')[10..])
  {
    MixedLinesSplit(content, code, indent);
    MixedLinesAt(Split(content, '\n'), code, indent);
    MixedPart5(Split(content, '\n'), kept, after, code, indent);
  }

  /** Lines 11 to 12 of the mixed test. */
  lemma MixedPart6(lines: seq<string>, kept: seq<string>, after: seq<string>, code: string, indent: string)
    requires IsStatement(code) && IsIndentation(indent)
    requires |lines| >= 12
    requires lines[10] == indent + " * Comment"
    requires lines[11] == indent + " * Comment"
    requires after == kept
    ensures Scan(ScanState(kept, true), lines[10..]) == Scan(ScanState(after, true), lines[12..])
  {
    ScanDocBodyAt(lines, 10, kept, kept, code, indent);
    ScanDocBodyAt(lines, 11, kept, kept, code, indent);
  }

  lemma MixedTextPart6(content: string, kept: seq<string>, after: seq<string>, code: string, indent: string)
    requires IsStatement(code) && IsIndentation(indent)
    requires content == Join(MixedLines(code, indent), '\n')
    requires after == kept
    ensures |Split(content, '\n')| == 22
    ensures Scan(ScanState(kept, true), Split(content, '\n')[10..])
            == Scan(ScanState(after, true), Split(content, '\n')[12..])
  {
    MixedLinesSplit(content, code, indent);
    MixedLinesAt(Split(content, '\n'), code, indent);
    MixedPart6(Split(content, '\n'), kept, after, code, indent);
  }

  /** Lines 13 to 14 of the mixed test. */
  lemma MixedPart7(lines: seq<string>, kept: seq<string>, after: seq<string>, code: string, indent: string)
    requires IsStatement(code) && IsIndentation(indent)
    requires |lines| >= 14
    requires lines[12] == indent + " */"
    requires lines[13] == indent + code
    requires after == kept + [indent + code]
    ensures Scan(ScanState(kept, true), lines[12..]) == Scan(ScanState(after, false), lines[14..])
  {
    ScanDocCloseAt(lines, 12, kept, kept, code, indent);
    var k14 := kept + [indent + code];
    ScanCodeAt(lines, 13, kept, k14, code, indent);
  }

  lemma MixedTextPart7(content: string, kept: seq<string>, after: seq<string>, code: string, indent: string)
    requires IsStatement(code) && IsIndentation(indent)
    requires content == Join(MixedLines(code, indent), '\n')
    requires after == kept + [indent + code]
    ensures |Split(content, '\n')| == 22
    ensures Scan(ScanState(kept, true), Split(content, '\n')[12..])
            == Scan(ScanState(after, false), Split(content, '\n')[14..])
  {
    MixedLinesSplit(content, code, indent);
    MixedLinesAt(Split(content, '\n'), code, indent);
    MixedPart7(Split(content, '\n'), kept, after, code, indent);
  }

  /** Lines 15 to 16 of the mixed test. */
  lemma MixedPart8(lines: seq<string>, kept: seq<string>, after: seq<string>, code: string, indent: string)
    requires IsStatement(code) && IsIndentation(indent)
    requires |lines| >= 16
    requires lines[14] == indent + "/*"
    requires lines[15] == indent + "Comment */"
    requires after == kept
    ensures Scan(ScanState(kept, false), lines[14..]) == Scan(ScanState(after, false), lines[16..])
  {
    ScanBlockOpenAt(lines, 14, kept, kept, code, indent);
    ScanCommentEndAt(lines, 15, kept, kept, "Comment */", indent);
  }

  lemma MixedTextPart8(content: string, kept: seq<string>, after: seq<string>, code: string, indent: string)
    requires IsStatement(code) && IsIndentation(indent)
    requires content == Join(MixedLines(code, indent), '\n')
    requires after == kept
    ensures |Split(content, '\n')| == 22
    ensures Scan(ScanState(kept, false), Split(content, '\n')[14..])
            == Scan(ScanState(after, false), Split(content, '\n')[16..])
  {
    MixedLinesSplit(content, code, indent);
    MixedLinesAt(Split(content, '\n'), code, indent);
    MixedPart8(Split(content, '\n'), kept, after, code, indent);
  }

  /** Lines 17 to 18 of the mixed test. */
  lemma MixedPart9(lines: seq<string>, kept: seq<string>, after: seq<string>, code: string, indent: string)
    requires IsStatement(code) && IsIndentation(indent)
    requires |lines| >= 18
    requires lines[16] == indent + code
    requires lines[17] == indent + "/*"
    requires after == kept + [indent + code]
    ensures Scan(ScanState(kept, false), lines[16..]) == Scan(ScanState(after, true), lines[18..])
  {
    var k17 := kept + [indent + code];
    ScanCodeAt(lines, 16, kept, k17, code, indent);
    ScanBlockOpenAt(lines, 17, k17, k17, code, indent);
  }

  lemma MixedTextPart9(content: string, kept: seq<string>, after: seq<string>, code: string, indent: string)
    requires IsStatement(code) && IsIndentation(indent)
    requires content == Join(MixedLines(code, indent), '\n')
    requires after == kept + [indent + code]
    ensures |Split(content, '\n')| == 22
    ensures Scan(ScanState(kept, false), Split(content, '\n')[16..])
            == Scan(ScanState(after, true), Split(content, '\n')[18..])
  {
    MixedLinesSplit(content, code, indent);
    MixedLinesAt(Split(content, '\n'), code, indent);
    MixedPart9(Split(content, '\n'), kept, after, code, indent);
  }

  /** Lines 19 to 20 of the mixed test. */
  lemma MixedPart10(lines: seq<string>, kept: seq<string>, after: seq<string>, code: string, indent: string)
    requires IsStatement(code) && IsIndentation(indent)
    requires |lines| >= 20
    requires lines[18] == indent + "* Comment"
    requires lines[19] == indent + "*/"
    requires after == kept
    ensures Scan(ScanState(kept, true), lines[18..]) == Scan(ScanState(after, false), lines[20..])
  {
    ScanBlockBodyAt(lines, 18, kept, kept, code, indent);
    ScanCommentEndAt(lines, 19, kept, kept, "*/", indent);
  }

  lemma MixedTextPart10(content: string, kept: seq<string>, after: seq<string>, code: string, indent: string)
    requires IsStatement(code) && IsIndentation(indent)
    requires content == Join(MixedLines(code, indent), '\n')
    requires after == kept
    ensures |Split(content, '\n')| == 22
    ensures Scan(ScanState(kept, true), Split(content, '\n')[18..])
            == Scan(ScanState(after, false), Split(content, '\n')[20..])
  {
    MixedLinesSplit(content, code, indent);
    MixedLinesAt(Split(content, '\n'), code, indent);
    MixedPart10(Split(content, '\n'), kept, after, code, indent);
  }

  /** Lines 21 to 22 of the mixed test. */
  lemma MixedPart11(lines: seq<string>, kept: seq<string>, after: seq<string>, code: string, indent: string)
    requires IsStatement(code) && IsIndentation(indent)
    requires |lines| >= 22
    requires lines[20] == indent + code
    requires lines[21] == indent
    requires after == kept + [indent + code]
    ensures Scan(ScanState(kept, false), lines[20..]) == Scan(ScanState(after, false), lines[22..])
  {
    var k21 := kept + [indent + code];
    ScanCodeAt(lines, 20, kept, k21, code, indent);
    ScanIndentAt(lines, 21, k21, k21, code, indent);
  }

  lemma MixedTextPart11(content: string, kept: seq<string>, after: seq<string>, code: string, indent: string)
    requires IsStatement(code) && IsIndentation(indent)
    requires content == Join(MixedLines(code, indent), '\n')
    requires after == kept + [indent + code]
    ensures |Split(content, '\n')| == 22
    ensures Scan(ScanState(kept, false), Split(content, '\n')[20..])
            == Scan(ScanState(after, false), Split(content, '\n')[22..])
  {
    MixedLinesSplit(content, code, indent);
    MixedLinesAt(Split(content, '\n'), code, indent);
    MixedPart11(Split(content, '\n'), kept, after, code, indent);
  }

  lemma MixedLinesHaveNoLineBreaks(code: string, indent: string)
    requires IsStatement(code) && IsIndentation(indent)
    ensures forall i :: 0 <= i < |MixedLines(code, indent)| ==> '\n' !in MixedLines(code, indent)[i]
  {
  }

  /** Splitting the text of the mixed test gives back its lines. */
  lemma MixedLinesSplit(content: string, code: string, indent: string)
    requires IsStatement(code) && IsIndentation(indent)
    requires content == Join(MixedLines(code, indent), '\n')
    ensures Split(content, '\n') == MixedLines(code, indent)
  {
    MixedLinesHaveNoLineBreaks(code, indent);
    SplitJoin(MixedLines(code, indent), '\n');
  }

  /** The mixed test, line by line. */
  lemma MixedLinesAt(lines: seq<string>, code: string, indent: string)
    requires lines == MixedLines(code, indent)
    ensures |lines| == 22
    ensures lines[0] == "// Comment"
    ensures lines[1] == indent + "// Comment"
    ensures lines[2] == indent + code
    ensures lines[3] == indent + "// Comment"
    ensures lines[4] == indent + code
    ensures lines[5] == indent + "/* Comment */"
    ensures lines[6] == indent + code
    ensures lines[7] == ""
    ensures lines[8] == ""
    ensures lines[9] == indent + "/**"
    ensures lines[10] == indent + " * Comment"
    ensures lines[11] == indent + " * Comment"
    ensures lines[12] == indent + " */"
    ensures lines[13] == indent + code
    ensures lines[14] == indent + "/*"
    ensures lines[15] == indent + "Comment */"
    ensures lines[16] == indent + code
    ensures lines[17] == indent + "/*"
    ensures lines[18] == indent + "* Comment"
    ensures lines[19] == indent + "*/"
    ensures lines[20] == indent + code
    ensures lines[21] == indent
  {
  }

  /**
   * The mixed test: whatever the statement and the indentation, its text has
   * six lines of code, one per statement.
   */
  lemma MixedTextCountsSix(content: string, code: string, indent: string)
    requires IsStatement(code) && IsIndentation(indent)
    requires content == Join(MixedLines(code, indent), '\n')
    ensures LinesOfCode(content) == 6
  {
    var line := indent + code;
    var kept: seq<string> := [];
    MixedTextFirstHalf(content, kept, code, indent);
    MixedTextSecondHalf(content, kept + [line, line, line], code, indent);
    var lines := Split(content, '\n');
    assert lines[0..] == lines;
    assert lines[22..] == [];
  }

  /** Lines 1 to 12 of the mixed test keep three statements and leave a block comment open. */
  lemma MixedTextFirstHalf(content: string, kept: seq<string>, code: string, indent: string)
    requires IsStatement(code) && IsIndentation(indent)
    requires content == Join(MixedLines(code, indent), '\n')
    ensures |Split(content, '\n')| == 22
    ensures Scan(ScanState(kept, false), Split(content, '\n')[0..])
            == Scan(ScanState(kept + [indent + code, indent + code, indent + code], true), Split(content, '\n')[12..])
  {
    var line := indent + code;
    var k1 := kept;
    MixedTextPart1(content, k1, k1, code, indent);
    var k2 := k1 + [line];
    MixedTextPart2(content, k1, k2, code, indent);
    var k3 := k2 + [line];
    MixedTextPart3(content, k2, k3, code, indent);
    var k4 := k3 + [line];
    MixedTextPart4(content, k3, k4, code, indent);
    MixedTextPart5(content, k4, k4, code, indent);
    MixedTextPart6(content, k4, k4, code, indent);
    AppendThree(k1, line);
  }

  /** Lines 13 to 22 of the mixed test keep three more statements and close every comment. */
  lemma MixedTextSecondHalf(content: string, kept: seq<string>, code: string, indent: string)
    requires IsStatement(code) && IsIndentation(indent)
    requires content == Join(MixedLines(code, indent), '\n')
    ensures |Split(content, '\n')| == 22
    ensures Scan(ScanState(kept, true), Split(content, '\n')[12..])
            == Scan(ScanState(kept + [indent + code, indent + code, indent + code], false), Split(content, '\n')[22..])
  {
    var line := indent + code;
    var k7 := kept + [line];
    MixedTextPart7(content, kept, k7, code, indent);
    MixedTextPart8(content, k7, k7, code, indent);
    var k9 := k7 + [line];
    MixedTextPart9(content, k7, k9, code, indent);
    MixedTextPart10(content, k9, k9, code, indent);
    var k11 := k9 + [line];
    MixedTextPart11(content, k9, k11, code, indent);
    AppendThree(kept, line);
  }

  /** Appending `x` three times, one at a time, appends `[x, x, x]`. */
  lemma AppendThree<T>(kept: seq<T>, x: T)
    ensures kept + [x] + [x] + [x] == kept + [x, x, x]
  {
  }

  /** A statement and an indented statement are code lines. */
  lemma StatementLines(code: string, indent: string)
    requires IsStatement(code) && IsIndentation(indent)
    ensures IsCodeLine(code) && IsCodeLine(indent + code)
  {
    TrimUnpadded(code);
    TrimPadded(indent, code);
  }

  /** The five-statement test: a statement and four indented ones count five lines. */
  lemma FiveStatementsCountFive(content: string, code: string, indent: string)
    requires IsStatement(code) && IsIndentation(indent)
    requires content == Join([code, indent + code, indent + code, indent + code, indent + code], '\n')
    ensures LinesOfCode(content) == 5
  {
    var pieces := [code, indent + code, indent + code, indent + code, indent + code];
    assert forall i :: 0 <= i < |pieces| ==> '\n' !in pieces[i];
    SplitJoin(pieces, '\n');
    StatementLines(code, indent);
    assert forall k :: 0 <= k < |pieces| ==> IsCodeLine(pieces[k]);
    AllCodeLinesCounted(Start, pieces);
  }

  /** One statement counts one line, with or without a line break after it. */
  lemma SingleStatementCountsOne(code: string)
    requires IsStatement(code)
    ensures LinesOfCode(code) == 1
    ensures LinesOfCode(code + "\n") == 1
  {
    SplitJoin([code], '\n');
    TrimUnpadded(code);
    AllCodeLinesCounted(Start, [code]);
    TrailingNewlineAddsNothing(code);
  }

  /** The empty text, a run of spaces and a run of line breaks count nothing. */
  lemma BlankInputsCountNothing()
    ensures LinesOfCode("") == 0
    ensures LinesOfCode("    ") == 0
    ensures LinesOfCode("\n\n\n\n\n") == 0
  {
    WhitespaceHasNoCode("");
    WhitespaceHasNoCode("    ");
    WhitespaceHasNoCode("\n\n\n\n\n");
  }

  /** The statement and the indentation the tests use. */
  const Log := "console.log('Hello, world!')"
  const Indent := "        "

  lemma LogIsStatement(code: string)
    requires code == Log
    ensures IsStatement(code)
  {
    assert code[1] != "/*"[1] && code[1] != "//"[1] && code[|code| - 1] != "*/"[1];
  }

  lemma IndentIsIndentation(indent: string)
    requires indent == Indent
    ensures IsIndentation(indent)
  {
  }

  /** The five-statement and the mixed tests themselves. */
  lemma CountLinesOfCodeTests(five: string, mixed: string)
    requires five == Join([Log, Indent + Log, Indent + Log, Indent + Log, Indent + Log], '\n')
    requires mixed == Join(MixedLines(Log, Indent), '\n')
    ensures LinesOfCode(five) == 5 && LinesOfCode(mixed) == 6
  {
    LogIsStatement(Log);
    IndentIsIndentation(Indent);
    FiveStatementsCountFive(five, Log, Indent);
    MixedTextCountsSix(mixed, Log, Indent);
  }
}
