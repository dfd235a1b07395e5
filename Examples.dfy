/**
 * Worked scans of small comments, computed from the model end to end: the
 * stripping, the line splitting, the trimming, the keyword search and the
 * report built for each line.
 */
module Examples {
  import opened Wrappers
  import opened Text
  import opened Comments
  import opened Matching
  import opened Scanner
  import opened Driver

  /** The list the default keywords are reported as. */
  lemma DefaultKeywordsJoined()
    ensures Join(DefaultKeywords, "/") == "TODO/BUG/FIXME"
  {
    assert DefaultKeywords[1..][1..] == ["FIXME"];
  }

  /** A scan of a single line is that line's reports. */
  lemma ScanOneLine(pos: Position, mode: Mode, line: string)
    ensures ScanLines(pos, mode, [line]) == LineMessages(pos, mode, 0, line)
  {
    assert [] + [line] == [line];
    ScanLinesAppendLine(pos, mode, [], line);
  }

  /** A scan of two lines is the scan of the first followed by the second line's reports. */
  lemma ScanTwoLines(pos: Position, mode: Mode, first: string, second: string)
    ensures ScanLines(pos, mode, [first, second]) == ScanLines(pos, mode, [first]) + LineMessages(pos, mode, 1, second)
  {
    assert [first] + [second] == [first, second];
    ScanLinesAppendLine(pos, mode, [first], second);
  }

  /** "TODO: fix this" is left unchanged by trimming and starts with the keyword TODO. */
  lemma TodoLine()
    ensures TrimSpace("TODO: fix this") == "TODO: fix this"
    ensures KeywordMatches("TODO: fix this", "TODO")
  {
    var body := "TODO: fix this";
    TrimSpaceKeeps(body);
    assert body[..4] == "TODO" && body[4..][0] == ':';
  }

  /** With the default keywords, a TODO line is reported once, naming all three keywords. */
  lemma DefaultKeywordsExample(pos: Position, index: nat)
    ensures KeywordLine(pos, DefaultKeywords, index, "TODO: fix this")
            == [Message(pos, Contains(pos.line + index, "TODO/BUG/FIXME", "TODO: fix this"))]
  {
    TodoLine();
    assert FirstKeyword("TODO: fix this", DefaultKeywords, 0) == Some(0);
    DefaultKeywordsJoined();
  }

  /**
   * Format mode on the same line: the rule's pattern lets it through when
   * the engine finds a match, and the line is reported, naming the pattern,
   * when it does not.
   */
  lemma FormatRuleExample(pos: Position, pattern: string, regex: Regex)
    requires pattern != ""
    ensures FormatLine(pos, [FormatRule("TODO", pattern)], regex, 0, "TODO: fix this")
            == if IsFormatted(regex, pattern, "TODO: fix this") then []
               else [Message(pos, Mismatch(pos.line, pattern, "TODO: fix this"))]
  {
    TodoLine();
    var rules := [FormatRule("TODO", pattern)];
    if IsFormatted(regex, pattern, "TODO: fix this") {
      assert FirstFlaggingRule("TODO: fix this", rules, regex, 0) == None;
    } else {
      assert FirstFlaggingRule("TODO: fix this", rules, regex, 0) == Some(0);
    }
  }

  /** A line comment whose text has no newline is scanned as its one line. */
  lemma LineCommentScan(pos: Position, mode: Mode, body: string)
    requires body != [] && '\n' !in body
    ensures CommentMessages(Comment("// " + body, pos), mode) == LineMessages(pos, mode, 0, body)
  {
    LineCommentRoundTrip(body);
    SplitLinesSingle(body);
    ScanOneLine(pos, mode, body);
  }

  /** A block comment holding two lines separated by a newline has exactly those lines. */
  lemma BlockLines(pos: Position, first: string, second: string)
    requires '\n' !in first && second != [] && '\n' !in second
    ensures WellFormedToken(("/*" + first + "\n" + second + "*/"))
    ensures CommentLines(Comment("/*" + first + "\n" + second + "*/", pos)) == [first, second]
  {
    var inner := first + "\n" + second;
    BlockCommentRoundTrip(inner);
    assert "/*" + first + "\n" + second + "*/" == "/*" + inner + "*/";
    SplitLinesTwo(first, second);
  }

  /**
   * In a block comment of two lines, a first line too short to report is
   * still counted: whatever the second line yields is numbered as the
   * comment's line plus one.
   */
  lemma ShortLineCounted(pos: Position, mode: Mode, first: string, second: string)
    requires '\n' !in first && second != [] && '\n' !in second
    requires |TrimSpace(first)| < MinimumSize
    ensures CommentMessages(Comment("/*" + first + "\n" + second + "*/", pos), mode) == LineMessages(pos, mode, 1, second)
    ensures forall m :: m in CommentMessages(Comment("/*" + first + "\n" + second + "*/", pos), mode) ==> m.report.line == pos.line + 1
  {
    BlockLines(pos, first, second);
    ScanTwoLines(pos, mode, first, second);
    ScanOneLine(pos, mode, first);
    ShortLineSilent(pos, mode, 0, first);
    LineMessagesShape(pos, mode, 1, second);
  }
}
