/**
 * The per-comment scanners of godox.go: getMessages (keyword mode) and
 * getMessagesFormat (format mode). Each is a method that walks the lines of
 * the stripped comment the way the source does and is proved equal to
 * CommentMessages, the specification both share; the lemmas below state
 * what that specification promises.
 */
module Scanner {
  import opened Wrappers
  import opened Text
  import opened Comments
  import opened Matching

  /**
   * The rendered part of a message: which kind of report it is, the line
   * it is about, and what the format string embeds besides the file name.
   */
  datatype Report =
    | Contains(line: nat, keywords: string, excerpt: string)
    | Mismatch(line: nat, pattern: string, excerpt: string)

  /** A message: the position of the comment it comes from and its report. */
  datatype Message = Message(pos: Position, report: Report)

  /**
   * Which scan to run: keyword mode with the keyword list, or format mode
   * with the format rules and the regular expression engine that decides
   * whether a pattern matches a line.
   */
  datatype Mode =
    | KeywordMode(keywords: seq<string>)
    | FormatMode(rules: seq<FormatRule>, regex: Regex)

  /** Keyword mode, one line: one report if some keyword starts the trimmed line, naming all keywords. */
  function KeywordLine(pos: Position, keywords: seq<string>, index: nat, line: string): seq<Message>
  {
    var t := TrimSpace(line);
    if |t| < MinimumSize then []
    else match FirstKeyword(t, keywords, 0)
      case None => []
      case Some(_) => [Message(pos, Contains(pos.line + index, Join(keywords, "/"), Truncate(t)))]
  }

  /** Format mode, one line: one report naming the pattern of the first rule that flags the trimmed line. */
  function FormatLine(pos: Position, rules: seq<FormatRule>, regex: Regex,
                      index: nat, line: string): seq<Message>
  {
    var t := TrimSpace(line);
    if |t| < MinimumSize then []
    else match FirstFlaggingRule(t, rules, regex, 0)
      case None => []
      case Some(k) => [Message(pos, Mismatch(pos.line + index, rules[k].pattern, Truncate(t)))]
  }

  /** The reports for line `index` of a comment starting at `pos`, in the given mode. */
  function LineMessages(pos: Position, mode: Mode, index: nat, line: string): seq<Message>
  {
    match mode
    case KeywordMode(keywords) => KeywordLine(pos, keywords, index, line)
    case FormatMode(rules, regex) => FormatLine(pos, rules, regex, index, line)
  }

  /**
   * What every line's reports look like: at most one, none for a short
   * line, positioned at the comment, numbered with the comment's line plus
   * the index, of the kind the mode asks for, and quoting the (possibly
   * truncated) trimmed line.
   */
  lemma LineMessagesShape(pos: Position, mode: Mode, index: nat, line: string)
    ensures var ms := LineMessages(pos, mode, index, line);
            |ms| <= 1
            && (|TrimSpace(line)| < MinimumSize ==> ms == [])
            && (ms != [] ==>
                  ms[0].pos == pos && ms[0].report.line == pos.line + index
                  && ms[0].report.excerpt == Truncate(TrimSpace(line))
                  && (ms[0].report.Contains? <==> mode.KeywordMode?))
  {
  }

  /** A line whose trimmed text is shorter than the minimum yields nothing. */
  lemma ShortLineSilent(pos: Position, mode: Mode, index: nat, line: string)
    requires |TrimSpace(line)| < MinimumSize
    ensures LineMessages(pos, mode, index, line) == []
  {
  }

  /** The reports of each line of a run, in order; line i of the run has index i. */
  function LineReports(pos: Position, mode: Mode, lines: seq<string>): (r: seq<seq<Message>>)
    ensures |r| == |lines|
  {
    seq(|lines|, i requires 0 <= i < |lines| => LineMessages(pos, mode, i, lines[i]))
  }

  /** The reports for a run of lines, line after line. */
  function ScanLines(pos: Position, mode: Mode, lines: seq<string>): seq<Message>
  {
    Concat(LineReports(pos, mode, lines))
  }

  /** The concatenation of a sequence of sequences, in order. */
  function Concat<T>(xss: seq<seq<T>>): seq<T>
    decreases |xss|
  {
    if xss == [] then [] else Concat(xss[..|xss| - 1]) + xss[|xss| - 1]
  }

  /** An element of a concatenation comes from one of the parts, and every element of a part is in it. */
  lemma {:induction false} ConcatMembers<T>(xss: seq<seq<T>>, x: T)
    ensures x in Concat(xss) <==> exists i :: 0 <= i < |xss| && x in xss[i]
    decreases |xss|
  {
    if xss != [] {
      var n := |xss| - 1;
      var init := xss[..n];
      ConcatMembers(init, x);
      assert Concat(xss) == Concat(init) + xss[n];
      assert forall i :: 0 <= i < n ==> init[i] == xss[i];
    }
  }

  /** The lines of a comment once its delimiters are stripped. */
  function CommentLines(c: Comment): seq<string>
    requires WellFormedToken(c.text)
  {
    SplitLines(ExtractComment(c.text))
  }

  /** Everything one comment token yields in the given mode. */
  function CommentMessages(c: Comment, mode: Mode): seq<Message>
    requires WellFormedToken(c.text)
  {
    ScanLines(c.pos, mode, CommentLines(c))
  }

  /** Scanning a run extended by one line appends that line's reports, numbered after the run. */
  lemma ScanLinesAppendLine(pos: Position, mode: Mode, init: seq<string>, line: string)
    ensures ScanLines(pos, mode, init + [line]) == ScanLines(pos, mode, init) + LineMessages(pos, mode, |init|, line)
  {
    var longer := LineReports(pos, mode, init + [line]);
    assert longer[..|init|] == LineReports(pos, mode, init);
    assert longer[|init|] == LineMessages(pos, mode, |init|, line);
  }

  /** Scanning one more line of a comment appends that line's reports. */
  lemma ScanLinesSnoc(pos: Position, mode: Mode, lines: seq<string>, n: nat)
    requires n < |lines|
    ensures ScanLines(pos, mode, lines[..n + 1]) == ScanLines(pos, mode, lines[..n]) + LineMessages(pos, mode, n, lines[n])
  {
    assert lines[..n + 1] == lines[..n] + [lines[n]];
    ScanLinesAppendLine(pos, mode, lines[..n], lines[n]);
  }

  /** Keyword mode: the reports of one line of sufficient length, given the first keyword that starts it. */
  lemma KeywordLineOutcome(pos: Position, keywords: seq<string>, n: nat, line: string, t: string, hit: Option<nat>)
    requires t == TrimSpace(line) && |t| >= MinimumSize
    requires hit == FirstKeyword(t, keywords, 0)
    ensures KeywordLine(pos, keywords, n, line)
            == if hit.Some? then [Message(pos, Contains(pos.line + n, Join(keywords, "/"), Truncate(t)))] else []
  {
  }

  /** Format mode: the reports of one line of sufficient length, given the first rule that flags it. */
  lemma FormatLineOutcome(pos: Position, rules: seq<FormatRule>, regex: Regex,
                          n: nat, line: string, t: string, hit: Option<nat>)
    requires t == TrimSpace(line) && |t| >= MinimumSize
    requires hit == FirstFlaggingRule(t, rules, regex, 0)
    ensures FormatLine(pos, rules, regex, n, line)
            == match hit
               case None => []
               case Some(k) => [Message(pos, Mismatch(pos.line + n, rules[k].pattern, Truncate(t)))]
  {
  }

  /**
   * Keyword mode reports a line exactly when the trimmed line is long
   * enough and some keyword starts it, and the report lists every
   * configured keyword, joined by "/".
   */
  lemma KeywordLineSpec(pos: Position, keywords: seq<string>, index: nat, line: string)
    ensures KeywordLine(pos, keywords, index, line) != [] <==>
              |TrimSpace(line)| >= MinimumSize
              && exists k :: 0 <= k < |keywords| && KeywordMatches(TrimSpace(line), keywords[k])
    ensures KeywordLine(pos, keywords, index, line) != [] ==>
              KeywordLine(pos, keywords, index, line)[0].report.keywords == Join(keywords, "/")
  {
    var t := TrimSpace(line);
    if |t| >= MinimumSize && exists k :: 0 <= k < |keywords| && KeywordMatches(t, keywords[k]) {
      assert FirstKeyword(t, keywords, 0).Some?;
    }
  }

  /**
   * Format mode reports a line exactly when the trimmed line is long
   * enough and some rule flags it, and the report names the pattern of the
   * first such rule.
   */
  lemma FormatLineSpec(pos: Position, rules: seq<FormatRule>, regex: Regex, index: nat, line: string)
    ensures FormatLine(pos, rules, regex, index, line) != [] <==>
              |TrimSpace(line)| >= MinimumSize
              && exists k :: 0 <= k < |rules| && RuleFlags(TrimSpace(line), rules[k], regex)
    ensures FormatLine(pos, rules, regex, index, line) != [] ==>
              Some(FormatLine(pos, rules, regex, index, line)[0].report.pattern)
              == FlaggedPattern(TrimSpace(line), rules, regex)
  {
    var t := TrimSpace(line);
    if |t| >= MinimumSize && exists k :: 0 <= k < |rules| && RuleFlags(t, rules[k], regex) {
      assert FirstFlaggingRule(t, rules, regex, 0).Some?;
    }
  }

  /** Every report of a scan comes from one line of it, and every report of a line is in the scan. */
  lemma ScanLinesMembers(pos: Position, mode: Mode, lines: seq<string>, m: Message)
    ensures m in ScanLines(pos, mode, lines) <==>
              exists i :: 0 <= i < |lines| && m in LineMessages(pos, mode, i, lines[i])
  {
    var r: seq<seq<Message>> := LineReports(pos, mode, lines);
    ConcatMembers(r, m);
    assert forall i :: 0 <= i < |lines| ==> r[i] == LineMessages(pos, mode, i, lines[i]);
  }

  /** Report line numbers increase strictly through a sequence of reports. */
  predicate Ascending(ms: seq<Message>)
  {
    forall a, b :: 0 <= a < b < |ms| ==> ms[a].report.line < ms[b].report.line
  }

  /** Every report's line number lies in [lo, hi). */
  predicate LinesWithin(ms: seq<Message>, lo: int, hi: int)
  {
    forall a :: 0 <= a < |ms| ==> lo <= ms[a].report.line < hi
  }

  /** Every report carries position `pos` and is a keyword report exactly when `keyword` holds. */
  predicate FromComment(ms: seq<Message>, pos: Position, keyword: bool)
  {
    forall a :: 0 <= a < |ms| ==> ms[a].pos == pos && (ms[a].report.Contains? <==> keyword)
  }

  /**
   * Part i holds at most one report, about line pos.line + i, carrying
   * position `pos` and of the kind `keyword` selects.
   */
  predicate OnePerLine(xss: seq<seq<Message>>, pos: Position, keyword: bool)
  {
    forall i :: 0 <= i < |xss| ==>
      |xss[i]| <= 1 && FromComment(xss[i], pos, keyword)
      && (xss[i] != [] ==> xss[i][0].report.line == pos.line + i)
  }

  /** Concatenating at most one report per line keeps them in line order and within the lines. */
  lemma {:induction false} ConcatOrdered(xss: seq<seq<Message>>, pos: Position, keyword: bool)
    requires OnePerLine(xss, pos, keyword)
    ensures |Concat(xss)| <= |xss|
    ensures LinesWithin(Concat(xss), pos.line, pos.line + |xss|)
    ensures Ascending(Concat(xss))
    ensures FromComment(Concat(xss), pos, keyword)
    decreases |xss|
  {
    if xss != [] {
      var n := |xss| - 1;
      var prefix := Concat(xss[..n]);
      var last := xss[n];
      assert OnePerLine(xss[..n], pos, keyword) by {
        forall i | 0 <= i < n ensures xss[..n][i] == xss[i] { }
      }
      ConcatOrdered(xss[..n], pos, keyword);
      var all := prefix + last;
      assert all == Concat(xss);
      forall a, b | 0 <= a < b < |all| ensures all[a].report.line < all[b].report.line {
        if b < |prefix| {
          assert all[a] == prefix[a] && all[b] == prefix[b];
        } else {
          assert all[a] == prefix[a] && all[b] == last[0];
        }
      }
      forall a | 0 <= a < |all|
        ensures pos.line <= all[a].report.line < pos.line + |xss|
        ensures all[a].pos == pos && (all[a].report.Contains? <==> keyword)
      {
        if a < |prefix| {
          assert all[a] == prefix[a];
        } else {
          assert all[a] == last[0];
        }
      }
    }
  }

  /**
   * A scan yields at most one report per line, in line order, and every
   * report's line number lies within the comment's lines: short lines are
   * skipped but still counted, so later lines keep their true offset.
   * Every report carries the comment's position and is of the kind the
   * mode asks for.
   */
  lemma ScanLinesOrdered(pos: Position, mode: Mode, lines: seq<string>)
    ensures |ScanLines(pos, mode, lines)| <= |lines|
    ensures LinesWithin(ScanLines(pos, mode, lines), pos.line, pos.line + |lines|)
    ensures Ascending(ScanLines(pos, mode, lines))
    ensures FromComment(ScanLines(pos, mode, lines), pos, mode.KeywordMode?)
  {
    var r: seq<seq<Message>> := LineReports(pos, mode, lines);
    forall i | 0 <= i < |r|
      ensures |r[i]| <= 1 && FromComment(r[i], pos, mode.KeywordMode?)
      ensures r[i] != [] ==> r[i][0].report.line == pos.line + i
    {
      LineMessagesShape(pos, mode, i, lines[i]);
    }
    ConcatOrdered(r, pos, mode.KeywordMode?);
  }

  /**
   * Every message of a comment carries the comment's position, is of the
   * kind the mode asks for, and is about one of the comment's lines.
   */
  lemma CommentMessageShape(c: Comment, mode: Mode, m: Message)
    requires WellFormedToken(c.text)
    requires m in CommentMessages(c, mode)
    ensures m.pos == c.pos
    ensures m.report.Contains? <==> mode.KeywordMode?
    ensures c.pos.line <= m.report.line < c.pos.line + |CommentLines(c)|
  {
    var ms := CommentMessages(c, mode);
    ScanLinesOrdered(c.pos, mode, CommentLines(c));
    var a :| 0 <= a < |ms| && ms[a] == m;
  }

  /**
   * The keyword list named in a keyword-mode report can be split back into
   * the configured keywords, provided none of them contains "/".
   */
  lemma ReportedKeywordsRecoverable(pos: Position, keywords: seq<string>, index: nat, line: string)
    requires forall i :: 0 <= i < |keywords| ==> '/' !in keywords[i]
    requires KeywordLine(pos, keywords, index, line) != []
    ensures Split(KeywordLine(pos, keywords, index, line)[0].report.keywords, '/') == keywords
  {
    KeywordLineSpec(pos, keywords, index, line);
    JoinSplitRoundTrip(keywords, '/');
  }

  /**
   * The text a message is printed as, by the two format strings of
   * godox.go. `clean` stands for filepath.Clean and `quote` for the `%q`
   * verb; the line number is printed in decimal.
   */
  function Render(m: Message, clean: string -> string, quote: string -> string): (s: string)
    ensures clean(m.pos.filename) + ":" + Decimal(m.report.line) + ": Line " <= s
    ensures |quote(m.report.excerpt)| <= |s| && s[|s| - |quote(m.report.excerpt)|..] == quote(m.report.excerpt)
  {
    var header := clean(m.pos.filename) + ":" + Decimal(m.report.line) + ": Line ";
    match m.report
    case Contains(_, keywords, excerpt) =>
      header + "contains " + keywords + ": " + quote(excerpt)
    case Mismatch(_, pattern, excerpt) =>
      header + "does not match the expected format: " + pattern + ", " + quote(excerpt)
  }

  /** The line number printed after the file name reads back as the report's line. */
  lemma RenderedLineNumber(m: Message, clean: string -> string, quote: string -> string, name: string, digits: string)
    requires name == clean(m.pos.filename) && digits == Decimal(m.report.line)
    ensures |name| + 1 + |digits| <= |Render(m, clean, quote)|
    ensures ParseDecimal(Render(m, clean, quote)[|name| + 1..|name| + 1 + |digits|]) == m.report.line
  {
    var s := Render(m, clean, quote);
    var header := name + ":" + digits + ": Line ";
    assert header <= s;
    assert s[|name| + 1..|name| + 1 + |digits|] == header[|name| + 1..|name| + 1 + |digits|] == digits;
    DecimalRoundTrip(m.report.line);
  }

  /**
   * The body of getMessages' line loop: trim the line, skip it when short,
   * otherwise try the keywords in order and report the line on the first
   * one that starts it.
   */
  method ScanKeywordLine(pos: Position, keywords: seq<string>, lineNum: nat, line: string) returns (found: seq<Message>)
    ensures found == KeywordLine(pos, keywords, lineNum, line)
  {
    found := [];
    var sComment := TrimSpace(line);
    if |sComment| < MinimumSize {
      return;
    }
    ghost var t := sComment;
    ghost var hit: Option<nat> := None;
    for i := 0 to |keywords|
      invariant sComment == t && found == [] && hit == None
      invariant forall j :: 0 <= j < i ==> !KeywordMatches(t, keywords[j])
    {
      var kw := keywords[i];
      if !KeywordMatches(sComment, kw) {
        continue;
      }
      if |sComment| > CommentLimit {
        sComment := sComment[..CommentLimit] + "...";
      }
      found := [Message(pos, Contains(pos.line + lineNum, Join(keywords, "/"), sComment))];
      hit := Some(i);
      FirstKeywordIs(t, keywords, i);
      break;
    }
    KeywordLineOutcome(pos, keywords, lineNum, line, t, hit);
  }

  /** getMessages: scan a comment for lines that start with one of the keywords. */
  method GetMessages(comment: Comment, keywords: seq<string>) returns (comments: seq<Message>)
    requires WellFormedToken(comment.text)
    ensures comments == CommentMessages(comment, KeywordMode(keywords))
  {
    var lines := SplitLines(ExtractComment(comment.text));
    comments := [];
    for lineNum := 0 to |lines|
      invariant comments == ScanLines(comment.pos, KeywordMode(keywords), lines[..lineNum])
    {
      var found := ScanKeywordLine(comment.pos, keywords, lineNum, lines[lineNum]);
      comments := comments + found;
      ScanLinesSnoc(comment.pos, KeywordMode(keywords), lines, lineNum);
    }
    assert lines[..|lines|] == lines;
  }

  /**
   * The body of getMessagesFormat's line loop: trim the line, skip it when
   * short, otherwise go through the rules in order and report the line on
   * the first rule whose keyword starts it and whose pattern is empty or
   * does not match it.
   */
  method ScanFormatLine(pos: Position, formatRules: seq<FormatRule>, regex: Regex,
                        lineNum: nat, line: string) returns (found: seq<Message>)
    ensures found == FormatLine(pos, formatRules, regex, lineNum, line)
  {
    found := [];
    var sComment := TrimSpace(line);
    if |sComment| < MinimumSize {
      return;
    }
    ghost var t := sComment;
    ghost var hit: Option<nat> := None;
    for i := 0 to |formatRules|
      invariant sComment == t && found == [] && hit == None
      invariant forall j :: 0 <= j < i ==> !RuleFlags(t, formatRules[j], regex)
    {
      var kw := formatRules[i].keyword;
      var formatPattern := formatRules[i].pattern;
      if !KeywordMatches(sComment, kw) {
        continue;
      }
      if formatPattern != "" && IsFormatted(regex, formatPattern, sComment) {
        continue;
      }
      if |sComment| > CommentLimit {
        sComment := sComment[..CommentLimit] + "...";
      }
      found := [Message(pos, Mismatch(pos.line + lineNum, formatPattern, sComment))];
      hit := Some(i);
      FirstFlaggingRuleIs(t, formatRules, regex, i);
      break;
    }
    FormatLineOutcome(pos, formatRules, regex, lineNum, line, t, hit);
  }

  /** getMessagesFormat: scan a comment for keyword lines that break their rule's format. */
  method GetMessagesFormat(comment: Comment, formatRules: seq<FormatRule>, regex: Regex)
    returns (comments: seq<Message>)
    requires WellFormedToken(comment.text)
    ensures comments == CommentMessages(comment, FormatMode(formatRules, regex))
  {
    var lines := SplitLines(ExtractComment(comment.text));
    comments := [];
    for lineNum := 0 to |lines|
      invariant comments == ScanLines(comment.pos, FormatMode(formatRules, regex), lines[..lineNum])
    {
      var found := ScanFormatLine(comment.pos, formatRules, regex, lineNum, lines[lineNum]);
      comments := comments + found;
      ScanLinesSnoc(comment.pos, FormatMode(formatRules, regex), lines, lineNum);
    }
    assert lines[..|lines|] == lines;
  }
}
