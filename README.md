# godox, modelled in Dafny

godox is a Go linter. It looks through the comments of a Go file for lines
that begin with one of a set of keywords (by default `TODO`, `BUG` and
`FIXME`) and reports each such line. Its format mode reports instead the
keyword lines that do not match a regular expression configured for
their keyword. This project models the whole of `godox.go`:

- `Comments`: comment tokens and the stripping of their delimiters
  (`extractComment`).
- `Matching`: the keyword prefix test and its word-boundary rule
  (`hasAlphanumRuneAdjacent`), and the first-match search over keywords and
  over format rules. `isFormatted` is known only through the answers of a
  regular-expression engine. The module also holds the 40-character
  truncation of the reported text.
- `Scanner`: `getMessages` and `getMessagesFormat` as methods with the
  source's loops. Both are proved equal to one specification,
  `CommentMessages`, which scans the lines of the stripped comment.
- `Driver`: the settings object and `Run`. `Run` writes the default
  keywords into an empty keyword list and then scans every comment token
  of every comment group, in order.
- `Text`: stand-ins for the library calls the scanner makes
  (`bytes.TrimSpace`, `bufio.Reader.ReadLine`, `strings.Join`, the `%d`
  verb), each with the properties the scanner relies on.
- `Wrappers`: the option type the searches return.
- `Examples`: worked scans of small comments, from the token to the
  report.

A message is kept structured. It holds the comment's position and a
`Report`, which says which of the two reports it is, which line it is
about, and what it quotes. `Scanner.Render` gives the printed text.

Four behaviours of the code that a reader may not expect, all kept by
the model:

- A format rule with an empty pattern reports every line its keyword
  matches (godox.go:107).
- A rule whose pattern accepts the line does not end the search: later
  rules are still tried (godox.go:108).
- `Run` overwrites the settings' keyword list when it is empty, even in
  format mode (godox.go:178-180).
- A keyword report names all configured keywords joined by "/", not the
  keyword that matched (godox.go:65).

## Model

| member | source | states |
|---|---|---|
| Comments.ExtractComment | godox.go:145-157 | A line comment loses `//` and at most one following space, and the space goes exactly when the third character is one. A block comment loses its two first and two last characters, which frame the result. Any other token is returned unchanged. |
| Comments.LineCommentRoundTrip | godox.go:147-151 | Stripping `// ` + body gives back exactly the body. |
| Comments.LineCommentWithoutSpace | godox.go:147-151 | With no space after `//`, only the marker is removed. |
| Comments.LineCommentKeepsIndent | godox.go:149-151 | Only one space is removed; further indentation survives. |
| Comments.BlockCommentRoundTrip | godox.go:152-153 | A block comment's interior, newlines included, is returned untouched. |
| Matching.MinimumSize | godox.go:39 | Trimmed lines shorter than 4 characters are never reported. |
| Matching.CommentLimit | godox.go:54 | Reported text is cut at 40 characters. |
| Matching.IsLetter | godox.go:171 | unicode.IsLetter over the ASCII letters. |
| Matching.IsNumber | godox.go:171 | unicode.IsNumber and unicode.IsDigit over the ASCII digits. |
| Matching.EqualFold | godox.go:47 | bytes.EqualFold: same length, and equal character by character once case is folded. |
| Matching.KeywordMatches | godox.go:47-48 | The keyword test: the line's prefix of the keyword's length equals the keyword up to case and is not followed by a letter or number. Its meaning is stated by KeywordBoundary and KeywordCaseInsensitive. |
| Matching.IsFormatted | godox.go:136-143 | isFormatted: whether the regular-expression engine finds a match of the pattern in the line. |
| Matching.RuleFlags | godox.go:101-109 | A rule reports a line when its keyword matches and its pattern is empty or finds no match. EmptyPatternFlags and NonFlaggingRuleIsTransparent state its consequences. |
| Matching.HasAlnumAdjacent | godox.go:159-172 | The text after a keyword continues a word exactly when it is non-empty and starts with a letter or number; the `:`/space/`(` shortcut never changes the answer. |
| Matching.KeywordBoundary | godox.go:47-48 | A keyword matches exactly when the line's prefix equals it up to case and the keyword is the whole line or is followed by neither a letter nor a number. |
| Matching.KeywordCaseInsensitive | godox.go:47 | Keywords equal up to case match the same lines. |
| Matching.KeywordExamples | godox.go:47-48 | "todo: fix this" matches TODO and "FIXME(bob) later" matches fixme; "TODOLIST: fix" does not match TODO and "BUG2 here" does not match BUG. |
| Matching.FirstKeyword | godox.go:46-50 | The index found matches, every earlier keyword fails, and None is returned exactly when no keyword matches. |
| Matching.FirstKeywordIs | godox.go:46-70 | A matching keyword preceded only by failing ones is the one the search stops at. |
| Matching.FirstFlaggingRule | godox.go:97-109 | The rule found reports the line, every earlier rule is silent, and None is returned exactly when every rule is silent. |
| Matching.FirstFlaggingRuleIs | godox.go:97-129 | A reporting rule preceded only by silent ones is the one the search stops at. |
| Matching.EmptyPatternFlags | godox.go:107 | A rule with an empty pattern reports a line exactly when its keyword matches. |
| Matching.NonFlaggingRuleIsTransparent | godox.go:106-109 | Removing a rule that does not report the line, such as one whose pattern accepts it, leaves the reported pattern unchanged: the search continues past such a rule. |
| Matching.Truncate | godox.go:53-57 | Text of at most 40 characters is kept. Longer text becomes its first 40 characters followed by "...". |
| Matching.TruncateIdempotent | godox.go:55-57 | Truncating an already truncated text changes nothing. |
| Text.TrimLeft | godox.go:41 | The result is a suffix of the input, everything removed is white space, and the result does not start with white space. |
| Text.TrimRight | godox.go:41 | The result is a prefix of the input, everything removed is white space, and the result does not end with white space. |
| Text.LeadingSpace | godox.go:41 | The number of leading white-space characters: all are space, and the next character (if any) is not. |
| Text.TrimSpace | godox.go:41 | The result is the slice of the input between its leading and its trailing white space, and neither end of it is white space. |
| Text.TrimSpaceKeeps | godox.go:41 | Text with no white space at either end is left unchanged. |
| Text.SplitLines | godox.go:29-37 | No line holds a newline, and non-empty text has at least one line. |
| Text.SplitLinesSingle | godox.go:33-37 | Text without a newline is read as that one line. |
| Text.SplitLinesTwo | godox.go:33-37 | Two lines joined by a newline are read back as those two lines. |
| Text.SplitLinesRoundTrip | godox.go:29-37 | Joining the lines that ReadLine returns with newlines gives back the text, up to the final newline it swallows. |
| Text.Join | godox.go:65 | strings.Join. JoinSplitRoundTrip states that joining with "/" loses nothing. |
| Text.Split | godox.go:65 | The parts contain no separator, and there is at least one part. |
| Text.JoinSplitRoundTrip | godox.go:65 | Joining keywords with "/" loses nothing: when no keyword contains "/", splitting gives the keywords back. |
| Text.Decimal | godox.go:64 | The `%d` rendering of a line number is a non-empty string of digits with no leading zero, except for the number 0 itself. |
| Text.DecimalRoundTrip | godox.go:64 | A `%d`-printed line number reads back as the same number. |
| Scanner.Report | godox.go:59-67 | The content of a message's text: a keyword report with its line, the joined keywords and the excerpt, or a format report with its line, the pattern and the excerpt. |
| Scanner.Message | godox.go:20-24 | A message: the comment's position and its report. |
| Scanner.KeywordLine | godox.go:39-71 | The reports of one line in keyword mode. KeywordLineSpec and LineMessagesShape state what they are. |
| Scanner.FormatLine | godox.go:90-130 | The reports of one line in format mode. FormatLineSpec and LineMessagesShape state what they are. |
| Scanner.CommentMessages | godox.go:26-75 | The reports of a whole comment token: the stripped text's lines, scanned in order. GetMessages and GetMessagesFormat are proved equal to it, and ScanLinesOrdered, ScanLinesMembers and CommentMessageShape state what it yields. |
| Scanner.LineMessagesShape | godox.go:39-68 | A line gives at most one report, and none when its trimmed text is short. A report carries the comment's position and the line number comment line + index, is of the mode's kind, and quotes the truncated trimmed line. |
| Scanner.ShortLineSilent | godox.go:39-44 | A line whose trimmed text has fewer than 4 characters gives no report. |
| Scanner.KeywordLineSpec | godox.go:39-71 | Keyword mode reports a line exactly when its trimmed text has at least 4 characters and some keyword matches it. The report names all keywords joined by "/". |
| Scanner.FormatLineSpec | godox.go:90-130 | Format mode reports a line exactly when its trimmed text has at least 4 characters and some rule reports it. The report names the pattern of the first such rule. |
| Scanner.ScanLinesMembers | godox.go:33-72 | A report is in a comment's scan exactly when it is the report of one of its lines. |
| Scanner.ScanLinesOrdered | godox.go:33-44 | A scan has at most one report per line, in strictly increasing line order. Line numbers lie within the comment's lines, so skipped short lines are still counted. Every report carries the comment's position and the mode's kind. |
| Scanner.CommentMessageShape | godox.go:52-64 | Every message of a comment carries the comment's position, is of the mode's kind, and is numbered within the comment's lines. |
| Scanner.ReportedKeywordsRecoverable | godox.go:65 | The keyword list in a report splits back into the configured keywords when none contains "/". |
| Scanner.Render | godox.go:59-68 | The printed message starts with the cleaned file name, ":", the decimal line number and ": Line ", and ends with the quoted excerpt. |
| Scanner.RenderedLineNumber | godox.go:61-64 | The number printed after the file name reads back as the report's line. |
| Scanner.ScanKeywordLine | godox.go:39-71 | One pass of getMessages' line loop yields exactly the keyword-mode reports of that line. |
| Scanner.GetMessages | godox.go:26-75 | getMessages returns exactly the keyword-mode scan of the stripped comment, line by line and in order. |
| Scanner.ScanFormatLine | godox.go:90-130 | One pass of getMessagesFormat's line loop yields exactly the format-mode reports of that line. |
| Scanner.GetMessagesFormat | godox.go:77-134 | getMessagesFormat returns exactly the format-mode scan of the stripped comment, line by line and in order. |
| Driver.DefaultKeywords | godox.go:18 | The keywords used when none are configured: TODO, BUG and FIXME. |
| Driver.Settings | godox.go:176-188 | The settings Run reads: the keyword list it may overwrite, the format flag and the format rules. |
| Driver.FileMessages | godox.go:182-190 | What Run returns for a file: the messages of all its comment tokens, group after group. FileMessageOrigin and TokensMessagesMembers state what it holds. |
| Driver.WithDefault | godox.go:178-180 | The keyword list in force is never empty. A configured non-empty list is kept, and an empty one becomes TODO, BUG, FIXME. |
| Driver.WithDefaultIdempotent | godox.go:178-180 | Applying the default twice is the same as applying it once, so a second Run sees the list the first left. |
| Driver.ModeOf | godox.go:184-188 | Format mode is used exactly when the settings ask for it, with the format rules. Otherwise keyword mode is used, with the defaulted keywords. |
| Driver.TokensMessagesMembers | godox.go:182-190 | A message is in the result for a run of tokens exactly when it is a message of one of those tokens. |
| Driver.FileMessageOrigin | godox.go:182-190 | Every message of a file carries the position of one of its comment tokens, and is a keyword report exactly in keyword mode. |
| Driver.Run | godox.go:176-193 | Run leaves the settings' keyword list defaulted. It returns the messages of every comment token of every group, concatenated in order, scanned in the mode the settings select. |
| Examples.DefaultKeywordsJoined | godox.go:18 | The default keywords are reported as "TODO/BUG/FIXME". |
| Examples.ScanOneLine | godox.go:33-44 | Scanning a single line gives that line's reports, numbered as line 0. |
| Examples.ScanTwoLines | godox.go:33-44 | Scanning two lines gives the first line's reports followed by the second's, numbered as line 1. |
| Examples.TodoLine | godox.go:41-48 | "TODO: fix this" is unchanged by trimming and matches the keyword TODO. |
| Examples.DefaultKeywordsExample | godox.go:46-68 | With the default keywords, "TODO: fix this" gives one keyword report that names "TODO/BUG/FIXME" and quotes the line. |
| Examples.FormatRuleExample | godox.go:97-127 | With one TODO rule, "TODO: fix this" is reported, naming the pattern, exactly when the engine finds no match of that pattern. |
| Examples.LineCommentScan | godox.go:26-44 | A `// ` comment whose text has no newline is scanned as its one line. |
| Examples.BlockLines | godox.go:145-157 | A block comment holding two newline-separated lines has exactly those lines. |
| Examples.ShortLineCounted | godox.go:39-44 | In a two-line block comment whose first line is too short, the messages are the second line's, numbered comment line + 1. |

## Left out

- Unicode: letters, numbers, white space and case folding are the ASCII sets. Characters stand for bytes, so a multi-byte rune is not decoded.
- Matching.Truncate: `%.40s` counts runes while the length test counts bytes. The model counts characters in both places.
- Matching.KeywordMatches: a keyword longer than the trimmed line never matches. In Go, the slice `sComment[0:lkw]` either reaches into the buffer's spare capacity or panics.
- Matching.IsFormatted: the regular-expression engine is a parameter, the set of (pattern, text) pairs it accepts. Compilation, and the panic of `regexp.MustCompile` on an invalid pattern, are not modelled.
- Comments.ExtractComment: requires a token of at least two characters, and of four for a block comment. Every token the Go scanner produces has this shape, and the source panics on anything shorter.
- Text.SplitLines: the lines `bufio.Reader.ReadLine` returns. Its splitting of lines longer than the 4096-byte buffer and its `isPrefix` flag are not modelled. A dropped carriage return is white space, which trimming removes anyway.
- Scanner.Render: `filepath.Clean` and the `%q` verb are parameters, and `Message.Message` is kept as a structured report.
- `go/ast` and `token.FileSet` are not part of this model. A file is the sequence of its comment groups, each a sequence of comment tokens with their resolved positions. Line numbers are natural numbers.
- Comments.Position: a message's position keeps the file name, line and column of `token.Position` but not its byte offset, which nothing in godox.go reads.
- Scanner.ScanKeywordLine and Scanner.ScanFormatLine hold the body of the source's line loop as methods of their own. The line loop in GetMessages and GetMessagesFormat calls them.
- The `config` package is not part of this model. Its settings object is modelled as the `Driver.Settings` class with the three fields Run reads.
