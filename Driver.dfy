/**
 * Run in godox.go: the entry point that applies the default keywords to
 * the settings and collects the messages of every comment of a file, in
 * order, in the mode the settings select.
 */
module Driver {
  import opened Comments
  import opened Matching
  import opened Scanner

  /** The keywords used when none are configured. */
  const DefaultKeywords: seq<string> := ["TODO", "BUG", "FIXME"]

  /**
   * config.GoDoxSettings: the keywords, whether format mode is on, and the
   * format rules. Run writes the default keywords back into an empty list.
   */
  class Settings {
    var keywords: seq<string>
    var format: bool
    var formatRules: seq<FormatRule>

    constructor(keywords: seq<string>, format: bool, formatRules: seq<FormatRule>)
      ensures this.keywords == keywords && this.format == format && this.formatRules == formatRules
    {
      this.keywords := keywords;
      this.format := format;
      this.formatRules := formatRules;
    }
  }

  /** The keyword list in force once Run has looked at the settings. */
  function WithDefault(keywords: seq<string>): (r: seq<string>)
    ensures r != []
    ensures keywords != [] ==> r == keywords
    ensures keywords == [] ==> r == DefaultKeywords
  {
    if keywords == [] then DefaultKeywords else keywords
  }

  /** Applying the default a second time changes nothing: a second Run sees the list the first one left. */
  lemma WithDefaultIdempotent(keywords: seq<string>)
    ensures WithDefault(WithDefault(keywords)) == WithDefault(keywords)
  {
  }

  /** The scan Run performs: format mode exactly when the settings ask for it. */
  function ModeOf(format: bool, keywords: seq<string>, rules: seq<FormatRule>, regex: Regex): (mode: Mode)
    ensures mode.FormatMode? <==> format
    ensures format ==> mode.rules == rules && mode.regex == regex
    ensures !format ==> mode.keywords == WithDefault(keywords)
  {
    if format then FormatMode(rules, regex) else KeywordMode(WithDefault(keywords))
  }

  /** Every comment token of a sequence can be stripped. */
  predicate AllWellFormed(cs: seq<Comment>)
  {
    forall i :: 0 <= i < |cs| ==> WellFormedToken(cs[i].text)
  }

  /** Every token of every comment group of a file can be stripped. */
  predicate WellFormedFile(file: seq<seq<Comment>>)
  {
    forall g :: 0 <= g < |file| ==> AllWellFormed(file[g])
  }

  /** The comment tokens of a file, group after group. */
  lemma {:induction false} FileTokensWellFormed(file: seq<seq<Comment>>)
    requires WellFormedFile(file)
    ensures AllWellFormed(Concat(file))
    decreases |file|
  {
    if file != [] {
      var n := |file| - 1;
      assert WellFormedFile(file[..n]) by {
        forall g | 0 <= g < n ensures file[..n][g] == file[g] { }
      }
      FileTokensWellFormed(file[..n]);
      assert AllWellFormed(file[n]);
      var before := Concat(file[..n]);
      var all := before + file[n];
      assert all == Concat(file);
      forall i | 0 <= i < |all| ensures WellFormedToken(all[i].text) {
        if i < |before| {
          assert all[i] == before[i];
        } else {
          assert all[i] == file[n][i - |before|];
        }
      }
    }
  }

  /** The messages of each comment token, in order. */
  function TokenReports(cs: seq<Comment>, mode: Mode): (r: seq<seq<Message>>)
    requires AllWellFormed(cs)
    ensures |r| == |cs|
  {
    seq(|cs|, i requires 0 <= i < |cs| => CommentMessages(cs[i], mode))
  }

  /** The messages of a sequence of comment tokens, token after token. */
  function TokensMessages(cs: seq<Comment>, mode: Mode): seq<Message>
    requires AllWellFormed(cs)
  {
    Concat(TokenReports(cs, mode))
  }

  /** What Run returns for a file: the messages of all its comment tokens, group after group. */
  function FileMessages(file: seq<seq<Comment>>, mode: Mode): seq<Message>
    requires WellFormedFile(file)
  {
    FileTokensWellFormed(file);
    TokensMessages(Concat(file), mode)
  }

  /** One more token appends that token's messages. */
  lemma TokensMessagesSnoc(cs: seq<Comment>, c: Comment, mode: Mode)
    requires AllWellFormed(cs) && WellFormedToken(c.text)
    ensures AllWellFormed(cs + [c])
    ensures TokensMessages(cs + [c], mode) == TokensMessages(cs, mode) + CommentMessages(c, mode)
  {
    var longer := TokenReports(cs + [c], mode);
    assert longer[..|cs|] == TokenReports(cs, mode);
    assert longer[|cs|] == CommentMessages(c, mode);
  }

  /**
   * Every message of a run of tokens comes from one of them, and every
   * message of a token is among them.
   */
  lemma TokensMessagesMembers(cs: seq<Comment>, mode: Mode, m: Message)
    requires AllWellFormed(cs)
    ensures m in TokensMessages(cs, mode) <==> exists i :: 0 <= i < |cs| && m in CommentMessages(cs[i], mode)
  {
    var r := TokenReports(cs, mode);
    ConcatMembers(r, m);
    assert forall i :: 0 <= i < |cs| ==> r[i] == CommentMessages(cs[i], mode);
  }

  /**
   * Where a message of a file comes from: some comment token of the file,
   * whose position it carries, and a line of that token; its kind is the
   * one the mode asks for.
   */
  lemma FileMessageOrigin(file: seq<seq<Comment>>, mode: Mode, m: Message)
    requires WellFormedFile(file)
    requires m in FileMessages(file, mode)
    ensures exists i :: 0 <= i < |Concat(file)| && m.pos == Concat(file)[i].pos
    ensures m.report.Contains? <==> mode.KeywordMode?
  {
    var cs := Concat(file);
    FileTokensWellFormed(file);
    TokensMessagesMembers(cs, mode, m);
    var i :| 0 <= i < |cs| && m in CommentMessages(cs[i], mode);
    CommentMessageShape(cs[i], mode, m);
  }

  /** One more comment group appends its tokens. */
  lemma FileStep(file: seq<seq<Comment>>, g: nat)
    requires g < |file| && WellFormedFile(file)
    ensures file[g][..|file[g]|] == file[g]
    ensures Concat(file[..g + 1]) == Concat(file[..g]) + file[g]
  {
    assert file[..g + 1][..g] == file[..g];
  }

  /** One more token of the current group appends that token's messages. */
  lemma GroupStep(done: seq<Comment>, c: seq<Comment>, k: nat, mode: Mode)
    requires k < |c| && AllWellFormed(c) && AllWellFormed(done + c[..k])
    ensures AllWellFormed(done + c[..k + 1])
    ensures TokensMessages(done + c[..k + 1], mode) == TokensMessages(done + c[..k], mode) + CommentMessages(c[k], mode)
  {
    assert done + c[..k + 1] == (done + c[..k]) + [c[k]];
    TokensMessagesSnoc(done + c[..k], c[k], mode);
  }

  /**
   * Run: fill in the default keywords when the list is empty, then scan
   * every comment token of every group, in order, with getMessagesFormat
   * when format mode is on and with getMessages otherwise.
   */
  method Run(file: seq<seq<Comment>>, settings: Settings, regex: Regex) returns (messages: seq<Message>)
    requires WellFormedFile(file)
    modifies settings`keywords
    ensures settings.keywords == WithDefault(old(settings.keywords))
    ensures messages == FileMessages(file, ModeOf(settings.format, old(settings.keywords), settings.formatRules, regex))
  {
    messages := [];
    if |settings.keywords| == 0 {
      settings.keywords := DefaultKeywords;
    }
    ghost var mode := ModeOf(settings.format, old(settings.keywords), settings.formatRules, regex);
    for g := 0 to |file|
      invariant settings.keywords == WithDefault(old(settings.keywords))
      invariant AllWellFormed(Concat(file[..g]))
      invariant messages == TokensMessages(Concat(file[..g]), mode)
    {
      var c := file[g];
      ghost var done := Concat(file[..g]);
      assert done + c[..0] == done;
      for k := 0 to |c|
        invariant settings.keywords == WithDefault(old(settings.keywords))
        invariant AllWellFormed(done + c[..k])
        invariant messages == TokensMessages(done + c[..k], mode)
      {
        var ci := c[k];
        var found;
        if settings.format {
          found := GetMessagesFormat(ci, settings.formatRules, regex);
        } else {
          found := GetMessages(ci, settings.keywords);
        }
        messages := messages + found;
        GroupStep(done, c, k, mode);
      }
      FileStep(file, g);
    }
    assert file[..|file|] == file;
  }
}
