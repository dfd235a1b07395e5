/**
 * What decides whether one trimmed comment line is reported: the keyword
 * prefix test with its word-boundary rule (hasAlphanumRuneAdjacent), the
 * first-match search over keywords and format rules, and the truncation of
 * the reported text.
 */
module Matching {
  import opened Wrappers
  import opened Text

  /** Trimmed lines shorter than this are never reported. */
  const MinimumSize: nat := 4

  /** Reported text longer than this is cut down and marked with "...". */
  const CommentLimit: nat := 40

  /** unicode.IsLetter, restricted to ASCII. */
  predicate IsLetter(c: char)
  {
    'a' <= c <= 'z' || 'A' <= c <= 'Z'
  }

  /** unicode.IsNumber and unicode.IsDigit, restricted to ASCII. */
  predicate IsNumber(c: char)
  {
    '0' <= c <= '9'
  }

  /** Simple case folding, restricted to ASCII. */
  function ToLower(c: char): char
  {
    if 'A' <= c <= 'Z' then (c as int + 32) as char else c
  }

  /** bytes.EqualFold: same length and equal once case is folded. */
  predicate EqualFold(a: string, b: string)
  {
    |a| == |b| && forall i :: 0 <= i < |a| ==> ToLower(a[i]) == ToLower(b[i])
  }

  /**
   * hasAlphanumRuneAdjacent: whether the text right after a keyword
   * continues a word. The checks for ':', ' ' and '(' are a shortcut; the
   * answer is simply whether the first character is a letter or a number.
   */
  function HasAlnumAdjacent(rest: string): (r: bool)
    ensures r <==> rest != [] && (IsLetter(rest[0]) || IsNumber(rest[0]))
  {
    if |rest| == 0 then false
    else if rest[0] == ':' || rest[0] == ' ' || rest[0] == '(' then false
    else IsLetter(rest[0]) || IsNumber(rest[0])
  }

  /**
   * A trimmed line starts with keyword `kw`: its prefix of the keyword's
   * length equals the keyword up to case and is not followed by a letter
   * or number. A keyword longer than the line never matches.
   */
  predicate KeywordMatches(t: string, kw: string)
  {
    |kw| <= |t| && EqualFold(kw, t[..|kw|]) && !HasAlnumAdjacent(t[|kw|..])
  }

  /** The boundary rule spelled out: the keyword is the whole line or is followed by neither a letter nor a number. */
  lemma KeywordBoundary(t: string, kw: string)
    ensures KeywordMatches(t, kw) <==>
              |kw| <= |t| && EqualFold(kw, t[..|kw|])
              && (|kw| == |t| || !(IsLetter(t[|kw|]) || IsNumber(t[|kw|])))
  {
    if |kw| < |t| {
      assert t[|kw|..][0] == t[|kw|];
    }
  }

  /** Matching ignores the case of the keyword: keywords equal up to case match the same lines. */
  lemma KeywordCaseInsensitive(t: string, kw1: string, kw2: string)
    requires EqualFold(kw1, kw2)
    ensures KeywordMatches(t, kw1) <==> KeywordMatches(t, kw2)
  {
  }

  /**
   * The first keyword from position `from` on that matches `t`: every
   * keyword before it fails, and None means that none matches.
   */
  function FirstKeyword(t: string, kws: seq<string>, from: nat): (k: Option<nat>)
    requires from <= |kws|
    ensures k.Some? ==>
              from <= k.value < |kws| && KeywordMatches(t, kws[k.value])
              && forall j :: from <= j < k.value ==> !KeywordMatches(t, kws[j])
    ensures k.None? <==> forall j :: from <= j < |kws| ==> !KeywordMatches(t, kws[j])
    decreases |kws| - from
  {
    if from == |kws| then None
    else if KeywordMatches(t, kws[from]) then Some(from)
    else FirstKeyword(t, kws, from + 1)
  }

  /** The search stops at the first keyword that matches: a matching keyword after only failing ones is the one found. */
  lemma FirstKeywordIs(t: string, kws: seq<string>, i: nat)
    requires i < |kws| && KeywordMatches(t, kws[i])
    requires forall j :: 0 <= j < i ==> !KeywordMatches(t, kws[j])
    ensures FirstKeyword(t, kws, 0) == Some(i)
  {
  }

  /** One entry of the format configuration: a keyword and the regular expression its lines must match. */
  datatype FormatRule = FormatRule(keyword: string, pattern: string)

  /**
   * The regular-expression engine behind isFormatted, known only by its
   * answers: the (pattern, text) pairs for which the compiled pattern finds
   * a match in the text. Any matcher whatsoever is one such set of pairs.
   */
  datatype Regex = Regex(accepts: iset<(string, string)>)

  /** isFormatted: whether `pattern` matches (somewhere in) `t`. */
  predicate IsFormatted(regex: Regex, pattern: string, t: string)
  {
    (pattern, t) in regex.accepts
  }

  /**
   * A rule reports a line when its keyword matches and its pattern does not
   * vouch for the line: an empty pattern never vouches, a non-empty one
   * vouches when the regular expression engine finds a match in the
   * trimmed line.
   */
  predicate RuleFlags(t: string, rule: FormatRule, regex: Regex)
  {
    KeywordMatches(t, rule.keyword) && !(rule.pattern != "" && IsFormatted(regex, rule.pattern, t))
  }

  /**
   * The first rule from position `from` on that reports `t`. Rules whose
   * keyword does not match, and rules whose pattern accepts the line, are
   * passed over alike.
   */
  function FirstFlaggingRule(t: string, rules: seq<FormatRule>, regex: Regex, from: nat): (k: Option<nat>)
    requires from <= |rules|
    ensures k.Some? ==>
              from <= k.value < |rules| && RuleFlags(t, rules[k.value], regex)
              && forall j :: from <= j < k.value ==> !RuleFlags(t, rules[j], regex)
    ensures k.None? <==> forall j :: from <= j < |rules| ==> !RuleFlags(t, rules[j], regex)
    decreases |rules| - from
  {
    if from == |rules| then None
    else if RuleFlags(t, rules[from], regex) then Some(from)
    else FirstFlaggingRule(t, rules, regex, from + 1)
  }

  /** The search stops at the first rule that reports the line: such a rule after only silent ones is the one found. */
  lemma FirstFlaggingRuleIs(t: string, rules: seq<FormatRule>, regex: Regex, i: nat)
    requires i < |rules| && RuleFlags(t, rules[i], regex)
    requires forall j :: 0 <= j < i ==> !RuleFlags(t, rules[j], regex)
    ensures FirstFlaggingRule(t, rules, regex, 0) == Some(i)
  {
  }

  /** The pattern named in the report for `t`, if some rule reports it. */
  function FlaggedPattern(t: string, rules: seq<FormatRule>, regex: Regex): Option<string>
  {
    match FirstFlaggingRule(t, rules, regex, 0)
    case None => None
    case Some(k) => Some(rules[k].pattern)
  }

  /** An empty pattern does not exempt anything: the rule reports every line its keyword matches. */
  lemma EmptyPatternFlags(t: string, kw: string, regex: Regex)
    ensures RuleFlags(t, FormatRule(kw, ""), regex) <==> KeywordMatches(t, kw)
  {
  }

  /**
   * A rule that does not report the line, in particular one whose keyword
   * matches and whose pattern accepts the line, does not end the search:
   * the outcome is the same as if that rule were not configured at all.
   */
  lemma {:induction false} NonFlaggingRuleIsTransparent(t: string, rules: seq<FormatRule>, regex: Regex, k: nat)
    requires k < |rules|
    requires !RuleFlags(t, rules[k], regex)
    ensures FlaggedPattern(t, rules, regex) == FlaggedPattern(t, rules[..k] + rules[k + 1..], regex)
  {
    var rest := rules[..k] + rules[k + 1..];
    assert forall j :: 0 <= j < k ==> rest[j] == rules[j];
    assert forall j :: k <= j < |rest| ==> rest[j] == rules[j + 1];
    var a := FirstFlaggingRule(t, rules, regex, 0);
    var b := FirstFlaggingRule(t, rest, regex, 0);
    match a {
      case None =>
        assert b == None by {
          forall j | 0 <= j < |rest| ensures !RuleFlags(t, rest[j], regex) {
            if j < k {
              assert rest[j] == rules[j];
            } else {
              assert rest[j] == rules[j + 1];
            }
          }
        }
      case Some(i) =>
        if i < k {
          assert rest[i] == rules[i];
          assert b == Some(i);
        } else {
          assert i > k;
          assert RuleFlags(t, rest[i - 1], regex);
          forall j | 0 <= j < i - 1 ensures !RuleFlags(t, rest[j], regex) {
            if j < k {
              assert rest[j] == rules[j];
            } else {
              assert rest[j] == rules[j + 1];
            }
          }
          assert b == Some(i - 1);
        }
    }
  }

  /**
   * The text embedded in a report: a trimmed line longer than the limit is
   * cut to its first 40 characters followed by "...", anything else is
   * kept as it is.
   */
  function Truncate(t: string): (r: string)
    ensures |t| <= CommentLimit ==> r == t
    ensures |t| > CommentLimit ==>
              |r| == CommentLimit + 3 && r[..CommentLimit] == t[..CommentLimit] && r[CommentLimit..] == "..."
  {
    if |t| > CommentLimit then t[..CommentLimit] + "..." else t
  }

  /** Truncating an already reported text changes nothing more. */
  lemma TruncateIdempotent(t: string)
    ensures Truncate(Truncate(t)) == Truncate(t)
  {
    var r := Truncate(t);
    if |t| > CommentLimit {
      assert r == r[..CommentLimit] + r[CommentLimit..];
    }
  }

  /**
   * The word-boundary rule on four lines: "todo: fix this" starts with TODO
   * and "FIXME(bob) later" with fixme, while "TODOLIST: fix" does not start
   * with TODO nor "BUG2 here" with BUG.
   */
  lemma KeywordExamples()
    ensures KeywordMatches("todo: fix this", "TODO")
    ensures !KeywordMatches("TODOLIST: fix", "TODO")
    ensures KeywordMatches("FIXME(bob) later", "fixme")
    ensures !KeywordMatches("BUG2 here", "BUG")
  {
    assert "todo: fix this"[..4] == "todo";
    assert "todo: fix this"[4..][0] == ':';
    assert "TODOLIST: fix"[4..][0] == 'L';
    assert "FIXME(bob) later"[..5] == "FIXME";
    assert "FIXME(bob) later"[5..][0] == '(';
    assert "BUG2 here"[3..][0] == '2';
  }
}
