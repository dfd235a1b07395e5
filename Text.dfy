/**
 * Stand-ins for the Go library text operations the scanner relies on:
 * bytes.TrimSpace, the line splitting done by bufio.Reader.ReadLine,
 * strings.Join, strings.Split (only as the inverse of Join) and the `%d`
 * verb of fmt on line numbers. Characters stand for bytes; white space is
 * the ASCII set.
 */
module Text {

  /** The ASCII white space that bytes.TrimSpace removes. */
  predicate IsSpace(c: char)
  {
    c == ' ' || c == '\t' || c == '\n' || c == '\r' || c == '\U{0B}' || c == '\U{0C}'
  }

  /** Drops the leading white space. */
  function TrimLeft(s: string): (r: string)
    ensures |r| <= |s| && r == s[|s| - |r|..]
    ensures forall i :: 0 <= i < |s| - |r| ==> IsSpace(s[i])
    ensures r == [] || !IsSpace(r[0])
    decreases |s|
  {
    if s != [] && IsSpace(s[0]) then TrimLeft(s[1..]) else s
  }

  /** Drops the trailing white space. */
  function TrimRight(s: string): (r: string)
    ensures |r| <= |s| && r == s[..|r|]
    ensures forall i :: |r| <= i < |s| ==> IsSpace(s[i])
    ensures r == [] || !IsSpace(r[|r| - 1])
    decreases |s|
  {
    if s != [] && IsSpace(s[|s| - 1]) then TrimRight(s[..|s| - 1]) else s
  }

  /** The number of white-space characters `s` starts with. */
  function LeadingSpace(s: string): (n: nat)
    ensures n <= |s| && TrimLeft(s) == s[n..]
    ensures forall i :: 0 <= i < n ==> IsSpace(s[i])
    ensures n == |s| || !IsSpace(s[n])
  {
    |s| - |TrimLeft(s)|
  }

  /**
   * bytes.TrimSpace: the result is the piece of `s` left between a run of
   * leading and a run of trailing white space, and neither of its ends is
   * white space.
   */
  function TrimSpace(s: string): (r: string)
    ensures LeadingSpace(s) + |r| <= |s| && r == s[LeadingSpace(s)..LeadingSpace(s) + |r|]
    ensures forall i :: LeadingSpace(s) + |r| <= i < |s| ==> IsSpace(s[i])
    ensures r == [] || (!IsSpace(r[0]) && !IsSpace(r[|r| - 1]))
  {
    var l := TrimLeft(s);
    TrimSpaceSlice(s, l, TrimRight(l), LeadingSpace(s));
    TrimRight(l)
  }

  /** Cutting a piece from a suffix of `s` is cutting it from `s` itself. */
  lemma TrimSpaceSlice(s: string, l: string, r: string, lead: nat)
    requires lead <= |s| && l == s[lead..]
    requires |r| <= |l| && r == l[..|r|]
    requires forall i :: |r| <= i < |l| ==> IsSpace(l[i])
    ensures lead + |r| <= |s|
    ensures r == s[lead..lead + |r|]
    ensures forall i :: lead + |r| <= i < |s| ==> IsSpace(s[i])
  {
    forall i | lead + |r| <= i < |s| ensures IsSpace(s[i]) {
      assert s[i] == l[i - lead];
    }
  }

  /** Index of the first `c` in `s`, or |s| when there is none. */
  function IndexOf(s: string, c: char): (i: nat)
    ensures i <= |s|
    ensures i < |s| ==> s[i] == c
    ensures forall k :: 0 <= k < i ==> s[k] != c
    decreases |s|
  {
    if s == [] then 0
    else if s[0] == c then 0
    else 1 + IndexOf(s[1..], c)
  }

  /**
   * The lines that successive calls of bufio.Reader.ReadLine return: the
   * pieces between newlines, where a final newline does not open one more
   * (empty) line and the empty text has no line at all.
   */
  function SplitLines(s: string): (lines: seq<string>)
    ensures forall i :: 0 <= i < |lines| ==> '\n' !in lines[i]
    ensures s != [] ==> |lines| > 0
    decreases |s|
  {
    if s == [] then []
    else
      var i := IndexOf(s, '\n');
      if i == |s| then [s] else [s[..i]] + SplitLines(s[i + 1..])
  }

  /** Text without a newline is one line. */
  lemma SplitLinesSingle(s: string)
    requires s != [] && '\n' !in s
    ensures SplitLines(s) == [s]
  {
    assert IndexOf(s, '\n') == |s|;
  }

  /** Two lines joined by a newline are read back as those two lines. */
  lemma SplitLinesTwo(a: string, b: string)
    requires '\n' !in a && b != [] && '\n' !in b
    ensures SplitLines(a + "\n" + b) == [a, b]
  {
    var s := a + "\n" + b;
    IndexOfAfterPrefix(a, "\n" + b, '\n');
    assert s == a + ("\n" + b);
    assert s[..|a|] == a && s[|a| + 1..] == b;
    SplitLinesSingle(b);
  }

  /** Text with no white space at either end is left as it is by TrimSpace. */
  lemma TrimSpaceKeeps(s: string)
    requires s != [] && !IsSpace(s[0]) && !IsSpace(s[|s| - 1])
    ensures TrimSpace(s) == s
  {
    assert TrimLeft(s) == s;
    assert TrimRight(s) == s;
  }

  /** strings.Join. */
  function Join(parts: seq<string>, sep: string): string
    decreases |parts|
  {
    if parts == [] then []
    else if |parts| == 1 then parts[0]
    else parts[0] + sep + Join(parts[1..], sep)
  }

  /** strings.Split on a one-character separator. */
  function Split(s: string, sep: char): (parts: seq<string>)
    ensures |parts| > 0
    ensures forall i :: 0 <= i < |parts| ==> sep !in parts[i]
    decreases |s|
  {
    var i := IndexOf(s, sep);
    if i == |s| then [s] else [s[..i]] + Split(s[i + 1..], sep)
  }

  /** Whether `s` ends with a newline. */
  predicate EndsWithNewline(s: string)
  {
    s != [] && s[|s| - 1] == '\n'
  }

  lemma IndexOfAfterPrefix(a: string, b: string, c: char)
    requires c !in a && b != [] && b[0] == c
    ensures IndexOf(a + b, c) == |a|
  {
    assert (a + b)[|a|] == c;
    assert forall k :: 0 <= k < |a| ==> (a + b)[k] == a[k];
  }

  /**
   * Reading the lines back and joining them with newlines gives the text
   * again, up to the final newline that ReadLine swallows.
   */
  lemma {:induction false} SplitLinesRoundTrip(s: string)
    ensures Join(SplitLines(s), "\n") + (if EndsWithNewline(s) then "\n" else "") == s
    decreases |s|
  {
    if s != [] {
      var i := IndexOf(s, '\n');
      if i == |s| {
        assert SplitLines(s) == [s];
        assert !EndsWithNewline(s) by {
          assert s[|s| - 1] != '\n';
        }
      } else {
        var rest := s[i + 1..];
        var lines := SplitLines(rest);
        assert SplitLines(s) == [s[..i]] + lines;
        assert s == s[..i] + "\n" + rest;
        if rest == [] {
          assert lines == [];
          assert Join(SplitLines(s), "\n") == s[..i];
        } else {
          SplitLinesRoundTrip(rest);
          assert EndsWithNewline(s) == EndsWithNewline(rest);
          assert |lines| > 0;
          assert ([s[..i]] + lines)[1..] == lines;
          assert Join(SplitLines(s), "\n") == s[..i] + "\n" + Join(lines, "\n");
        }
      }
    }
  }

  /**
   * strings.Join with "/" loses nothing: as long as no part contains the
   * separator, splitting the joined text gives the parts back.
   */
  lemma {:induction false} JoinSplitRoundTrip(parts: seq<string>, sep: char)
    requires |parts| > 0
    requires forall i :: 0 <= i < |parts| ==> sep !in parts[i]
    ensures Split(Join(parts, [sep]), sep) == parts
    decreases |parts|
  {
    if |parts| == 1 {
      assert IndexOf(parts[0], sep) == |parts[0]|;
    } else {
      var rest := Join(parts[1..], [sep]);
      assert Join(parts, [sep]) == parts[0] + [sep] + rest;
      SplitAfterPart(parts[0], rest, sep);
      JoinSplitRoundTrip(parts[1..], sep);
      assert parts == [parts[0]] + parts[1..];
    }
  }

  /** Splitting at the first separator peels off the part before it. */
  lemma SplitAfterPart(a: string, rest: string, sep: char)
    requires sep !in a
    ensures Split(a + [sep] + rest, sep) == [a] + Split(rest, sep)
  {
    var s := a + [sep] + rest;
    IndexOfAfterPrefix(a, [sep] + rest, sep);
    assert s == a + ([sep] + rest);
    assert s[..|a|] == a;
    assert s[|a| + 1..] == rest;
  }

  /** The character of a decimal digit. */
  function DigitChar(d: nat): (c: char)
    requires d < 10
    ensures '0' <= c <= '9' && c as int - '0' as int == d
  {
    "0123456789"[d]
  }

  /** The `%d` verb of fmt on a natural number: its decimal digits, without leading zeros. */
  function Decimal(n: nat): (s: string)
    ensures |s| > 0
    ensures forall i :: 0 <= i < |s| ==> '0' <= s[i] <= '9'
    ensures s[0] == '0' ==> n == 0 && s == "0"
    decreases n
  {
    if n < 10 then [DigitChar(n)] else Decimal(n / 10) + [DigitChar(n % 10)]
  }

  /** Reads a string of decimal digits back as a number. */
  function ParseDecimal(s: string): nat
    decreases |s|
  {
    if s == [] then 0
    else
      var d := s[|s| - 1] as int - '0' as int;
      ParseDecimal(s[..|s| - 1]) * 10 + (if 0 <= d < 10 then d else 0)
  }

  /** A line number printed with `%d` reads back as the same number. */
  lemma {:induction false} DecimalRoundTrip(n: nat)
    ensures ParseDecimal(Decimal(n)) == n
    decreases n
  {
    var s := Decimal(n);
    if n < 10 {
      assert s[..|s| - 1] == [];
      assert "0123456789"[n] as int - '0' as int == n;
    } else {
      DecimalRoundTrip(n / 10);
      assert s[..|s| - 1] == Decimal(n / 10);
      assert "0123456789"[n % 10] as int - '0' as int == n % 10;
    }
  }
}
