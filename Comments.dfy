/**
 * Comment tokens as the Go front end hands them over, and the stripping of
 * their delimiters (extractComment in godox.go).
 */
module Comments {

  /** A resolved source position (token.Position without the byte offset); lines and columns count from 1. */
  datatype Position = Position(filename: string, line: nat, column: nat)

  /** One `//` or `/* */` token: its raw text, delimiters included, and where it starts. */
  datatype Comment = Comment(text: string, pos: Position)

  /**
   * What extractComment needs of a token: a second character to look at,
   * and for a block comment room for both delimiters. Every token the Go
   * scanner produces has this shape; anything shorter makes the source panic.
   */
  predicate WellFormedToken(text: string)
  {
    |text| >= 2 && (text[1] == '*' ==> |text| >= 4)
  }

  /**
   * Strips the delimiters. A line comment loses its two-character marker
   * and at most one space after it; a block comment loses its first two
   * and last two characters; any other token comes back unchanged.
   */
  function ExtractComment(text: string): (r: string)
    requires WellFormedToken(text)
    ensures text[1] == '/' ==>
              |text| - 3 <= |r| <= |text| - 2
              && r == text[|text| - |r|..]
              && (|r| == |text| - 3 <==> |text| > 2 && text[2] == ' ')
    ensures text[1] == '*' ==> |r| == |text| - 4 && text[..2] + r + text[|text| - 2..] == text
    ensures text[1] != '/' && text[1] != '*' ==> r == text
  {
    if text[1] == '/' then
      var body := text[2..];
      if |body| > 0 && body[0] == ' ' then body[1..] else body
    else if text[1] == '*' then
      text[2..|text| - 2]
    else
      text
  }

  /** Stripping `// ` gives back exactly what followed the space. */
  lemma LineCommentRoundTrip(body: string)
    ensures WellFormedToken("// " + body)
    ensures ExtractComment("// " + body) == body
  {
    var text := "// " + body;
    assert text[1] == '/' && text[2] == ' ';
    assert text[3..] == body;
  }

  /** With no space after the marker, `//` alone is stripped. */
  lemma LineCommentWithoutSpace(body: string)
    requires body == [] || body[0] != ' '
    ensures WellFormedToken("//" + body)
    ensures ExtractComment("//" + body) == body
  {
    var text := "//" + body;
    assert text[2..] == body;
  }

  /** Only one space is removed: further indentation survives. */
  lemma LineCommentKeepsIndent(body: string)
    ensures WellFormedToken("//  " + body)
    ensures ExtractComment("//  " + body) == " " + body
  {
    var text := "//  " + body;
    assert text[2] == ' ';
    assert text[3..] == " " + body;
  }

  /** A block comment's interior, newlines and spaces included, is returned untouched. */
  lemma BlockCommentRoundTrip(body: string)
    ensures WellFormedToken("/*" + body + "*/")
    ensures ExtractComment("/*" + body + "*/") == body
  {
    var text := "/*" + body + "*/";
    assert text[2..|text| - 2] == body;
  }
}
