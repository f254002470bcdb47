/**
 * How a database reads a single-quoted SQL string literal: the text runs up
 * to the first quote that is not doubled, and `''` stands for one quote.
 * Used to state whether a search fragment built by string concatenation keeps
 * the user's search text inside one literal.
 */
module SqlLiteral {
  import opened Wrappers
  import opened PhpStrings

  /**
   * Reads the body of a literal whose opening quote has already been read.
   * Returns the decoded text and what follows the closing quote, or `None`
   * when the literal is never closed.
   */
  function ReadLiteralBody(s: string): Option<(string, string)>
    decreases |s|
  {
    if s == "" then None
    else if s[0] == '\'' then
      if |s| >= 2 && s[1] == '\'' then
        match ReadLiteralBody(s[2..])
        case None => None
        case Some((body, rest)) => Some(("'" + body, rest))
      else Some(("", s[1..]))
    else
      match ReadLiteralBody(s[1..])
      case None => None
      case Some((body, rest)) => Some(([s[0]] + body, rest))
  }

  /**
   * Doubling every quote makes a literal that decodes to exactly the original
   * text and closes exactly where it was meant to.
   */
  lemma {:induction false} ReadDoubledLiteral(s: string, rest: string)
    requires rest == "" || rest[0] != '\''
    ensures ReadLiteralBody(DoubleQuotes(s) + "'" + rest) == Some((s, rest))
    decreases |s|
  {
    var input := DoubleQuotes(s) + "'" + rest;
    if s == "" {
      assert input == "'" + rest;
      assert input[1..] == rest;
    } else if s[0] == '\'' {
      ReadDoubledLiteral(s[1..], rest);
      assert input == "''" + (DoubleQuotes(s[1..]) + "'" + rest);
      assert input[2..] == DoubleQuotes(s[1..]) + "'" + rest;
      assert "'" + s[1..] == s;
    } else {
      ReadDoubledLiteral(s[1..], rest);
      assert input == [s[0]] + (DoubleQuotes(s[1..]) + "'" + rest);
      assert input[1..] == DoubleQuotes(s[1..]) + "'" + rest;
      assert [s[0]] + s[1..] == s;
    }
  }
}
