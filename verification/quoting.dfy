/**
 * String quoting as both encoders write it (emit.go:148-164, identical in
 * lib/emit.go:130-146): inside double quotes, a backslash and a double
 * quote get a backslash in front and every other rune is written as is.
 */
module Quoting {
  import opened Tokens
  import Lexer

  function Escape(s: string): (e: string)
    ensures |e| >= |s|
  {
    if s == [] then []
    else
      (if s[0] == '\\' then ['\\', '\\'] else if s[0] == '"' then ['\\', '"'] else [s[0]])
      + Escape(s[1..])
  }

  function Quote(s: string): (q: string)
    ensures |q| >= 2 && q[0] == '"' && q[|q| - 1] == '"'
  {
    ['"'] + Escape(s) + ['"']
  }

  /** Only the two runes the lexer treats specially inside a double-quoted
      literal are escaped, and exactly as it expects. */
  lemma {:induction false} EscapeAsLexerReads(s: string)
    ensures Escape(s) == Lexer.EscapeDelim('"', s)
  {
    if s != [] {
      EscapeAsLexerReads(s[1..]);
    }
  }

  /** A quoted string reads back as one string token holding the original
      text, whatever follows it. */
  lemma QuoteLexes(s: string, rest: string)
    ensures Lexer.Lex(Quote(s) + rest) == [Token(StringLit, s)] + Lexer.Lex(rest)
  {
    EscapeAsLexerReads(s);
    Lexer.LexStringLiteral('"', s, rest);
  }

  /** Every rune other than a backslash or double quote comes out as it
      went in. */
  lemma {:induction false} EscapePlain(s: string)
    requires forall i :: 0 <= i < |s| ==> s[i] != '\\' && s[i] != '"'
    ensures Escape(s) == s
  {
    if s != [] {
      EscapePlain(s[1..]);
    }
  }
}
