/**
 * The lexer of lex.go, run synchronously: a state machine over the input
 * runes with a last-in first-out pushback stack and a buffer holding the
 * current lexeme.  Each step reads at most two runes and emits at most one
 * token; the output is what the source sends down its channel before closing
 * it.
 */
module Lexer {
  import opened Wrappers
  import opened Tokens

  /** The state function the source is in. */
  datatype Mode = Root | InComment | InString(delim: char) | InName | InType

  /** Runes pushed back by lexer.unread, top of stack last. */
  datatype Pushback = Empty | Pushed(below: Pushback, top: char)

  /** The input, the position of the next input rune, the pushed-back runes
      and the lexeme buffer. */
  datatype State = State(input: seq<char>, pos: nat, backup: Pushback, buf: seq<char>)

  /** A state about to read `r` from its start, with `buf` in the buffer. */
  function Reading(r: seq<char>, buf: seq<char>): State
  {
    State(r, 0, Empty, buf)
  }

  function Start(input: seq<char>): State
  {
    Reading(input, [])
  }

  /** lexer.next: the most recently pushed-back rune, otherwise the next input
      rune, otherwise end of input (None). */
  function Next(s: State): (r: (Option<char>, State))
    ensures r.1.buf == s.buf
    ensures r.0.Some? ==> Pending(r.1) + 1 == Pending(s)
    ensures r.0.None? ==> r.1 == s
  {
    match s.backup
    case Pushed(below, r) => (Some(r), s.(backup := below))
    case Empty =>
      if s.pos < |s.input| then (Some(s.input[s.pos]), s.(pos := s.pos + 1))
      else (None, s)
  }

  /** lexer.keep: append a rune to the current lexeme. */
  function Keep(s: State, r: char): (k: State)
    ensures k.buf == s.buf + [r]
  {
    s.(buf := s.buf + [r])
  }

  /** lexer.unread: push a rune back. */
  function Unread(s: State, r: char): State
  {
    s.(backup := Pushed(s.backup, r))
  }

  /** lexer.emit: a token holding the current lexeme, and an empty buffer. */
  function Emit(s: State, k: Kind): (r: (Token, State))
    ensures r.0 == Token(k, s.buf) && r.1.buf == []
  {
    (Token(k, s.buf), s.(buf := []))
  }

  /** unicode.IsSpace: the White_Space runes. */
  predicate IsSpace(c: char)
  {
    ('\t' <= c <= '\r') || c == ' ' || c == '\U{85}' || c == '\U{A0}'
    || c == '\U{1680}' || ('\U{2000}' <= c <= '\U{200A}')
    || c == '\U{2028}' || c == '\U{2029}' || c == '\U{202F}'
    || c == '\U{205F}' || c == '\U{3000}'
  }

  /** unicode.IsLower, IsUpper, IsLetter and IsDigit, on ASCII. */
  predicate IsLower(c: char) { 'a' <= c <= 'z' }
  predicate IsUpper(c: char) { 'A' <= c <= 'Z' }
  predicate IsLetter(c: char) { IsLower(c) || IsUpper(c) }
  predicate IsDigit(c: char) { '0' <= c <= '9' }

  /** A rune that continues a name or a type. */
  predicate IsNameRune(c: char)
  {
    IsLetter(c) || IsDigit(c) || c == '_'
  }

  /** The runes that form a token of their own at root. */
  function PunctKind(c: char): Option<Kind>
  {
    if c == '=' then Some(Equals)
    else if c == '[' then Some(ListStart)
    else if c == ']' then Some(ListEnd)
    else if c == ',' then Some(ListSeparator)
    else if c == '{' then Some(ObjectStart)
    else if c == '}' then Some(ObjectEnd)
    else if c == ':' then Some(ObjectSeparator)
    else None
  }

  /** A rune lexRoot accepts. */
  predicate RootAccepts(c: char)
  {
    PunctKind(c).Some? || c == '"' || c == '`' || c == '#'
    || IsSpace(c) || IsLower(c) || IsUpper(c)
  }

  const EofInString: string := "unexpected eof in string literal"

  function UnexpectedRune(r: char): string
  {
    "unexpected rune in lexRoot: " + [r]
  }

  /** What one state function does: stop with its last output, or emit some
      tokens and hand over to the next state function. */
  datatype Outcome = Halt(out: seq<Token>) | Continue(out: seq<Token>, mode: Mode, state: State)

  function Depth(b: Pushback): nat
  {
    match b
    case Empty => 0
    case Pushed(below, _) => Depth(below) + 1
  }

  /** Input runes not yet read. */
  function Undelivered(s: State): nat
  {
    if s.pos < |s.input| then |s.input| - s.pos else 0
  }

  /** Runes not yet consumed, pushed back or not. */
  function Pending(s: State): nat
  {
    Undelivered(s) + Depth(s.backup)
  }

  /** Order in which a state with the same pending runes must move on: only
      handing a pushed-back rune to lexRoot keeps the count. */
  function Rank(m: Mode): nat
  {
    if m.Root? then 0 else 1
  }

  /** A step that stops, or goes on with fewer runes pending, or with as
      many but in an earlier state function. */
  predicate Progress(m: Mode, s: State, o: Outcome)
  {
    o.Continue? ==>
      Pending(o.state) < Pending(s)
      || (Pending(o.state) == Pending(s) && Rank(o.mode) < Rank(m))
  }

  /** What a step sends: at most one token, never an end-of-input token,
      and an error token only when it stops. */
  predicate Sends(o: Outcome)
  {
    |o.out| <= 1
    && (forall t :: t in o.out ==> t.kind != Eof)
    && (o.Continue? ==> forall t :: t in o.out ==> t.kind != Error)
  }

  /** An emission that keeps lexing. */
  function EmitThen(s: State, k: Kind, m: Mode): Outcome
  {
    var (t, s1) := Emit(s, k);
    Continue([t], m, s1)
  }

  /** One call of the current state function. */
  function Step(m: Mode, s: State): (r: Outcome)
    ensures Progress(m, s, r) && Sends(r)
  {
    match m
    case Root => StepRoot(s)
    case InComment => StepComment(s)
    case InString(delim) => StepString(delim, s)
    case InName => StepIdent(s, Name, InName)
    case InType => StepIdent(s, TypeName, InType)
  }

  /** lexRoot: one-rune tokens, the openers of strings, comments, names and
      types, skipped white space, and an error for any other rune. */
  function StepRoot(s: State): (r: Outcome)
    ensures Progress(Root, s, r) && Sends(r)
  {
    var (c, s1) := Next(s);
    if c.None? then Halt([])
    else
      var r := c.value;
      if PunctKind(r).Some? then EmitThen(Keep(s1, r), PunctKind(r).value, Root)
      else if r == '"' || r == '`' then Continue([], InString(r), s1)
      else if r == '#' then Continue([], InComment, s1)
      else if IsSpace(r) then Continue([], Root, s1)
      else if IsLower(r) then Continue([], InName, Keep(s1, r))
      else if IsUpper(r) then Continue([], InType, Keep(s1, r))
      else Halt([Token(Error, UnexpectedRune(r))])
  }

  /** lexComment: everything up to a newline or the end of input. */
  function StepComment(s: State): (r: Outcome)
    ensures Progress(InComment, s, r) && Sends(r)
  {
    var (c, s1) := Next(s);
    if c == Some('\n') then EmitThen(s1, Comment, Root)
    else if c.None? then Halt([Emit(s1, Comment).0])
    else Continue([], InComment, Keep(s1, c.value))
  }

  /** lexStringLiteral: up to the closing delimiter; a backslash keeps the
      rune after it whatever it is; end of input is an error. */
  function StepString(delim: char, s: State): (r: Outcome)
    ensures Progress(InString(delim), s, r) && Sends(r)
  {
    var (c, s1) := Next(s);
    if c == Some(delim) then EmitThen(s1, StringLit, Root)
    else if c == Some('\\') then StepEscaped(delim, s1)
    else if c.None? then Halt([Token(Error, EofInString)])
    else Continue([], InString(delim), Keep(s1, c.value))
  }

  /** The rune after a backslash in a literal, kept whatever it is. */
  function StepEscaped(delim: char, s: State): (r: Outcome)
    ensures r.Continue? ==> Pending(r.state) < Pending(s) && r.mode == InString(delim)
    ensures Sends(r)
  {
    var (c, s1) := Next(s);
    if c.None? then Halt([Token(Error, EofInString)])
    else Continue([], InString(delim), Keep(s1, c.value))
  }

  /** lexName and lexType: extend over name runes; at the first other rune
      emit, push that rune back and return to lexRoot; at end of input emit
      and stop. */
  function StepIdent(s: State, k: Kind, self: Mode): (r: Outcome)
    requires k == Name || k == TypeName
    requires !self.Root?
    ensures Progress(self, s, r) && Sends(r)
  {
    var (c, s1) := Next(s);
    if c.Some? && IsNameRune(c.value) then Continue([], self, Keep(s1, c.value))
    else if c.None? then Halt([Emit(s1, k).0])
    else EmitThen(Unread(s1, c.value), k, Root)
  }

  /** The token sequence the state machine produces from mode `m`. */
  function Run(m: Mode, s: State): seq<Token>
    decreases Pending(s), Rank(m), 1
  {
    Resume(m, s)
  }

  /** The tokens of the first step followed by those of the rest of the
      run. */
  function Resume(m: Mode, s: State): seq<Token>
    decreases Pending(s), Rank(m), 0
  {
    match Step(m, s)
    case Halt(out) => out
    case Continue(out, m1, s1) => out + Run(m1, s1)
  }

  /** A run goes on from where its first step leaves it. */
  lemma RunContinues(m: Mode, s: State, out: seq<Token>, m1: Mode, s1: State)
    requires Step(m, s) == Continue(out, m1, s1)
    ensures Run(m, s) == out + Run(m1, s1)
  {
  }

  /** A run ends where its first step halts. */
  lemma RunHalts(m: Mode, s: State, out: seq<Token>)
    requires Step(m, s) == Halt(out)
    ensures Run(m, s) == out
  {
  }

  /** What the consumer of the token channel relies on: no end-of-input
      token is sent, and an error token is the last one sent. */
  predicate WellFormed(ts: seq<Token>)
  {
    (forall i :: 0 <= i < |ts| ==> ts[i].kind != Eof)
    && (forall i :: 0 <= i < |ts| - 1 ==> ts[i].kind != Error)
  }

  lemma {:induction false} RunWellFormed(m: Mode, s: State)
    ensures WellFormed(Run(m, s))
    decreases Pending(s), Rank(m)
  {
    match Step(m, s)
    case Halt(out) =>
    case Continue(out, m1, s1) =>
      RunWellFormed(m1, s1);
      var rs := Run(m1, s1);
      assert Run(m, s) == out + rs;
      forall i | 0 <= i < |out + rs|
        ensures (out + rs)[i].kind != Eof
        ensures i < |out + rs| - 1 ==> (out + rs)[i].kind != Error
      {
        if i < |out| {
          assert (out + rs)[i] in out;
        } else {
          assert (out + rs)[i] == rs[i - |out|];
        }
      }
  }

  /** Every input lexes to a well-formed token sequence. */
  lemma LexWellFormed(input: seq<char>)
    ensures WellFormed(Lex(input))
  {
    RunWellFormed(Root, Start(input));
  }

  /** The tokens lexed from `input` by state function `m` with `buf` kept
      so far. */
  function Lexing(m: Mode, input: seq<char>, buf: seq<char>): seq<Token>
  {
    Run(m, Reading(input, buf))
  }

  /** lex: the whole token sequence of an input. */
  function Lex(input: seq<char>): seq<Token>
  {
    Lexing(Root, input, [])
  }

  // ---------------------------------------------------------------------
  // Pushback

  /** The pushed-back runes in the order next returns them. */
  function Runes(b: Pushback): (r: seq<char>)
    ensures |r| == Depth(b)
  {
    match b
    case Empty => []
    case Pushed(below, c) => [c] + Runes(below)
  }

  /** The input runes not yet read. */
  function Rest(s: State): (r: seq<char>)
    ensures |r| == Undelivered(s)
  {
    if s.pos <= |s.input| then s.input[s.pos..] else []
  }

  /** Every rune next will return, in order: the pushed-back ones first,
      then the rest of the input. */
  function Ahead(s: State): (r: seq<char>)
    ensures |r| == Pending(s)
  {
    Runes(s.backup) + Rest(s)
  }

  /** next returns the first rune ahead and leaves the others. */
  lemma NextAhead(s: State)
    ensures Next(s).1.buf == s.buf
    ensures Next(s).0 == (if Ahead(s) == [] then None else Some(Ahead(s)[0]))
    ensures Ahead(Next(s).1) == (if Ahead(s) == [] then [] else Ahead(s)[1..])
  {
    match s.backup
    case Pushed(below, c) =>
      assert Ahead(s) == [c] + Ahead(Next(s).1);
    case Empty =>
      NextInput(s);
  }

  /** With nothing pushed back, next reads the input. */
  lemma NextInput(s: State)
    requires s.backup == Empty
    ensures Ahead(s) == Rest(s)
    ensures s.pos < |s.input| ==> Next(s) == (Some(Rest(s)[0]), s.(pos := s.pos + 1))
                                  && Ahead(Next(s).1) == Rest(s)[1..]
    ensures s.pos >= |s.input| ==> Next(s) == (None, s) && Rest(s) == []
  {
    assert Ahead(s) == [] + Rest(s);
    if s.pos < |s.input| {
      assert s.input[s.pos + 1..] == s.input[s.pos..][1..];
    }
  }

  /** Two states with the same runes ahead read the same rune and stay in
      step. */
  lemma NextCongruent(s: State, t: State)
    requires Alike(s, t)
    ensures Next(s).0 == Next(t).0 && Alike(Next(s).1, Next(t).1)
  {
    NextAhead(s);
    NextAhead(t);
  }

  /** unread puts a rune in front of the runes ahead. */
  lemma UnreadAhead(s: State, r: char)
    ensures Ahead(Unread(s, r)) == [r] + Ahead(s)
  {
    assert Runes(Unread(s, r).backup) == [r] + Runes(s.backup);
  }

  /** Two states with the same runes ahead and the same lexeme so far. */
  predicate Alike(s: State, t: State)
  {
    Ahead(s) == Ahead(t) && s.buf == t.buf
  }

  /** Keeping a rune or emitting the lexeme changes only the buffer. */
  lemma BufferOnly(s: State, t: State, r: char, k: Kind)
    requires Alike(s, t)
    ensures Alike(Keep(s, r), Keep(t, r))
    ensures Emit(s, k).0 == Emit(t, k).0 && Alike(Emit(s, k).1, Emit(t, k).1)
    ensures Alike(Emit(Keep(s, r), k).1, Emit(Keep(t, r), k).1)
  {
  }

  /** Two outcomes that emit the same and continue alike. */
  predicate Agree(a: Outcome, b: Outcome)
  {
    a.Halt? == b.Halt? && a.out == b.out
    && (a.Continue? ==> a.mode == b.mode && Alike(a.state, b.state))
  }

  lemma StepRootCongruent(s: State, t: State)
    requires Alike(s, t)
    ensures Agree(StepRoot(s), StepRoot(t))
  {
    NextCongruent(s, t);
    var (c, s1) := Next(s);
    if c.Some? && PunctKind(c.value).Some? {
      BufferOnly(s1, Next(t).1, c.value, PunctKind(c.value).value);
    } else if c.Some? {
      BufferOnly(s1, Next(t).1, c.value, Name);
    }
  }

  lemma StepCommentCongruent(s: State, t: State)
    requires Alike(s, t)
    ensures Agree(StepComment(s), StepComment(t))
  {
    NextCongruent(s, t);
    var (c, s1) := Next(s);
    BufferOnly(s1, Next(t).1, if c.Some? then c.value else ' ', Comment);
  }

  lemma StepEscapedCongruent(d: char, s: State, t: State)
    requires Alike(s, t)
    ensures Agree(StepEscaped(d, s), StepEscaped(d, t))
  {
    NextCongruent(s, t);
    var (c, s1) := Next(s);
    BufferOnly(s1, Next(t).1, if c.Some? then c.value else ' ', StringLit);
  }

  lemma StepStringCongruent(d: char, s: State, t: State)
    requires Alike(s, t)
    ensures Agree(StepString(d, s), StepString(d, t))
  {
    NextCongruent(s, t);
    var (c, s1) := Next(s);
    var t1 := Next(t).1;
    BufferOnly(s1, t1, if c.Some? then c.value else ' ', StringLit);
    if c == Some('\\') && c != Some(d) {
      StepEscapedCongruent(d, s1, t1);
    }
  }

  lemma StepIdentCongruent(s: State, t: State, k: Kind, self: Mode)
    requires k == Name || k == TypeName
    requires !self.Root?
    requires Alike(s, t)
    ensures Agree(StepIdent(s, k, self), StepIdent(t, k, self))
  {
    NextCongruent(s, t);
    var (c, s1) := Next(s);
    var (_, t1) := Next(t);
    if c.Some? && !IsNameRune(c.value) {
      UnreadAhead(s1, c.value);
      UnreadAhead(t1, c.value);
      BufferOnly(Unread(s1, c.value), Unread(t1, c.value), c.value, k);
    } else if c.Some? {
      BufferOnly(s1, t1, c.value, k);
    }
  }

  /** Two states with the same runes ahead take the same step. */
  lemma StepCongruent(m: Mode, s: State, t: State)
    requires Alike(s, t)
    ensures Agree(Step(m, s), Step(m, t))
  {
    match m
    case Root => StepRootCongruent(s, t);
    case InComment => StepCommentCongruent(s, t);
    case InString(d) => StepStringCongruent(d, s, t);
    case InName => StepIdentCongruent(s, t, Name, InName);
    case InType => StepIdentCongruent(s, t, TypeName, InType);
  }

  /** What the lexer produces depends only on the runes ahead, whether
      pushed back or not yet read, and on the lexeme so far. */
  lemma {:induction false} RunCongruent(m: Mode, s: State, t: State)
    requires Alike(s, t)
    ensures Run(m, s) == Run(m, t)
    decreases Pending(s), Rank(m)
  {
    StepCongruent(m, s, t);
    if Step(m, s).Continue? {
      RunCongruent(Step(m, s).mode, Step(m, s).state, Step(m, t).state);
    }
  }

  /** Pushed-back runes are read before fresh input, last in first out: a
      state behaves as the state whose input starts with them in that order
      and goes on with the input it has not read. */
  lemma PushbackReadFirst(m: Mode, s: State)
    ensures Run(m, s) == Lexing(m, Ahead(s), s.buf)
  {
    var r := Ahead(s);
    assert Ahead(Reading(r, s.buf)) == r by {
      assert r[0..] == r;
    }
    RunCongruent(m, s, Reading(r, s.buf));
  }

  /** After the first rune of `[c] + tail` is read, the state behaves as one
      that reads `tail` from its start. */
  lemma Advance(m: Mode, c: char, tail: seq<char>, buf: seq<char>)
    ensures Run(m, State([c] + tail, 1, Empty, buf)) == Lexing(m, tail, buf)
  {
    var s := State([c] + tail, 1, Empty, buf);
    assert ([c] + tail)[1..] == tail;
    assert Ahead(s) == tail;
    PushbackReadFirst(m, s);
  }

  /** Likewise after two runes. */
  lemma Advance2(m: Mode, c: char, c2: char, tail: seq<char>, buf: seq<char>)
    ensures Run(m, State([c, c2] + tail, 2, Empty, buf)) == Lexing(m, tail, buf)
  {
    var s := State([c, c2] + tail, 2, Empty, buf);
    assert ([c, c2] + tail)[2..] == tail;
    assert Ahead(s) == tail;
    PushbackReadFirst(m, s);
  }

  /** A state function that reads one rune, keeps `kept` and hands over to
      `m1` (emitting `out`, which leaves the buffer empty when non-empty)
      goes on as `m1` lexing the remaining input. */
  lemma ReadOne(m: Mode, c: char, tail: seq<char>, buf: seq<char>, out: seq<Token>, m1: Mode, kept: seq<char>)
    requires Step(m, Reading([c] + tail, buf)) == Continue(out, m1, State([c] + tail, 1, Empty, kept))
    ensures Lexing(m, [c] + tail, buf) == out + Lexing(m1, tail, kept)
  {
    RunContinues(m, Reading([c] + tail, buf), out, m1, State([c] + tail, 1, Empty, kept));
    Advance(m1, c, tail, kept);
  }

  // ---------------------------------------------------------------------
  // What lexRoot does with each rune

  lemma LexEmpty()
    ensures Lex([]) == []
  {
    RunHalts(Root, Reading([], []), []);
  }

  /** A space is no punctuation, quote or comment opener. */
  lemma SpaceIsPlain(c: char)
    requires IsSpace(c)
    ensures PunctKind(c).None? && c != '"' && c != '`' && c != '#'
  {
  }

  /** White space separates tokens and produces none. */
  lemma LexSkipsSpace(c: char, rest: seq<char>)
    requires IsSpace(c)
    ensures Lex([c] + rest) == Lex(rest)
  {
    SpaceIsPlain(c);
    ReadOne(Root, c, rest, [], [], Root, []);
  }

  /** The punctuation runes are tokens of their own, holding that rune. */
  lemma LexPunctuation(c: char, rest: seq<char>)
    requires PunctKind(c).Some?
    ensures Lex([c] + rest) == [Token(PunctKind(c).value, [c])] + Lex(rest)
  {
    assert [] + [c] == [c];
    ReadOne(Root, c, rest, [], [Token(PunctKind(c).value, [c])], Root, []);
  }

  /** A rune lexRoot has no rule for ends lexing with an error token. */
  lemma LexUnexpected(c: char, rest: seq<char>)
    requires !RootAccepts(c)
    ensures Lex([c] + rest) == [Token(Error, UnexpectedRune(c))]
  {
    RunHalts(Root, Reading([c] + rest, []), [Token(Error, UnexpectedRune(c))]);
  }

  // ---------------------------------------------------------------------
  // Comments

  /** '#' at root opens a comment and is not part of it. */
  lemma RootOpensComment(tail: string)
    ensures Lex(['#'] + tail) == Lexing(InComment, tail, [])
  {
    ReadOne(Root, '#', tail, [], [], InComment, []);
  }

  /** A rune other than a newline joins the comment. */
  lemma CommentRune(c: char, tail: string, buf: string)
    requires c != '\n'
    ensures Lexing(InComment, [c] + tail, buf) == Lexing(InComment, tail, buf + [c])
  {
    ReadOne(InComment, c, tail, buf, [], InComment, buf + [c]);
  }

  /** A newline ends the comment and is consumed with it. */
  lemma CommentNewline(buf: string, rest: string)
    ensures Lexing(InComment, ['\n'] + rest, buf) == [Token(Comment, buf)] + Lex(rest)
  {
    ReadOne(InComment, '\n', rest, buf, [Token(Comment, buf)], Root, []);
  }

  /** The end of input ends the comment, and lexing. */
  lemma CommentEof(buf: string)
    ensures Lexing(InComment, [], buf) == [Token(Comment, buf)]
  {
    RunHalts(InComment, Reading([], buf), [Token(Comment, buf)]);
  }

  /** A comment body without a newline joins the comment rune by rune. */
  lemma {:induction false} CommentPrefix(buf: string, body: string, tail: string)
    requires '\n' !in body
    ensures Lexing(InComment, body + tail, buf) == Lexing(InComment, tail, buf + body)
    decreases |body|
  {
    if body == [] {
      assert body + tail == tail;
      assert buf + body == buf;
    } else {
      var c := body[0];
      assert c in body;
      assert body + tail == [c] + (body[1..] + tail);
      CommentRune(c, body[1..] + tail, buf);
      CommentPrefix(buf + [c], body[1..], tail);
      assert buf + [c] + body[1..] == buf + body;
    }
  }

  /** A comment runs from '#' (not part of its text) to the end of the line;
      the newline is consumed with it. */
  lemma LexComment(body: string, rest: string)
    requires '\n' !in body
    ensures Lex(['#'] + body + ['\n'] + rest) == [Token(Comment, body)] + Lex(rest)
    ensures Lex(['#'] + body) == [Token(Comment, body)]
  {
    assert ['#'] + body + ['\n'] + rest == ['#'] + (body + ['\n'] + rest);
    RootOpensComment(body + ['\n'] + rest);
    RootOpensComment(body);
    assert body + ['\n'] + rest == body + (['\n'] + rest);
    assert body + [] == body;
    CommentPrefix([], body, ['\n'] + rest);
    CommentPrefix([], body, []);
    assert [] + body == body;
    CommentNewline(body, rest);
    CommentEof(body);
  }

  // ---------------------------------------------------------------------
  // String literals

  /** How one rune is written between delimiters `d`: a backslash and the
      delimiter get a backslash in front. */
  function EscapeRune(d: char, c: char): (e: string)
    ensures 1 <= |e| <= 2 && e[|e| - 1] == c
  {
    if c == '\\' || c == d then ['\\', c] else [c]
  }

  /** A string written between delimiters `d`. */
  function EscapeDelim(d: char, s: string): (e: string)
    ensures |e| >= |s|
  {
    if s == [] then [] else EscapeRune(d, s[0]) + EscapeDelim(d, s[1..])
  }

  predicate IsQuote(d: char)
  {
    d == '"' || d == '`'
  }

  /** One rune of a literal that is neither the delimiter nor a backslash. */
  lemma StringPlainRune(d: char, buf: string, c: char, tail: string)
    requires IsQuote(d) && c != d && c != '\\'
    ensures Lexing(InString(d), [c] + tail, buf) == Lexing(InString(d), tail, buf + [c])
  {
    ReadOne(InString(d), c, tail, buf, [], InString(d), buf + [c]);
  }

  /** A backslash and the rune after it. */
  lemma StringEscapedRune(d: char, buf: string, c: char, tail: string)
    requires IsQuote(d)
    ensures Lexing(InString(d), ['\\', c] + tail, buf) == Lexing(InString(d), tail, buf + [c])
  {
    var s1 := State(['\\', c] + tail, 2, Empty, buf + [c]);
    RunContinues(InString(d), Reading(['\\', c] + tail, buf), [], InString(d), s1);
    Advance2(InString(d), '\\', c, tail, buf + [c]);
  }

  /** An escaped rune reads back as that rune. */
  lemma StringRune(d: char, buf: string, c: char, tail: string)
    requires IsQuote(d)
    ensures Lexing(InString(d), EscapeRune(d, c) + tail, buf) == Lexing(InString(d), tail, buf + [c])
  {
    if c == '\\' || c == d {
      StringEscapedRune(d, buf, c, tail);
    } else {
      StringPlainRune(d, buf, c, tail);
    }
  }

  lemma StringClose(d: char, buf: string, rest: string)
    ensures Lexing(InString(d), [d] + rest, buf) == [Token(StringLit, buf)] + Lex(rest)
  {
    ReadOne(InString(d), d, rest, buf, [Token(StringLit, buf)], Root, []);
  }

  lemma StringEof(d: char, buf: string)
    requires IsQuote(d)
    ensures Lexing(InString(d), [], buf) == [Token(Error, EofInString)]
    ensures Lexing(InString(d), ['\\'], buf) == [Token(Error, EofInString)]
  {
    RunHalts(InString(d), Reading([], buf), [Token(Error, EofInString)]);
    RunHalts(InString(d), Reading(['\\'], buf), [Token(Error, EofInString)]);
  }

  /** An escaped string reads back rune by rune. */
  lemma {:induction false} StringPrefix(d: char, buf: string, s: string, tail: string)
    requires IsQuote(d)
    ensures Lexing(InString(d), EscapeDelim(d, s) + tail, buf) == Lexing(InString(d), tail, buf + s)
    decreases |s|
  {
    if s == [] {
      assert EscapeDelim(d, s) + tail == tail;
      assert buf + s == buf;
    } else {
      var c := s[0];
      var rest := EscapeDelim(d, s[1..]) + tail;
      assert EscapeDelim(d, s) + tail == EscapeRune(d, c) + rest;
      StringRune(d, buf, c, rest);
      StringPrefix(d, buf + [c], s[1..], tail);
      assert buf + [c] + s[1..] == buf + s;
    }
  }

  /** A quote or backquote at root opens a literal and is not part of it. */
  lemma RootOpensString(d: char, body: string)
    requires IsQuote(d)
    ensures Lex([d] + body) == Lexing(InString(d), body, [])
  {
    ReadOne(Root, d, body, [], [], InString(d), []);
  }

  /** A literal between matching quotes or backquotes is one token holding
      the unescaped text; the other kind of quote needs no escape inside. */
  lemma LexStringLiteral(d: char, s: string, rest: string)
    requires IsQuote(d)
    ensures Lex([d] + EscapeDelim(d, s) + [d] + rest) == [Token(StringLit, s)] + Lex(rest)
  {
    var body := EscapeDelim(d, s) + [d] + rest;
    assert [d] + EscapeDelim(d, s) + [d] + rest == [d] + body;
    RootOpensString(d, body);
    assert body == EscapeDelim(d, s) + ([d] + rest);
    StringPrefix(d, [], s, [d] + rest);
    assert [] + s == s;
    StringClose(d, s, rest);
  }

  /** Input that ends inside a literal, even right after a backslash, lexes to
      the single error token. */
  lemma LexUnterminated(d: char, s: string)
    requires IsQuote(d)
    ensures Lex([d] + EscapeDelim(d, s)) == [Token(Error, EofInString)]
    ensures Lex([d] + EscapeDelim(d, s) + ['\\']) == [Token(Error, EofInString)]
  {
    var e := EscapeDelim(d, s);
    assert [d] + e + ['\\'] == [d] + (e + ['\\']);
    assert e + [] == e;
    RootOpensString(d, e);
    RootOpensString(d, e + ['\\']);
    StringPrefix(d, [], s, []);
    StringPrefix(d, [], s, ['\\']);
    assert [] + s == s;
    StringEof(d, s);
  }

  // ---------------------------------------------------------------------
  // Names and types

  predicate AllNameRunes(s: string)
  {
    forall i :: 0 <= i < |s| ==> IsNameRune(s[i])
  }

  /** A rune that cannot continue a name, or nothing. */
  predicate Boundary(rest: string)
  {
    rest == [] || !IsNameRune(rest[0])
  }

  /** The state function of names (k == Name) or of types. */
  predicate IdentMode(k: Kind, self: Mode)
  {
    (k == Name && self == InName) || (k == TypeName && self == InType)
  }

  /** A name rune extends the name or type being read. */
  lemma IdentRune(k: Kind, self: Mode, buf: string, c: char, tail: string)
    requires IdentMode(k, self)
    requires IsNameRune(c)
    ensures Lexing(self, [c] + tail, buf) == Lexing(self, tail, buf + [c])
  {
    ReadOne(self, c, tail, buf, [], self, buf + [c]);
  }

  /** lexRoot reads a rune pushed back over the rest of the input as if it
      had not been read. */
  lemma ReadAgain(rest: seq<char>)
    requires rest != []
    ensures Run(Root, State(rest, 1, Pushed(Empty, rest[0]), [])) == Lex(rest)
  {
    var after := State(rest, 1, Pushed(Empty, rest[0]), []);
    assert Ahead(after) == rest by {
      assert Runes(after.backup) == [rest[0]];
      assert [rest[0]] + rest[1..] == rest;
    }
    PushbackReadFirst(Root, after);
  }

  /** A rune that cannot continue a name or type ends it and is pushed
      back. */
  lemma IdentStops(k: Kind, self: Mode, s: State, c: char, s1: State)
    requires IdentMode(k, self)
    requires Next(s) == (Some(c), s1) && !IsNameRune(c)
    ensures Step(self, s) == Continue([Token(k, s.buf)], Root, Unread(s1, c).(buf := []))
  {
    assert Step(self, s) == StepIdent(s, k, self);
  }

  /** At a rune that cannot continue it, the name or type is emitted and
      that rune is pushed back for lexRoot. */
  lemma IdentEnd(k: Kind, self: Mode, buf: string, rest: string)
    requires IdentMode(k, self)
    requires Boundary(rest)
    ensures Lexing(self, rest, buf) == [Token(k, buf)] + Lex(rest)
  {
    if rest == [] {
      assert Step(self, Reading(rest, buf)) == StepIdent(Reading(rest, buf), k, self);
      RunHalts(self, Reading(rest, buf), [Token(k, buf)]);
    } else {
      var after := State(rest, 1, Pushed(Empty, rest[0]), []);
      IdentStops(k, self, Reading(rest, buf), rest[0], State(rest, 1, Empty, buf));
      RunContinues(self, Reading(rest, buf), [Token(k, buf)], Root, after);
      ReadAgain(rest);
    }
  }

  /** Name runes extend the name or type one by one. */
  lemma {:induction false} IdentPrefix(k: Kind, self: Mode, buf: string, body: string, tail: string)
    requires IdentMode(k, self)
    requires AllNameRunes(body)
    ensures Lexing(self, body + tail, buf) == Lexing(self, tail, buf + body)
    decreases |body|
  {
    if body == [] {
      assert body + tail == tail;
      assert buf + body == buf;
    } else {
      var c := body[0];
      assert IsNameRune(body[0]);
      assert AllNameRunes(body[1..]) by {
        forall i | 0 <= i < |body[1..]| ensures IsNameRune(body[1..][i]) {
          assert body[1..][i] == body[i + 1];
        }
      }
      assert body + tail == [c] + (body[1..] + tail);
      IdentRune(k, self, buf, c, body[1..] + tail);
      IdentPrefix(k, self, buf + [c], body[1..], tail);
      assert buf + [c] + body[1..] == buf + body;
    }
  }

  /** A letter is no punctuation, quote, comment opener or space. */
  lemma LetterIsPlain(c: char)
    requires IsLower(c) || IsUpper(c)
    ensures PunctKind(c).None? && c != '"' && c != '`' && c != '#' && !IsSpace(c)
  {
  }

  /** A lower-case initial opens a name and an upper-case one a type. */
  lemma RootOpensIdent(c: char, tail: string)
    requires IsLower(c) || IsUpper(c)
    ensures Lex([c] + tail) == Lexing(if IsLower(c) then InName else InType, tail, [c])
  {
    LetterIsPlain(c);
    assert [] + [c] == [c];
    if IsLower(c) {
      ReadOne(Root, c, tail, [], [], InName, [c]);
    } else {
      ReadOne(Root, c, tail, [], [], InType, [c]);
    }
  }

  /** A lower-case initial starts a name and an upper-case one a type; either
      extends over letters, digits and underscores, and the rune after it is
      lexed afresh. */
  lemma LexIdent(c: char, body: string, rest: string)
    requires IsLower(c) || IsUpper(c)
    requires AllNameRunes(body) && Boundary(rest)
    ensures Lex([c] + body + rest) == [Token(if IsLower(c) then Name else TypeName, [c] + body)] + Lex(rest)
  {
    assert [c] + body + rest == [c] + (body + rest);
    RootOpensIdent(c, body + rest);
    var k := if IsLower(c) then Name else TypeName;
    var self := if IsLower(c) then InName else InType;
    IdentPrefix(k, self, [c], body, rest);
    IdentEnd(k, self, [c] + body, rest);
  }
}
