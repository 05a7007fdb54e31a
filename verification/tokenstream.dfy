/**
 * The parser's view of the token channel (parse.go:36-72, identical in
 * lib/parse.go:76-112): a pushback stack of tokens that were read and put
 * back, in front of the not yet consumed lexer output.  A closed channel
 * yields an end-of-input token whose text is "eof".
 */
module TokenStream {
  import opened Wrappers
  import opened Tokens

  /** The pushback stack of parser.unread, top last. */
  datatype Pushback = Empty | Pushed(below: Pushback, top: Token)

  /** The lexer output, the position of the next token the channel would
      deliver, and the pushback stack. */
  datatype Stream = Stream(input: seq<Token>, pos: nat, backup: Pushback)

  /** The stream over a complete lexer output, with nothing read. */
  function Start(tokens: seq<Token>): Stream
  {
    Stream(tokens, 0, Empty)
  }

  /** The token a closed channel produces. */
  const EofToken := Token(Eof, "eof")

  /** Tokens on the pushback stack that are not end-of-input tokens.  An
      end-of-input token pushed back stands for nothing left to read. */
  function NonEofCount(b: Pushback): nat
  {
    match b
    case Empty => 0
    case Pushed(below, t) => NonEofCount(below) + (if t.kind == Eof then 0 else 1)
  }

  /** Tokens the channel has not delivered yet. */
  function Undelivered(s: Stream): nat
  {
    if s.pos < |s.input| then |s.input| - s.pos else 0
  }

  /** How much is left to read; every consumed token that is not an
      end-of-input token makes it smaller. */
  function Size(s: Stream): nat
  {
    Undelivered(s) + NonEofCount(s.backup)
  }

  /** No comment token waits on the pushback stack. */
  predicate NoCommentPushed(b: Pushback)
  {
    match b
    case Empty => true
    case Pushed(below, t) => t.kind != Comment && NoCommentPushed(below)
  }

  /** No comment token among `ts`. */
  predicate CommentFree(ts: seq<Token>)
  {
    forall i :: 0 <= i < |ts| ==> ts[i].kind != Comment
  }

  /** The position of the first token at or after `i` that is not a
      comment, or a position past the end when only comments remain. */
  function SkipComments(input: seq<Token>, i: nat): (j: nat)
    ensures i <= j
    ensures j < |input| ==> input[j].kind != Comment
    ensures forall k :: i <= k < j && k < |input| ==> input[k].kind == Comment
    ensures j > i ==> j <= |input|
    decreases |input| - i
  {
    if i >= |input| || input[i].kind != Comment then i else SkipComments(input, i + 1)
  }

  /** parser.next: the most recently pushed-back token if there is one,
      otherwise the next lexer token that is not a comment, otherwise eof. */
  function Next(s: Stream): (r: (Token, Stream))
    ensures r.1.input == s.input
    ensures Size(r.1) <= Size(s)
    ensures r.0.kind != Eof ==> Size(r.1) < Size(s)
    ensures NoCommentPushed(s.backup) ==> r.0.kind != Comment && NoCommentPushed(r.1.backup)
  {
    match s.backup
    case Pushed(below, t) => (t, s.(backup := below))
    case Empty =>
      var j := SkipComments(s.input, s.pos);
      if j < |s.input| then (s.input[j], Stream(s.input, j + 1, Empty))
      else (EofToken, Stream(s.input, j, Empty))
  }

  /** parser.unread: push a token back. */
  function Unread(s: Stream, t: Token): (r: Stream)
    ensures r.input == s.input
    ensures Size(r) == Size(s) + (if t.kind == Eof then 0 else 1)
    ensures NoCommentPushed(s.backup) && t.kind != Comment ==> NoCommentPushed(r.backup)
  {
    s.(backup := Pushed(s.backup, t))
  }

  /** parser.peek: read a token and push it back. */
  function Peek(s: Stream): (r: (Token, Stream))
    ensures r.1.input == s.input
    ensures Size(r.1) <= Size(s)
    ensures r.0 == Next(s).0
    ensures NoCommentPushed(s.backup) ==> NoCommentPushed(r.1.backup)
  {
    var (t, s1) := Next(s);
    (t, Unread(s1, t))
  }

  /** The message of parser.ensureNext: the kind seen, the grammatical
      context and the kind expected. */
  datatype Mismatch = Mismatch(saw: Kind, context: string, expected: Kind)

  /** parser.ensureNext: fail unless the next token has kind `tt`.  The
      source peeks once for the test and once more for the message. */
  function EnsureNext(s: Stream, tt: Kind, context: string): (r: (Option<Mismatch>, Stream))
    ensures Size(r.1) <= Size(s)
    ensures NoCommentPushed(s.backup) ==> NoCommentPushed(r.1.backup)
  {
    var (t, s1) := Peek(s);
    if t.kind != tt then
      var (t2, s2) := Peek(s1);
      (Some(Mismatch(t2.kind, context, tt)), s2)
    else (None, s1)
  }

  const FieldNameContext := "looking for object field name in parseObject"
  const SeparatorContext := "looking for object separator in parseObject"

  /** The start of a field in parseObject (parse.go:125-132, and likewise
      lib/node.go:397-404): a name token and an object separator, each
      checked by ensureNext before it is read. */
  function FieldHead(s: Stream): (r: Result<(string, Stream), Mismatch>)
    ensures r.Ok? ==> Size(r.value.1) < Size(s)
    ensures r.Ok? && NoCommentPushed(s.backup) ==> NoCommentPushed(r.value.1.backup)
  {
    var (e1, s2) := EnsureNext(s, Name, FieldNameContext);
    EnsureNextConsumesNothing(s, Name, FieldNameContext);
    if e1.Some? then Err(e1.value)
    else
      var (nameTok, s3) := Next(s2);
      var (e2, s4) := EnsureNext(s3, ObjectSeparator, SeparatorContext);
      if e2.Some? then Err(e2.value)
      else Ok((nameTok.text, Next(s4).1))
  }

  /** Pushed-back tokens come out first, last in first out: reading after
      `unread(t)` yields `t` and restores the stream. */
  lemma UnreadThenNext(s: Stream, t: Token)
    ensures Next(Unread(s, t)) == (t, s)
  {
  }

  /** peek consumes nothing: the next read returns the same token and leaves
      the stream where a read without the peek would. */
  lemma PeekConsumesNothing(s: Stream)
    ensures Next(Peek(s).1) == Next(s)
  {
    UnreadThenNext(Next(s).1, Next(s).0);
  }

  /** ensureNext consumes nothing either, and fails exactly when the next
      token has another kind, reporting that token's kind. */
  lemma EnsureNextConsumesNothing(s: Stream, tt: Kind, context: string)
    ensures Next(EnsureNext(s, tt, context).1) == Next(s)
    ensures EnsureNext(s, tt, context).0.None? <==> Next(s).0.kind == tt
    ensures EnsureNext(s, tt, context).0.Some? ==>
      EnsureNext(s, tt, context).0.value == Mismatch(Next(s).0.kind, context, tt)
  {
    PeekConsumesNothing(s);
    PeekConsumesNothing(Peek(s).1);
  }

  /** Comments never reach a parse rule: with nothing pushed back, a read
      returns a lexer token at or after the read position with only
      comments before it, and eof when only comments remain. */
  lemma NextSkipsComments(s: Stream)
    requires s.backup == Empty
    ensures Next(s).0.kind != Comment
    ensures Next(s).0 != EofToken ==>
      exists j :: s.pos <= j < |s.input| && Next(s).0 == s.input[j] &&
        forall k :: s.pos <= k < j ==> s.input[k].kind == Comment
    ensures (forall k :: s.pos <= k < |s.input| ==> s.input[k].kind == Comment) ==> Next(s).0 == EofToken
  {
    var j := SkipComments(s.input, s.pos);
    if j < |s.input| {
      assert s.input[j].kind != Comment;
    }
  }

  // ---------------------------------------------------------------------
  // Streams positioned at a known comment-free token sequence

  /** The token the next read returns when `r` is what remains. */
  function Head(r: seq<Token>): Token
  {
    if r == [] then EofToken else r[0]
  }

  function Tail(r: seq<Token>): seq<Token>
  {
    if r == [] then [] else r[1..]
  }

  /** The lexer tokens the channel has yet to deliver. */
  function Rest(s: Stream): seq<Token>
  {
    if s.pos <= |s.input| then s.input[s.pos..] else []
  }

  /** `s` holds no pushed-back token and has `r` left to deliver. */
  predicate Fresh(s: Stream, r: seq<Token>)
  {
    s.backup == Empty && Rest(s) == r
  }

  /** `s` has peeked at `r`: its first token (or eof) waits on the
      pushback stack and the others are left to deliver. */
  predicate PeekedAt(s: Stream, r: seq<Token>)
  {
    s.backup == Pushed(Empty, Head(r)) && Rest(s) == Tail(r)
  }

  /** `s` has exactly the comment-free tokens `r` left, either fresh or with
      the first of them peeked at. */
  predicate At(s: Stream, r: seq<Token>)
  {
    CommentFree(r) && (Fresh(s, r) || PeekedAt(s, r))
  }

  /** A parse step succeeded with `v` and left the stream at `rest`. */
  predicate Gives<V(==), E>(r: Result<(V, Stream), E>, v: V, rest: seq<Token>)
  {
    r.Ok? && r.value.0 == v && At(r.value.1, rest)
  }

  lemma StartAt(ts: seq<Token>)
    requires CommentFree(ts)
    ensures At(Start(ts), ts)
  {
    assert ts[0..] == ts;
  }

  lemma TailCommentFree(r: seq<Token>)
    requires CommentFree(r)
    ensures CommentFree(Tail(r))
  {
    if r != [] {
      forall i | 0 <= i < |r[1..]| ensures r[1..][i].kind != Comment {
        assert r[1..][i] == r[i + 1];
      }
    }
  }

  /** Reading from a fresh stream delivers the first token left. */
  lemma FreshNext(s: Stream, r: seq<Token>)
    requires CommentFree(r) && Fresh(s, r)
    ensures Next(s).0 == Head(r)
    ensures Fresh(Next(s).1, Tail(r))
  {
    if r != [] {
      assert s.pos < |s.input| && s.input[s.pos] == r[0] by {
        assert r[0] == s.input[s.pos..][0];
      }
      assert SkipComments(s.input, s.pos) == s.pos;
      assert s.input[s.pos + 1..] == r[1..];
    }
  }

  lemma NextAt(s: Stream, r: seq<Token>)
    requires At(s, r)
    ensures Next(s).0 == Head(r)
    ensures Fresh(Next(s).1, Tail(r))
    ensures At(Next(s).1, Tail(r))
  {
    TailCommentFree(r);
    if Fresh(s, r) {
      FreshNext(s, r);
    }
  }

  lemma PeekAt(s: Stream, r: seq<Token>)
    requires At(s, r)
    ensures Peek(s).0 == Head(r)
    ensures PeekedAt(Peek(s).1, r)
    ensures At(Peek(s).1, r)
  {
    NextAt(s, r);
  }

  lemma CommentFreeAppend(a: seq<Token>, b: seq<Token>)
    ensures CommentFree(a + b) <==> CommentFree(a) && CommentFree(b)
  {
    if CommentFree(a) && CommentFree(b) {
      forall i | 0 <= i < |a + b| ensures (a + b)[i].kind != Comment {
        if i < |a| { assert (a + b)[i] == a[i]; } else { assert (a + b)[i] == b[i - |a|]; }
      }
    }
    if CommentFree(a + b) {
      forall i | 0 <= i < |a| ensures a[i].kind != Comment { assert (a + b)[i] == a[i]; }
      forall i | 0 <= i < |b| ensures b[i].kind != Comment { assert (a + b)[i + |a|] == b[i]; }
    }
  }
}
