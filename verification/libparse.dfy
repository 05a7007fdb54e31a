/**
 * The parser of the lib/ revision (lib/parse.go and the parse methods of
 * lib/node.go).  Unlike the prototype it builds a syntax tree whose values
 * are evaluated later, it accepts `@name` variables both as references at
 * value position and as unexported assignments at root, and it decides the
 * value rule on a peeked token.
 */
module LibParse {
  import opened Wrappers
  import opened Tokens
  import opened TokenStream
  import opened Numbers

  /** The value nodes of lib/node.go. */
  datatype Node =
    | StringNode(s: string)
    | NumNode(n: NumberNode)
    | ListNode(items: seq<Node>)
    | ObjectNode(fields: seq<Field>)   // a Go map; see Put for the order kept
    | VariableNode(name: string)
    | BoolNode(b: bool)

  datatype Field = Field(key: string, value: Node)

  /** Children of the root: comments never arrive (the parser's next skips
      them), but the root rule has a case for them. */
  datatype Child =
    | CommentChild(body: string)
    | Assignment(name: string, value: Node, unexported: bool)

  datatype ParseError =
    | LexErrorInValue(text: string)      // "saw lex error when looking for value"
    | EofInValue                         // "unexpected eof when looking for value"
    | UnexpectedInValue(kind: Kind)      // "unexpected %v token while looking for value"
    | NotString(kind: Kind)              // "unexpected %s while looking for string token"
    | NumberFailed(cause: NumberError)
    | NotVariable(kind: Kind)            // "unexpected %s token when parsing variable"
    | NotBool(kind: Kind)                // "unexpected %s token while parsing bool"
    | IllegalBool(text: string)          // "illegal lexeme for bool token: %s"
    | Expected(mismatch: Mismatch)       // ensureNext in objectNode.parse
    | LexErrorInRoot(token: Token)       // "saw lex error while parsing root node"
    | UnexpectedInRoot(kind: Kind)       // "unexpected token type %v while parsing root node"
    | LexErrorInAssignment(text: string) // "saw lex error while parsing assignment node"
    | EofInAssignment                    // "unexpected eof in assignment node"
    | UnexpectedAfterName(kind: Kind)    // "unexpected %v token after name, expected ="

  // ---------------------------------------------------------------------
  // Object fields: a Go map[string]node kept as a list of distinct keys

  function Keys(fs: seq<Field>): (ks: set<string>)
    ensures forall i :: 0 <= i < |fs| ==> fs[i].key in ks
  {
    if fs == [] then {}
    else
      assert forall i :: 1 <= i < |fs| ==> fs[i] == fs[1..][i - 1];
      {fs[0].key} + Keys(fs[1..])
  }

  predicate DistinctKeys(fs: seq<Field>)
  {
    fs == [] || (fs[0].key !in Keys(fs[1..]) && DistinctKeys(fs[1..]))
  }

  /** The node stored under `key`, if any. */
  function Find(fs: seq<Field>, key: string): (r: Option<Node>)
    ensures r.Some? <==> key in Keys(fs)
  {
    if fs == [] then None
    else if fs[0].key == key then Some(fs[0].value)
    else Find(fs[1..], key)
  }

  /** `obj[key] = n`: an existing key is overwritten where it stands, a new
      key goes last. */
  function Put(fs: seq<Field>, key: string, n: Node): (r: seq<Field>)
    requires DistinctKeys(fs)
    ensures DistinctKeys(r)
    ensures Keys(r) == Keys(fs) + {key}
    ensures Find(r, key) == Some(n)
    ensures forall k :: k != key ==> Find(r, k) == Find(fs, k)
  {
    if fs == [] then [Field(key, n)]
    else if fs[0].key == key then
      var r := [Field(key, n)] + fs[1..];
      assert r[1..] == fs[1..];
      r
    else
      var tail := Put(fs[1..], key, n);
      var r := [fs[0]] + tail;
      assert r[1..] == tail;
      r
  }

  // ---------------------------------------------------------------------
  // Value rules

  /** stringNode.parse. */
  function ParseString(s: Stream): (r: Result<(string, Stream), ParseError>)
    ensures r.Ok? <==> Next(s).0.kind == StringLit
    ensures r.Ok? ==> r.value == (Next(s).0.text, Next(s).1)
    ensures r.Err? ==> r.error == NotString(Next(s).0.kind)
  {
    var (t, s1) := Next(s);
    if t.kind != StringLit then Err(NotString(t.kind)) else Ok((t.text, s1))
  }

  /** variableNode.parse. */
  function ParseVariable(s: Stream): (r: Result<(string, Stream), ParseError>)
    ensures r.Ok? <==> Next(s).0.kind == Variable
    ensures r.Ok? ==> r.value == (Next(s).0.text, Next(s).1)
    ensures r.Err? ==> r.error == NotVariable(Next(s).0.kind)
  {
    var (t, s1) := Next(s);
    if t.kind != Variable then Err(NotVariable(t.kind)) else Ok((t.text, s1))
  }

  /** boolNode.parse: the lexeme `true` is true, `false` is false, and any
      other lexeme of a bool token is an error.  No value rule reaches it:
      parseValue has no bool case. */
  function ParseBool(s: Stream): (r: Result<(bool, Stream), ParseError>)
    ensures r.Ok? <==> Next(s).0.kind == BoolLit && Next(s).0.text in {"true", "false"}
    ensures r.Ok? ==> r.value == (Next(s).0.text == "true", Next(s).1)
    ensures Next(s).0.kind != BoolLit ==> r == Err(NotBool(Next(s).0.kind))
    ensures Next(s).0.kind == BoolLit && Next(s).0.text !in {"true", "false"} ==>
      r == Err(IllegalBool(Next(s).0.text))
  {
    var (t, s1) := Next(s);
    if t.kind != BoolLit then Err(NotBool(t.kind))
    else if t.text == "true" then Ok((true, s1))
    else if t.text == "false" then Ok((false, s1))
    else Err(IllegalBool(t.text))
  }

  /** parser.parseValue: the peeked token decides the rule and is left for
      it, except that `[` and `{` are consumed first.  Bool, imaginary
      number, name and every other kind are errors here. */
  function ParseValue(num: Numerics, s: Stream): (r: Result<(Node, Stream), ParseError>)
    ensures r.Ok? ==> Size(r.value.1) < Size(s)
    ensures r.Ok? && NoCommentPushed(s.backup) ==> NoCommentPushed(r.value.1.backup)
    decreases Size(s), 0
  {
    var (t, s1) := Peek(s);
    PeekConsumesNothing(s);
    match t.kind
    case Error => Err(LexErrorInValue(t.text))
    case Eof => Err(EofInValue)
    case StringLit =>
      (match ParseString(s1)
       case Err(e) => Err(e)
       case Ok((x, s2)) => Ok((StringNode(x), s2)))
    case RealNumber =>
      (match ParseNumberNode(num, s1)
       case Err(e) => Err(NumberFailed(e))
       case Ok((n, s2)) => Ok((NumNode(n), s2)))
    case ListStart =>
      (match ParseList(num, Next(s1).1, [])
       case Err(e) => Err(e)
       case Ok((items, s2)) => Ok((ListNode(items), s2)))
    case ObjectStart =>
      (match ParseObject(num, Next(s1).1, [])
       case Err(e) => Err(e)
       case Ok((fs, s2)) => Ok((ObjectNode(fs), s2)))
    case Variable =>
      (match ParseVariable(s1)
       case Err(e) => Err(e)
       case Ok((x, s2)) => Ok((VariableNode(x), s2)))
    case _ => Err(UnexpectedInValue(t.kind))
  }

  /** The rule parseValue picks, by the kind of the next token: a string
      or variable token is its own node; a real number is read by
      numberNode.parse from that token on; after `[` or `{` the list or
      object rule reads the rest. */
  lemma ValueDispatch(num: Numerics, s: Stream)
    ensures var (t, s1) := Next(s);
      && (t.kind == Error ==> ParseValue(num, s) == Err(LexErrorInValue(t.text)))
      && (t.kind == Eof ==> ParseValue(num, s) == Err(EofInValue))
      && (t.kind == StringLit ==> ParseValue(num, s) == Ok((StringNode(t.text), s1)))
      && (t.kind == Variable ==> ParseValue(num, s) == Ok((VariableNode(t.text), s1)))
      && (t.kind == RealNumber ==> ParseValue(num, s) == AsNumber(ParseNumberNode(num, s)))
      && (t.kind == ListStart ==> ParseValue(num, s) == AsList(ParseList(num, s1, [])))
      && (t.kind == ObjectStart ==> ParseValue(num, s) == AsObject(ParseObject(num, s1, [])))
      && (t.kind !in {Error, Eof, StringLit, RealNumber, ListStart, ObjectStart, Variable} ==>
            ParseValue(num, s) == Err(UnexpectedInValue(t.kind)))
  {
    PeekConsumesNothing(s);
  }

  /** A number read at value position, as parseValue wraps it. */
  function AsNumber(r: Result<(NumberNode, Stream), NumberError>): (q: Result<(Node, Stream), ParseError>)
    ensures r.Ok? <==> q.Ok?
    ensures r.Ok? ==> q.value == (NumNode(r.value.0), r.value.1)
    ensures r.Err? ==> q.error == NumberFailed(r.error)
  {
    match r
    case Err(e) => Err(NumberFailed(e))
    case Ok((n, s2)) => Ok((NumNode(n), s2))
  }

  /** A list read at value position, as parseValue wraps it. */
  function AsList(r: Result<(seq<Node>, Stream), ParseError>): (q: Result<(Node, Stream), ParseError>)
    ensures r.Ok? <==> q.Ok?
    ensures r.Ok? ==> q.value == (ListNode(r.value.0), r.value.1)
    ensures r.Err? ==> q.error == r.error
  {
    match r
    case Err(e) => Err(e)
    case Ok((items, s2)) => Ok((ListNode(items), s2))
  }

  /** An object read at value position, as parseValue wraps it. */
  function AsObject(r: Result<(seq<Field>, Stream), ParseError>): (q: Result<(Node, Stream), ParseError>)
    ensures r.Ok? <==> q.Ok?
    ensures r.Ok? ==> q.value == (ObjectNode(r.value.0), r.value.1)
    ensures r.Err? ==> q.error == r.error
  {
    match r
    case Err(e) => Err(e)
    case Ok((fs, s2)) => Ok((ObjectNode(fs), s2))
  }

  /** `[` or `{` directly followed by its closing token is an empty list or
      object. */
  lemma EmptyCollections(num: Numerics, s: Stream)
    ensures var (t, s1) := Next(s);
      var (u, s2) := Next(s1);
      && (t.kind == ListStart && u.kind == ListEnd ==> ParseValue(num, s) == Ok((ListNode([]), s2)))
      && (t.kind == ObjectStart && u.kind == ObjectEnd ==> ParseValue(num, s) == Ok((ObjectNode([]), s2)))
  {
    PeekConsumesNothing(s);
    PeekConsumesNothing(Next(Peek(s).1).1);
  }

  /** listNode.parse: values up to `]`, appended in order. */
  function ParseList(num: Numerics, s: Stream, acc: seq<Node>): (r: Result<(seq<Node>, Stream), ParseError>)
    ensures r.Ok? ==> Size(r.value.1) < Size(s)
    ensures r.Ok? && NoCommentPushed(s.backup) ==> NoCommentPushed(r.value.1.backup)
    decreases Size(s), 1
  {
    var p := Peek(s);
    PeekConsumesNothing(s);
    if p.0.kind == ListEnd then Ok((acc, Next(p.1).1))
    else
      match ParseValue(num, p.1)
      case Err(e) => Err(e)
      case Ok((v, s2)) => ListTail(num, s2, acc + [v])
  }

  function ListTail(num: Numerics, s: Stream, acc: seq<Node>): (r: Result<(seq<Node>, Stream), ParseError>)
    ensures r.Ok? ==> Size(r.value.1) < Size(s)
    ensures r.Ok? && NoCommentPushed(s.backup) ==> NoCommentPushed(r.value.1.backup)
    decreases Size(s), 2
  {
    var q := Peek(s);
    PeekConsumesNothing(s);
    if q.0.kind == ListEnd then Ok((acc, Next(q.1).1))
    else ParseList(num, q.1, acc)
  }

  /** objectNode.parse: `name : value` fields up to `}`; a repeated name
      overwrites the earlier node. */
  function ParseObject(num: Numerics, s: Stream, fs: seq<Field>): (r: Result<(seq<Field>, Stream), ParseError>)
    requires DistinctKeys(fs)
    ensures r.Ok? ==> Size(r.value.1) < Size(s) && DistinctKeys(r.value.0)
    ensures r.Ok? && NoCommentPushed(s.backup) ==> NoCommentPushed(r.value.1.backup)
    decreases Size(s), 1
  {
    var p := Peek(s);
    PeekConsumesNothing(s);
    if p.0.kind == ObjectEnd then Ok((fs, Next(p.1).1))
    else
      match FieldHead(p.1)
      case Err(m) => Err(Expected(m))
      case Ok((name, s5)) =>
        match ParseValue(num, s5)
        case Err(e) => Err(e)
        case Ok((v, s6)) => ObjectTail(num, s6, Put(fs, name, v))
  }

  function ObjectTail(num: Numerics, s: Stream, fs: seq<Field>): (r: Result<(seq<Field>, Stream), ParseError>)
    requires DistinctKeys(fs)
    ensures r.Ok? ==> Size(r.value.1) < Size(s) && DistinctKeys(r.value.0)
    ensures r.Ok? && NoCommentPushed(s.backup) ==> NoCommentPushed(r.value.1.backup)
    decreases Size(s), 2
  {
    var q := Peek(s);
    PeekConsumesNothing(s);
    if q.0.kind == ObjectEnd then Ok((fs, Next(q.1).1))
    else ParseObject(num, q.1, fs)
  }

  // ---------------------------------------------------------------------
  // Root and assignments

  /** assignmentNode.parse, after the name: an object separator, then a
      value. */
  function ParseAssignment(num: Numerics, s: Stream): (r: Result<(Node, Stream), ParseError>)
    ensures r.Ok? ==> Size(r.value.1) < Size(s)
    ensures r.Ok? && NoCommentPushed(s.backup) ==> NoCommentPushed(r.value.1.backup)
    ensures r.Ok? ==> Next(s).0.kind == ObjectSeparator
    ensures Next(s).0.kind == Error ==> r == Err(LexErrorInAssignment(Next(s).0.text))
    ensures Next(s).0.kind == Eof ==> r == Err(EofInAssignment)
    ensures Next(s).0.kind !in {Error, Eof, ObjectSeparator} ==> r == Err(UnexpectedAfterName(Next(s).0.kind))
  {
    var (t, s1) := Next(s);
    match t.kind
    case Error => Err(LexErrorInAssignment(t.text))
    case Eof => Err(EofInAssignment)
    case ObjectSeparator => ParseValue(num, s1)
    case _ => Err(UnexpectedAfterName(t.kind))
  }

  /** rootNode.parse: a name starts a public assignment and a variable an
      unexported one, children in source order until end of input. */
  function ParseRoot(num: Numerics, s: Stream, acc: seq<Child>): (r: Result<seq<Child>, ParseError>)
    ensures Next(s).0.kind == Eof ==> r == Ok(acc)
    ensures Next(s).0.kind == Error ==> r == Err(LexErrorInRoot(Next(s).0))
    ensures Next(s).0.kind !in {Eof, Error, Comment, Name, Variable} ==> r == Err(UnexpectedInRoot(Next(s).0.kind))
    decreases Size(s), 0
  {
    var (t, s1) := Next(s);
    match t.kind
    case Error => Err(LexErrorInRoot(t))
    case Eof => Ok(acc)
    case Comment => ParseRoot(num, s1, acc + [CommentChild(t.text)])
    case Name => RootAssignment(num, t.text, false, s1, acc)
    case Variable => RootAssignment(num, t.text, true, s1, acc)
    case _ => Err(UnexpectedInRoot(t.kind))
  }

  function RootAssignment(num: Numerics, name: string, unexported: bool, s: Stream, acc: seq<Child>): (r: Result<seq<Child>, ParseError>)
    decreases Size(s), 1
  {
    match ParseAssignment(num, s)
    case Err(e) => Err(e)
    case Ok((v, s2)) => ParseRoot(num, s2, acc + [Assignment(name, v, unexported)])
  }

  /** parse: the whole root, or the first error and no tree. */
  function Parse(num: Numerics, tokens: seq<Token>): Result<seq<Child>, ParseError>
  {
    ParseRoot(num, Start(tokens), [])
  }
}
