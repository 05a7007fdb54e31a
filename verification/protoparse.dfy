/**
 * The parser of the package main prototype (parse.go and the parse methods
 * of node.go).  Values come out already resolved: strings, numbers, lists
 * and objects.  An assignment is a name, an object separator and a value.
 */
module ProtoParse {
  import opened Wrappers
  import opened Tokens
  import opened TokenStream
  import opened Values
  import opened Numbers

  datatype ParseError =
    | LexErrorInValue(text: string)      // "saw lex error when looking for value"
    | EofInValue                         // "unexpected eof when looking for value"
    | UnexpectedInValue(kind: Kind)      // "unexpected %v token while looking for value"
    | Expected(mismatch: Mismatch)       // ensureNext in parseObject
    | NumberFailed(cause: NumberError)
    | LexErrorInRoot(token: Token)       // "saw lex error while parsing root node"
    | UnexpectedInRoot(kind: Kind)       // "unexpected token type %v while parsing root node"
    | LexErrorInAssignment(text: string) // "saw lex error while parsing assignment node"
    | EofInAssignment                    // "unexpected eof in assignment node"
    | UnexpectedAfterName(kind: Kind)    // "unexpected %v token after name, expected ="

  /** parser.number: a real-number token, merged with an immediately
      following imaginary-number token into a complex128; otherwise an int
      in the base its prefix selects, otherwise a float64. */
  function Number(num: Numerics, s: Stream): (r: Result<(Value, Stream), ParseError>)
    ensures r.Ok? ==> Size(r.value.1) < Size(s)
    ensures r.Ok? && NoCommentPushed(s.backup) ==> NoCommentPushed(r.value.1.backup)
  {
    var (t, s1) := Next(s);
    if t.kind != RealNumber then Err(NumberFailed(NotReal(t.kind)))
    else
      var (p, s2) := Peek(s1);
      if p.kind == ImaginaryNumber then
        var (t2, s3) := Next(s2);
        var text := t.text + t2.text;
        match num.scanComplex(text)
        case None => Err(NumberFailed(BadComplex(text)))
        case Some(c) => Ok((Cplx(c), s3))
      else
        match ParseInt(t.text, 0)
        case Some(i) => Ok((Int(i), s2))
        case None =>
          match num.parseFloat(t.text)
          case Some(f) => Ok((Float(f), s2))
          case None => Err(NumberFailed(Broken(t)))
  }

  /** The list value the list rule yields. */
  function AsList(r: Result<(seq<Value>, Stream), ParseError>): (v: Result<(Value, Stream), ParseError>)
    ensures v.Ok? <==> r.Ok?
    ensures v.Ok? ==> v.value == (List(r.value.0), r.value.1)
    ensures v.Err? ==> v.error == r.error
  {
    match r
    case Err(e) => Err(e)
    case Ok((items, s2)) => Ok((List(items), s2))
  }

  /** The object value the object rule yields. */
  function AsObject(r: Result<(map<string, Value>, Stream), ParseError>): (v: Result<(Value, Stream), ParseError>)
    ensures v.Ok? <==> r.Ok?
    ensures v.Ok? ==> v.value == (Map(r.value.0), r.value.1)
    ensures v.Err? ==> v.error == r.error
  {
    match r
    case Err(e) => Err(e)
    case Ok((m, s2)) => Ok((Map(m), s2))
  }

  /** parser.parseValue: the next token decides the rule.  A number token is
      put back for `number`; `[` and `{` are consumed before the list or
      object rule runs. */
  function ParseValue(num: Numerics, s: Stream): (r: Result<(Value, Stream), ParseError>)
    ensures r.Ok? ==> Size(r.value.1) < Size(s)
    ensures r.Ok? && NoCommentPushed(s.backup) ==> NoCommentPushed(r.value.1.backup)
    decreases Size(s), 0
  {
    var (t, s1) := Next(s);
    match t.kind
    case Error => Err(LexErrorInValue(t.text))
    case Eof => Err(EofInValue)
    case StringLit => Ok((Str(t.text), s1))
    case RealNumber => Number(num, Unread(s1, t))
    case ImaginaryNumber => Number(num, Unread(s1, t))
    case ListStart => AsList(ParseList(num, s1, []))
    case ObjectStart => AsObject(ParseObject(num, s1, map[]))
    case _ => Err(UnexpectedInValue(t.kind))
  }

  // One step of parseValue, by the kind of the token read.

  lemma ValueOfString(num: Numerics, s: Stream, t: Token, s1: Stream)
    requires Next(s) == (t, s1) && t.kind == StringLit
    ensures ParseValue(num, s) == Ok((Str(t.text), s1))
  {
  }

  lemma ValueOfNumber(num: Numerics, s: Stream, t: Token, s1: Stream)
    requires Next(s) == (t, s1) && t.kind == RealNumber
    ensures ParseValue(num, s) == Number(num, Unread(s1, t))
  {
  }

  lemma ValueOfList(num: Numerics, s: Stream, t: Token, s1: Stream)
    requires Next(s) == (t, s1) && t.kind == ListStart
    ensures ParseValue(num, s) == AsList(ParseList(num, s1, []))
  {
  }

  lemma ValueOfObject(num: Numerics, s: Stream, t: Token, s1: Stream)
    requires Next(s) == (t, s1) && t.kind == ObjectStart
    ensures ParseValue(num, s) == AsObject(ParseObject(num, s1, map[]))
  {
  }

  /** parser.parseList: values up to `]`, appended to `acc` in order; no
      separator is read between them. */
  function ParseList(num: Numerics, s: Stream, acc: seq<Value>): (r: Result<(seq<Value>, Stream), ParseError>)
    ensures r.Ok? ==> Size(r.value.1) < Size(s)
    ensures r.Ok? && NoCommentPushed(s.backup) ==> NoCommentPushed(r.value.1.backup)
    decreases Size(s), 1
  {
    var p := Peek(s);
    PeekConsumesNothing(s);
    if p.0.kind == ListEnd then Ok((acc, Next(p.1).1))
    else
      match ParseValue(num, p.1)
      case Err(e) => Err(e)
      case Ok((v, s2)) => ListTail(num, s2, acc + [v])
  }

  /** The end of parseList after a value: `]` closes the list, anything
      else starts the next value. */
  function ListTail(num: Numerics, s: Stream, acc: seq<Value>): (r: Result<(seq<Value>, Stream), ParseError>)
    ensures r.Ok? ==> Size(r.value.1) < Size(s)
    ensures r.Ok? && NoCommentPushed(s.backup) ==> NoCommentPushed(r.value.1.backup)
    decreases Size(s), 2
  {
    var q := Peek(s);
    PeekConsumesNothing(s);
    if q.0.kind == ListEnd then Ok((acc, Next(q.1).1))
    else ParseList(num, q.1, acc)
  }

  /** parser.parseObject: `name : value` fields up to `}`, each written into
      `obj`, so a repeated name overwrites the earlier value. */
  function ParseObject(num: Numerics, s: Stream, obj: map<string, Value>): (r: Result<(map<string, Value>, Stream), ParseError>)
    ensures r.Ok? ==> Size(r.value.1) < Size(s)
    ensures r.Ok? && NoCommentPushed(s.backup) ==> NoCommentPushed(r.value.1.backup)
    decreases Size(s), 1
  {
    var p := Peek(s);
    PeekConsumesNothing(s);
    if p.0.kind == ObjectEnd then Ok((obj, Next(p.1).1))
    else
      match FieldHead(p.1)
      case Err(m) => Err(Expected(m))
      case Ok((name, s5)) =>
        match ParseValue(num, s5)
        case Err(e) => Err(e)
        case Ok((v, s6)) => ObjectTail(num, s6, obj[name := v])
  }

  /** The end of parseObject after a field: `}` closes the object, anything
      else starts the next field. */
  function ObjectTail(num: Numerics, s: Stream, obj: map<string, Value>): (r: Result<(map<string, Value>, Stream), ParseError>)
    ensures r.Ok? ==> Size(r.value.1) < Size(s)
    ensures r.Ok? && NoCommentPushed(s.backup) ==> NoCommentPushed(r.value.1.backup)
    decreases Size(s), 2
  {
    var q := Peek(s);
    PeekConsumesNothing(s);
    if q.0.kind == ObjectEnd then Ok((obj, Next(q.1).1))
    else ParseObject(num, q.1, obj)
  }

  // ---------------------------------------------------------------------
  // Root and assignments (node.go)

  datatype Child = CommentChild(body: string) | Assignment(name: string, value: Value)

  /** assignmentNode.parse, after the name: an object separator, then a
      value. */
  function ParseAssignment(num: Numerics, s: Stream): (r: Result<(Value, Stream), ParseError>)
    ensures r.Ok? ==> Size(r.value.1) < Size(s)
    ensures r.Ok? && NoCommentPushed(s.backup) ==> NoCommentPushed(r.value.1.backup)
    ensures r.Ok? ==> Next(s).0.kind == ObjectSeparator
    ensures Next(s).0.kind == Equals ==> r == Err(UnexpectedAfterName(Equals))
  {
    var (t, s1) := Next(s);
    match t.kind
    case Error => Err(LexErrorInAssignment(t.text))
    case Eof => Err(EofInAssignment)
    case ObjectSeparator => ParseValue(num, s1)
    case _ => Err(UnexpectedAfterName(t.kind))
  }

  /** rootNode.parse: children in source order until end of input. */
  function ParseRoot(num: Numerics, s: Stream, acc: seq<Child>): (r: Result<seq<Child>, ParseError>)
    ensures Next(s).0.kind == Eof ==> r == Ok(acc)
    ensures Next(s).0.kind == Error ==> r == Err(LexErrorInRoot(Next(s).0))
    ensures Next(s).0.kind !in {Eof, Error, Comment, Name} ==> r == Err(UnexpectedInRoot(Next(s).0.kind))
    decreases Size(s), 0
  {
    var (t, s1) := Next(s);
    match t.kind
    case Error => Err(LexErrorInRoot(t))
    case Eof => Ok(acc)
    case Comment =>
      ParseRoot(num, s1, acc + [CommentChild(t.text)])
    case Name => RootAssignment(num, t.text, s1, acc)
    case _ => Err(UnexpectedInRoot(t.kind))
  }

  /** The name case of rootNode.parse: the assignment is parsed and added
      as a child before the root goes on. */
  function RootAssignment(num: Numerics, name: string, s: Stream, acc: seq<Child>): (r: Result<seq<Child>, ParseError>)
    decreases Size(s), 1
  {
    match ParseAssignment(num, s)
    case Err(e) => Err(e)
    case Ok((v, s2)) => ParseRoot(num, s2, acc + [Assignment(name, v)])
  }

  /** parse: the root's children, or the first error. */
  function Parse(num: Numerics, tokens: seq<Token>): Result<seq<Child>, ParseError>
  {
    ParseRoot(num, Start(tokens), [])
  }
}
