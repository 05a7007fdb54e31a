/**
 * Evaluation in the lib/ revision (the eval methods of lib/node.go) and
 * Read (lib/parse.go:17-27).  The context has a public and a private scope;
 * a name may be declared once across both.  Read keeps only the public
 * scope.
 */
module LibEval {
  import opened Wrappers
  import opened Tokens
  import opened Values
  import opened Numbers
  import opened LibParse

  datatype Context = Context(public: map<string, Value>, private: map<string, Value>)

  /** newContext: both scopes empty. */
  const NewContext := Context(map[], map[])

  datatype EvalError =
    | Undefined(name: string)      // "undefined variable: %s"
    | Redeclaration(name: string)  // "invalid re-declaration: %s"

  /** context.get: the public scope first, then the private one. */
  function Get(ctx: Context, name: string): (r: Option<Value>)
    ensures name in ctx.public ==> r == Some(ctx.public[name])
    ensures name !in ctx.public && name in ctx.private ==> r == Some(ctx.private[name])
    ensures r.None? <==> name !in ctx.public && name !in ctx.private
  {
    if name in ctx.public then Some(ctx.public[name])
    else if name in ctx.private then Some(ctx.private[name])
    else None
  }

  /** node.eval for value nodes: a literal is its own value, a variable is
      whatever the context binds to it, a list or object holds its parts
      evaluated.  Nothing here changes the context. */
  function Eval(ctx: Context, n: Node): (r: Result<Value, EvalError>)
    ensures n.StringNode? ==> r == Ok(Str(n.s))
    ensures n.BoolNode? ==> r == Ok(Bool(n.b))
    ensures n.NumNode? ==> r == Ok(EvalNumber(n.n))
    ensures n.VariableNode? ==> (r.Ok? <==> Get(ctx, n.name).Some?)
    ensures n.VariableNode? && r.Ok? ==> r.value == Get(ctx, n.name).value
    ensures n.VariableNode? && r.Err? ==> r.error == Undefined(n.name)
    ensures n.ListNode? ==> (r.Ok? <==> forall i :: 0 <= i < |n.items| ==> Eval(ctx, n.items[i]).Ok?)
    ensures n.ListNode? && r.Ok? ==>
      r.value.List? && |r.value.items| == |n.items| &&
      forall i :: 0 <= i < |n.items| ==> r.value.items[i] == Eval(ctx, n.items[i]).value
    ensures n.ObjectNode? ==> (r.Ok? <==> forall i :: 0 <= i < |n.fields| ==> Eval(ctx, n.fields[i].value).Ok?)
    ensures n.ObjectNode? && r.Ok? ==>
      r.value.Map? && r.value.entries.Keys == Keys(n.fields) &&
      forall i :: 0 <= i < |n.fields| && FirstWithKey(n.fields, i) ==>
        r.value.entries[n.fields[i].key] == Eval(ctx, n.fields[i].value).value
    decreases n, 1
  {
    match n
    case StringNode(s) => Ok(Str(s))
    case NumNode(nn) => Ok(EvalNumber(nn))
    case BoolNode(b) => Ok(Bool(b))
    case VariableNode(x) =>
      (match Get(ctx, x)
       case None => Err(Undefined(x))
       case Some(v) => Ok(v))
    case ListNode(items) =>
      (match EvalList(ctx, items)
       case Err(e) => Err(e)
       case Ok(vs) => Ok(List(vs)))
    case ObjectNode(fs) =>
      (match EvalFields(ctx, fs)
       case Err(e) => Err(e)
       case Ok(m) => Ok(Map(m)))
  }

  /** No field before `i` has the key of field `i`. */
  predicate FirstWithKey(fs: seq<Field>, i: int)
    requires 0 <= i < |fs|
  {
    forall j :: 0 <= j < i ==> fs[j].key != fs[i].key
  }

  /** listNode.eval: each element in order; the first failure aborts the
      list, and otherwise element `i` of the result is element `i`
      evaluated. */
  function EvalList(ctx: Context, items: seq<Node>): (r: Result<seq<Value>, EvalError>)
    ensures r.Ok? <==> forall i :: 0 <= i < |items| ==> Eval(ctx, items[i]).Ok?
    ensures r.Ok? ==> |r.value| == |items| && forall i :: 0 <= i < |items| ==> r.value[i] == Eval(ctx, items[i]).value
    ensures r.Err? ==> exists i :: 0 <= i < |items| && Eval(ctx, items[i]) == Err(r.error)
    decreases items, 0
  {
    if items == [] then Ok([])
    else
      var tail := items[1..];
      assert forall i :: 1 <= i < |items| ==> items[i] == tail[i - 1];
      match Eval(ctx, items[0])
      case Err(e) => Err(e)
      case Ok(v) =>
        match EvalList(ctx, tail)
        case Err(e) => Err(e)
        case Ok(vs) =>
          assert forall i :: 1 <= i < |items| ==> ([v] + vs)[i] == vs[i - 1];
          Ok([v] + vs)
  }

  /** objectNode.eval: each field; any failure aborts the object, and
      otherwise each key holds its field evaluated.  Go visits the fields in
      map order; the model visits them in stored order, which only decides
      which of several errors is reported.  Where a key repeats, the first
      field with it wins (the parser never repeats one, see Put). */
  function EvalFields(ctx: Context, fs: seq<Field>): (r: Result<map<string, Value>, EvalError>)
    ensures r.Ok? <==> forall i :: 0 <= i < |fs| ==> Eval(ctx, fs[i].value).Ok?
    ensures r.Ok? ==> r.value.Keys == Keys(fs)
    ensures r.Ok? ==> forall i :: 0 <= i < |fs| && FirstWithKey(fs, i) ==>
      r.value[fs[i].key] == Eval(ctx, fs[i].value).value
    ensures r.Err? ==> exists i :: 0 <= i < |fs| && Eval(ctx, fs[i].value) == Err(r.error)
    decreases fs, 0
  {
    if fs == [] then Ok(map[])
    else
      var tail := fs[1..];
      assert forall i :: 1 <= i < |fs| ==> fs[i] == tail[i - 1];
      match Eval(ctx, fs[0].value)
      case Err(e) => Err(e)
      case Ok(v) =>
        match EvalFields(ctx, tail)
        case Err(e) => Err(e)
        case Ok(m) =>
          assert forall i :: 1 <= i < |fs| && FirstWithKey(fs, i) ==> FirstWithKey(tail, i - 1) && fs[i].key != fs[0].key;
          Ok(m[fs[0].key := v])
  }

  /** Object evaluation binds each key to its own field evaluated, the
      first field with that key where keys repeat. */
  lemma {:induction false} EvalFieldsEntries(ctx: Context, fs: seq<Field>)
    ensures EvalFields(ctx, fs).Ok? ==>
      forall k :: k in Keys(fs) ==> Eval(ctx, Find(fs, k).value) == Ok(EvalFields(ctx, fs).value[k])
    decreases fs
  {
    if fs != [] {
      EvalFieldsEntries(ctx, fs[1..]);
    }
  }

  // ---------------------------------------------------------------------
  // Assignments and the root

  /** assignmentNode.eval: a name bound in either scope fails before its
      value is evaluated; otherwise the value goes into the private scope if
      the assignment is unexported and into the public scope if not, and
      the other scope is untouched. */
  function EvalAssignment(ctx: Context, name: string, value: Node, unexported: bool): (r: Result<Context, EvalError>)
    ensures Get(ctx, name).Some? ==> r == Err(Redeclaration(name))
    ensures Get(ctx, name).None? && Eval(ctx, value).Err? ==> r == Err(Eval(ctx, value).error)
    ensures r.Ok? ==> Get(ctx, name).None? && Eval(ctx, value).Ok?
    ensures r.Ok? && unexported ==>
      r.value == Context(ctx.public, ctx.private[name := Eval(ctx, value).value])
    ensures r.Ok? && !unexported ==>
      r.value == Context(ctx.public[name := Eval(ctx, value).value], ctx.private)
  {
    if Get(ctx, name).Some? then Err(Redeclaration(name))
    else
      match Eval(ctx, value)
      case Err(e) => Err(e)
      case Ok(v) =>
        if unexported then Ok(Context(ctx.public, ctx.private[name := v]))
        else Ok(Context(ctx.public[name := v], ctx.private))
  }

  /** rootNode.eval: the children in document order; the first failure
      stops the pass.  A pass only adds bindings: what the context held
      before stays, with its value, and a pass over comments alone changes
      nothing. */
  function EvalRoot(ctx: Context, cs: seq<Child>): (r: Result<Context, EvalError>)
    ensures r.Ok? ==> forall k :: k in ctx.public ==> k in r.value.public && r.value.public[k] == ctx.public[k]
    ensures r.Ok? ==> forall k :: k in ctx.private ==> k in r.value.private && r.value.private[k] == ctx.private[k]
    ensures Disjoint(ctx) && r.Ok? ==> Disjoint(r.value)
    ensures (forall i :: 0 <= i < |cs| ==> cs[i].CommentChild?) ==> r == Ok(ctx)
    decreases |cs|
  {
    if cs == [] then Ok(ctx)
    else
      assert forall i :: 1 <= i < |cs| ==> cs[i] == cs[1..][i - 1];
      match cs[0]
      case CommentChild(_) => EvalRoot(ctx, cs[1..])
      case Assignment(name, value, unexported) =>
        match EvalAssignment(ctx, name, value, unexported)
        case Err(e) => Err(e)
        case Ok(ctx2) => EvalRoot(ctx2, cs[1..])
  }

  /** No name is bound in both scopes. */
  predicate Disjoint(ctx: Context)
  {
    forall k :: k in ctx.public ==> k !in ctx.private
  }

  /** Evaluating `a + b` is evaluating `a` and then `b` in the context `a`
      left; a failure in `a` is the failure of the whole. */
  lemma {:induction false} EvalRootAppend(ctx: Context, a: seq<Child>, b: seq<Child>)
    ensures EvalRoot(ctx, a + b) ==
      (match EvalRoot(ctx, a)
       case Ok(c) => EvalRoot(c, b)
       case Err(e) => Err(e))
    decreases |a|
  {
    if a == [] {
      assert a + b == b;
    } else {
      assert (a + b)[0] == a[0];
      assert (a + b)[1..] == a[1..] + b;
      match a[0]
      case CommentChild(_) =>
        EvalRootAppend(ctx, a[1..], b);
      case Assignment(name, value, unexported) =>
        var r := EvalAssignment(ctx, name, value, unexported);
        if r.Ok? {
          EvalRootAppend(r.value, a[1..], b);
        }
    }
  }

  /** The first assignment that fails is the error of the pass: nothing
      after it is evaluated. */
  lemma EvalRootStops(ctx: Context, a: seq<Child>, name: string, value: Node, unexported: bool, b: seq<Child>)
    requires EvalRoot(ctx, a).Ok?
    requires EvalAssignment(EvalRoot(ctx, a).value, name, value, unexported).Err?
    ensures EvalRoot(ctx, a + [Assignment(name, value, unexported)] + b) ==
      Err(EvalAssignment(EvalRoot(ctx, a).value, name, value, unexported).error)
  {
    var c := Assignment(name, value, unexported);
    assert a + [c] + b == a + ([c] + b);
    EvalRootAppend(ctx, a, [c] + b);
    assert ([c] + b)[0] == c;
  }

  /** The names the assignments of `cs` bind in the public scope. */
  function Exported(cs: seq<Child>): (ns: set<string>)
    ensures forall i :: 0 <= i < |cs| && cs[i].Assignment? && !cs[i].unexported ==> cs[i].name in ns
    ensures forall n :: n in ns ==> exists i :: 0 <= i < |cs| && cs[i].Assignment? && !cs[i].unexported && cs[i].name == n
  {
    if cs == [] then {}
    else
      var tail := cs[1..];
      assert forall i :: 1 <= i < |cs| ==> cs[i] == tail[i - 1];
      (if cs[0].Assignment? && !cs[0].unexported then {cs[0].name} else {}) + Exported(tail)
  }

  /** The names the assignments of `cs` bind in the private scope. */
  function Unexported(cs: seq<Child>): (ns: set<string>)
    ensures forall i :: 0 <= i < |cs| && cs[i].Assignment? && cs[i].unexported ==> cs[i].name in ns
    ensures forall n :: n in ns ==> exists i :: 0 <= i < |cs| && cs[i].Assignment? && cs[i].unexported && cs[i].name == n
  {
    if cs == [] then {}
    else
      var tail := cs[1..];
      assert forall i :: 1 <= i < |cs| ==> cs[i] == tail[i - 1];
      (if cs[0].Assignment? && cs[0].unexported then {cs[0].name} else {}) + Unexported(tail)
  }

  /** The scope an assignment with this export flag writes. */
  function Scope(ctx: Context, unexported: bool): map<string, Value>
  {
    if unexported then ctx.private else ctx.public
  }

  /** After a successful pass the scopes stay disjoint and each holds
      exactly what it held before plus the names its assignments bind, each
      bound to its value evaluated in the context the children before it
      left. */
  lemma EvalRootScopes(ctx: Context, cs: seq<Child>)
    requires Disjoint(ctx)
    ensures EvalRoot(ctx, cs).Ok? ==> Disjoint(EvalRoot(ctx, cs).value)
    ensures EvalRoot(ctx, cs).Ok? ==>
      EvalRoot(ctx, cs).value.public.Keys == ctx.public.Keys + Exported(cs) &&
      EvalRoot(ctx, cs).value.private.Keys == ctx.private.Keys + Unexported(cs)
    ensures EvalRoot(ctx, cs).Ok? ==> forall i :: 0 <= i < |cs| && cs[i].Assignment? ==>
      EvalRoot(ctx, cs[..i]).Ok? &&
      cs[i].name in Scope(EvalRoot(ctx, cs).value, cs[i].unexported) &&
      Eval(EvalRoot(ctx, cs[..i]).value, cs[i].value) ==
        Ok(Scope(EvalRoot(ctx, cs).value, cs[i].unexported)[cs[i].name])
  {
    EvalRootKeys(ctx, cs);
    EvalRootValues(ctx, cs);
  }

  lemma {:induction false} EvalRootKeys(ctx: Context, cs: seq<Child>)
    ensures EvalRoot(ctx, cs).Ok? ==>
      EvalRoot(ctx, cs).value.public.Keys == ctx.public.Keys + Exported(cs) &&
      EvalRoot(ctx, cs).value.private.Keys == ctx.private.Keys + Unexported(cs)
    decreases |cs|
  {
    if cs != [] {
      match cs[0]
      case CommentChild(_) =>
        EvalRootKeys(ctx, cs[1..]);
      case Assignment(name, value, unexported) =>
        var r := EvalAssignment(ctx, name, value, unexported);
        if r.Ok? {
          EvalRootKeys(r.value, cs[1..]);
        }
    }
  }

  lemma {:induction false} EvalRootValues(ctx: Context, cs: seq<Child>)
    ensures EvalRoot(ctx, cs).Ok? ==> forall i :: 0 <= i < |cs| && cs[i].Assignment? ==>
      EvalRoot(ctx, cs[..i]).Ok? &&
      cs[i].name in Scope(EvalRoot(ctx, cs).value, cs[i].unexported) &&
      Eval(EvalRoot(ctx, cs[..i]).value, cs[i].value) ==
        Ok(Scope(EvalRoot(ctx, cs).value, cs[i].unexported)[cs[i].name])
    decreases |cs|
  {
    if cs != [] && EvalRoot(ctx, cs).Ok? {
      var tail := cs[1..];
      var ctx1 := if cs[0].CommentChild? then ctx else EvalAssignment(ctx, cs[0].name, cs[0].value, cs[0].unexported).value;
      assert EvalRoot(ctx, cs) == EvalRoot(ctx1, tail);
      EvalRootValues(ctx1, tail);
      var fin := EvalRoot(ctx, cs).value;
      forall i | 0 <= i < |cs| && cs[i].Assignment?
        ensures EvalRoot(ctx, cs[..i]).Ok? && cs[i].name in Scope(fin, cs[i].unexported) &&
          Eval(EvalRoot(ctx, cs[..i]).value, cs[i].value) == Ok(Scope(fin, cs[i].unexported)[cs[i].name])
      {
        if i == 0 {
          assert cs[..0] == [];
        } else {
          assert cs[..i][0] == cs[0] && cs[..i][1..] == tail[..i - 1];
          assert EvalRoot(ctx, cs[..i]) == EvalRoot(ctx1, tail[..i - 1]);
          assert cs[i] == tail[i - 1];
        }
      }
    }
  }

  /** A successful pass binds no name twice and none the context already
      held. */
  lemma {:induction false} EvalRootFresh(ctx: Context, cs: seq<Child>)
    ensures EvalRoot(ctx, cs).Ok? ==> forall i :: 0 <= i < |cs| && cs[i].Assignment? ==>
      cs[i].name !in ctx.public && cs[i].name !in ctx.private
    ensures EvalRoot(ctx, cs).Ok? ==> forall i, j :: 0 <= i < j < |cs| && cs[i].Assignment? && cs[j].Assignment? ==>
      cs[i].name != cs[j].name
    decreases |cs|
  {
    if cs != [] && EvalRoot(ctx, cs).Ok? {
      var tail := cs[1..];
      assert forall i :: 1 <= i < |cs| ==> cs[i] == tail[i - 1];
      var ctx1 := if cs[0].CommentChild? then ctx else EvalAssignment(ctx, cs[0].name, cs[0].value, cs[0].unexported).value;
      assert EvalRoot(ctx, cs) == EvalRoot(ctx1, tail);
      EvalRootFresh(ctx1, tail);
      if cs[0].Assignment? {
        assert cs[0].name in ctx1.public || cs[0].name in ctx1.private;
      }
    }
  }

  /** A reference to a binding declared further down fails: the pass has
      not reached the declaration yet. */
  lemma ForwardReferenceUndefined(x: string, y: string, n: Node)
    requires x != y
    ensures EvalRoot(NewContext, [Assignment(x, VariableNode(y), false), Assignment(y, n, false)]) ==
      Err(Undefined(y))
  {
  }

  /** A later assignment may read an earlier one, private or public. */
  lemma BackReferenceResolves(x: string, y: string, n: Node, v: Value)
    requires x != y && Eval(NewContext, n) == Ok(v)
    ensures EvalRoot(NewContext, [Assignment(y, n, true), Assignment(x, VariableNode(y), false)]) ==
      Ok(Context(map[x := v], map[y := v]))
  {
    var cs := [Assignment(y, n, true), Assignment(x, VariableNode(y), false)];
    var c1 := Context(map[], map[y := v]);
    assert EvalAssignment(NewContext, y, n, true) == Ok(c1);
    assert Get(c1, y) == Some(v) && Get(c1, x).None?;
    assert Eval(c1, VariableNode(y)) == Ok(v);
    var c2 := Context(map[x := v], map[y := v]);
    assert c1.public[x := v] == c2.public;
    assert EvalAssignment(c1, x, VariableNode(y), false) == Ok(c2);
    assert cs[1..] == [Assignment(x, VariableNode(y), false)];
    assert cs[1..][1..] == [];
    assert EvalRoot(c2, []) == Ok(c2);
  }

  // ---------------------------------------------------------------------
  // Read

  datatype ReadError =
    | ParseFailed(parseError: ParseError)  // returned unchanged
    | EvalFailed(evalError: EvalError)     // "eval error: %s\n"

  /** Read over the token sequence of a document: parse, evaluate in a new
      context, and keep the public scope as the document's items. */
  function Read(num: Numerics, tokens: seq<Token>): (r: Result<map<string, Value>, ReadError>)
    ensures Parse(num, tokens).Err? ==> r == Err(ParseFailed(Parse(num, tokens).error))
    ensures Parse(num, tokens).Ok? && EvalRoot(NewContext, Parse(num, tokens).value).Err? ==>
      r == Err(EvalFailed(EvalRoot(NewContext, Parse(num, tokens).value).error))
    ensures r.Ok? ==> Parse(num, tokens).Ok? && EvalRoot(NewContext, Parse(num, tokens).value).Ok?
    ensures r.Ok? ==> r.value == EvalRoot(NewContext, Parse(num, tokens).value).value.public
  {
    match Parse(num, tokens)
    case Err(e) => Err(ParseFailed(e))
    case Ok(tree) =>
      match EvalRoot(NewContext, tree)
      case Err(e) => Err(EvalFailed(e))
      case Ok(ctx) => Ok(ctx.public)
  }

  /** The document Read returns holds exactly the names of the exported
      assignments, each bound to its value evaluated where it stands; an
      unexported assignment's name is not in it. */
  lemma ReadKeepsPublic(num: Numerics, tokens: seq<Token>)
    requires Read(num, tokens).Ok?
    ensures Read(num, tokens).value.Keys == Exported(Parse(num, tokens).value)
    ensures var cs := Parse(num, tokens).value;
      forall i :: 0 <= i < |cs| && cs[i].Assignment? ==>
        (cs[i].name in Read(num, tokens).value <==> !cs[i].unexported)
    ensures var cs := Parse(num, tokens).value;
      forall i :: 0 <= i < |cs| && cs[i].Assignment? && !cs[i].unexported ==>
        EvalRoot(NewContext, cs[..i]).Ok? &&
        Eval(EvalRoot(NewContext, cs[..i]).value, cs[i].value) == Ok(Read(num, tokens).value[cs[i].name])
  {
    var cs := Parse(num, tokens).value;
    EvalRootScopes(NewContext, cs);
    var fin := EvalRoot(NewContext, cs).value;
    forall i | 0 <= i < |cs| && cs[i].Assignment?
      ensures cs[i].name in fin.public <==> !cs[i].unexported
    {
      assert cs[i].name in Scope(fin, cs[i].unexported);
    }
  }
}
