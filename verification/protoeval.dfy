/**
 * Evaluation in the package main prototype (node.go): one map is the whole
 * context, and evaluating the root binds every assignment's value in it,
 * left to right.  The map is threaded through explicitly; Go mutates it in
 * place, so after a failure the caller still sees the bindings made before
 * the failing child.
 */
module ProtoEval {
  import opened Wrappers
  import opened Values
  import opened ProtoParse

  type Context = map<string, Value>

  datatype EvalError = Redeclaration(name: string) // "invalid re-declaration: %s"

  /** assignmentNode.eval: a name already bound fails and leaves the context
      as it was; otherwise exactly that name is bound to the value. */
  function EvalAssignment(ctx: Context, name: string, v: Value): (r: Result<Context, EvalError>)
    ensures r.Err? <==> name in ctx
    ensures r.Err? ==> r.error == Redeclaration(name)
    ensures r.Ok? ==> r.value.Keys == ctx.Keys + {name} && r.value[name] == v
    ensures r.Ok? ==> forall k :: k in ctx ==> r.value[k] == ctx[k]
  {
    if name in ctx then Err(Redeclaration(name)) else Ok(ctx[name := v])
  }

  /** rootNode.eval: the children in order; the first failure stops the
      pass.  The result is the context as the pass left it and the error, if
      any.  Comment children bind nothing. */
  function EvalRoot(ctx: Context, cs: seq<Child>): (r: (Context, Option<EvalError>))
    ensures ctx.Keys <= r.0.Keys
    ensures forall k :: k in ctx ==> r.0[k] == ctx[k]
    decreases |cs|
  {
    if cs == [] then (ctx, None)
    else
      match cs[0]
      case CommentChild(_) => EvalRoot(ctx, cs[1..])
      case Assignment(name, v) =>
        match EvalAssignment(ctx, name, v)
        case Err(e) => (ctx, Some(e))
        case Ok(ctx2) => EvalRoot(ctx2, cs[1..])
  }

  // ---------------------------------------------------------------------
  // A reference for a successful pass

  /** The names the children assign, in order. */
  function Names(cs: seq<Child>): (ns: seq<string>)
    ensures |ns| <= |cs|
  {
    if cs == [] then []
    else if cs[0].Assignment? then [cs[0].name] + Names(cs[1..])
    else Names(cs[1..])
  }

  /** No name is assigned twice, and none is bound in `ctx` already. */
  predicate Fresh(ctx: Context, ns: seq<string>)
  {
    (forall i :: 0 <= i < |ns| ==> ns[i] !in ctx) &&
    (forall i, j :: 0 <= i < j < |ns| ==> ns[i] != ns[j])
  }

  /** The bindings the children make, as a map. */
  function Bindings(cs: seq<Child>): map<string, Value>
  {
    if cs == [] then map[]
    else if cs[0].Assignment? then Bindings(cs[1..])[cs[0].name := cs[0].value]
    else Bindings(cs[1..])
  }

  lemma {:induction false} BindingsKeys(cs: seq<Child>)
    ensures forall k :: k in Bindings(cs) <==> k in Names(cs)
  {
    if cs != [] {
      BindingsKeys(cs[1..]);
      if cs[0].Assignment? {
        assert Names(cs) == [cs[0].name] + Names(cs[1..]);
      }
    }
  }

  /** With `name` unbound, `[name] + ns` is fresh exactly when `ns` is fresh
      once `name` is bound. */
  lemma FreshCons(ctx: Context, name: string, v: Value, ns: seq<string>)
    requires name !in ctx
    ensures Fresh(ctx, [name] + ns) <==> Fresh(ctx[name := v], ns)
    ensures Fresh(ctx[name := v], ns) ==> name !in ns
  {
    var all := [name] + ns;
    var ctx2 := ctx[name := v];
    if Fresh(ctx, all) {
      forall i | 0 <= i < |ns| ensures ns[i] !in ctx2 {
        assert all[i + 1] == ns[i];
        assert all[0] != all[i + 1];
      }
      forall i, j | 0 <= i < j < |ns| ensures ns[i] != ns[j] {
        assert all[i + 1] == ns[i] && all[j + 1] == ns[j];
      }
    }
    if Fresh(ctx2, ns) {
      assert forall i :: 0 <= i < |ns| ==> ns[i] != name;
      forall i | 0 <= i < |all| ensures all[i] !in ctx {
        if i > 0 { assert all[i] == ns[i - 1]; }
      }
      forall i, j | 0 <= i < j < |all| ensures all[i] != all[j] {
        assert all[j] == ns[j - 1];
        if i > 0 { assert all[i] == ns[i - 1]; }
      }
    }
  }

  /** Binding a name first or last gives the same context when the later
      bindings do not mention it. */
  lemma BindLater(ctx: Context, name: string, v: Value, later: map<string, Value>)
    requires name !in later
    ensures ctx[name := v] + later == ctx + later[name := v]
  {
  }

  /** A pass succeeds exactly when no assigned name is bound already or
      assigned twice, and then it adds exactly the children's bindings. */
  lemma {:induction false} EvalRootSucceeds(ctx: Context, cs: seq<Child>)
    ensures EvalRoot(ctx, cs).1.None? <==> Fresh(ctx, Names(cs))
    ensures EvalRoot(ctx, cs).1.None? ==> EvalRoot(ctx, cs).0 == ctx + Bindings(cs)
    decreases |cs|
  {
    if cs == [] {
      assert ctx + Bindings(cs) == ctx;
    } else {
      var ns := Names(cs[1..]);
      match cs[0]
      case CommentChild(_) =>
        EvalRootSucceeds(ctx, cs[1..]);
      case Assignment(name, v) =>
        assert Names(cs) == [name] + ns;
        if name in ctx {
          assert Names(cs)[0] in ctx;
        } else {
          var ctx2 := ctx[name := v];
          EvalRootSucceeds(ctx2, cs[1..]);
          FreshCons(ctx, name, v, ns);
          if Fresh(ctx2, ns) {
            BindingsKeys(cs[1..]);
            BindLater(ctx, name, v, Bindings(cs[1..]));
          }
        }
    }
  }

  /** Children run left to right and the first failure ends the pass: the
      pass over `a + b` is the pass over `a`, then, only if that succeeded,
      the pass over `b` from where it left the context. */
  lemma {:induction false} EvalRootAppend(ctx: Context, a: seq<Child>, b: seq<Child>)
    ensures EvalRoot(ctx, a + b) ==
      (var ra := EvalRoot(ctx, a); if ra.1.Some? then ra else EvalRoot(ra.0, b))
    decreases |a|
  {
    if a == [] {
      assert a + b == b;
    } else {
      assert (a + b)[1..] == a[1..] + b;
      assert (a + b)[0] == a[0];
      match a[0]
      case CommentChild(_) =>
        EvalRootAppend(ctx, a[1..], b);
      case Assignment(name, v) =>
        if name !in ctx {
          EvalRootAppend(ctx[name := v], a[1..], b);
        }
    }
  }

  /** A second assignment to a name fails, and the context keeps the first
      value. */
  lemma RedeclarationKeepsFirst(ctx: Context, name: string, v1: Value, v2: Value)
    requires name !in ctx
    ensures EvalRoot(ctx, [Assignment(name, v1), Assignment(name, v2)]) ==
      (ctx[name := v1], Some(Redeclaration(name)))
  {
    var cs := [Assignment(name, v1), Assignment(name, v2)];
    assert cs[1..] == [Assignment(name, v2)];
    assert cs[1..][1..] == [];
  }
}
