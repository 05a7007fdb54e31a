/**
 * A reference for the parser of the lib/ revision: literal trees, the token
 * sequence each one is written as, and the syntax tree it stands for.
 * Parsing the tokens of a literal gives back its tree (list elements in
 * order, object fields folded through Put), and a document of
 * `name: literal` and `@name: literal` lines parses to its assignments in
 * order, the `@` ones unexported.
 */
module LibSyntax {
  import opened Wrappers
  import opened Tokens
  import opened TokenStream
  import opened Numbers
  import opened LibParse
  import ProtoSyntax

  datatype Literal =
    | LStr(s: string)
    | LInt(i: int)
    | LList(items: seq<Literal>)
    | LObject(fields: seq<LField>)
    | LVar(name: string)

  datatype LField = LField(key: string, value: Literal)

  /** A line of a document: `name: value`, or `@name: value` when
      unexported. */
  datatype LBinding = LBinding(name: string, value: Literal, unexported: bool)

  /** Literals whose integers fit in 64 bits. */
  predicate WellFormed(l: Literal)
  {
    match l
    case LInt(i) => InInt64(i)
    case LList(items) => forall i :: 0 <= i < |items| ==> WellFormed(items[i])
    case LObject(fs) => forall i :: 0 <= i < |fs| ==> WellFormed(fs[i].value)
    case _ => true
  }

  predicate AllWellFormed(items: seq<Literal>)
  {
    forall i :: 0 <= i < |items| ==> WellFormed(items[i])
  }

  predicate FieldsWellFormed(fs: seq<LField>)
  {
    forall i :: 0 <= i < |fs| ==> WellFormed(fs[i].value)
  }

  /** Token kinds a value can start with. */
  predicate StartsValue(k: Kind)
  {
    k == StringLit || k == RealNumber || k == ListStart || k == ObjectStart || k == Variable
  }

  /** The tokens a literal is written as. */
  function LiteralTokens(l: Literal): (ts: seq<Token>)
    ensures |ts| > 0 && StartsValue(ts[0].kind)
    ensures CommentFree(ts)
    decreases l
  {
    match l
    case LStr(s) => [Token(StringLit, s)]
    case LInt(i) => [Token(RealNumber, FormatInt(i))]
    case LVar(x) => [Token(Variable, x)]
    case LList(items) =>
      CommentFreeAppend([Token(ListStart, "[")], ItemTokens(items));
      CommentFreeAppend([Token(ListStart, "[")] + ItemTokens(items), [Token(ListEnd, "]")]);
      [Token(ListStart, "[")] + ItemTokens(items) + [Token(ListEnd, "]")]
    case LObject(fs) =>
      CommentFreeAppend([Token(ObjectStart, "{")], FieldTokens(fs));
      CommentFreeAppend([Token(ObjectStart, "{")] + FieldTokens(fs), [Token(ObjectEnd, "}")]);
      [Token(ObjectStart, "{")] + FieldTokens(fs) + [Token(ObjectEnd, "}")]
  }

  function ItemTokens(items: seq<Literal>): (ts: seq<Token>)
    ensures CommentFree(ts)
    ensures items != [] ==> |ts| > 0 && StartsValue(ts[0].kind)
    decreases items
  {
    if items == [] then []
    else
      CommentFreeAppend(LiteralTokens(items[0]), ItemTokens(items[1..]));
      LiteralTokens(items[0]) + ItemTokens(items[1..])
  }

  /** `key : value` for each field. */
  function FieldTokens(fs: seq<LField>): (ts: seq<Token>)
    ensures CommentFree(ts)
    ensures fs != [] ==> |ts| > 0 && ts[0] == Token(Name, fs[0].key)
    decreases fs
  {
    if fs == [] then []
    else
      var head := [Token(Name, fs[0].key), Token(ObjectSeparator, ":")];
      CommentFreeAppend(head, LiteralTokens(fs[0].value));
      CommentFreeAppend(head + LiteralTokens(fs[0].value), FieldTokens(fs[1..]));
      head + LiteralTokens(fs[0].value) + FieldTokens(fs[1..])
  }

  /** The integer node numberNode.parse builds for an integer lexeme. */
  function IntNode(i: int): Node
  {
    NumNode(NumberNode(NumInt, ZeroComplex, i, 0))
  }

  /** The syntax tree a literal stands for; an object's fields are stored
      one by one with Put, so a later field of the same name replaces an
      earlier one where it stands. */
  function LiteralNode(l: Literal): Node
    decreases l
  {
    match l
    case LStr(s) => StringNode(s)
    case LInt(i) => IntNode(i)
    case LVar(x) => VariableNode(x)
    case LList(items) => ListNode(ItemNodes(items))
    case LObject(fs) => ObjectNode(PutFields([], fs))
  }

  function ItemNodes(items: seq<Literal>): (ns: seq<Node>)
    ensures |ns| == |items|
    decreases items
  {
    if items == [] then [] else [LiteralNode(items[0])] + ItemNodes(items[1..])
  }

  function PutFields(acc: seq<Field>, fs: seq<LField>): (r: seq<Field>)
    requires DistinctKeys(acc)
    ensures DistinctKeys(r)
    decreases fs
  {
    if fs == [] then acc else PutFields(Put(acc, fs[0].key, LiteralNode(fs[0].value)), fs[1..])
  }

  // One parser step on a stream positioned at known tokens.

  lemma LeafStep(num: Numerics, t: Token, rest: seq<Token>, s: Stream)
    requires t.kind == StringLit || t.kind == Variable
    requires At(s, [t] + rest)
    ensures t.kind == StringLit ==> Gives(ParseValue(num, s), StringNode(t.text), rest)
    ensures t.kind == Variable ==> Gives(ParseValue(num, s), VariableNode(t.text), rest)
  {
    NextAt(s, [t] + rest);
    assert Head([t] + rest) == t && Tail([t] + rest) == rest;
    ValueDispatch(num, s);
  }

  lemma IntStep(num: Numerics, i: int, rest: seq<Token>, s: Stream)
    requires InInt64(i) && ProtoSyntax.EndsNumber(rest)
    requires At(s, [Token(RealNumber, FormatInt(i))] + rest)
    ensures Gives(ParseValue(num, s), IntNode(i), rest)
  {
    var t := Token(RealNumber, FormatInt(i));
    NextAt(s, [t] + rest);
    assert Head([t] + rest) == t && Tail([t] + rest) == rest;
    ValueDispatch(num, s);
    var s1 := Next(s).1;
    PeekAt(s1, rest);
    FormatIntRoundTrip(i);
  }

  lemma ListCloseStep(num: Numerics, acc: seq<Node>, rest: seq<Token>, s: Stream)
    requires At(s, [Token(ListEnd, "]")] + rest)
    ensures Gives(ParseList(num, s, acc), acc, rest)
    ensures Gives(ListTail(num, s, acc), acc, rest)
  {
    var all := [Token(ListEnd, "]")] + rest;
    PeekAt(s, all);
    NextAt(Peek(s).1, all);
    assert Tail(all) == rest;
  }

  lemma ListItemStep(num: Numerics, all: seq<Token>, acc: seq<Node>, s: Stream, v: Node, s2: Stream)
    requires At(s, all) && Head(all).kind != ListEnd
    requires ParseValue(num, Peek(s).1) == Ok((v, s2))
    ensures ParseList(num, s, acc) == ListTail(num, s2, acc + [v])
  {
    PeekAt(s, all);
  }

  lemma ListTailMore(num: Numerics, more: seq<Token>, acc: seq<Node>, s: Stream)
    requires At(s, more) && Head(more).kind != ListEnd
    ensures ListTail(num, s, acc) == ParseList(num, Peek(s).1, acc)
  {
    PeekAt(s, more);
  }

  lemma ObjectCloseStep(num: Numerics, acc: seq<Field>, rest: seq<Token>, s: Stream)
    requires DistinctKeys(acc)
    requires At(s, [Token(ObjectEnd, "}")] + rest)
    ensures Gives(ParseObject(num, s, acc), acc, rest)
    ensures Gives(ObjectTail(num, s, acc), acc, rest)
  {
    var all := [Token(ObjectEnd, "}")] + rest;
    PeekAt(s, all);
    NextAt(Peek(s).1, all);
    assert Tail(all) == rest;
  }

  /** The name and separator of a field are read, leaving its value. */
  lemma FieldHeadStep(key: string, valueAndMore: seq<Token>, s: Stream)
    requires CommentFree(valueAndMore)
    requires At(s, [Token(Name, key), Token(ObjectSeparator, ":")] + valueAndMore)
    ensures Gives(FieldHead(s), key, valueAndMore)
  {
    var all := [Token(Name, key), Token(ObjectSeparator, ":")] + valueAndMore;
    var afterName := [Token(ObjectSeparator, ":")] + valueAndMore;
    assert all == [Token(Name, key)] + afterName;
    assert Head(all) == Token(Name, key) && Tail(all) == afterName;
    assert Head(afterName) == Token(ObjectSeparator, ":") && Tail(afterName) == valueAndMore;
    EnsureNextConsumesNothing(s, Name, FieldNameContext);
    NextAt(s, all);
    var s2 := EnsureNext(s, Name, FieldNameContext).1;
    var s3 := Next(s2).1;
    EnsureNextConsumesNothing(s3, ObjectSeparator, SeparatorContext);
    NextAt(s3, afterName);
    var s4 := EnsureNext(s3, ObjectSeparator, SeparatorContext).1;
    assert Next(s4) == Next(s3);
  }

  lemma FieldStep(num: Numerics, key: string, valueAndMore: seq<Token>, acc: seq<Field>, s: Stream,
                  v: Node, s6: Stream)
    requires DistinctKeys(acc)
    requires CommentFree(valueAndMore)
    requires At(s, [Token(Name, key), Token(ObjectSeparator, ":")] + valueAndMore)
    requires FieldHead(Peek(s).1).Ok? && ParseValue(num, FieldHead(Peek(s).1).value.1) == Ok((v, s6))
    ensures ParseObject(num, s, acc) == ObjectTail(num, s6, Put(acc, key, v))
  {
    var all := [Token(Name, key), Token(ObjectSeparator, ":")] + valueAndMore;
    PeekAt(s, all);
    FieldHeadStep(key, valueAndMore, Peek(s).1);
  }

  lemma ObjectTailMore(num: Numerics, more: seq<Token>, acc: seq<Field>, s: Stream)
    requires DistinctKeys(acc)
    requires At(s, more) && Head(more).kind != ObjectEnd
    ensures ObjectTail(num, s, acc) == ParseObject(num, Peek(s).1, acc)
  {
    PeekAt(s, more);
  }

  /** The tokens of a literal, followed by tokens that cannot continue a
      number, parse to the literal's tree and leave the stream at those
      tokens. */
  lemma {:induction false} ValueRoundTrip(num: Numerics, l: Literal, rest: seq<Token>, s: Stream)
    requires WellFormed(l) && CommentFree(rest) && ProtoSyntax.EndsNumber(rest)
    requires At(s, LiteralTokens(l) + rest)
    ensures Gives(ParseValue(num, s), LiteralNode(l), rest)
    decreases l, 1
  {
    match l
    case LStr(x) =>
      LeafStep(num, Token(StringLit, x), rest, s);
    case LVar(x) =>
      LeafStep(num, Token(Variable, x), rest, s);
    case LInt(i) =>
      IntStep(num, i, rest, s);
    case LList(items) =>
      ListValueRoundTrip(num, items, rest, s);
    case LObject(fs) =>
      ObjectValueRoundTrip(num, fs, rest, s);
  }

  lemma {:induction false} ListValueRoundTrip(num: Numerics, items: seq<Literal>, rest: seq<Token>, s: Stream)
    requires WellFormed(LList(items)) && CommentFree(rest)
    requires At(s, LiteralTokens(LList(items)) + rest)
    ensures Gives(ParseValue(num, s), ListNode(ItemNodes(items)), rest)
    decreases LList(items), 0
  {
    var t := Token(ListStart, "[");
    var inner := ItemTokens(items) + [Token(ListEnd, "]")] + rest;
    assert LiteralTokens(LList(items)) + rest == [t] + inner by {
      ProtoSyntax.Assoc3([t], ItemTokens(items) + [Token(ListEnd, "]")], rest);
      ProtoSyntax.Assoc3([t], ItemTokens(items), [Token(ListEnd, "]")]);
    }
    NextAt(s, [t] + inner);
    assert Head([t] + inner) == t && Tail([t] + inner) == inner;
    var s1 := Next(s).1;
    ValueDispatch(num, s);
    assert Gives(ParseList(num, s1, []), ItemNodes(items), rest) by {
      CommentFreeAppend(ItemTokens(items), [Token(ListEnd, "]")]);
      CommentFreeAppend(ItemTokens(items) + [Token(ListEnd, "]")], rest);
      ListRoundTrip(num, items, [], rest, s1);
      assert [] + ItemNodes(items) == ItemNodes(items);
    }
  }

  lemma {:induction false} ObjectValueRoundTrip(num: Numerics, fs: seq<LField>, rest: seq<Token>, s: Stream)
    requires WellFormed(LObject(fs)) && CommentFree(rest)
    requires At(s, LiteralTokens(LObject(fs)) + rest)
    ensures Gives(ParseValue(num, s), ObjectNode(PutFields([], fs)), rest)
    decreases LObject(fs), 0
  {
    var t := Token(ObjectStart, "{");
    var inner := FieldTokens(fs) + [Token(ObjectEnd, "}")] + rest;
    assert LiteralTokens(LObject(fs)) + rest == [t] + inner by {
      ProtoSyntax.Assoc3([t], FieldTokens(fs) + [Token(ObjectEnd, "}")], rest);
      ProtoSyntax.Assoc3([t], FieldTokens(fs), [Token(ObjectEnd, "}")]);
    }
    NextAt(s, [t] + inner);
    assert Head([t] + inner) == t && Tail([t] + inner) == inner;
    var s1 := Next(s).1;
    ValueDispatch(num, s);
    assert Gives(ParseObject(num, s1, []), PutFields([], fs), rest) by {
      CommentFreeAppend(FieldTokens(fs), [Token(ObjectEnd, "}")]);
      CommentFreeAppend(FieldTokens(fs) + [Token(ObjectEnd, "}")], rest);
      ObjectRoundTrip(num, fs, [], rest, s1);
    }
  }

  /** The elements of a list, then `]`, are appended to `acc` in order. */
  lemma {:induction false} ListRoundTrip(num: Numerics, items: seq<Literal>, acc: seq<Node>, rest: seq<Token>, s: Stream)
    requires AllWellFormed(items) && CommentFree(rest)
    requires At(s, ItemTokens(items) + [Token(ListEnd, "]")] + rest)
    ensures Gives(ParseList(num, s, acc), acc + ItemNodes(items), rest)
    decreases items, 2
  {
    var close := [Token(ListEnd, "]")];
    if items == [] {
      assert ItemTokens(items) + close + rest == close + rest by { assert ItemTokens(items) + close == close; }
      ListCloseStep(num, acc, rest, s);
      assert acc + ItemNodes(items) == acc;
    } else {
      ListConsRoundTrip(num, items, acc, rest, s);
    }
  }

  lemma {:induction false} ListConsRoundTrip(num: Numerics, items: seq<Literal>, acc: seq<Node>, rest: seq<Token>, s: Stream)
    requires items != []
    requires AllWellFormed(items) && CommentFree(rest)
    requires At(s, ItemTokens(items) + [Token(ListEnd, "]")] + rest)
    ensures Gives(ParseList(num, s, acc), acc + ItemNodes(items), rest)
    decreases items, 1
  {
    var s2 := ListFirstItem(num, items, acc, rest, s);
    var v := LiteralNode(items[0]);
    assert AllWellFormed(items[1..]) by {
      forall i | 0 <= i < |items[1..]| ensures WellFormed(items[1..][i]) {
        assert items[1..][i] == items[i + 1];
      }
    }
    ListTailRoundTrip(num, items[1..], acc + [v], rest, s2);
    assert acc + [v] + ItemNodes(items[1..]) == acc + ItemNodes(items) by {
      ProtoSyntax.Assoc3(acc, [v], ItemNodes(items[1..]));
    }
  }

  /** The first element of a non-empty list is parsed, leaving the stream at
      the tokens of the others; `s2` is the stream after it. */
  lemma {:induction false} ListFirstItem(num: Numerics, items: seq<Literal>, acc: seq<Node>, rest: seq<Token>, s: Stream)
    returns (s2: Stream)
    requires items != []
    requires AllWellFormed(items) && CommentFree(rest)
    requires At(s, ItemTokens(items) + [Token(ListEnd, "]")] + rest)
    ensures At(s2, ItemTokens(items[1..]) + [Token(ListEnd, "]")] + rest)
    ensures ParseList(num, s, acc) == ListTail(num, s2, acc + [LiteralNode(items[0])])
    decreases items, 0
  {
    var close := [Token(ListEnd, "]")];
    var all := ItemTokens(items) + close + rest;
    var first := LiteralTokens(items[0]);
    var more := ItemTokens(items[1..]) + close + rest;
    assert all == first + more by {
      ProtoSyntax.Assoc3(first, ItemTokens(items[1..]), close);
      ProtoSyntax.Assoc3(first, ItemTokens(items[1..]) + close, rest);
    }
    assert CommentFree(more) by {
      CommentFreeAppend(ItemTokens(items[1..]), close);
      CommentFreeAppend(ItemTokens(items[1..]) + close, rest);
    }
    assert ProtoSyntax.EndsNumber(more) by {
      if items[1..] == [] { assert more[0] == Token(ListEnd, "]"); }
      else { assert more[0] == ItemTokens(items[1..])[0]; }
    }
    PeekAt(s, all);
    var pv := ParseValue(num, Peek(s).1);
    assert Gives(pv, LiteralNode(items[0]), more) by {
      ValueRoundTrip(num, items[0], more, Peek(s).1);
    }
    s2 := pv.value.1;
    assert Head(all) == first[0];
    ListItemStep(num, all, acc, s, pv.value.0, s2);
  }

  lemma {:induction false} ListTailRoundTrip(num: Numerics, items: seq<Literal>, acc: seq<Node>, rest: seq<Token>, s: Stream)
    requires AllWellFormed(items) && CommentFree(rest)
    requires At(s, ItemTokens(items) + [Token(ListEnd, "]")] + rest)
    ensures Gives(ListTail(num, s, acc), acc + ItemNodes(items), rest)
    decreases items, 3
  {
    var close := [Token(ListEnd, "]")];
    var more := ItemTokens(items) + close + rest;
    if items == [] {
      assert more == close + rest by { assert ItemTokens(items) + close == close; }
      ListCloseStep(num, acc, rest, s);
      assert acc + ItemNodes(items) == acc;
    } else {
      assert Head(more).kind != ListEnd by {
        assert more[0] == ItemTokens(items)[0];
      }
      ListTailMore(num, more, acc, s);
      PeekAt(s, more);
      ListRoundTrip(num, items, acc, rest, Peek(s).1);
    }
  }

  /** The fields of an object, then `}`, are stored into `acc` one by one
      with Put. */
  lemma {:induction false} ObjectRoundTrip(num: Numerics, fs: seq<LField>, acc: seq<Field>, rest: seq<Token>, s: Stream)
    requires DistinctKeys(acc)
    requires FieldsWellFormed(fs) && CommentFree(rest)
    requires At(s, FieldTokens(fs) + [Token(ObjectEnd, "}")] + rest)
    ensures Gives(ParseObject(num, s, acc), PutFields(acc, fs), rest)
    decreases fs, 1
  {
    var close := [Token(ObjectEnd, "}")];
    var all := FieldTokens(fs) + close + rest;
    if fs == [] {
      assert all == close + rest by { assert FieldTokens(fs) + close == close; }
      ObjectCloseStep(num, acc, rest, s);
    } else {
      ObjectConsRoundTrip(num, fs, acc, rest, s);
    }
  }

  lemma {:induction false} ObjectConsRoundTrip(num: Numerics, fs: seq<LField>, acc: seq<Field>, rest: seq<Token>, s: Stream)
    requires DistinctKeys(acc)
    requires fs != [] && FieldsWellFormed(fs) && CommentFree(rest)
    requires At(s, FieldTokens(fs) + [Token(ObjectEnd, "}")] + rest)
    ensures Gives(ParseObject(num, s, acc), PutFields(acc, fs), rest)
    decreases fs, 0
  {
    var more := FieldTokens(fs[1..]) + [Token(ObjectEnd, "}")] + rest;
    var valueAndMore := LiteralTokens(fs[0].value) + more;
    ObjectConsTokens(fs, rest);
    ObjectConsRest(fs, rest);
    var all := [Token(Name, fs[0].key), Token(ObjectSeparator, ":")] + valueAndMore;
    PeekAt(s, all);
    FieldHeadStep(fs[0].key, valueAndMore, Peek(s).1);
    var s5 := FieldHead(Peek(s).1).value.1;
    var pv := ParseValue(num, s5);
    ValueRoundTrip(num, fs[0].value, more, s5);
    var v := pv.value.0;
    var s6 := pv.value.1;
    FieldStep(num, fs[0].key, valueAndMore, acc, s, v, s6);
    ObjectTailRoundTrip(num, fs[1..], Put(acc, fs[0].key, v), rest, s6);
  }

  /** How the tokens of a non-empty field list and what follows them divide
      into the first field's name and separator, its value, and the rest. */
  lemma ObjectConsTokens(fs: seq<LField>, rest: seq<Token>)
    requires fs != [] && CommentFree(rest)
    ensures FieldTokens(fs) + [Token(ObjectEnd, "}")] + rest ==
      [Token(Name, fs[0].key), Token(ObjectSeparator, ":")] +
      (LiteralTokens(fs[0].value) + (FieldTokens(fs[1..]) + [Token(ObjectEnd, "}")] + rest))
    ensures CommentFree(FieldTokens(fs[1..]) + [Token(ObjectEnd, "}")] + rest)
  {
    var close := [Token(ObjectEnd, "}")];
    var head := [Token(Name, fs[0].key), Token(ObjectSeparator, ":")];
    var value := LiteralTokens(fs[0].value);
    var tail := FieldTokens(fs[1..]);
    var more := tail + close + rest;
    assert FieldTokens(fs) == head + value + tail;
    ProtoSyntax.Assoc3(head + value, tail, close);
    ProtoSyntax.Assoc3(head + value, tail + close, rest);
    ProtoSyntax.Assoc3(head, value, more);
    CommentFreeAppend(tail, close);
    CommentFreeAppend(tail + close, rest);
  }

  /** What follows the first field's value is clean, and the remaining
      fields are well formed. */
  lemma ObjectConsRest(fs: seq<LField>, rest: seq<Token>)
    requires fs != [] && FieldsWellFormed(fs) && CommentFree(FieldTokens(fs[1..]) + [Token(ObjectEnd, "}")] + rest)
    ensures CommentFree(LiteralTokens(fs[0].value) + (FieldTokens(fs[1..]) + [Token(ObjectEnd, "}")] + rest))
    ensures ProtoSyntax.EndsNumber(FieldTokens(fs[1..]) + [Token(ObjectEnd, "}")] + rest)
    ensures FieldsWellFormed(fs[1..]) && WellFormed(fs[0].value)
  {
    var close := [Token(ObjectEnd, "}")];
    var tail := FieldTokens(fs[1..]);
    var more := tail + close + rest;
    CommentFreeAppend(LiteralTokens(fs[0].value), more);
    assert more[0] == (tail + close)[0];
    forall i | 0 <= i < |fs[1..]| ensures WellFormed(fs[1..][i].value) {
      assert fs[1..][i] == fs[i + 1];
    }
  }

  lemma {:induction false} ObjectTailRoundTrip(num: Numerics, fs: seq<LField>, acc: seq<Field>, rest: seq<Token>, s: Stream)
    requires DistinctKeys(acc)
    requires FieldsWellFormed(fs) && CommentFree(rest)
    requires At(s, FieldTokens(fs) + [Token(ObjectEnd, "}")] + rest)
    ensures Gives(ObjectTail(num, s, acc), PutFields(acc, fs), rest)
    decreases fs, 2
  {
    var close := [Token(ObjectEnd, "}")];
    var more := FieldTokens(fs) + close + rest;
    if fs == [] {
      assert more == close + rest by { assert FieldTokens(fs) + close == close; }
      ObjectCloseStep(num, acc, rest, s);
    } else {
      assert Head(more).kind != ObjectEnd by {
        assert more[0] == FieldTokens(fs)[0];
      }
      ObjectTailMore(num, more, acc, s);
      PeekAt(s, more);
      ObjectRoundTrip(num, fs, acc, rest, Peek(s).1);
    }
  }

  /** Storing the same key twice keeps one field, holding the later
      node. */
  lemma PutRepeated(key: string, first: Literal, second: Literal)
    ensures PutFields([], [LField(key, first), LField(key, second)]) == [Field(key, LiteralNode(second))]
  {
    var fs := [LField(key, first), LField(key, second)];
    var a := Put([], key, LiteralNode(first));
    assert a == [Field(key, LiteralNode(first))];
    assert fs[1..] == [LField(key, second)];
    assert PutFields([], fs) == PutFields(a, fs[1..]);
    var b := Put(a, key, LiteralNode(second));
    assert b == [Field(key, LiteralNode(second))] + a[1..];
    assert a[1..] == [];
    assert PutFields(a, fs[1..]) == PutFields(b, []);
  }

  /** A field name that appears twice keeps one field, holding the later
      value. */
  lemma RepeatedFieldOverwrites(num: Numerics, key: string, first: Literal, second: Literal, rest: seq<Token>, s: Stream)
    requires WellFormed(first) && WellFormed(second) && CommentFree(rest)
    requires At(s, LiteralTokens(LObject([LField(key, first), LField(key, second)])) + rest)
    ensures Gives(ParseValue(num, s), ObjectNode([Field(key, LiteralNode(second))]), rest)
  {
    var fs := [LField(key, first), LField(key, second)];
    assert WellFormed(LObject(fs)) by {
      assert fs[0].value == first && fs[1].value == second;
    }
    ObjectValueRoundTrip(num, fs, rest, s);
    PutRepeated(key, first, second);
  }

  // ---------------------------------------------------------------------
  // Documents

  /** The token a line starts with: a name, or a variable when the binding
      is unexported. */
  function NameToken(b: LBinding): Token
  {
    Token(if b.unexported then Variable else Name, b.name)
  }

  /** The tokens of a document: one `name: value` line per binding. */
  function BindingTokens(bs: seq<LBinding>): (ts: seq<Token>)
    ensures CommentFree(ts)
    ensures bs != [] ==> |ts| > 0 && ts[0] == NameToken(bs[0])
  {
    if bs == [] then []
    else
      var head := [NameToken(bs[0]), Token(ObjectSeparator, ":")];
      CommentFreeAppend(head, LiteralTokens(bs[0].value));
      CommentFreeAppend(head + LiteralTokens(bs[0].value), BindingTokens(bs[1..]));
      head + LiteralTokens(bs[0].value) + BindingTokens(bs[1..])
  }

  predicate BindingsWellFormed(bs: seq<LBinding>)
  {
    forall i :: 0 <= i < |bs| ==> WellFormed(bs[i].value)
  }

  /** The children a document parses to: one assignment per line, in order,
      unexported exactly when the line starts with a variable. */
  function Assignments(bs: seq<LBinding>): (cs: seq<Child>)
    ensures |cs| == |bs|
  {
    if bs == [] then [] else [Assignment(bs[0].name, LiteralNode(bs[0].value), bs[0].unexported)] + Assignments(bs[1..])
  }

  lemma RootEnd(num: Numerics, acc: seq<Child>, s: Stream)
    requires At(s, [])
    ensures ParseRoot(num, s, acc) == Ok(acc)
  {
    NextAt(s, []);
  }

  /** At top level a name token hands over to a public assignment and a
      variable token to an unexported one. */
  lemma RootDispatch(num: Numerics, s: Stream, acc: seq<Child>)
    ensures Next(s).0.kind == Name ==> ParseRoot(num, s, acc) == RootAssignment(num, Next(s).0.text, false, Next(s).1, acc)
    ensures Next(s).0.kind == Variable ==> ParseRoot(num, s, acc) == RootAssignment(num, Next(s).0.text, true, Next(s).1, acc)
  {
  }

  /** A name at top level starts a public assignment and a variable an
      unexported one. */
  lemma RootAssignName(num: Numerics, b: LBinding, afterName: seq<Token>, acc: seq<Child>, s: Stream)
    requires At(s, [NameToken(b)] + afterName)
    ensures At(Next(s).1, afterName)
    ensures ParseRoot(num, s, acc) == RootAssignment(num, b.name, b.unexported, Next(s).1, acc)
  {
    var all := [NameToken(b)] + afterName;
    assert Head(all) == NameToken(b) && Tail(all) == afterName;
    NextAt(s, all);
    assert Next(s).0 == NameToken(b);
    RootDispatch(num, s, acc);
  }

  /** After the name, an assignment reads the separator and the literal's
      tree, and stops before the next line. */
  lemma AssignmentRoundTrip(num: Numerics, l: Literal, more: seq<Token>, s: Stream)
    requires WellFormed(l) && CommentFree(more) && ProtoSyntax.EndsNumber(more)
    requires At(s, [Token(ObjectSeparator, ":")] + (LiteralTokens(l) + more))
    ensures Gives(ParseAssignment(num, s), LiteralNode(l), more)
  {
    var all := [Token(ObjectSeparator, ":")] + (LiteralTokens(l) + more);
    assert Head(all) == Token(ObjectSeparator, ":") && Tail(all) == LiteralTokens(l) + more;
    NextAt(s, all);
    ValueRoundTrip(num, l, more, Next(s).1);
  }

  /** The tokens of a document's first line: its name and the object
      separator, then the value, with the other lines after it. */
  lemma FirstLineTokens(bs: seq<LBinding>)
    requires bs != []
    ensures BindingTokens(bs) == [NameToken(bs[0]), Token(ObjectSeparator, ":")]
      + (LiteralTokens(bs[0].value) + BindingTokens(bs[1..]))
    ensures CommentFree(LiteralTokens(bs[0].value) + BindingTokens(bs[1..]))
    ensures ProtoSyntax.EndsNumber(BindingTokens(bs[1..]))
  {
    var head := [NameToken(bs[0]), Token(ObjectSeparator, ":")];
    var value := LiteralTokens(bs[0].value);
    var more := BindingTokens(bs[1..]);
    assert BindingTokens(bs) == head + value + more;
    ProtoSyntax.Assoc3(head, value, more);
    CommentFreeAppend(value, more);
    if bs[1..] != [] {
      assert more[0] == NameToken(bs[1]);
    }
  }

  /** The first line of a document is parsed into its assignment, leaving
      the stream at the other lines. */
  lemma RootFirstAssignment(num: Numerics, bs: seq<LBinding>, acc: seq<Child>, s: Stream) returns (s2: Stream)
    requires bs != [] && BindingsWellFormed(bs)
    requires At(s, BindingTokens(bs))
    ensures At(s2, BindingTokens(bs[1..]))
    ensures ParseRoot(num, s, acc) ==
      ParseRoot(num, s2, acc + [Assignment(bs[0].name, LiteralNode(bs[0].value), bs[0].unexported)])
  {
    FirstLineTokens(bs);
    var more := BindingTokens(bs[1..]);
    var afterName := [Token(ObjectSeparator, ":")] + (LiteralTokens(bs[0].value) + more);
    ProtoSyntax.Pair(NameToken(bs[0]), Token(ObjectSeparator, ":"), LiteralTokens(bs[0].value) + more);
    RootAssignName(num, bs[0], afterName, acc, s);
    var sa := Next(s).1;
    assert WellFormed(bs[0].value);
    AssignmentRoundTrip(num, bs[0].value, more, sa);
    s2 := ParseAssignment(num, sa).value.1;
  }

  /** A document parses to its assignments in source order. */
  lemma {:induction false} RootRoundTrip(num: Numerics, bs: seq<LBinding>, acc: seq<Child>, s: Stream)
    requires BindingsWellFormed(bs)
    requires At(s, BindingTokens(bs))
    ensures ParseRoot(num, s, acc) == Ok(acc + Assignments(bs))
    decreases bs
  {
    if bs == [] {
      RootEnd(num, acc, s);
      assert acc + Assignments(bs) == acc;
    } else {
      var s2 := RootFirstAssignment(num, bs, acc, s);
      var child := Assignment(bs[0].name, LiteralNode(bs[0].value), bs[0].unexported);
      assert BindingsWellFormed(bs[1..]) by {
        forall i | 0 <= i < |bs[1..]| ensures WellFormed(bs[1..][i].value) {
          assert bs[1..][i] == bs[i + 1];
        }
      }
      RootRoundTrip(num, bs[1..], acc + [child], s2);
      assert acc + [child] + Assignments(bs[1..]) == acc + Assignments(bs) by {
        ProtoSyntax.Assoc3(acc, [child], Assignments(bs[1..]));
      }
    }
  }

  /** parse of a document's tokens gives its assignments, in order, each
      unexported exactly when its line starts with a variable. */
  lemma DocumentRoundTrip(num: Numerics, bs: seq<LBinding>)
    requires BindingsWellFormed(bs)
    ensures Parse(num, BindingTokens(bs)) == Ok(Assignments(bs))
  {
    StartAt(BindingTokens(bs));
    RootRoundTrip(num, bs, [], Start(BindingTokens(bs)));
    assert [] + Assignments(bs) == Assignments(bs);
  }
}
