/**
 * A reference for the prototype parser: literal trees, the token sequence
 * each one is written as, and the value it denotes.  Parsing the tokens of
 * a literal gives back its value, and a document of `name: literal` lines
 * parses to its assignments in order.
 */
module ProtoSyntax {
  import opened Wrappers
  import opened Tokens
  import opened TokenStream
  import opened Values
  import opened Numbers
  import opened ProtoParse

  datatype Literal =
    | LStr(s: string)
    | LInt(i: int)
    | LList(items: seq<Literal>)
    | LObject(fields: seq<LField>)

  /** An object field, or at top level an assignment. */
  datatype LField = LField(key: string, value: Literal)

  /** Literals whose integers fit in 64 bits. */
  predicate WellFormed(l: Literal)
  {
    match l
    case LStr(_) => true
    case LInt(i) => InInt64(i)
    case LList(items) => forall i :: 0 <= i < |items| ==> WellFormed(items[i])
    case LObject(fs) => forall i :: 0 <= i < |fs| ==> WellFormed(fs[i].value)
  }

  predicate AllWellFormed(items: seq<Literal>)
  {
    forall i :: 0 <= i < |items| ==> WellFormed(items[i])
  }

  predicate FieldsWellFormed(fs: seq<LField>)
  {
    forall i :: 0 <= i < |fs| ==> WellFormed(fs[i].value)
  }

  lemma Assoc3<T>(a: seq<T>, b: seq<T>, c: seq<T>)
    ensures a + b + c == a + (b + c)
  {
  }

  /** Token kinds a value can start with. */
  predicate StartsValue(k: Kind)
  {
    k == StringLit || k == RealNumber || k == ListStart || k == ObjectStart
  }

  /** The tokens a literal is written as. */
  function LiteralTokens(l: Literal): (ts: seq<Token>)
    ensures |ts| > 0 && StartsValue(ts[0].kind)
    ensures CommentFree(ts)
    decreases l
  {
    match l
    case LStr(s) => [Token(StringLit, s)]
    case LInt(i) => [Token(RealNumber, FormatInt(i))]
    case LList(items) =>
      CommentFreeAppend([Token(ListStart, "[")], ItemTokens(items));
      CommentFreeAppend([Token(ListStart, "[")] + ItemTokens(items), [Token(ListEnd, "]")]);
      [Token(ListStart, "[")] + ItemTokens(items) + [Token(ListEnd, "]")]
    case LObject(fs) =>
      CommentFreeAppend([Token(ObjectStart, "{")], FieldTokens(fs));
      CommentFreeAppend([Token(ObjectStart, "{")] + FieldTokens(fs), [Token(ObjectEnd, "}")]);
      [Token(ObjectStart, "{")] + FieldTokens(fs) + [Token(ObjectEnd, "}")]
  }

  function ItemTokens(items: seq<Literal>): (ts: seq<Token>)
    ensures CommentFree(ts)
    ensures items != [] ==> |ts| > 0 && StartsValue(ts[0].kind)
    decreases items
  {
    if items == [] then []
    else
      CommentFreeAppend(LiteralTokens(items[0]), ItemTokens(items[1..]));
      LiteralTokens(items[0]) + ItemTokens(items[1..])
  }

  /** `key : value` for each field. */
  function FieldTokens(fs: seq<LField>): (ts: seq<Token>)
    ensures CommentFree(ts)
    ensures fs != [] ==> |ts| > 0 && ts[0] == Token(Name, fs[0].key)
    decreases fs
  {
    if fs == [] then []
    else
      var head := [Token(Name, fs[0].key), Token(ObjectSeparator, ":")];
      CommentFreeAppend(head, LiteralTokens(fs[0].value));
      CommentFreeAppend(head + LiteralTokens(fs[0].value), FieldTokens(fs[1..]));
      head + LiteralTokens(fs[0].value) + FieldTokens(fs[1..])
  }

  /** The value a literal denotes; in an object a later field of the same
      name replaces an earlier one. */
  function LiteralValue(l: Literal): Value
    decreases l
  {
    match l
    case LStr(s) => Str(s)
    case LInt(i) => Int(i)
    case LList(items) => List(ItemValues(items))
    case LObject(fs) => Map(ApplyFields(map[], fs))
  }

  function ItemValues(items: seq<Literal>): (vs: seq<Value>)
    ensures |vs| == |items|
    decreases items
  {
    if items == [] then [] else [LiteralValue(items[0])] + ItemValues(items[1..])
  }

  function ApplyFields(obj: map<string, Value>, fs: seq<LField>): map<string, Value>
    decreases fs
  {
    if fs == [] then obj else ApplyFields(obj[fs[0].key := LiteralValue(fs[0].value)], fs[1..])
  }

  /** A token that cannot continue a number: anything but an
      imaginary-number token, or the end. */
  predicate EndsNumber(rest: seq<Token>)
  {
    Head(rest).kind != ImaginaryNumber
  }

  // One parser step on a stream positioned at known tokens.

  lemma StringStep(num: Numerics, x: string, rest: seq<Token>, s: Stream)
    requires At(s, [Token(StringLit, x)] + rest)
    ensures Gives(ParseValue(num, s), Str(x), rest)
  {
    var t := Token(StringLit, x);
    NextAt(s, [t] + rest);
    assert Head([t] + rest) == t && Tail([t] + rest) == rest;
    ValueOfString(num, s, t, Next(s).1);
  }

  lemma IntStep(num: Numerics, i: int, rest: seq<Token>, s: Stream)
    requires InInt64(i) && EndsNumber(rest)
    requires At(s, [Token(RealNumber, FormatInt(i))] + rest)
    ensures Gives(ParseValue(num, s), Int(i), rest)
  {
    var t := Token(RealNumber, FormatInt(i));
    NextAt(s, [t] + rest);
    assert Head([t] + rest) == t && Tail([t] + rest) == rest;
    var s1 := Next(s).1;
    ValueOfNumber(num, s, t, s1);
    UnreadThenNext(s1, t);
    PeekAt(s1, rest);
    FormatIntRoundTrip(i);
  }

  lemma ListCloseStep(num: Numerics, acc: seq<Value>, rest: seq<Token>, s: Stream)
    requires At(s, [Token(ListEnd, "]")] + rest)
    ensures Gives(ParseList(num, s, acc), acc, rest)
    ensures Gives(ListTail(num, s, acc), acc, rest)
  {
    var all := [Token(ListEnd, "]")] + rest;
    PeekAt(s, all);
    NextAt(Peek(s).1, all);
    assert Tail(all) == rest;
  }

  lemma ListItemStep(num: Numerics, all: seq<Token>, acc: seq<Value>, s: Stream, v: Value, s2: Stream)
    requires At(s, all) && Head(all).kind != ListEnd
    requires ParseValue(num, Peek(s).1) == Ok((v, s2))
    ensures ParseList(num, s, acc) == ListTail(num, s2, acc + [v])
  {
    PeekAt(s, all);
  }

  lemma ListTailMore(num: Numerics, more: seq<Token>, acc: seq<Value>, s: Stream)
    requires At(s, more) && Head(more).kind != ListEnd
    ensures ListTail(num, s, acc) == ParseList(num, Peek(s).1, acc)
  {
    PeekAt(s, more);
  }

  lemma ObjectCloseStep(num: Numerics, obj: map<string, Value>, rest: seq<Token>, s: Stream)
    requires At(s, [Token(ObjectEnd, "}")] + rest)
    ensures Gives(ParseObject(num, s, obj), obj, rest)
    ensures Gives(ObjectTail(num, s, obj), obj, rest)
  {
    var all := [Token(ObjectEnd, "}")] + rest;
    PeekAt(s, all);
    NextAt(Peek(s).1, all);
    assert Tail(all) == rest;
  }

  /** The name and separator of a field are read, leaving its value. */
  lemma FieldHeadStep(key: string, valueAndMore: seq<Token>, s: Stream)
    requires CommentFree(valueAndMore)
    requires At(s, [Token(Name, key), Token(ObjectSeparator, ":")] + valueAndMore)
    ensures Gives(FieldHead(s), key, valueAndMore)
  {
    var all := [Token(Name, key), Token(ObjectSeparator, ":")] + valueAndMore;
    var afterName := [Token(ObjectSeparator, ":")] + valueAndMore;
    assert all == [Token(Name, key)] + afterName;
    assert Head(all) == Token(Name, key) && Tail(all) == afterName;
    assert Head(afterName) == Token(ObjectSeparator, ":") && Tail(afterName) == valueAndMore;
    EnsureNextConsumesNothing(s, Name, FieldNameContext);
    NextAt(s, all);
    var s2 := EnsureNext(s, Name, FieldNameContext).1;
    var s3 := Next(s2).1;
    EnsureNextConsumesNothing(s3, ObjectSeparator, SeparatorContext);
    NextAt(s3, afterName);
    var s4 := EnsureNext(s3, ObjectSeparator, SeparatorContext).1;
    assert Next(s4) == Next(s3);
  }

  lemma FieldStep(num: Numerics, key: string, valueAndMore: seq<Token>, obj: map<string, Value>, s: Stream,
                  v: Value, s6: Stream)
    requires CommentFree(valueAndMore)
    requires At(s, [Token(Name, key), Token(ObjectSeparator, ":")] + valueAndMore)
    requires FieldHead(Peek(s).1).Ok? && ParseValue(num, FieldHead(Peek(s).1).value.1) == Ok((v, s6))
    ensures ParseObject(num, s, obj) == ObjectTail(num, s6, obj[key := v])
  {
    var all := [Token(Name, key), Token(ObjectSeparator, ":")] + valueAndMore;
    PeekAt(s, all);
    FieldHeadStep(key, valueAndMore, Peek(s).1);
  }

  lemma ObjectTailMore(num: Numerics, more: seq<Token>, obj: map<string, Value>, s: Stream)
    requires At(s, more) && Head(more).kind != ObjectEnd
    ensures ObjectTail(num, s, obj) == ParseObject(num, Peek(s).1, obj)
  {
    PeekAt(s, more);
  }

  lemma {:induction false} ValueRoundTrip(num: Numerics, l: Literal, rest: seq<Token>, s: Stream)
    requires WellFormed(l) && CommentFree(rest) && EndsNumber(rest)
    requires At(s, LiteralTokens(l) + rest)
    ensures Gives(ParseValue(num, s), LiteralValue(l), rest)
    decreases l, 1
  {
    match l
    case LStr(x) =>
      StringStep(num, x, rest, s);
    case LInt(i) =>
      IntStep(num, i, rest, s);
    case LList(items) =>
      ListValueRoundTrip(num, items, rest, s);
    case LObject(fs) =>
      ObjectValueRoundTrip(num, fs, rest, s);
  }

  lemma {:induction false} ListValueRoundTrip(num: Numerics, items: seq<Literal>, rest: seq<Token>, s: Stream)
    requires WellFormed(LList(items)) && CommentFree(rest)
    requires At(s, LiteralTokens(LList(items)) + rest)
    ensures Gives(ParseValue(num, s), List(ItemValues(items)), rest)
    decreases LList(items), 0
  {
    var t := Token(ListStart, "[");
    var inner := ItemTokens(items) + [Token(ListEnd, "]")] + rest;
    assert LiteralTokens(LList(items)) + rest == [t] + inner by {
      Assoc3([t], ItemTokens(items) + [Token(ListEnd, "]")], rest);
      Assoc3([t], ItemTokens(items), [Token(ListEnd, "]")]);
    }
    NextAt(s, [t] + inner);
    assert Head([t] + inner) == t && Tail([t] + inner) == inner;
    var s1 := Next(s).1;
    ValueOfList(num, s, t, s1);
    assert Gives(ParseList(num, s1, []), ItemValues(items), rest) by {
      CommentFreeAppend(ItemTokens(items), [Token(ListEnd, "]")]);
      CommentFreeAppend(ItemTokens(items) + [Token(ListEnd, "]")], rest);
      ListRoundTrip(num, items, [], rest, s1);
      assert [] + ItemValues(items) == ItemValues(items);
    }
  }

  lemma {:induction false} ObjectValueRoundTrip(num: Numerics, fs: seq<LField>, rest: seq<Token>, s: Stream)
    requires WellFormed(LObject(fs)) && CommentFree(rest)
    requires At(s, LiteralTokens(LObject(fs)) + rest)
    ensures Gives(ParseValue(num, s), Map(ApplyFields(map[], fs)), rest)
    decreases LObject(fs), 0
  {
    var t := Token(ObjectStart, "{");
    var inner := FieldTokens(fs) + [Token(ObjectEnd, "}")] + rest;
    assert LiteralTokens(LObject(fs)) + rest == [t] + inner by {
      Assoc3([t], FieldTokens(fs) + [Token(ObjectEnd, "}")], rest);
      Assoc3([t], FieldTokens(fs), [Token(ObjectEnd, "}")]);
    }
    NextAt(s, [t] + inner);
    assert Head([t] + inner) == t && Tail([t] + inner) == inner;
    var s1 := Next(s).1;
    ValueOfObject(num, s, t, s1);
    assert Gives(ParseObject(num, s1, map[]), ApplyFields(map[], fs), rest) by {
      CommentFreeAppend(FieldTokens(fs), [Token(ObjectEnd, "}")]);
      CommentFreeAppend(FieldTokens(fs) + [Token(ObjectEnd, "}")], rest);
      ObjectRoundTrip(num, fs, map[], rest, s1);
    }
  }

  lemma {:induction false} ListRoundTrip(num: Numerics, items: seq<Literal>, acc: seq<Value>, rest: seq<Token>, s: Stream)
    requires AllWellFormed(items) && CommentFree(rest)
    requires At(s, ItemTokens(items) + [Token(ListEnd, "]")] + rest)
    ensures Gives(ParseList(num, s, acc), acc + ItemValues(items), rest)
    decreases items, 2
  {
    var close := [Token(ListEnd, "]")];
    if items == [] {
      assert ItemTokens(items) + close + rest == close + rest by { assert ItemTokens(items) + close == close; }
      ListCloseStep(num, acc, rest, s);
      assert acc + ItemValues(items) == acc;
    } else {
      ListConsRoundTrip(num, items, acc, rest, s);
    }
  }

  lemma {:induction false} ListConsRoundTrip(num: Numerics, items: seq<Literal>, acc: seq<Value>, rest: seq<Token>, s: Stream)
    requires items != []
    requires AllWellFormed(items) && CommentFree(rest)
    requires At(s, ItemTokens(items) + [Token(ListEnd, "]")] + rest)
    ensures Gives(ParseList(num, s, acc), acc + ItemValues(items), rest)
    decreases items, 1
  {
    var s2 := ListFirstItem(num, items, acc, rest, s);
    var v := LiteralValue(items[0]);
    assert AllWellFormed(items[1..]) by {
      forall i | 0 <= i < |items[1..]| ensures WellFormed(items[1..][i]) {
        assert items[1..][i] == items[i + 1];
      }
    }
    ListTailRoundTrip(num, items[1..], acc + [v], rest, s2);
    assert acc + [v] + ItemValues(items[1..]) == acc + ItemValues(items) by {
      Assoc3(acc, [v], ItemValues(items[1..]));
    }
  }

  /** The first element of a non-empty list is parsed, leaving the stream at
      the tokens of the others; `s2` is the stream after it. */
  lemma {:induction false} ListFirstItem(num: Numerics, items: seq<Literal>, acc: seq<Value>, rest: seq<Token>, s: Stream)
    returns (s2: Stream)
    requires items != []
    requires AllWellFormed(items) && CommentFree(rest)
    requires At(s, ItemTokens(items) + [Token(ListEnd, "]")] + rest)
    ensures At(s2, ItemTokens(items[1..]) + [Token(ListEnd, "]")] + rest)
    ensures ParseList(num, s, acc) == ListTail(num, s2, acc + [LiteralValue(items[0])])
    decreases items, 0
  {
    var close := [Token(ListEnd, "]")];
    var all := ItemTokens(items) + close + rest;
    var first := LiteralTokens(items[0]);
    var more := ItemTokens(items[1..]) + close + rest;
    assert all == first + more by {
      Assoc3(first, ItemTokens(items[1..]), close);
      Assoc3(first, ItemTokens(items[1..]) + close, rest);
    }
    assert CommentFree(more) by {
      CommentFreeAppend(ItemTokens(items[1..]), close);
      CommentFreeAppend(ItemTokens(items[1..]) + close, rest);
    }
    assert EndsNumber(more) by {
      if items[1..] == [] { assert more[0] == Token(ListEnd, "]"); }
      else { assert more[0] == ItemTokens(items[1..])[0]; }
    }
    PeekAt(s, all);
    var pv := ParseValue(num, Peek(s).1);
    assert Gives(pv, LiteralValue(items[0]), more) by {
      ValueRoundTrip(num, items[0], more, Peek(s).1);
    }
    s2 := pv.value.1;
    assert Head(all) == first[0];
    ListItemStep(num, all, acc, s, pv.value.0, s2);
  }

  lemma {:induction false} ListTailRoundTrip(num: Numerics, items: seq<Literal>, acc: seq<Value>, rest: seq<Token>, s: Stream)
    requires AllWellFormed(items) && CommentFree(rest)
    requires At(s, ItemTokens(items) + [Token(ListEnd, "]")] + rest)
    ensures Gives(ListTail(num, s, acc), acc + ItemValues(items), rest)
    decreases items, 3
  {
    var close := [Token(ListEnd, "]")];
    var more := ItemTokens(items) + close + rest;
    if items == [] {
      assert more == close + rest by { assert ItemTokens(items) + close == close; }
      ListCloseStep(num, acc, rest, s);
      assert acc + ItemValues(items) == acc;
    } else {
      assert Head(more).kind != ListEnd by {
        assert more[0] == ItemTokens(items)[0];
      }
      ListTailMore(num, more, acc, s);
      PeekAt(s, more);
      ListRoundTrip(num, items, acc, rest, Peek(s).1);
    }
  }

  lemma {:induction false} ObjectRoundTrip(num: Numerics, fs: seq<LField>, obj: map<string, Value>, rest: seq<Token>, s: Stream)
    requires FieldsWellFormed(fs) && CommentFree(rest)
    requires At(s, FieldTokens(fs) + [Token(ObjectEnd, "}")] + rest)
    ensures Gives(ParseObject(num, s, obj), ApplyFields(obj, fs), rest)
    decreases fs, 1
  {
    var close := [Token(ObjectEnd, "}")];
    var all := FieldTokens(fs) + close + rest;
    if fs == [] {
      assert all == close + rest by { assert FieldTokens(fs) + close == close; }
      ObjectCloseStep(num, obj, rest, s);
    } else {
      ObjectConsRoundTrip(num, fs, obj, rest, s);
    }
  }

  lemma {:induction false} ObjectConsRoundTrip(num: Numerics, fs: seq<LField>, obj: map<string, Value>, rest: seq<Token>, s: Stream)
    requires fs != [] && FieldsWellFormed(fs) && CommentFree(rest)
    requires At(s, FieldTokens(fs) + [Token(ObjectEnd, "}")] + rest)
    ensures Gives(ParseObject(num, s, obj), ApplyFields(obj, fs), rest)
    decreases fs, 0
  {
    var more := FieldTokens(fs[1..]) + [Token(ObjectEnd, "}")] + rest;
    var valueAndMore := LiteralTokens(fs[0].value) + more;
    ObjectConsTokens(fs, rest);
    ObjectConsRest(fs, rest);
    var all := [Token(Name, fs[0].key), Token(ObjectSeparator, ":")] + valueAndMore;
    PeekAt(s, all);
    FieldHeadStep(fs[0].key, valueAndMore, Peek(s).1);
    var s5 := FieldHead(Peek(s).1).value.1;
    var pv := ParseValue(num, s5);
    ValueRoundTrip(num, fs[0].value, more, s5);
    var v := pv.value.0;
    var s6 := pv.value.1;
    FieldStep(num, fs[0].key, valueAndMore, obj, s, v, s6);
    ObjectTailRoundTrip(num, fs[1..], obj[fs[0].key := v], rest, s6);
  }

  /** How the tokens of a non-empty field list and what follows them divide
      into the first field's name and separator, its value, and the rest. */
  lemma ObjectConsTokens(fs: seq<LField>, rest: seq<Token>)
    requires fs != [] && CommentFree(rest)
    ensures FieldTokens(fs) + [Token(ObjectEnd, "}")] + rest ==
      [Token(Name, fs[0].key), Token(ObjectSeparator, ":")] +
      (LiteralTokens(fs[0].value) + (FieldTokens(fs[1..]) + [Token(ObjectEnd, "}")] + rest))
    ensures CommentFree(FieldTokens(fs[1..]) + [Token(ObjectEnd, "}")] + rest)
  {
    var close := [Token(ObjectEnd, "}")];
    var head := [Token(Name, fs[0].key), Token(ObjectSeparator, ":")];
    var value := LiteralTokens(fs[0].value);
    var tail := FieldTokens(fs[1..]);
    var more := tail + close + rest;
    assert FieldTokens(fs) == head + value + tail;
    Assoc3(head + value, tail, close);
    Assoc3(head + value, tail + close, rest);
    Assoc3(head, value, more);
    CommentFreeAppend(tail, close);
    CommentFreeAppend(tail + close, rest);
  }

  /** What follows the first field's value is clean, and the remaining
      fields are well formed. */
  lemma ObjectConsRest(fs: seq<LField>, rest: seq<Token>)
    requires fs != [] && FieldsWellFormed(fs) && CommentFree(FieldTokens(fs[1..]) + [Token(ObjectEnd, "}")] + rest)
    ensures CommentFree(LiteralTokens(fs[0].value) + (FieldTokens(fs[1..]) + [Token(ObjectEnd, "}")] + rest))
    ensures EndsNumber(FieldTokens(fs[1..]) + [Token(ObjectEnd, "}")] + rest)
    ensures FieldsWellFormed(fs[1..]) && WellFormed(fs[0].value)
  {
    var close := [Token(ObjectEnd, "}")];
    var tail := FieldTokens(fs[1..]);
    var more := tail + close + rest;
    CommentFreeAppend(LiteralTokens(fs[0].value), more);
    assert more[0] == (tail + close)[0];
    forall i | 0 <= i < |fs[1..]| ensures WellFormed(fs[1..][i].value) {
      assert fs[1..][i] == fs[i + 1];
    }
  }

  lemma {:induction false} ObjectTailRoundTrip(num: Numerics, fs: seq<LField>, obj: map<string, Value>, rest: seq<Token>, s: Stream)
    requires FieldsWellFormed(fs) && CommentFree(rest)
    requires At(s, FieldTokens(fs) + [Token(ObjectEnd, "}")] + rest)
    ensures Gives(ObjectTail(num, s, obj), ApplyFields(obj, fs), rest)
    decreases fs, 2
  {
    var close := [Token(ObjectEnd, "}")];
    var more := FieldTokens(fs) + close + rest;
    if fs == [] {
      assert more == close + rest by { assert FieldTokens(fs) + close == close; }
      ObjectCloseStep(num, obj, rest, s);
    } else {
      assert Head(more).kind != ObjectEnd by {
        assert more[0] == FieldTokens(fs)[0];
      }
      ObjectTailMore(num, more, obj, s);
      PeekAt(s, more);
      ObjectRoundTrip(num, fs, obj, rest, Peek(s).1);
    }
  }

  // ---------------------------------------------------------------------
  // Number tokens at value position

  /** parse.go's number and node.go's numberNode.parse followed by eval
      agree on every stream. */
  lemma NumberAgreesWithNode(num: Numerics, s: Stream)
    ensures Number(num, s) ==
      match ParseNumberNode(num, s)
      case Ok((n, s1)) => Ok((EvalNumber(n), s1))
      case Err(e) => Err(NumberFailed(e))
  {
  }

  /** An imaginary-number token with no real part before it is put back,
      handed to number, and rejected there. */
  lemma ImaginaryAloneRejected(num: Numerics, s: Stream)
    requires Next(s).0.kind == ImaginaryNumber
    ensures ParseValue(num, s) == Err(NumberFailed(NotReal(ImaginaryNumber)))
  {
    UnreadThenNext(Next(s).1, Next(s).0);
  }

  /** A real-number token directly followed by an imaginary-number token is
      one complex value, scanned from the two texts joined. */
  lemma ComplexMerged(num: Numerics, re: string, im: string, rest: seq<Token>, s: Stream)
    requires At(s, [Token(RealNumber, re), Token(ImaginaryNumber, im)] + rest)
    ensures num.scanComplex(re + im).Some? ==> Gives(ParseValue(num, s), Cplx(num.scanComplex(re + im).value), rest)
    ensures num.scanComplex(re + im).None? ==> ParseValue(num, s) == Err(NumberFailed(BadComplex(re + im)))
  {
    var t := Token(RealNumber, re);
    var after := [Token(ImaginaryNumber, im)] + rest;
    assert [t, Token(ImaginaryNumber, im)] + rest == [t] + after;
    assert Head([t] + after) == t && Tail([t] + after) == after;
    NextAt(s, [t] + after);
    var s1 := Next(s).1;
    ValueOfNumber(num, s, t, s1);
    ComplexTail(num, re, im, rest, s1);
  }

  lemma ComplexTail(num: Numerics, re: string, im: string, rest: seq<Token>, s1: Stream)
    requires At(s1, [Token(ImaginaryNumber, im)] + rest)
    ensures num.scanComplex(re + im).Some? ==>
      Gives(Number(num, Unread(s1, Token(RealNumber, re))), Cplx(num.scanComplex(re + im).value), rest)
    ensures num.scanComplex(re + im).None? ==>
      Number(num, Unread(s1, Token(RealNumber, re))) == Err(NumberFailed(BadComplex(re + im)))
  {
    var after := [Token(ImaginaryNumber, im)] + rest;
    assert Head(after) == Token(ImaginaryNumber, im) && Tail(after) == rest;
    UnreadThenNext(s1, Token(RealNumber, re));
    PeekAt(s1, after);
    NextAt(Peek(s1).1, after);
  }

  /** A lone real-number token is an int when ParseInt accepts it in the
      base its prefix selects, whatever ParseFloat would say; otherwise a
      float; otherwise an error naming the token. */
  lemma IntBeforeFloat(num: Numerics, text: string, rest: seq<Token>, s: Stream)
    requires EndsNumber(rest)
    requires At(s, [Token(RealNumber, text)] + rest)
    ensures ParseInt(text, 0).Some? ==> Gives(ParseValue(num, s), Int(ParseInt(text, 0).value), rest)
    ensures ParseInt(text, 0).None? && num.parseFloat(text).Some? ==>
      Gives(ParseValue(num, s), Float(num.parseFloat(text).value), rest)
    ensures ParseInt(text, 0).None? && num.parseFloat(text).None? ==>
      ParseValue(num, s) == Err(NumberFailed(Broken(Token(RealNumber, text))))
  {
    var t := Token(RealNumber, text);
    NextAt(s, [t] + rest);
    assert Head([t] + rest) == t && Tail([t] + rest) == rest;
    var s1 := Next(s).1;
    ValueOfNumber(num, s, t, s1);
    UnreadThenNext(s1, t);
    PeekAt(s1, rest);
  }

  // ---------------------------------------------------------------------
  // Objects

  /** A field name that appears twice keeps only the later value. */
  lemma ApplyRepeated(key: string, first: Literal, second: Literal)
    ensures ApplyFields(map[], [LField(key, first), LField(key, second)]) == map[key := LiteralValue(second)]
  {
    var fs := [LField(key, first), LField(key, second)];
    var m1 := map[key := LiteralValue(first)];
    assert ApplyFields(map[], fs) == ApplyFields(m1, fs[1..]);
    assert fs[1..] == [LField(key, second)];
    assert ApplyFields(m1, fs[1..]) == ApplyFields(m1[key := LiteralValue(second)], []);
  }

  /** A field name that appears twice keeps only the later value. */
  lemma RepeatedFieldOverwrites(num: Numerics, key: string, first: Literal, second: Literal, rest: seq<Token>, s: Stream)
    requires WellFormed(first) && WellFormed(second) && CommentFree(rest)
    requires At(s, LiteralTokens(LObject([LField(key, first), LField(key, second)])) + rest)
    ensures Gives(ParseValue(num, s), Map(map[key := LiteralValue(second)]), rest)
  {
    var fs := [LField(key, first), LField(key, second)];
    assert WellFormed(LObject(fs)) by {
      assert fs[0].value == first && fs[1].value == second;
    }
    ObjectValueRoundTrip(num, fs, rest, s);
    ApplyRepeated(key, first, second);
  }

  // ---------------------------------------------------------------------
  // Documents

  /** The children a document of `name: literal` lines parses to. */
  function Assignments(bs: seq<LField>): (cs: seq<Child>)
    ensures |cs| == |bs|
  {
    if bs == [] then [] else [Assignment(bs[0].key, LiteralValue(bs[0].value))] + Assignments(bs[1..])
  }

  /** A name at top level starts an assignment. */
  lemma RootAssignName(num: Numerics, key: string, afterName: seq<Token>, acc: seq<Child>, s: Stream)
    requires At(s, [Token(Name, key)] + afterName)
    ensures At(Next(s).1, afterName)
    ensures ParseRoot(num, s, acc) == RootAssignment(num, key, Next(s).1, acc)
  {
    var all := [Token(Name, key)] + afterName;
    assert Head(all) == Token(Name, key) && Tail(all) == afterName;
    NextAt(s, all);
  }

  /** An assignment parsed, the root goes on after it. */
  lemma RootAssignValue(num: Numerics, key: string, s: Stream, acc: seq<Child>, v: Value, s2: Stream)
    requires ParseAssignment(num, s) == Ok((v, s2))
    ensures RootAssignment(num, key, s, acc) == ParseRoot(num, s2, acc + [Assignment(key, v)])
  {
  }

  /** The object separator after the name is read, and the value follows. */
  lemma AssignSeparator(num: Numerics, valueAndMore: seq<Token>, s: Stream)
    requires At(s, [Token(ObjectSeparator, ":")] + valueAndMore)
    ensures At(Next(s).1, valueAndMore)
    ensures ParseAssignment(num, s) == ParseValue(num, Next(s).1)
  {
    var all := [Token(ObjectSeparator, ":")] + valueAndMore;
    assert Head(all) == Token(ObjectSeparator, ":") && Tail(all) == valueAndMore;
    NextAt(s, all);
  }

  /** A document of `name: literal` lines parses to its assignments in
      source order, each holding the literal's value. */
  lemma {:induction false} RootRoundTrip(num: Numerics, bs: seq<LField>, acc: seq<Child>, s: Stream)
    requires FieldsWellFormed(bs)
    requires At(s, FieldTokens(bs))
    ensures ParseRoot(num, s, acc) == Ok(acc + Assignments(bs))
    decreases bs, 1
  {
    if bs == [] {
      RootEnd(num, acc, s);
      assert acc + Assignments(bs) == acc;
    } else {
      RootConsRoundTrip(num, bs, acc, s);
    }
  }

  lemma RootEnd(num: Numerics, acc: seq<Child>, s: Stream)
    requires At(s, [])
    ensures ParseRoot(num, s, acc) == Ok(acc)
  {
    NextAt(s, []);
  }

  lemma {:induction false} RootConsRoundTrip(num: Numerics, bs: seq<LField>, acc: seq<Child>, s: Stream)
    requires bs != [] && FieldsWellFormed(bs)
    requires At(s, FieldTokens(bs))
    ensures ParseRoot(num, s, acc) == Ok(acc + Assignments(bs))
    decreases bs, 0
  {
    var s2 := RootFirstAssignment(num, bs, acc, s);
    var child := Assignment(bs[0].key, LiteralValue(bs[0].value));
    assert FieldsWellFormed(bs[1..]) by {
      forall i | 0 <= i < |bs[1..]| ensures WellFormed(bs[1..][i].value) {
        assert bs[1..][i] == bs[i + 1];
      }
    }
    RootRoundTrip(num, bs[1..], acc + [child], s2);
    assert acc + [child] + Assignments(bs[1..]) == acc + Assignments(bs) by {
      Assoc3(acc, [child], Assignments(bs[1..]));
    }
  }

  /** The tokens of a document's first line: its name and the object
      separator, then the value, with the other lines after it. */
  lemma FirstLineTokens(bs: seq<LField>)
    requires bs != []
    ensures FieldTokens(bs) == [Token(Name, bs[0].key), Token(ObjectSeparator, ":")]
      + (LiteralTokens(bs[0].value) + FieldTokens(bs[1..]))
    ensures CommentFree(LiteralTokens(bs[0].value) + FieldTokens(bs[1..]))
    ensures EndsNumber(FieldTokens(bs[1..]))
  {
    var head := [Token(Name, bs[0].key), Token(ObjectSeparator, ":")];
    var value := LiteralTokens(bs[0].value);
    var more := FieldTokens(bs[1..]);
    assert FieldTokens(bs) == head + value + more;
    Assoc3(head, value, more);
    CommentFreeAppend(value, more);
    if bs[1..] != [] {
      assert more[0] == Token(Name, bs[1].key);
    }
  }

  lemma Pair<T>(a: T, b: T, x: seq<T>)
    ensures [a, b] + x == [a] + ([b] + x)
  {
  }

  /** After the name, an assignment reads the separator and the literal's
      value, and stops before the next line. */
  lemma AssignmentRoundTrip(num: Numerics, l: Literal, more: seq<Token>, s: Stream)
    requires WellFormed(l) && CommentFree(more) && EndsNumber(more)
    requires At(s, [Token(ObjectSeparator, ":")] + (LiteralTokens(l) + more))
    ensures Gives(ParseAssignment(num, s), LiteralValue(l), more)
  {
    AssignSeparator(num, LiteralTokens(l) + more, s);
    ValueRoundTrip(num, l, more, Next(s).1);
  }

  /** The first line of a document is parsed into its assignment, leaving
      the stream at the other lines. */
  lemma RootFirstAssignment(num: Numerics, bs: seq<LField>, acc: seq<Child>, s: Stream) returns (s2: Stream)
    requires bs != [] && FieldsWellFormed(bs)
    requires At(s, FieldTokens(bs))
    ensures At(s2, FieldTokens(bs[1..]))
    ensures ParseRoot(num, s, acc) == ParseRoot(num, s2, acc + [Assignment(bs[0].key, LiteralValue(bs[0].value))])
  {
    FirstLineTokens(bs);
    var more := FieldTokens(bs[1..]);
    var afterName := [Token(ObjectSeparator, ":")] + (LiteralTokens(bs[0].value) + more);
    Pair(Token(Name, bs[0].key), Token(ObjectSeparator, ":"), LiteralTokens(bs[0].value) + more);
    RootAssignName(num, bs[0].key, afterName, acc, s);
    var sa := Next(s).1;
    assert WellFormed(bs[0].value);
    AssignmentRoundTrip(num, bs[0].value, more, sa);
    var pa := ParseAssignment(num, sa);
    s2 := pa.value.1;
    RootAssignValue(num, bs[0].key, sa, acc, pa.value.0, s2);
  }

  lemma DocumentRoundTrip(num: Numerics, bs: seq<LField>)
    requires FieldsWellFormed(bs)
    ensures Parse(num, FieldTokens(bs)) == Ok(Assignments(bs))
  {
    StartAt(FieldTokens(bs));
    RootRoundTrip(num, bs, [], Start(FieldTokens(bs)));
    assert [] + Assignments(bs) == Assignments(bs);
  }

  predicate NoComments(cs: seq<Child>)
  {
    forall i :: 0 <= i < |cs| ==> cs[i].Assignment?
  }

  lemma {:induction false} RootHasNoComments(num: Numerics, s: Stream, acc: seq<Child>)
    requires NoCommentPushed(s.backup) && NoComments(acc)
    ensures ParseRoot(num, s, acc).Ok? ==> NoComments(ParseRoot(num, s, acc).value)
    decreases Size(s)
  {
    var (t, s1) := Next(s);
    if t.kind == Name {
      var pa := ParseAssignment(num, s1);
      if pa.Ok? {
        var acc' := acc + [Assignment(t.text, pa.value.0)];
        assert NoComments(acc') by {
          forall i | 0 <= i < |acc'| ensures acc'[i].Assignment? {
            if i < |acc| { assert acc'[i] == acc[i]; }
          }
        }
        RootHasNoComments(num, pa.value.1, acc');
      }
    }
  }

  /** Comments never become children: the reads of the parser skip them, so
      the comment case of rootNode.parse is never reached. */
  lemma ParseHasNoComments(num: Numerics, tokens: seq<Token>)
    ensures Parse(num, tokens).Ok? ==> NoComments(Parse(num, tokens).value)
  {
    RootHasNoComments(num, Start(tokens), []);
  }
}
