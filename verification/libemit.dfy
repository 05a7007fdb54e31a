/**
 * The encoder of the lib/ revision (lib/emit.go): the same writers as the
 * root package for the kinds it dispatches, and no Marshaler override.
 * Only bool, the signed int kinds, float32/64, string, struct and slice are
 * dispatched; every other kind is an "unhandled type" error.  Float
 * formatting (strconv.AppendFloat with 'f' and one decimal) is a parameter.
 */
module LibEmit {
  import opened Wrappers
  import opened Values
  import opened Numbers
  import opened GoValues
  import opened Quoting
  import opened Encoding
  import Emit

  /** The kinds lib/emit.go's typeEncoder has a case for. */
  predicate Dispatched(k: Kind)
  {
    k == KBool || k.KInt? || k.KFloat? || k == KString || k == KStruct || k == KSlice
  }

  /** Encode: an invalid value is `null`; otherwise the value's kind picks
      the writer.  `ff` is strconv.AppendFloat with format 'f' and precision
      1.  A type implementing Marshaler is written by its kind like any
      other. */
  function Encode(ff: FloatFormat, v: GoValue): (r: Outcome)
    ensures v.Invalid? ==> r == Written("null")
    ensures !v.Invalid? && !Dispatched(KindOf(v)) ==> r == Failed(Unhandled(KindOf(v)))
    ensures v.GBool? ==> r == Written(if v.b then "true" else "false")
    ensures v.GInt? ==> r == Written(FormatInt(v.i))
    ensures v.GFloat? && NonFinite(v.bits) ==> r == Panicked(BadFloat)
    ensures v.GString? ==> r == Written(Quote(v.s))
    decreases v
  {
    match v
    case Invalid => Written("null")
    case GMarshaler(plain, _) =>
      if plain.Invalid? then Failed(Unhandled(KPtr)) else Encode(ff, plain)
    case GBool(b) => Written(if b then "true" else "false")
    case GInt(_, i) => Written(FormatInt(i))
    case GFloat(fk, bits) => if NonFinite(bits) then Panicked(BadFloat) else Written(ff(fk, bits))
    case GString(s) => Written(Quote(s))
    case GStruct(_, fields) => Enclose("{", EncodePairs(ff, fields), "}")
    case GSlice(items) => Enclose("[", EncodeItems(ff, items), "]")
    case GInterface(_) => Failed(Unhandled(KInterface))
    case GPtr(_) => Failed(Unhandled(KPtr))
    case GMap(_, _) => Failed(Unhandled(KMap))
    case GOther(_, k) => Failed(Unhandled(KOther(k)))
  }

  /** encodeSlice's loop: the elements with one space between them. */
  function EncodeItems(ff: FloatFormat, items: seq<GoValue>): Outcome
    decreases items
  {
    if items == [] then Written("")
    else if |items| == 1 then Encode(ff, items[0])
    else Cat(Cat(Encode(ff, items[0]), Written(" ")), EncodeItems(ff, items[1..]))
  }

  /** encodeStruct's loop: `Name: value` with one space between fields. */
  function EncodePairs(ff: FloatFormat, ps: seq<Pair>): Outcome
    decreases ps
  {
    if ps == [] then Written("")
    else if |ps| == 1 then Cat(Written(ps[0].name + ": "), Encode(ff, ps[0].value))
    else Cat(Cat(Cat(Written(ps[0].name + ": "), Encode(ff, ps[0].value)), Written(" ")), EncodePairs(ff, ps[1..]))
  }

  predicate AllWritten(ff: FloatFormat, items: seq<GoValue>)
  {
    forall i :: 0 <= i < |items| ==> Encode(ff, items[i]).Written?
  }

  function Texts(ff: FloatFormat, items: seq<GoValue>): (ts: seq<string>)
    requires AllWritten(ff, items)
    ensures |ts| == |items|
    ensures forall i :: 0 <= i < |items| ==> ts[i] == Encode(ff, items[i]).text
  {
    if items == [] then [] else [Encode(ff, items[0]).text] + Texts(ff, items[1..])
  }

  /** A slice is written exactly when every element is, as their texts
      joined by single spaces. */
  lemma {:induction false} EncodeItemsJoins(ff: FloatFormat, items: seq<GoValue>)
    ensures EncodeItems(ff, items).Written? <==> AllWritten(ff, items)
    ensures AllWritten(ff, items) ==> EncodeItems(ff, items).text == JoinSpaced(Texts(ff, items))
    decreases items
  {
    if items != [] {
      var tail := items[1..];
      EncodeItemsJoins(ff, tail);
      assert forall i :: 0 <= i < |tail| ==> tail[i] == items[i + 1];
      if AllWritten(ff, items) && |items| > 1 {
        assert Texts(ff, items)[1..] == Texts(ff, tail);
      }
    }
  }

  function PairTexts(ff: FloatFormat, ps: seq<Pair>): (ts: seq<string>)
    requires PairsWritten(ff, ps)
    ensures |ts| == |ps|
    ensures forall i :: 0 <= i < |ps| ==> ts[i] == ps[i].name + ": " + Encode(ff, ps[i].value).text
  {
    if ps == [] then [] else [ps[0].name + ": " + Encode(ff, ps[0].value).text] + PairTexts(ff, ps[1..])
  }

  predicate PairsWritten(ff: FloatFormat, ps: seq<Pair>)
  {
    forall i :: 0 <= i < |ps| ==> Encode(ff, ps[i].value).Written?
  }

  /** A struct's fields are written exactly when every field is, as
      `name: value` texts joined by single spaces. */
  lemma {:induction false} EncodePairsJoins(ff: FloatFormat, ps: seq<Pair>)
    ensures EncodePairs(ff, ps).Written? <==> PairsWritten(ff, ps)
    ensures PairsWritten(ff, ps) ==> EncodePairs(ff, ps).text == JoinSpaced(PairTexts(ff, ps))
    decreases ps
  {
    if ps != [] {
      var tail := ps[1..];
      EncodePairsJoins(ff, tail);
      assert forall i :: 0 <= i < |tail| ==> tail[i] == ps[i + 1];
      if PairsWritten(ff, ps) && |ps| > 1 {
        assert PairTexts(ff, ps)[1..] == PairTexts(ff, tail);
      }
    }
  }

  /** A slice is written exactly when every element is: `[`, the elements'
      texts joined by single spaces, then `]`. */
  lemma EncodeSliceText(ff: FloatFormat, items: seq<GoValue>)
    ensures Encode(ff, GSlice(items)).Written? <==> AllWritten(ff, items)
    ensures AllWritten(ff, items) ==> Encode(ff, GSlice(items)) == Written("[" + JoinSpaced(Texts(ff, items)) + "]")
  {
    EncodeItemsJoins(ff, items);
  }

  /** A struct is written exactly when every field is: `{`, one
      `name: value` per field in declaration order joined by single spaces,
      then `}`. */
  lemma EncodeStructText(ff: FloatFormat, typeName: string, fields: seq<Pair>)
    ensures Encode(ff, GStruct(typeName, fields)).Written? <==> PairsWritten(ff, fields)
    ensures PairsWritten(ff, fields) ==>
      Encode(ff, GStruct(typeName, fields)) == Written("{" + JoinSpaced(PairTexts(ff, fields)) + "}")
  {
    EncodePairsJoins(ff, fields);
  }

  /** Whatever the map order, a resolved list with at least one element
      cannot be encoded: its elements have kind interface, which has no
      case. */
  lemma ListOfValuesUnhandled(ff: FloatFormat, order: MapOrder, items: seq<Value>)
    requires items != []
    ensures Encode(ff, FromValue(order, List(items))) == Failed(Unhandled(KInterface))
  {
    var gs := ItemsFromValues(order, items);
    assert gs[0] == AsInterface(order, items[0]);
    if |gs| > 1 {
      assert EncodeItems(ff, gs) == Cat(Cat(Encode(ff, gs[0]), Written(" ")), EncodeItems(ff, gs[1..]));
    }
  }

  /** Likewise a resolved map, of any size. */
  lemma MapOfValuesUnhandled(ff: FloatFormat, order: MapOrder, m: map<string, Value>)
    ensures Encode(ff, FromValue(order, Map(m))) == Failed(Unhandled(KMap))
  {
  }

  /** The two encoders agree on every value built only from the kinds lib
      dispatches, when they format floats alike. */
  lemma {:induction false} AgreesWithRoot(ff: FloatFormat, v: GoValue)
    requires Plain(v)
    ensures Encode(ff, v) == Emit.Encode(ff, v)
    decreases v, 1
  {
    match v
    case GStruct(_, fields) => PairsAgree(ff, fields);
    case GSlice(items) => ItemsAgree(ff, items);
    case _ =>
  }

  lemma {:induction false} ItemsAgree(ff: FloatFormat, items: seq<GoValue>)
    requires forall i :: 0 <= i < |items| ==> Plain(items[i])
    ensures EncodeItems(ff, items) == Emit.EncodeItems(ff, items)
    decreases items, 0
  {
    if items != [] {
      AgreesWithRoot(ff, items[0]);
      ItemsAgree(ff, items[1..]);
    }
  }

  lemma {:induction false} PairsAgree(ff: FloatFormat, ps: seq<Pair>)
    requires forall i :: 0 <= i < |ps| ==> Plain(ps[i].value)
    ensures EncodePairs(ff, ps) == Emit.EncodePairs(ff, ps)
    decreases ps, 0
  {
    if ps != [] {
      AgreesWithRoot(ff, ps[0].value);
      PairsAgree(ff, ps[1..]);
    }
  }

  /** Values built from nil, bool, ints, floats, strings, structs and
      slices only. */
  predicate Plain(v: GoValue)
    decreases v
  {
    match v
    case Invalid => true
    case GBool(_) => true
    case GInt(_, _) => true
    case GFloat(_, _) => true
    case GString(_) => true
    case GStruct(_, fields) => forall i :: 0 <= i < |fields| ==> Plain(fields[i].value)
    case GSlice(items) => forall i :: 0 <= i < |items| ==> Plain(items[i])
    case _ => false
  }
}
