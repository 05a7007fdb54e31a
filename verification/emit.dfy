/**
 * The encoder of the root package (emit.go): reflect's kind decides how a
 * value is written, after a Marshaler implementation, which overrides it.
 * Float formatting (strconv.AppendFloat with 'g' and the shortest
 * precision) is a parameter.
 */
module Emit {
  import opened Wrappers
  import opened Numbers
  import opened GoValues
  import opened Quoting
  import opened Encoding

  /** Encode: valueEncoder, then the encode function it picks.  `ff` is
      strconv.AppendFloat with format 'g' and precision -1. */
  function Encode(ff: FloatFormat, v: GoValue): (r: Outcome)
    ensures v.Invalid? || v == GPtr(None) || v == GInterface(None) ==> r == Written("null")
    ensures v.GMarshaler? && v.plain == GPtr(None) ==> r == Written("null")
    ensures v.GMarshaler? && v.plain != GPtr(None) ==>
      r == (match v.marshal case Ok(b) => Written(b) case Err(e) => Failed(MarshalFailed(e)))
    ensures v.GBool? ==> r == Written(if v.b then "true" else "false")
    ensures v.GInt? ==> r == Written(FormatInt(v.i))
    ensures v.GFloat? && NonFinite(v.bits) ==> r == Panicked(BadFloat)
    ensures v.GString? ==> r == Written(Quote(v.s))
    ensures v.GMap? && v.keyKind != KString ==> r == Failed(UnsupportedKey(v.keyKind))
    ensures v.GOther? ==> r == Failed(Unhandled(KOther(v.kind)))
    ensures v.GInterface? && v.elem.Some? ==> r == Encode(ff, v.elem.value)
    ensures v.GPtr? && v.target.Some? ==> r == Encode(ff, v.target.value)
    decreases v
  {
    match v
    case Invalid => Written("null")
    case GMarshaler(plain, marshal) =>
      if plain == GPtr(None) then Written("null")
      else (match marshal
            case Ok(b) => Written(b)
            case Err(e) => Failed(MarshalFailed(e)))
    case GBool(b) => Written(if b then "true" else "false")
    case GInt(_, i) => Written(FormatInt(i))
    case GFloat(fk, bits) => if NonFinite(bits) then Panicked(BadFloat) else Written(ff(fk, bits))
    case GString(s) => Written(Quote(s))
    case GStruct(_, fields) => Enclose("{", EncodePairs(ff, fields), "}")
    case GSlice(items) => Enclose("[", EncodeItems(ff, items), "]")
    case GInterface(elem) => if elem.None? then Written("null") else Encode(ff, elem.value)
    case GPtr(target) => if target.None? then Written("null") else Encode(ff, target.value)
    case GMap(kk, entries) =>
      if kk != KString then Failed(UnsupportedKey(kk))
      else Enclose("{", EncodePairs(ff, entries), "}")
    case GOther(_, k) => Failed(Unhandled(KOther(k)))
  }

  /** encodeSlice's loop: the elements with one space between them. */
  function EncodeItems(ff: FloatFormat, items: seq<GoValue>): Outcome
    decreases items
  {
    if items == [] then Written("")
    else if |items| == 1 then Encode(ff, items[0])
    else Cat(Cat(Encode(ff, items[0]), Written(" ")), EncodeItems(ff, items[1..]))
  }

  /** encodeStruct's and encodeMap's loop: `name: value` with one space
      between fields. */
  function EncodePairs(ff: FloatFormat, ps: seq<Pair>): Outcome
    decreases ps
  {
    if ps == [] then Written("")
    else if |ps| == 1 then Cat(Written(ps[0].name + ": "), Encode(ff, ps[0].value))
    else Cat(Cat(Cat(Written(ps[0].name + ": "), Encode(ff, ps[0].value)), Written(" ")), EncodePairs(ff, ps[1..]))
  }

  // ---------------------------------------------------------------------
  // Lists and fields against a reference: the texts joined by spaces

  predicate AllWritten(ff: FloatFormat, items: seq<GoValue>)
  {
    forall i :: 0 <= i < |items| ==> Encode(ff, items[i]).Written?
  }

  function Texts(ff: FloatFormat, items: seq<GoValue>): (ts: seq<string>)
    requires AllWritten(ff, items)
    ensures |ts| == |items|
    ensures forall i :: 0 <= i < |items| ==> ts[i] == Encode(ff, items[i]).text
  {
    if items == [] then [] else [Encode(ff, items[0]).text] + Texts(ff, items[1..])
  }

  /** A slice is written exactly when every element is, as their texts
      joined by single spaces; otherwise the outcome is that of the first
      element that was not written. */
  lemma {:induction false} EncodeItemsJoins(ff: FloatFormat, items: seq<GoValue>)
    ensures EncodeItems(ff, items).Written? <==> AllWritten(ff, items)
    ensures AllWritten(ff, items) ==> EncodeItems(ff, items).text == JoinSpaced(Texts(ff, items))
    ensures !AllWritten(ff, items) ==>
      (exists i :: 0 <= i < |items| && AllWritten(ff, items[..i]) && EncodeItems(ff, items) == Encode(ff, items[i]))
    decreases items
  {
    if items != [] {
      var tail := items[1..];
      EncodeItemsJoins(ff, tail);
      assert forall i :: 0 <= i < |tail| ==> tail[i] == items[i + 1];
      if AllWritten(ff, items) {
        assert AllWritten(ff, tail);
        if |items| > 1 {
          assert Texts(ff, items)[1..] == Texts(ff, tail);
        }
      } else if Encode(ff, items[0]).Written? {
        assert !AllWritten(ff, tail);
        var j :| 0 <= j < |tail| && AllWritten(ff, tail[..j]) && EncodeItems(ff, tail) == Encode(ff, tail[j]);
        var pre := items[..j + 1];
        assert AllWritten(ff, pre) by {
          forall i | 0 <= i < |pre| ensures Encode(ff, pre[i]).Written? {
            if i > 0 { assert pre[i] == tail[..j][i - 1]; }
          }
        }
        assert items[j + 1] == tail[j];
      } else {
        assert AllWritten(ff, items[..0]);
      }
    }
  }

  /** Struct and map text: `name: value` for each pair, joined by single
      spaces, in the order given. */
  function PairTexts(ff: FloatFormat, ps: seq<Pair>): (ts: seq<string>)
    requires forall i :: 0 <= i < |ps| ==> Encode(ff, ps[i].value).Written?
    ensures |ts| == |ps|
    ensures forall i :: 0 <= i < |ps| ==> ts[i] == ps[i].name + ": " + Encode(ff, ps[i].value).text
  {
    if ps == [] then [] else [ps[0].name + ": " + Encode(ff, ps[0].value).text] + PairTexts(ff, ps[1..])
  }

  lemma {:induction false} EncodePairsJoins(ff: FloatFormat, ps: seq<Pair>)
    ensures EncodePairs(ff, ps).Written? <==> forall i :: 0 <= i < |ps| ==> Encode(ff, ps[i].value).Written?
    ensures (forall i :: 0 <= i < |ps| ==> Encode(ff, ps[i].value).Written?) ==>
      EncodePairs(ff, ps).text == JoinSpaced(PairTexts(ff, ps))
    decreases ps
  {
    if ps != [] {
      var tail := ps[1..];
      EncodePairsJoins(ff, tail);
      assert forall i :: 0 <= i < |tail| ==> tail[i] == ps[i + 1];
      if forall i :: 0 <= i < |ps| ==> Encode(ff, ps[i].value).Written? {
        if |ps| > 1 {
          assert PairTexts(ff, ps)[1..] == PairTexts(ff, tail);
        }
      }
    }
  }

  predicate PairsWritten(ff: FloatFormat, ps: seq<Pair>)
  {
    forall i :: 0 <= i < |ps| ==> Encode(ff, ps[i].value).Written?
  }

  /** A slice is written exactly when every element is: `[`, the elements'
      texts joined by single spaces, then `]`.  Otherwise its outcome is
      that of the first element that was not written. */
  lemma EncodeSliceText(ff: FloatFormat, items: seq<GoValue>)
    ensures Encode(ff, GSlice(items)).Written? <==> AllWritten(ff, items)
    ensures AllWritten(ff, items) ==> Encode(ff, GSlice(items)) == Written("[" + JoinSpaced(Texts(ff, items)) + "]")
    ensures !AllWritten(ff, items) ==>
      exists i :: 0 <= i < |items| && AllWritten(ff, items[..i]) && Encode(ff, GSlice(items)) == Encode(ff, items[i])
  {
    EncodeItemsJoins(ff, items);
  }

  /** A struct is written exactly when every field is: `{`, one
      `name: value` per field in declaration order joined by single spaces,
      then `}`. */
  lemma EncodeStructText(ff: FloatFormat, typeName: string, fields: seq<Pair>)
    ensures Encode(ff, GStruct(typeName, fields)).Written? <==> PairsWritten(ff, fields)
    ensures PairsWritten(ff, fields) ==>
      Encode(ff, GStruct(typeName, fields)) == Written("{" + JoinSpaced(PairTexts(ff, fields)) + "}")
  {
    EncodePairsJoins(ff, fields);
  }

  /** A map with string keys is written like a struct, one `key: value`
      per entry in iteration order. */
  lemma EncodeMapText(ff: FloatFormat, entries: seq<Pair>)
    ensures Encode(ff, GMap(KString, entries)).Written? <==> PairsWritten(ff, entries)
    ensures PairsWritten(ff, entries) ==>
      Encode(ff, GMap(KString, entries)) == Written("{" + JoinSpaced(PairTexts(ff, entries)) + "}")
  {
    EncodePairsJoins(ff, entries);
  }

  /** An empty slice is `[]` and an empty struct or map is `{}`. */
  lemma EmptyCollections(ff: FloatFormat, typeName: string)
    ensures Encode(ff, GSlice([])) == Written("[]")
    ensures Encode(ff, GStruct(typeName, [])) == Written("{}")
    ensures Encode(ff, GMap(KString, [])) == Written("{}")
  {
  }
}
