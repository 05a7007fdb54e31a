/**
 * The encoders' view of a Go value: what reflect reports about it.  Each
 * constructor is one reflect kind the encoders distinguish; kinds neither
 * encoder handles are kept by name only.  A value whose type implements
 * Marshaler carries its plain view and the outcome its MarshalMoon method
 * would return, since that method is code outside the model.
 */
module GoValues {
  import opened Wrappers
  import opened Values

  datatype IntKind = Int | Int8 | Int16 | Int32 | Int64

  /** float32 or float64.  The bits are those of v.Float(), that is of the
      value widened to float64. */
  datatype FloatKind = Float32 | Float64

  datatype Kind =
    | KBool | KInt(ik: IntKind) | KFloat(fk: FloatKind) | KString | KStruct
    | KSlice | KInterface | KPtr | KMap
    | KOther(name: string)   // uint, complex128, array, chan, func, ...

  datatype GoValue =
    | Invalid                                          // reflect.ValueOf(nil)
    | GBool(b: bool)
    | GInt(ik: IntKind, i: int)
    | GFloat(fk: FloatKind, bits: bv64)
    | GString(s: string)
    | GStruct(typeName: string, fields: seq<Pair>)     // in declaration order
    | GSlice(items: seq<GoValue>)
    | GInterface(elem: Option<GoValue>)                // None: a nil interface
    | GPtr(target: Option<GoValue>)                    // None: a nil pointer
    | GMap(keyKind: Kind, entries: seq<Pair>)          // in Go's iteration order
    | GOther(typeName: string, kind: string)
    // A value with a MarshalMoon method: `plain` is what reflect sees of it,
    // and Invalid there stands for a receiver the model does not spell out,
    // taken to be a pointer, as *Object is.
    | GMarshaler(plain: GoValue, marshal: Result<string, string>)

  /** A struct field or a map entry: a name and the value under it. */
  datatype Pair = Pair(name: string, value: GoValue)

  /** reflect's Kind of a valid value. */
  function KindOf(v: GoValue): Kind
    requires !v.Invalid?
    decreases v
  {
    match v
    case GBool(_) => KBool
    case GInt(ik, _) => KInt(ik)
    case GFloat(fk, _) => KFloat(fk)
    case GString(_) => KString
    case GStruct(_, _) => KStruct
    case GSlice(_) => KSlice
    case GInterface(_) => KInterface
    case GPtr(_) => KPtr
    case GMap(_, _) => KMap
    case GOther(_, k) => KOther(k)
    case GMarshaler(p, _) => if p.Invalid? then KPtr else KindOf(p)  // an unspelled receiver is a pointer
  }

  /** math.IsInf(f, 0) || math.IsNaN(f): the exponent field is all ones. */
  predicate NonFinite(bits: bv64)
  {
    (bits >> 52) & 0x7ff == 0x7ff
  }

  /** The order in which a Go map's keys come out of iteration.  Go makes
      no promise about it, so the model takes it as given. */
  type MapOrder = map<string, Value> -> seq<string>

  /** `keys` lists each key of `m` exactly once. */
  ghost predicate Enumerates<V>(keys: seq<string>, m: map<string, V>)
  {
    (forall k :: k in m <==> k in keys) &&
    (forall i, j :: 0 <= i < j < |keys| ==> keys[i] != keys[j])
  }

  /** How a resolved value stored in an interface{} looks to reflect: nil is
      no value at all, list elements and map values are interfaces again. */
  function FromValue(order: MapOrder, v: Value): (g: GoValue)
    ensures v.Null? <==> g.Invalid?
    ensures !g.Invalid? ==> !g.GInterface?
    decreases v, 2
  {
    match v
    case Null => Invalid
    case Bool(b) => GBool(b)
    case Int(i) => GInt(IntKind.Int, i)
    case Float(bits) => GFloat(Float64, bits)
    case Cplx(_) => GOther("complex128", "complex128")
    case Str(s) => GString(s)
    case List(items) => GSlice(ItemsFromValues(order, items))
    case Map(m) => GMap(KString, EntriesFromMap(order, m, order(m), v))
  }

  function ItemsFromValues(order: MapOrder, items: seq<Value>): (gs: seq<GoValue>)
    ensures |gs| == |items|
    decreases items
  {
    if items == [] then [] else [AsInterface(order, items[0])] + ItemsFromValues(order, items[1..])
  }

  /** The entries of `m` under the keys of `keys` that it holds, in that
      order. */
  function EntriesFromMap(order: MapOrder, m: map<string, Value>, keys: seq<string>, whole: Value): (ps: seq<Pair>)
    requires whole == Map(m)
    decreases whole, 1, |keys|
  {
    if keys == [] then []
    else if keys[0] in m then
      [Pair(keys[0], AsInterface(order, m[keys[0]]))] + EntriesFromMap(order, m, keys[1..], whole)
    else EntriesFromMap(order, m, keys[1..], whole)
  }

  /** An element of type interface{}: nil is a nil interface. */
  function AsInterface(order: MapOrder, v: Value): (g: GoValue)
    ensures g.GInterface?
    ensures v.Null? <==> g.elem.None?
    decreases v, 3
  {
    if v.Null? then GInterface(None) else GInterface(Some(FromValue(order, v)))
  }
}
