/**
 * Resolved values: what evaluation produces and what a document holds.  Go
 * stores them as interface{}; the model closes the set of dynamic types.
 * Floating-point numbers are carried as IEEE-754 binary64 bit patterns and
 * never interpreted.
 */
module Values {

  /** A complex128, as the bit patterns of its two float64 halves. */
  datatype Complex = Complex(re: bv64, im: bv64)

  datatype Value =
    | Null                            // Go nil
    | Bool(b: bool)
    | Int(i: int)                     // Go int (64 bits)
    | Float(bits: bv64)               // Go float64
    | Cplx(c: Complex)                // Go complex128
    | Str(s: string)
    | List(items: seq<Value>)         // Go []interface{}
    | Map(entries: map<string, Value>) // Go map[string]interface{}

  /** Go's dynamic types of resolved values, and the destination types the
      typed lookups of doc.go and lib/doc.go assign into. */
  datatype GoType =
    | TString | TBool | TInt | TFloat64 | TComplex128
    | TSliceOfAny                     // []interface{}
    | TMapOfAny                       // map[string]interface{}
    | TAny                            // interface{}
    | TNamed(name: string, underlying: GoType)  // `type name underlying`
    | TOther(name: string)            // any other type; no kind of it is tested

  /** reflect's `Kind() == reflect.Bool`: bool itself, or a type defined
      over it, whose kind is its underlying type's. */
  predicate IsBoolKind(t: GoType)
  {
    t == TBool || (t.TNamed? && IsBoolKind(t.underlying))
  }

  /** reflect.TypeOf of a stored value; nil has no type. */
  function TypeOf(v: Value): (t: GoType)
    requires !v.Null?
    ensures t != TAny && !t.TOther? && !t.TNamed?
  {
    match v
    case Bool(_) => TBool
    case Int(_) => TInt
    case Float(_) => TFloat64
    case Cplx(_) => TComplex128
    case Str(_) => TString
    case List(_) => TSliceOfAny
    case Map(_) => TMapOfAny
  }

  /** Whether reflect's Value.Set accepts a value of type `t` into a
      destination of type `dest`: same type, or an interface{} destination. */
  predicate AssignableTo(t: GoType, dest: GoType)
  {
    t == dest || dest == TAny
  }
}
