/**
 * The Doc methods of the lib/ revision (lib/doc.go): Get resolves a path as
 * the root package does and then coerces the value with setValue;
 * MarshalMoon writes one line per entry with the lib encoder.
 */
module LibDoc {
  import opened Wrappers
  import opened Values
  import opened Numbers
  import opened Paths
  import opened GoValues
  import opened Encoding
  import opened Documents
  import LibEmit
  import RootDoc

  /** setBoolValue: a string source is false exactly when it is "false";
      any other source is an error. */
  function SetBoolValue(src: Value): (r: Result<Value, string>)
    ensures r.Ok? <==> src.Str?
    ensures r.Ok? ==> r.value == Bool(src.s != "false")
  {
    match src
    case Str(s) => Ok(Bool(s != "false"))
    case _ => Err("dunno how to set a bool with that damned value")
  }

  /** setValue: a source of exactly the destination's type is stored; a
      destination of kind bool goes through setBoolValue, whose error is
      dropped so that a failure leaves the destination as it was and still
      succeeds; any other mismatch is an error.  setBoolValue stores a
      plain bool, which reflect's Set refuses for a type defined over bool.
      Asking a nil source for its type panics. */
  function SetValue(dest: GoType, src: Value): (r: Got<Value>)
    ensures r.GetPanicked? <==> src.Null? || (dest != TBool && IsBoolKind(dest) && src.Str?)
    ensures r.Stored? ==> !r.v.Null? && TypeOf(r.v) == dest
    ensures r.Stored? && dest != TBool ==> r.v == src
    ensures !src.Null? && TypeOf(src) == dest ==> r == Stored(src)
    ensures dest == TBool && src.Str? ==> r == Stored(Bool(src.s != "false"))
    ensures r.GetFailed? <==> !src.Null? && TypeOf(src) != dest && !IsBoolKind(dest)
    ensures r.GetFailed? ==> r.e == Mismatch(TypeOf(src), dest)
    ensures r.Untouched? <==> IsBoolKind(dest) && !src.Null? && TypeOf(src) != dest && !src.Str?
  {
    if src.Null? then GetPanicked("reflect: call of reflect.Value.Type on zero Value")
    else if TypeOf(src) == dest then Stored(src)
    else if IsBoolKind(dest) then
      match SetBoolValue(src)
      case Ok(b) =>
        if AssignableTo(TBool, dest) then Stored(b)
        else GetPanicked("reflect.Set: value of type bool is not assignable")
      case Err(_) => Untouched
    else GetFailed(Mismatch(TypeOf(src), dest))
  }

  /** A destination of a type defined over bool takes the bool path: a
      string panics in reflect's Set, anything else but a value of that
      type leaves it untouched. */
  lemma NamedBoolDestination(typeName: string, src: Value)
    requires !src.Null?
    ensures src.Str? ==> SetValue(TNamed(typeName, TBool), src).GetPanicked?
    ensures !src.Str? ==> SetValue(TNamed(typeName, TBool), src) == Untouched
  {
    assert IsBoolKind(TNamed(typeName, TBool));
    assert !AssignableTo(TBool, TNamed(typeName, TBool));
  }

  /** Doc.Get: the nil check, the lookup and the pointer check of the root
      package, then setValue into the pointed-to variable. */
  function Get(d: Doc, path: string, dest: Dest): (r: Got<Value>)
    ensures d.items.None? <==> r == GetFailed(EmptyDoc(path))
    ensures d.items.Some? && dest.Ptr? && Seek(ValueView, path, Split(path), Map(d.items.value)).Ok? ==>
      r == SetValue(dest.elem, Seek(ValueView, path, Split(path), Map(d.items.value)).value)
    ensures d.items.Some? && Seek(ValueView, path, Split(path), Map(d.items.value)).Err? ==>
      r == GetFailed(SeekFailed(Seek(ValueView, path, Split(path), Map(d.items.value)).error))
  {
    if d.items.None? then GetFailed(EmptyDoc(path))
    else
      match Seek(ValueView, path, Split(path), Map(d.items.value))
      case Err(e) => GetFailed(SeekFailed(e))
      case Ok(v) => Store(v, dest)
  }

  /** What Get does with the value found: the pointer check, then
      setValue. */
  function Store(v: Value, dest: Dest): Got<Value>
  {
    if dest.NotPtr? then GetFailed(NotPointer(dest.t)) else SetValue(dest.elem, v)
  }

  /** Doc.Get over seekValue as written: a negative list index panics in
      the slice expression instead of failing as out of bounds. */
  function GetAsWritten(d: Doc, path: string, dest: Dest): (r: Got<Value>)
    ensures d.items.None? <==> r == GetFailed(EmptyDoc(path))
    ensures d.items.Some? && SeekAsWritten(ValueView, path, Split(path), Map(d.items.value)).IndexPanic? ==>
      r.GetPanicked?
    ensures d.items.Some? && SeekAsWritten(ValueView, path, Split(path), Map(d.items.value)).Refused? ==>
      r == GetFailed(SeekFailed(SeekAsWritten(ValueView, path, Split(path), Map(d.items.value)).e))
    ensures d.items.Some? && dest.Ptr? && SeekAsWritten(ValueView, path, Split(path), Map(d.items.value)).Found? ==>
      r == SetValue(dest.elem, SeekAsWritten(ValueView, path, Split(path), Map(d.items.value)).v)
  {
    if d.items.None? then GetFailed(EmptyDoc(path))
    else
      match SeekAsWritten(ValueView, path, Split(path), Map(d.items.value))
      case Refused(e) => GetFailed(SeekFailed(e))
      case IndexPanic(_, _) => GetPanicked("runtime error: index out of range")
      case Found(v) => Store(v, dest)
  }

  /** Get and the code as written part ways only on a negative list index,
      which panics as written and is out of bounds in Get. */
  lemma GetCorrectsAsWritten(d: Doc, path: string, dest: Dest)
    ensures d.items.Some? && SeekAsWritten(ValueView, path, Split(path), Map(d.items.value)).IndexPanic? ==>
      var p := SeekAsWritten(ValueView, path, Split(path), Map(d.items.value));
      GetAsWritten(d, path, dest).GetPanicked? &&
      Get(d, path, dest) == GetFailed(SeekFailed(OutOfBounds(path, p.index, p.length)))
    ensures !(d.items.Some? && SeekAsWritten(ValueView, path, Split(path), Map(d.items.value)).IndexPanic?) ==>
      GetAsWritten(d, path, dest) == Get(d, path, dest)
  {
    if d.items.Some? {
      SeekCorrectsAsWritten(ValueView, path, Split(path), Map(d.items.value));
    }
  }

  /** The two revisions' Get agree whenever the destination has exactly the
      type of the value found; they part ways on coercions. */
  lemma AgreesWithRoot(d: Doc, path: string, dest: Dest)
    requires d.items.Some? && dest.Ptr?
    requires var s := Seek(ValueView, path, Split(path), Map(d.items.value));
      s.Err? || (!s.value.Null? && TypeOf(s.value) == dest.elem)
    ensures Get(d, path, dest) == RootDoc.Get(d, path, dest)
  {
  }

  /** Unlike the root package, reading any value into an interface{}
      variable is a type mismatch: the two types are never identical. */
  lemma InterfaceDestinationFails(d: Doc, path: string)
    requires d.items.Some?
    requires var s := Seek(ValueView, path, Split(path), Map(d.items.value)); s.Ok? && !s.value.Null?
    ensures var v := Seek(ValueView, path, Split(path), Map(d.items.value)).value;
      Get(d, path, Ptr(TAny)) == GetFailed(Mismatch(TypeOf(v), TAny)) &&
      RootDoc.Get(d, path, Ptr(TAny)) == Stored(v)
  {
  }

  /** The lib encoder applied to an entry of the document. */
  function EncodeEntry(ff: FloatFormat, order: MapOrder, v: Value): Outcome
  {
    LibEmit.Encode(ff, FromValue(order, v))
  }

  /** Doc.MarshalMoon, with the top-level keys in the order the map's
      iteration yields them. */
  function MarshalMoon(ff: FloatFormat, order: MapOrder, d: Doc): (r: Outcome)
    ensures d.items.None? ==> r == Written("")
  {
    match d.items
    case None => Written("")
    case Some(m) => Marshal(v => EncodeEntry(ff, order, v), order(m), m)
  }

  /** Whatever order the keys come in, MarshalMoon succeeds exactly when every
      entry encodes, and then writes one `key: value` line per entry. */
  lemma MarshalMoonLines(ff: FloatFormat, order: MapOrder, m: map<string, Value>)
    requires Enumerates(order(m), m)
    ensures MarshalMoon(ff, order, Doc(Some(m))).Written? <==> forall k :: k in m ==> EncodeEntry(ff, order, m[k]).Written?
    ensures MarshalMoon(ff, order, Doc(Some(m))).Written? ==>
      MarshalMoon(ff, order, Doc(Some(m))).text == Concat(Lines(v => EncodeEntry(ff, order, v), order(m), m))
  {
    var enc := v => EncodeEntry(ff, order, v);
    MarshalLines(enc, order(m), m);
    assert Present(order(m), m) == order(m) by { PresentAll(order(m), m); }
  }

  /** A document holding a non-empty list cannot be marshalled by the lib
      encoder, whatever else it holds. */
  lemma MarshalRejectsLists(ff: FloatFormat, order: MapOrder, m: map<string, Value>, k: string)
    requires Enumerates(order(m), m)
    requires k in m && m[k].List? && m[k].items != []
    ensures !MarshalMoon(ff, order, Doc(Some(m))).Written?
  {
    LibEmit.ListOfValuesUnhandled(ff, order, m[k].items);
    MarshalMoonLines(ff, order, m);
  }
}
