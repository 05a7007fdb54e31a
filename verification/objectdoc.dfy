/**
 * The Object revision of the root package (object.go): evaluated lists are
 * of the named type List and evaluated objects are *Object, so path lookup
 * indexes a List and keys an Object, Get dereferences a pointer it finds,
 * and an *Object inside a value encodes through its own MarshalMoon.
 */
module ObjectDoc {
  import opened Wrappers
  import opened Values
  import opened Numbers
  import opened Paths
  import opened GoValues
  import opened Encoding
  import opened Documents
  import Emit

  /** A value stored in an Object: a plain value, a List, or an *Object
      (never a nil pointer). */
  datatype OValue = OPlain(v: Value) | OList(items: seq<OValue>) | OObject(obj: Object)

  /** Object: its map of items, or a nil map. */
  datatype Object = Object(items: map<string, OValue>) | NilItems

  /** A List is indexed and an *Object is keyed; a nil map has no keys. */
  function View(o: OValue): (s: Shape<OValue>)
    ensures s.ListShape? <==> o.OList?
    ensures s.MapShape? <==> o.OObject?
  {
    match o
    case OList(items) => ListShape(items)
    case OObject(obj) => MapShape(if obj.Object? then obj.items else map[])
    case OPlain(_) => Neither
  }

  const ListType := TOther("moon.List")
  const ObjectType := TOther("moon.Object")
  const ObjectPtrType := TOther("*moon.Object")

  /** reflect.TypeOf of a stored value that is not nil. */
  function TypeOfO(o: OValue): GoType
    requires !(o.OPlain? && o.v.Null?)
  {
    match o
    case OPlain(v) => TypeOf(v)
    case OList(_) => ListType
    case OObject(_) => ObjectPtrType
  }

  /** reflect's assignability once named types are in play: besides
      AssignableTo, a List and a []interface{} have the same underlying type
      and one of the two is unnamed, so each can be assigned to the other. */
  predicate SettableTo(t: GoType, dest: GoType)
  {
    AssignableTo(t, dest) || (t == ListType && dest == TSliceOfAny) || (t == TSliceOfAny && dest == ListType)
  }

  /** The type of what Object.Get hands to reflect's Set: the Object a found
      pointer points to, or the found value itself. */
  function SetType(o: OValue): (t: GoType)
    requires !(o.OPlain? && o.v.Null?)
    ensures o.OObject? ==> t == ObjectType
    ensures o.OList? ==> t == ListType
    ensures o.OPlain? ==> t == TypeOf(o.v)
  {
    if o.OObject? then ObjectType else TypeOfO(o)
  }

  /** What Object.Get stores: the value found, or the Object a found pointer
      points to. */
  datatype Held = Held(v: OValue) | Deref(obj: Object)

  /** Object.Get: the nil check, the lookup starting from the Object itself,
      the pointer check; then a pointer is dereferenced before reflect's Set,
      which panics on a type the destination cannot hold.  Asking a nil
      value for its kind panics. */
  function Get(o: Object, path: string, dest: Dest): (r: Got<Held>)
    ensures o.NilItems? <==> r == GetFailed(EmptyDoc(path))
    ensures !r.Untouched?
    ensures r.Stored? ==> o.Object? && dest.Ptr? && Seek(View, path, Split(path), OObject(o)).Ok?
    ensures r.Stored? && r.v.Deref? ==>
      Seek(View, path, Split(path), OObject(o)).value == OObject(r.v.obj) && SettableTo(ObjectType, dest.elem)
    ensures r.Stored? && r.v.Held? ==>
      Seek(View, path, Split(path), OObject(o)).value == r.v.v && !r.v.v.OObject? &&
      !(r.v.v.OPlain? && r.v.v.v.Null?) && SettableTo(TypeOfO(r.v.v), dest.elem)
    ensures o.Object? && Seek(View, path, Split(path), OObject(o)).Err? ==>
      r == GetFailed(SeekFailed(Seek(View, path, Split(path), OObject(o)).error))
  {
    if o.NilItems? then GetFailed(EmptyDoc(path))
    else
      match Seek(View, path, Split(path), OObject(o))
      case Err(e) => GetFailed(SeekFailed(e))
      case Ok(v) => Store(v, dest)
  }

  /** What Get does with the value found: the pointer check, the kind
      check that dereferences a pointer, then reflect's Set. */
  function Store(v: OValue, dest: Dest): Got<Held>
  {
    if dest.NotPtr? then GetFailed(NotPointer(dest.t))
    else if v.OPlain? && v.v.Null? then GetPanicked("reflect.TypeOf(nil).Kind(): nil pointer dereference")
    else if v.OObject? then
      if SettableTo(ObjectType, dest.elem) then Stored(Deref(v.obj))
      else GetPanicked("reflect.Set: value is not assignable")
    else if SettableTo(TypeOfO(v), dest.elem) then Stored(Held(v))
    else GetPanicked("reflect.Set: value is not assignable")
  }

  /** Object.Get over seekValue as written: a negative List index panics in
      the slice expression instead of failing as out of bounds. */
  function GetAsWritten(o: Object, path: string, dest: Dest): (r: Got<Held>)
    ensures o.NilItems? <==> r == GetFailed(EmptyDoc(path))
    ensures o.Object? && SeekAsWritten(View, path, Split(path), OObject(o)).IndexPanic? ==> r.GetPanicked?
    ensures o.Object? && SeekAsWritten(View, path, Split(path), OObject(o)).Refused? ==>
      r == GetFailed(SeekFailed(SeekAsWritten(View, path, Split(path), OObject(o)).e))
    ensures r.Stored? && r.v.Held? ==> o.Object? && SeekAsWritten(View, path, Split(path), OObject(o)) == Found(r.v.v)
    ensures r.Stored? && r.v.Deref? ==>
      o.Object? && SeekAsWritten(View, path, Split(path), OObject(o)) == Found(OObject(r.v.obj))
  {
    if o.NilItems? then GetFailed(EmptyDoc(path))
    else
      match SeekAsWritten(View, path, Split(path), OObject(o))
      case Refused(e) => GetFailed(SeekFailed(e))
      case IndexPanic(_, _) => GetPanicked("runtime error: index out of range")
      case Found(v) => Store(v, dest)
  }

  /** Get and the code as written part ways only on a negative List index,
      which panics as written and is out of bounds in Get. */
  lemma GetCorrectsAsWritten(o: Object, path: string, dest: Dest)
    ensures o.Object? && SeekAsWritten(View, path, Split(path), OObject(o)).IndexPanic? ==>
      var p := SeekAsWritten(View, path, Split(path), OObject(o));
      GetAsWritten(o, path, dest).GetPanicked? &&
      Get(o, path, dest) == GetFailed(SeekFailed(OutOfBounds(path, p.index, p.length)))
    ensures !(o.Object? && SeekAsWritten(View, path, Split(path), OObject(o)).IndexPanic?) ==>
      GetAsWritten(o, path, dest) == Get(o, path, dest)
  {
    if o.Object? {
      SeekCorrectsAsWritten(View, path, Split(path), OObject(o));
    }
  }

  /** The example of Object.Get's documentation, for any list key and field
      name: with objects in a list, `brothers/1/name` reads the name of the
      second one. */
  lemma BrothersExample(key: string, field: string, todd: Object, sean: Object, jordan: Object, name: string)
    requires key != [] && NoSlash(key) && 'a' <= key[0] <= 'z'
    requires field != [] && NoSlash(field) && 'a' <= field[0] <= 'z'
    requires sean.Object? && field in sean.items && sean.items[field] == OPlain(Str(name))
    ensures
      var doc := Object(map[key := OList([OObject(todd), OObject(sean), OObject(jordan)])]);
      Get(doc, key + "/1/" + field, Ptr(TString)) == Stored(Held(OPlain(Str(name))))
  {
    var doc := Object(map[key := OList([OObject(todd), OObject(sean), OObject(jordan)])]);
    var path := key + "/1/" + field;
    var parts := [key, "1", field];
    assert Split(path) == parts by {
      assert Join(parts[2..]) == field;
      assert Join(parts[1..]) == "1" + "/" + field;
      assert Join(parts) == key + "/" + ("1" + "/" + field);
      assert key + "/" + ("1" + "/" + field) == path;
      assert NoSlash("1");
      SplitJoin(parts);
    }
    BrothersSeek(key, field, path, todd, sean, jordan, name);
    GetPlain(doc, path, parts, OPlain(Str(name)), TString);
  }

  /** A plain value or List found at the path is stored as it is when the
      destination can hold it. */
  lemma GetPlain(o: Object, path: string, parts: seq<string>, v: OValue, t: GoType)
    requires o.Object? && Split(path) == parts && Seek(View, path, parts, OObject(o)) == Ok(v)
    requires !v.OObject? && !(v.OPlain? && v.v.Null?) && SettableTo(TypeOfO(v), t)
    ensures Get(o, path, Ptr(t)) == Stored(Held(v))
  {
  }

  lemma BrothersSeek(key: string, field: string, path: string, todd: Object, sean: Object, jordan: Object, name: string)
    requires key != [] && 'a' <= key[0] <= 'z'
    requires field != [] && 'a' <= field[0] <= 'z'
    requires sean.Object? && field in sean.items && sean.items[field] == OPlain(Str(name))
    ensures
      var doc := Object(map[key := OList([OObject(todd), OObject(sean), OObject(jordan)])]);
      Seek(View, path, [key, "1", field], OObject(doc)) == Ok(OPlain(Str(name)))
  {
    var list := OList([OObject(todd), OObject(sean), OObject(jordan)]);
    AtoiRejectsName(key);
    AtoiRejectsName(field);
    assert Atoi("1") == Some(1) by { FormatIntRoundTrip(1); assert FormatInt(1) == "1"; }
    assert Seek(View, path, [field], OObject(sean)) == Ok(OPlain(Str(name)));
    assert Seek(View, path, ["1", field], list) == Ok(OPlain(Str(name))) by {
      assert ["1", field][1..] == [field];
    }
    assert [key, "1", field][1..] == ["1", field];
  }

  /** A pointer found at the path is stored as the Object it points to. */
  lemma GetDereferences(o: Object, path: string, obj: Object)
    requires o.Object? && Seek(View, path, Split(path), OObject(o)) == Ok(OObject(obj))
    ensures Get(o, path, Ptr(ObjectType)) == Stored(Deref(obj))
    ensures Get(o, path, Ptr(ObjectPtrType)).GetPanicked?
  {
  }

  /** A List found at the path is stored into a []interface{} variable, and
      a []interface{} into a List variable. */
  lemma GetListIntoSlice(o: Object, path: string, items: seq<OValue>, xs: seq<Value>)
    requires o.Object? && Seek(View, path, Split(path), OObject(o)) == Ok(OList(items))
    ensures Get(o, path, Ptr(TSliceOfAny)) == Stored(Held(OList(items)))
    ensures Seek(View, path, Split(path), OObject(o)) == Ok(OPlain(List(xs))) ==>
      Get(o, path, Ptr(ListType)) == Stored(Held(OPlain(List(xs))))
  {
  }

  /** A path of one segment that is not a number reads the top-level entry
      under that key: a nil there panics, a value the destination can hold
      is stored (an Object as itself), any other panics; a missing key is a
      NoValue error naming it. */
  lemma GetTopLevel(o: Object, key: string, t: GoType)
    requires o.Object? && NoSlash(key) && Atoi(key).None?
    ensures key !in o.items ==> Get(o, key, Ptr(t)) == GetFailed(SeekFailed(NoValue(key, key)))
    ensures key in o.items ==>
      var v := o.items[key];
      if v.OPlain? && v.v.Null? then Get(o, key, Ptr(t)).GetPanicked?
      else if !SettableTo(SetType(v), t) then Get(o, key, Ptr(t)).GetPanicked?
      else if v.OObject? then Get(o, key, Ptr(t)) == Stored(Deref(v.obj))
      else Get(o, key, Ptr(t)) == Stored(Held(v))
  {
    SplitJoin([key]);
  }

  /** The value an OValue denotes, forgetting that Go holds a list as a
      List and an object as an *Object. */
  function Plain(o: OValue): (v: Value)
    ensures o.OPlain? ==> v == o.v
    ensures o.OList? ==> v.List? && |v.items| == |o.items|
    ensures o.OObject? ==> v.Map? && v.entries.Keys == (if o.obj.Object? then o.obj.items.Keys else {})
  {
    match o
    case OPlain(v) => v
    case OList(items) => List(seq(|items|, i requires 0 <= i < |items| => Plain(items[i])))
    case OObject(obj) => Map(if obj.NilItems? then map[] else map k | k in obj.items :: Plain(obj.items[k]))
  }

  /** The value Object.Get stored, as Plain reads it. */
  function HeldValue(h: Held): (v: Value)
    ensures h.Held? ==> v == Plain(h.v)
    ensures h.Deref? ==> v == Plain(OObject(h.obj))
  {
    match h
    case Held(o) => Plain(o)
    case Deref(obj) => Plain(OObject(obj))
  }

  // ---------------------------------------------------------------------
  // MarshalMoon

  /** The order in which an Object's map yields its keys. */
  type ObjectOrder = map<string, OValue> -> seq<string>

  /** The root encoder on a stored value: a List is a slice of interfaces,
      whose nil elements are `null`; an *Object implements Marshaler, so its
      MarshalMoon text is written verbatim and its failure is the
      encoder's. */
  function EncodeValue(ff: FloatFormat, order: MapOrder, korder: ObjectOrder, o: OValue): (r: Outcome)
    ensures o.OPlain? ==> r == Emit.Encode(ff, FromValue(order, o.v))
    ensures o.OObject? ==> r == MarshalObject(ff, order, korder, o.obj)
    ensures o.OList? ==> (r.Written? <==> EncodeItems(ff, order, korder, o.items).Written?)
    decreases o, 2
  {
    match o
    case OPlain(v) => Emit.Encode(ff, FromValue(order, v))
    case OList(items) => Enclose("[", EncodeItems(ff, order, korder, items), "]")
    case OObject(obj) => MarshalObject(ff, order, korder, obj)
  }

  function EncodeItems(ff: FloatFormat, order: MapOrder, korder: ObjectOrder, items: seq<OValue>): Outcome
    decreases items
  {
    if items == [] then Written("")
    else if |items| == 1 then EncodeValue(ff, order, korder, items[0])
    else Cat(Cat(EncodeValue(ff, order, korder, items[0]), Written(" ")), EncodeItems(ff, order, korder, items[1..]))
  }

  /** Object.MarshalMoon. */
  function MarshalObject(ff: FloatFormat, order: MapOrder, korder: ObjectOrder, obj: Object): Outcome
    decreases obj, 1
  {
    match obj
    case NilItems => Written("")
    case Object(m) => MarshalEntries(ff, order, korder, m, korder(m), obj)
  }

  function MarshalEntries(ff: FloatFormat, order: MapOrder, korder: ObjectOrder,
                          m: map<string, OValue>, keys: seq<string>, whole: Object): Outcome
    requires whole == Object(m)
    decreases whole, 0, |keys|
  {
    if keys == [] then Written("")
    else if keys[0] !in m then MarshalEntries(ff, order, korder, m, keys[1..], whole)
    else
      Cat(Cat(Cat(Written(keys[0] + ": "), EncodeValue(ff, order, korder, m[keys[0]])), Written("\n")),
          MarshalEntries(ff, order, korder, m, keys[1..], whole))
  }

  /** Object.MarshalMoon is the MarshalMoon loop of the Doc revisions, with
      the stored values encoded as above. */
  lemma {:induction false} MarshalEntriesIsMarshal(ff: FloatFormat, order: MapOrder, korder: ObjectOrder,
                                                   m: map<string, OValue>, keys: seq<string>, whole: Object)
    requires whole == Object(m)
    ensures MarshalEntries(ff, order, korder, m, keys, whole) == Marshal(v => EncodeValue(ff, order, korder, v), keys, m)
    decreases |keys|
  {
    if keys != [] {
      MarshalEntriesIsMarshal(ff, order, korder, m, keys[1..], whole);
    }
  }

  /** Whatever order the keys come in, an Object marshals exactly when each
      of its values encodes, as one `key: value` line per entry. */
  lemma MarshalObjectLines(ff: FloatFormat, order: MapOrder, korder: ObjectOrder, m: map<string, OValue>)
    requires Enumerates(korder(m), m)
    ensures MarshalObject(ff, order, korder, Object(m)).Written? <==>
      forall k :: k in m ==> EncodeValue(ff, order, korder, m[k]).Written?
    ensures MarshalObject(ff, order, korder, Object(m)).Written? ==>
      MarshalObject(ff, order, korder, Object(m)).text ==
      Concat(Lines(v => EncodeValue(ff, order, korder, v), korder(m), m))
  {
    var enc := v => EncodeValue(ff, order, korder, v);
    MarshalEntriesIsMarshal(ff, order, korder, m, korder(m), Object(m));
    MarshalLines(enc, korder(m), m);
    assert Present(korder(m), m) == korder(m) by { PresentAll(korder(m), m); }
  }

  /** The order in which a nested Object's keys are written is whatever its
      map yields, so a well-formed nested Object is written as its lines
      verbatim. */
  lemma NestedObjectVerbatim(ff: FloatFormat, order: MapOrder, korder: ObjectOrder, obj: Object)
    ensures EncodeValue(ff, order, korder, OObject(obj)) == MarshalObject(ff, order, korder, obj)
  {
  }
}
