/**
 * The Doc methods of the root package (doc.go): Get resolves a path and
 * assigns the value through reflect, MarshalMoon writes one line per entry
 * with the root encoder.
 */
module RootDoc {
  import opened Wrappers
  import opened Values
  import opened Numbers
  import opened Paths
  import opened GoValues
  import opened Encoding
  import opened Documents
  import Emit

  /** Doc.Get: a nil map fails before anything else; then the path is split
      on '/' and resolved from the top-level map; then the destination must
      be a pointer; then reflect's Set stores the value, which panics for a
      nil value or a type the destination cannot hold. */
  function Get(d: Doc, path: string, dest: Dest): (r: Got<Value>)
    ensures d.items.None? <==> r == GetFailed(EmptyDoc(path))
    ensures r.Stored? <==>
      d.items.Some? && Seek(ValueView, path, Split(path), Map(d.items.value)).Ok? && dest.Ptr? &&
      var v := Seek(ValueView, path, Split(path), Map(d.items.value)).value;
      !v.Null? && AssignableTo(TypeOf(v), dest.elem)
    ensures r.Stored? ==> r.v == Seek(ValueView, path, Split(path), Map(d.items.value)).value
    ensures r.GetFailed? && r.e.SeekFailed? ==>
      Seek(ValueView, path, Split(path), Map(d.items.value)) == Err(r.e.cause)
    ensures !r.Untouched?
  {
    if d.items.None? then GetFailed(EmptyDoc(path))
    else
      match Seek(ValueView, path, Split(path), Map(d.items.value))
      case Err(e) => GetFailed(SeekFailed(e))
      case Ok(v) => Store(v, dest)
  }

  /** What Get does with the value found: the pointer check, then
      reflect's Set. */
  function Store(v: Value, dest: Dest): Got<Value>
  {
    if dest.NotPtr? then GetFailed(NotPointer(dest.t))
    else if v.Null? then GetPanicked("reflect: call of reflect.Value.Set on zero Value")
    else if !AssignableTo(TypeOf(v), dest.elem) then GetPanicked("reflect.Set: value is not assignable")
    else Stored(v)
  }

  /** Doc.Get over seekValue as written: a negative list index panics in
      the slice expression instead of failing as out of bounds. */
  function GetAsWritten(d: Doc, path: string, dest: Dest): (r: Got<Value>)
    ensures d.items.None? <==> r == GetFailed(EmptyDoc(path))
    ensures d.items.Some? && SeekAsWritten(ValueView, path, Split(path), Map(d.items.value)).IndexPanic? ==>
      r.GetPanicked?
    ensures d.items.Some? && SeekAsWritten(ValueView, path, Split(path), Map(d.items.value)).Refused? ==>
      r == GetFailed(SeekFailed(SeekAsWritten(ValueView, path, Split(path), Map(d.items.value)).e))
    ensures r.Stored? ==>
      d.items.Some? && SeekAsWritten(ValueView, path, Split(path), Map(d.items.value)) == Found(r.v)
  {
    if d.items.None? then GetFailed(EmptyDoc(path))
    else
      match SeekAsWritten(ValueView, path, Split(path), Map(d.items.value))
      case Refused(e) => GetFailed(SeekFailed(e))
      case IndexPanic(_, _) => GetPanicked("runtime error: index out of range")
      case Found(v) => Store(v, dest)
  }

  /** Get and the code as written part ways only on a negative list index,
      which panics as written and is out of bounds in Get. */
  lemma GetCorrectsAsWritten(d: Doc, path: string, dest: Dest)
    ensures d.items.Some? && SeekAsWritten(ValueView, path, Split(path), Map(d.items.value)).IndexPanic? ==>
      var p := SeekAsWritten(ValueView, path, Split(path), Map(d.items.value));
      GetAsWritten(d, path, dest).GetPanicked? &&
      Get(d, path, dest) == GetFailed(SeekFailed(OutOfBounds(path, p.index, p.length)))
    ensures !(d.items.Some? && SeekAsWritten(ValueView, path, Split(path), Map(d.items.value)).IndexPanic?) ==>
      GetAsWritten(d, path, dest) == Get(d, path, dest)
  {
    if d.items.Some? {
      SeekCorrectsAsWritten(ValueView, path, Split(path), Map(d.items.value));
    }
  }

  /** `key/-1` where a list is stored under `key`: the code panics, Get
      reports the index out of bounds. */
  lemma NegativeIndexGet(d: Doc, key: string, dest: Dest)
    requires d.items.Some? && key != [] && NoSlash(key) && 'a' <= key[0] <= 'z'
    requires key in d.items.value && d.items.value[key].List?
    ensures GetAsWritten(d, key + "/-1", dest).GetPanicked?
    ensures Get(d, key + "/-1", dest) ==
      GetFailed(SeekFailed(OutOfBounds(key + "/-1", -1, |d.items.value[key].items|)))
  {
    var path := key + "/-1";
    var root := Map(d.items.value);
    var l := d.items.value[key];
    assert Split(path) == [key, "-1"] by {
      assert NoSlash("-1");
      assert Join([key, "-1"]) == path;
      SplitJoin([key, "-1"]);
    }
    AtoiRejectsName(key);
    NegativeIndexPanics(ValueView, path, [], l);
    assert ["-1"] + [] == [key, "-1"][1..];
    assert SeekAsWritten(ValueView, path, [key, "-1"], root) == SeekAsWritten(ValueView, path, ["-1"], l);
    assert Seek(ValueView, path, [key, "-1"], root) == Seek(ValueView, path, ["-1"], l);
  }

  /** A path of one segment that is not a number reads the top-level entry
      under that key, or reports NoValue naming it. */
  lemma GetTopLevel(d: Doc, key: string, t: GoType)
    requires d.items.Some? && NoSlash(key) && Atoi(key).None?
    ensures key in d.items.value && !d.items.value[key].Null? && AssignableTo(TypeOf(d.items.value[key]), t) ==>
      Get(d, key, Ptr(t)) == Stored(d.items.value[key])
    ensures key !in d.items.value ==> Get(d, key, Ptr(t)) == GetFailed(SeekFailed(NoValue(key, key)))
  {
    SplitJoin([key]);
  }

  /** Every value can be read into an interface{} variable. */
  lemma GetIntoInterface(d: Doc, path: string)
    requires d.items.Some? && Seek(ValueView, path, Split(path), Map(d.items.value)).Ok?
    requires !Seek(ValueView, path, Split(path), Map(d.items.value)).value.Null?
    ensures Get(d, path, Ptr(TAny)) == Stored(Seek(ValueView, path, Split(path), Map(d.items.value)).value)
  {
  }

  /** The documented example: `servers/1/host` reads field `host` of element
      1 of the list `servers`. */
  lemma ServersExample(web: Value, host: string, mail: Value)
    requires mail.Map? && "host" in mail.entries && mail.entries["host"] == Str(host)
    ensures Get(Doc(Some(map["servers" := List([web, mail])])), "servers/1/host", Ptr(TString)) == Stored(Str(host))
  {
    ServersPath();
    ServersSeek(web, host, mail);
  }

  lemma ServersPath()
    ensures Split("servers/1/host") == ["servers", "1", "host"]
  {
    var parts := ["servers", "1", "host"];
    assert Join(parts) == "servers/1/host";
    assert forall i :: 0 <= i < |parts| ==> NoSlash(parts[i]);
    SplitJoin(parts);
  }

  lemma ServersSeek(web: Value, host: string, mail: Value)
    requires mail.Map? && "host" in mail.entries && mail.entries["host"] == Str(host)
    ensures Seek(ValueView, "servers/1/host", ["servers", "1", "host"], Map(map["servers" := List([web, mail])])) == Ok(Str(host))
  {
    var path := "servers/1/host";
    AtoiRejectsName("servers");
    AtoiRejectsName("host");
    assert Atoi("1") == Some(1) by { FormatIntRoundTrip(1); assert FormatInt(1) == "1"; }
    assert Seek(ValueView, path, ["host"], mail) == Ok(Str(host));
    assert Seek(ValueView, path, ["1", "host"], List([web, mail])) == Ok(Str(host)) by {
      assert ["1", "host"][1..] == ["host"];
    }
    assert ["servers", "1", "host"][1..] == ["1", "host"];
  }

  /** The root encoder applied to an entry of the document. */
  function EncodeEntry(ff: FloatFormat, order: MapOrder, v: Value): Outcome
  {
    Emit.Encode(ff, FromValue(order, v))
  }

  /** Doc.MarshalMoon, with the top-level keys in the order the map's
      iteration yields them. */
  function MarshalMoon(ff: FloatFormat, order: MapOrder, d: Doc): (r: Outcome)
    ensures d.items.None? ==> r == Written("")
  {
    match d.items
    case None => Written("")
    case Some(m) => Marshal(v => EncodeEntry(ff, order, v), order(m), m)
  }

  /** Whatever order the keys come in, MarshalMoon succeeds exactly when every
      entry encodes, and then writes one `key: value` line per entry. */
  lemma MarshalMoonLines(ff: FloatFormat, order: MapOrder, m: map<string, Value>)
    requires Enumerates(order(m), m)
    ensures MarshalMoon(ff, order, Doc(Some(m))).Written? <==> forall k :: k in m ==> EncodeEntry(ff, order, m[k]).Written?
    ensures MarshalMoon(ff, order, Doc(Some(m))).Written? ==>
      MarshalMoon(ff, order, Doc(Some(m))).text == Concat(Lines(v => EncodeEntry(ff, order, v), order(m), m))
  {
    var enc := v => EncodeEntry(ff, order, v);
    MarshalLines(enc, order(m), m);
    assert Present(order(m), m) == order(m) by { PresentAll(order(m), m); }
  }
}
