/**
 * Requirements of the root package (req.go): field2req reads a field's tag
 * as a Moon document, an *Object, and fills a requirement from six options
 * looked up with Object.Get; `requirements` accepts a struct or a pointer
 * to one and gathers a requirement per field.
 */
module RootReq {
  import opened Wrappers
  import opened Values
  import opened Numbers
  import opened Paths
  import opened Documents
  import opened Requirements
  import ObjectDoc

  /** req; a nil default is Null, and a default is kept as the Value it
      denotes (ObjectDoc.Plain). */
  datatype Req = Req(name: string, help: string, required: bool, dflt: Value, short: string, long: string, t: GoType)

  /** The tag options of field2req. */
  datatype Opt = OptName | OptHelp | OptRequired | OptDefault | OptShort | OptLong

  /** The options in the order the map literal of field2req looks them up. */
  const Opts: seq<Opt> := [OptName, OptHelp, OptRequired, OptDefault, OptShort, OptLong]

  /** The key of an option in the tag. */
  function Key(o: Opt): string
  {
    match o
    case OptName => "name"
    case OptHelp => "help"
    case OptRequired => "required"
    case OptDefault => "default"
    case OptShort => "short"
    case OptLong => "long"
  }

  /** Every key is a path of one segment that is not a number. */
  lemma KeyIsPlain(o: Opt)
    ensures NoSlash(Key(o)) && Split(Key(o)) == [Key(o)] && Atoi(Key(o)).None?
  {
    assert Key(o) != [] && NoSlash(Key(o)) && 'a' <= Key(o)[0] <= 'z' by {
      match o
      case OptName => assert Key(o) == "name";
      case OptHelp => assert Key(o) == "help";
      case OptRequired => assert Key(o) == "required";
      case OptDefault => assert Key(o) == "default";
      case OptShort => assert Key(o) == "short";
      case OptLong => assert Key(o) == "long";
    }
    OptionPath(Key(o));
  }

  /** The variable each option is read into. */
  function OptionDest(o: Opt): (d: Dest)
    ensures d.Ptr?
    ensures d.elem == TBool <==> o.OptRequired?
    ensures d.elem == TAny <==> o.OptDefault?
  {
    match o
    case OptRequired => Ptr(TBool)
    case OptDefault => Ptr(TAny)
    case _ => Ptr(TString)
  }

  /** The results of the six lookups. */
  datatype Looked = Looked(name: Got<Value>, help: Got<Value>, required: Got<Value>,
                           dflt: Got<Value>, short: Got<Value>, long: Got<Value>)

  function Of(l: Looked, o: Opt): Got<Value>
  {
    match o
    case OptName => l.name
    case OptHelp => l.help
    case OptRequired => l.required
    case OptDefault => l.dflt
    case OptShort => l.short
    case OptLong => l.long
  }

  /** A lookup's outcome, with what it stored read as the Value it
      denotes. */
  function Denoted(g: Got<ObjectDoc.Held>): (r: Got<Value>)
    ensures r.Stored? <==> g.Stored?
    ensures g.Stored? ==> r.v == ObjectDoc.HeldValue(g.v)
    ensures g.GetFailed? ==> r == GetFailed(g.e)
    ensures g.GetPanicked? ==> r == GetPanicked(g.reason)
    ensures g.Untouched? ==> r.Untouched?
  {
    match g
    case Stored(h) => Stored(ObjectDoc.HeldValue(h))
    case Untouched => Untouched
    case GetFailed(e) => GetFailed(e)
    case GetPanicked(p) => GetPanicked(p)
  }

  /** The lookup of one option: Object.Get of the tag document. */
  function Lookup(doc: ObjectDoc.Object, o: Opt): Got<Value>
  {
    Denoted(ObjectDoc.Get(doc, Key(o), OptionDest(o)))
  }

  /** The six lookups of field2req. */
  function Lookups(doc: ObjectDoc.Object): (l: Looked)
    ensures forall o :: Of(l, o) == Lookup(doc, o)
  {
    Tabulate((o: Opt) => Lookup(doc, o))
  }

  /** The lookups' results, one per option. */
  function Tabulate(f: Opt -> Got<Value>): (l: Looked)
    ensures forall o :: Of(l, o) == f(o)
  {
    Looked(f(OptName), f(OptHelp), f(OptRequired), f(OptDefault), f(OptShort), f(OptLong))
  }

  /** req.validate. */
  function ValidateReq(r: Req): Option<ReqError>
  {
    Validate(r.name, r.t, r.required, r.dflt, r.short)
  }

  /** What a lookup into the variable of option `o` can store: no nil, and
      only a value of a type the variable can hold. */
  predicate Typed(g: Got<Value>, o: Opt)
  {
    g.Stored? ==> !g.v.Null? && AssignableTo(TypeOf(g.v), OptionDest(o).elem)
  }

  predicate WellTyped(l: Looked)
  {
    forall o :: Typed(Of(l, o), o)
  }

  /** Well-typed lookups store strings into the string options, a bool into
      `required` and no nil into `default`. */
  lemma WellTypedFields(l: Looked)
    requires WellTyped(l)
    ensures StoresString(l.name) && StoresString(l.help) && StoresString(l.short) && StoresString(l.long)
    ensures (l.required.Stored? ==> l.required.v.Bool?) && (l.dflt.Stored? ==> !l.dflt.v.Null?)
  {
    assert Typed(Of(l, OptName), OptName);
    assert Typed(Of(l, OptHelp), OptHelp);
    assert Typed(Of(l, OptRequired), OptRequired);
    assert Typed(Of(l, OptDefault), OptDefault);
    assert Typed(Of(l, OptShort), OptShort);
    assert Typed(Of(l, OptLong), OptLong);
  }

  /** The position of an option in Opts. */
  function Index(o: Opt): (i: nat)
    ensures i < |Opts| && Opts[i] == o
  {
    match o
    case OptName => 0
    case OptHelp => 1
    case OptRequired => 2
    case OptDefault => 3
    case OptShort => 4
    case OptLong => 5
  }

  /** The first lookup that panicked, in the order the map literal of
      field2req evaluates its entries: a panic ends the literal. */
  function FirstPanic(l: Looked): (r: Option<Opt>)
    ensures r.Some? ==> Of(l, r.value).GetPanicked?
    ensures r.Some? ==> forall o :: Index(o) < Index(r.value) ==> !Of(l, o).GetPanicked?
    ensures r.None? <==> forall o :: !Of(l, o).GetPanicked?
  {
    if l.name.GetPanicked? then Some(OptName)
    else if l.help.GetPanicked? then Some(OptHelp)
    else if l.required.GetPanicked? then Some(OptRequired)
    else if l.dflt.GetPanicked? then Some(OptDefault)
    else if l.short.GetPanicked? then Some(OptShort)
    else if l.long.GetPanicked? then Some(OptLong)
    else None
  }

  /** When no option in `order` fails, none fails. */
  lemma NoneFails(l: Looked, order: seq<Opt>)
    requires multiset(order) == multiset(Opts)
    requires FirstError(order, o => Of(l, o)).None?
    ensures forall o :: !Fails(Of(l, o))
  {
    forall o ensures o in Opts { assert Opts[Index(o)] == o; }
    Covers(order, Opts);
    var look := o => Of(l, o);
    forall o ensures !Fails(Of(l, o)) {
      assert o in order;
      assert !Fails(look(o));
    }
  }

  /** The part of field2req after the lookups: a panic in a lookup ends it,
      the long flag follows an overridden name, and the error map is ranged
      over in `order`, any error other than NoValue failing the field. */
  function Decide(fname: string, t: GoType, l: Looked, order: seq<Opt>): (r: Built<Req>)
    requires multiset(order) == multiset(Opts)
    requires WellTyped(l)
    ensures r.FieldAborted? <==> exists o :: Of(l, o).GetPanicked?
    ensures r.Built? <==> forall o :: Tolerated(Of(l, o))
    ensures r.FieldRejected? ==>
      exists o :: Fails(Of(l, o)) && r.error == OptionFailed(Key(o), Of(l, o).e)
    ensures r.Built? ==> r.req.t == t
    ensures r.Built? ==> if l.name.Stored? then l.name == Stored(Str(r.req.name)) else r.req.name == fname
    ensures r.Built? ==> if l.help.Stored? then l.help == Stored(Str(r.req.help)) else r.req.help == ""
    ensures r.Built? ==> if l.short.Stored? then l.short == Stored(Str(r.req.short)) else r.req.short == ""
    ensures r.Built? && !l.long.Stored? ==> r.req.long == r.req.name
    ensures r.Built? && l.long.Stored? && l.long.v != Str(fname) ==> l.long == Stored(Str(r.req.long))
    ensures r.Built? ==> (r.req.dflt == Null <==> !l.dflt.Stored?) && (r.req.required <==> l.required == Stored(Bool(true)))
  {
    match FirstPanic(l)
    case Some(o) => FieldAborted(Of(l, o).reason)
    case None =>
      var name := StringOr(l.name, fname);
      var long0 := StringOr(l.long, fname);
      var long := if long0 == fname && name != fname then name else long0;
      WellTypedFields(l);
      var dflt := if l.dflt.Stored? then l.dflt.v else Null;
      var req := Req(name, StringOr(l.help, ""), BoolOr(l.required), dflt, StringOr(l.short, ""), long, t);
      match FirstError(order, o => Of(l, o))
      case Some(o) => FieldRejected(OptionFailed(Key(o), Of(l, o).e))
      case None => NoneFails(l, order); Built(req)
  }

  /** A lookup stores no nil, and only a value the option's variable can
      hold. */
  lemma LookupStores(doc: ObjectDoc.Object, o: Opt)
    ensures Typed(Lookup(doc, o), o)
  {
    var g := ObjectDoc.Get(doc, Key(o), OptionDest(o));
    if g.Stored? && g.v.Held? && !OptionDest(o).elem.TAny? {
      assert g.v.v.OPlain?;
    }
  }

  /** The lookups are well typed. */
  lemma LookupsWellTyped(doc: ObjectDoc.Object)
    ensures WellTyped(Lookups(doc))
  {
    forall o ensures Typed(Of(Lookups(doc), o), o) {
      LookupStores(doc, o);
    }
  }

  /** field2req.  `order` is the order in which ranging over the error map
      yields the options. */
  function Field2Req(f: Field<ObjectDoc.Object>, order: seq<Opt>): (r: Built<Req>)
    requires multiset(order) == multiset(Opts)
    ensures f.tag.Err? ==> r == FieldRejected(TagUnparsable(f.name, f.tag.error))
    ensures r.FieldRejected? && r.error.TagUnparsable? ==> f.tag.Err?
    ensures f.tag.Ok? ==> WellTyped(Lookups(f.tag.value)) && r == Decide(f.name, f.t, Lookups(f.tag.value), order)
  {
    match f.tag
    case Err(msg) => FieldRejected(TagUnparsable(f.name, msg))
    case Ok(doc) =>
      LookupsWellTyped(doc);
      Decide(f.name, f.t, Lookups(doc), order)
  }

  /** `requirements`: a pointer is replaced by its element type, a struct is
      taken as it is, any other kind is an error; NumField then panics on an
      element that is not a struct. */
  function RequirementsOf(t: TypeDesc<ObjectDoc.Object>, order: seq<Opt>): (r: Gathered<map<string, Req>, ObjectDoc.Object>)
    requires multiset(order) == multiset(Opts)
    ensures t.OtherKind? <==> r == Rejected(NotStructOrPointer(t))
    ensures t.PointerTo? && !t.elem.StructType? ==> r.Aborted?
    ensures r.Made? ==> t.StructType? || (t.PointerTo? && t.elem.StructType?)
    ensures t.StructType? ==> (r.Made? <==> forall i :: 0 <= i < |t.fields| ==> Field2Req(t.fields[i], order).Built?)
    ensures r.Made? && t.StructType? ==> forall k :: k in r.value <==> k in Names(t.fields)
  {
    match t
    case StructType(fs) => Gather(f => Field2Req(f, order), fs)
    case PointerTo(StructType(fs)) => Gather(f => Field2Req(f, order), fs)
    case PointerTo(_) => Aborted("reflect: NumField of non-struct type")
    case OtherKind(_) => Rejected(NotStructOrPointer(t))
  }

  /** A struct and a pointer to it give the same requirements. */
  lemma PointerAndStructAgree(fs: seq<Field<ObjectDoc.Object>>, order: seq<Opt>)
    requires multiset(order) == multiset(Opts)
    ensures RequirementsOf(PointerTo(StructType(fs)), order) == RequirementsOf(StructType(fs), order)
  {
  }

  /** With distinct field names, each field's requirement is stored under
      the field's name and carries the field's type. */
  lemma RequirementsEntries(fs: seq<Field<ObjectDoc.Object>>, order: seq<Opt>)
    requires multiset(order) == multiset(Opts)
    requires DistinctNames(fs) && RequirementsOf(StructType(fs), order).Made?
    ensures forall i :: 0 <= i < |fs| ==>
      var q := RequirementsOf(StructType(fs), order).value[fs[i].name];
      q == Field2Req(fs[i], order).req && q.t == fs[i].t
  {
    GatherEntries(f => Field2Req(f, order), fs);
  }

  /** The lookup of an option the tag holds: the value, when the option's
      variable can hold it; otherwise reflect panics. */
  lemma LookupPresent(doc: ObjectDoc.Object, o: Opt)
    requires doc.Object? && Key(o) in doc.items
    ensures var v := doc.items[Key(o)];
      if (v.OPlain? && v.v.Null?) || !ObjectDoc.SettableTo(ObjectDoc.SetType(v), OptionDest(o).elem)
      then Lookup(doc, o).GetPanicked?
      else Lookup(doc, o) == Stored(ObjectDoc.Plain(v))
  {
    KeyIsPlain(o);
    ObjectDoc.GetTopLevel(doc, Key(o), OptionDest(o).elem);
  }

  /** An option the tag does not mention is a NoValue error, which
      field2req tolerates. */
  lemma AbsentOptionTolerated(doc: ObjectDoc.Object, o: Opt)
    requires doc.Object? && Key(o) !in doc.items
    ensures Lookup(doc, o) == GetFailed(SeekFailed(NoValue(Key(o), Key(o))))
    ensures Tolerated(Lookup(doc, o))
  {
    KeyIsPlain(o);
    ObjectDoc.GetTopLevel(doc, Key(o), OptionDest(o).elem);
  }

  /** Lookups that stored nothing and failed only with NoValue leave the
      defaults: name and long flag are the field's name, everything else
      is zero. */
  lemma DecideDefaults(fname: string, t: GoType, l: Looked, order: seq<Opt>)
    requires multiset(order) == multiset(Opts)
    requires forall o :: Tolerated(Of(l, o)) && !Of(l, o).Stored?
    ensures WellTyped(l)
    ensures Decide(fname, t, l, order) == Built(Req(fname, "", false, Null, "", fname, t))
  {
    assert !Of(l, OptName).Stored? && !Of(l, OptHelp).Stored? && !Of(l, OptRequired).Stored?;
    assert !Of(l, OptDefault).Stored? && !Of(l, OptShort).Stored? && !Of(l, OptLong).Stored?;
    var r := Decide(fname, t, l, order);
    assert r.Built?;
    assert r.req == Req(fname, "", false, Null, "", fname, t);
  }

  /** A tag that mentions none of the options yields the defaults. */
  lemma DefaultsToFieldName(f: Field<ObjectDoc.Object>, order: seq<Opt>)
    requires multiset(order) == multiset(Opts)
    requires f.tag.Ok? && f.tag.value.Object?
    requires forall o :: Key(o) !in f.tag.value.items
    ensures Field2Req(f, order) == Built(Req(f.name, "", false, Null, "", f.name, f.t))
  {
    var doc := f.tag.value;
    var l := Lookups(doc);
    forall o ensures Tolerated(Of(l, o)) && !Of(l, o).Stored? {
      AbsentOptionTolerated(doc, o);
      assert Of(l, o) == Lookup(doc, o);
    }
    DecideDefaults(f.name, f.t, l, order);
  }

  /** A name given in the tag, without a long flag, becomes the long flag
      too. */
  lemma LongFollowsName(f: Field<ObjectDoc.Object>, order: seq<Opt>, n: string)
    requires multiset(order) == multiset(Opts)
    requires f.tag.Ok? && f.tag.value.Object?
    requires var m := f.tag.value.items;
      Key(OptName) in m && m[Key(OptName)] == ObjectDoc.OPlain(Str(n)) && Key(OptLong) !in m
    requires Field2Req(f, order).Built?
    ensures Field2Req(f, order).req.name == n && Field2Req(f, order).req.long == n
  {
    var doc := f.tag.value;
    var l := Lookups(doc);
    AbsentOptionTolerated(doc, OptLong);
    LookupPresent(doc, OptName);
    assert l.name == Stored(Str(n));
    assert Field2Req(f, order) == Decide(f.name, f.t, l, order);
  }

  /** An option holding a value of the wrong type makes reflect panic, so
      field2req does not return. */
  lemma WrongTypePanics(f: Field<ObjectDoc.Object>, order: seq<Opt>, o: Opt, v: ObjectDoc.OValue)
    requires multiset(order) == multiset(Opts)
    requires f.tag.Ok? && f.tag.value.Object?
    requires Key(o) in f.tag.value.items && f.tag.value.items[Key(o)] == v
    requires (v.OPlain? && v.v.Null?) || !ObjectDoc.SettableTo(ObjectDoc.SetType(v), OptionDest(o).elem)
    ensures Field2Req(f, order).FieldAborted?
  {
    var doc := f.tag.value;
    assert Lookup(doc, o).GetPanicked? by { LookupPresent(doc, o); }
    LookupsWellTyped(doc);
    PanicAborts(f.name, f.t, Lookups(doc), order, o);
  }

  lemma PanicAborts(fname: string, t: GoType, l: Looked, order: seq<Opt>, o: Opt)
    requires multiset(order) == multiset(Opts)
    requires WellTyped(l) && Of(l, o).GetPanicked?
    ensures Decide(fname, t, l, order).FieldAborted?
  {
  }

  /** A default the tag gives is stored through an interface{} variable,
      so whatever it holds other than nil becomes the requirement's default:
      a List as the list it denotes, an *Object as the object it points
      to. */
  lemma DefaultStored(f: Field<ObjectDoc.Object>, order: seq<Opt>, v: ObjectDoc.OValue)
    requires multiset(order) == multiset(Opts)
    requires f.tag.Ok? && f.tag.value.Object?
    requires Key(OptDefault) in f.tag.value.items && f.tag.value.items[Key(OptDefault)] == v
    requires !(v.OPlain? && v.v.Null?)
    requires Field2Req(f, order).Built?
    ensures Field2Req(f, order).req.dflt == ObjectDoc.Plain(v) != Null
  {
    var l := Lookups(f.tag.value);
    LookupPresent(f.tag.value, OptDefault);
    assert l.dflt == Stored(ObjectDoc.Plain(v));
    assert Field2Req(f, order) == Decide(f.name, f.t, l, order);
  }
}
