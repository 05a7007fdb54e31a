/**
 * Requirements of the lib/ revision (lib/req.go): as in the root package,
 * plus a command-line name, with the options looked up through the lib
 * Doc.Get and its setValue; `requirements` demands a pointer.
 */
module LibReq {
  import opened Wrappers
  import opened Values
  import opened Numbers
  import opened Paths
  import opened Documents
  import opened Requirements
  import LibDoc
  import RootReq

  /** req; a nil default is Null. */
  datatype Req = Req(name: string, cliName: string, help: string, required: bool, dflt: Value,
                     short: string, long: string, t: GoType)

  /** The tag options of field2req. */
  datatype Opt = OptName | OptCliName | OptHelp | OptRequired | OptDefault | OptShort | OptLong

  /** The options in the order the map literal of field2req looks them up. */
  const Opts: seq<Opt> := [OptName, OptCliName, OptHelp, OptRequired, OptDefault, OptShort, OptLong]

  /** The key of an option in the tag. */
  function Key(o: Opt): string
  {
    match o
    case OptName => "name"
    case OptCliName => "cli_name"
    case OptHelp => "help"
    case OptRequired => "required"
    case OptDefault => "default"
    case OptShort => "short"
    case OptLong => "long"
  }

  /** Every key is a path of one segment that is not a number. */
  lemma KeyIsPlain(o: Opt)
    ensures NoSlash(Key(o)) && Split(Key(o)) == [Key(o)] && Atoi(Key(o)).None?
  {
    assert Key(o) != [] && NoSlash(Key(o)) && 'a' <= Key(o)[0] <= 'z' by {
      match o
      case OptName => assert Key(o) == "name";
      case OptCliName => assert Key(o) == "cli_name";
      case OptHelp => assert Key(o) == "help";
      case OptRequired => assert Key(o) == "required";
      case OptDefault => assert Key(o) == "default";
      case OptShort => assert Key(o) == "short";
      case OptLong => assert Key(o) == "long";
    }
    OptionPath(Key(o));
  }

  /** The variable each option is read into. */
  function OptionDest(o: Opt): (d: Dest)
    ensures d.Ptr?
    ensures d.elem == TBool <==> o.OptRequired?
    ensures d.elem == TAny <==> o.OptDefault?
  {
    match o
    case OptRequired => Ptr(TBool)
    case OptDefault => Ptr(TAny)
    case _ => Ptr(TString)
  }

  /** The results of the seven lookups. */
  datatype Looked = Looked(name: Got<Value>, cliName: Got<Value>, help: Got<Value>, required: Got<Value>,
                           dflt: Got<Value>, short: Got<Value>, long: Got<Value>)

  function Of(l: Looked, o: Opt): Got<Value>
  {
    match o
    case OptName => l.name
    case OptCliName => l.cliName
    case OptHelp => l.help
    case OptRequired => l.required
    case OptDefault => l.dflt
    case OptShort => l.short
    case OptLong => l.long
  }

  /** The lookup of one option. */
  function Lookup(doc: Doc, o: Opt): Got<Value>
  {
    LibDoc.Get(doc, Key(o), OptionDest(o))
  }

  /** The seven lookups of field2req. */
  function Lookups(doc: Doc): (l: Looked)
    ensures forall o :: Of(l, o) == Lookup(doc, o)
  {
    Tabulate((o: Opt) => Lookup(doc, o))
  }

  /** The lookups' results, one per option. */
  function Tabulate(f: Opt -> Got<Value>): (l: Looked)
    ensures forall o :: Of(l, o) == f(o)
  {
    Looked(f(OptName), f(OptCliName), f(OptHelp), f(OptRequired), f(OptDefault), f(OptShort), f(OptLong))
  }

  /** req.validate. */
  function ValidateReq(r: Req): Option<ReqError>
  {
    Validate(r.name, r.t, r.required, r.dflt, r.short)
  }

  /** The requirement of the root package with the same fields. */
  function ToRoot(r: Req): RootReq.Req
  {
    RootReq.Req(r.name, r.help, r.required, r.dflt, r.short, r.long, r.t)
  }

  /** The two revisions validate alike. */
  lemma ValidateAgrees(r: Req)
    ensures ValidateReq(r) == RootReq.ValidateReq(ToRoot(r))
    ensures ValidateReq(r).None? <==>
      r.name != "" && !(IsBoolKind(r.t) && r.required) && !(r.required && r.dflt != Null) && |r.short| <= 1
  {
  }

  /** What a lookup into the variable of option `o` can store: no nil, and
      only a value of a type the variable can hold. */
  predicate Typed(g: Got<Value>, o: Opt)
  {
    g.Stored? ==> !g.v.Null? && AssignableTo(TypeOf(g.v), OptionDest(o).elem)
  }

  predicate WellTyped(l: Looked)
  {
    forall o :: Typed(Of(l, o), o)
  }

  /** Well-typed lookups store strings into the string options, a bool into
      `required` and no nil into `default`. */
  lemma WellTypedFields(l: Looked)
    requires WellTyped(l)
    ensures StoresString(l.name) && StoresString(l.cliName) && StoresString(l.help) && StoresString(l.short) && StoresString(l.long)
    ensures (l.required.Stored? ==> l.required.v.Bool?) && (l.dflt.Stored? ==> !l.dflt.v.Null?)
  {
    assert Typed(Of(l, OptName), OptName);
    assert Typed(Of(l, OptCliName), OptCliName);
    assert Typed(Of(l, OptHelp), OptHelp);
    assert Typed(Of(l, OptRequired), OptRequired);
    assert Typed(Of(l, OptDefault), OptDefault);
    assert Typed(Of(l, OptShort), OptShort);
    assert Typed(Of(l, OptLong), OptLong);
  }

  /** The position of an option in Opts. */
  function Index(o: Opt): (i: nat)
    ensures i < |Opts| && Opts[i] == o
  {
    match o
    case OptName => 0
    case OptCliName => 1
    case OptHelp => 2
    case OptRequired => 3
    case OptDefault => 4
    case OptShort => 5
    case OptLong => 6
  }

  /** The first lookup that panicked, in the order the map literal of
      field2req evaluates its entries: a panic ends the literal. */
  function FirstPanic(l: Looked): (r: Option<Opt>)
    ensures r.Some? ==> Of(l, r.value).GetPanicked?
    ensures r.Some? ==> forall o :: Index(o) < Index(r.value) ==> !Of(l, o).GetPanicked?
    ensures r.None? <==> forall o :: !Of(l, o).GetPanicked?
  {
    if l.name.GetPanicked? then Some(OptName)
    else if l.cliName.GetPanicked? then Some(OptCliName)
    else if l.help.GetPanicked? then Some(OptHelp)
    else if l.required.GetPanicked? then Some(OptRequired)
    else if l.dflt.GetPanicked? then Some(OptDefault)
    else if l.short.GetPanicked? then Some(OptShort)
    else if l.long.GetPanicked? then Some(OptLong)
    else None
  }

  /** When no option in `order` fails, none fails. */
  lemma NoneFails(l: Looked, order: seq<Opt>)
    requires multiset(order) == multiset(Opts)
    requires FirstError(order, o => Of(l, o)).None?
    ensures forall o :: !Fails(Of(l, o))
  {
    forall o ensures o in Opts { assert Opts[Index(o)] == o; }
    Covers(order, Opts);
    var look := o => Of(l, o);
    forall o ensures !Fails(Of(l, o)) {
      assert o in order;
      assert !Fails(look(o));
    }
  }

  /** The part of field2req after the lookups: a panic in a lookup ends it,
      the long flag follows an overridden name, and the error map is ranged
      over in `order`, any error other than NoValue failing the field. */
  function Decide(fname: string, t: GoType, l: Looked, order: seq<Opt>): (r: Built<Req>)
    requires multiset(order) == multiset(Opts)
    requires WellTyped(l)
    ensures r.FieldAborted? <==> exists o :: Of(l, o).GetPanicked?
    ensures r.Built? <==> forall o :: Tolerated(Of(l, o))
    ensures r.FieldRejected? ==>
      exists o :: Fails(Of(l, o)) && r.error == OptionFailed(Key(o), Of(l, o).e)
    ensures r.Built? ==> r.req.t == t
    ensures r.Built? ==> if l.name.Stored? then l.name == Stored(Str(r.req.name)) else r.req.name == fname
    ensures r.Built? ==> if l.cliName.Stored? then l.cliName == Stored(Str(r.req.cliName)) else r.req.cliName == fname
    ensures r.Built? ==> if l.help.Stored? then l.help == Stored(Str(r.req.help)) else r.req.help == ""
    ensures r.Built? ==> if l.short.Stored? then l.short == Stored(Str(r.req.short)) else r.req.short == ""
    ensures r.Built? && !l.long.Stored? ==> r.req.long == r.req.name
    ensures r.Built? && l.long.Stored? && l.long.v != Str(fname) ==> l.long == Stored(Str(r.req.long))
    ensures r.Built? ==> (r.req.dflt == Null <==> !l.dflt.Stored?) && (r.req.required <==> l.required == Stored(Bool(true)))
  {
    match FirstPanic(l)
    case Some(o) => FieldAborted(Of(l, o).reason)
    case None =>
      var name := StringOr(l.name, fname);
      var long0 := StringOr(l.long, fname);
      var long := if long0 == fname && name != fname then name else long0;
      WellTypedFields(l);
      var dflt := if l.dflt.Stored? then l.dflt.v else Null;
      var req := Req(name, StringOr(l.cliName, fname), StringOr(l.help, ""), BoolOr(l.required), dflt,
                     StringOr(l.short, ""), long, t);
      match FirstError(order, o => Of(l, o))
      case Some(o) => FieldRejected(OptionFailed(Key(o), Of(l, o).e))
      case None => NoneFails(l, order); Built(req)
  }

  /** A lookup stores no nil, and only a value the option's variable can
      hold. */
  lemma LookupStores(doc: Doc, o: Opt)
    ensures Typed(Lookup(doc, o), o)
  {
  }

  /** The lookups are well typed. */
  lemma LookupsWellTyped(doc: Doc)
    ensures WellTyped(Lookups(doc))
  {
    forall o ensures Typed(Of(Lookups(doc), o), o) {
      LookupStores(doc, o);
    }
  }

  /** field2req.  `order` is the order in which ranging over the error map
      yields the options. */
  function Field2Req(f: Field<Doc>, order: seq<Opt>): (r: Built<Req>)
    requires multiset(order) == multiset(Opts)
    ensures f.tag.Err? ==> r == FieldRejected(TagUnparsable(f.name, f.tag.error))
    ensures r.FieldRejected? && r.error.TagUnparsable? ==> f.tag.Err?
    ensures f.tag.Ok? ==> WellTyped(Lookups(f.tag.value)) && r == Decide(f.name, f.t, Lookups(f.tag.value), order)
  {
    match f.tag
    case Err(msg) => FieldRejected(TagUnparsable(f.name, msg))
    case Ok(doc) =>
      LookupsWellTyped(doc);
      Decide(f.name, f.t, Lookups(doc), order)
  }

  /** `requirements`: the destination must be a pointer, whose element
      NumField then requires to be a struct. */
  function RequirementsOf(t: TypeDesc<Doc>, order: seq<Opt>): (r: Gathered<map<string, Req>, Doc>)
    requires multiset(order) == multiset(Opts)
    ensures !t.PointerTo? <==> r == Rejected(NotPointerDest(t))
    ensures t.PointerTo? && !t.elem.StructType? ==> r.Aborted?
    ensures r.Made? ==> t.PointerTo? && t.elem.StructType?
    ensures t.PointerTo? && t.elem.StructType? ==>
      (r.Made? <==> forall i :: 0 <= i < |t.elem.fields| ==> Field2Req(t.elem.fields[i], order).Built?)
    ensures r.Made? ==> forall k :: k in r.value <==> k in Names(t.elem.fields)
  {
    match t
    case PointerTo(StructType(fs)) => Gather(f => Field2Req(f, order), fs)
    case PointerTo(_) => Aborted("reflect: call of reflect.Value.NumField on non-struct Value")
    case _ => Rejected(NotPointerDest(t))
  }

  /** With distinct field names, each field's requirement is stored under
      the field's name and carries the field's type. */
  lemma RequirementsEntries(fs: seq<Field<Doc>>, order: seq<Opt>)
    requires multiset(order) == multiset(Opts)
    requires DistinctNames(fs) && RequirementsOf(PointerTo(StructType(fs)), order).Made?
    ensures forall i :: 0 <= i < |fs| ==>
      var q := RequirementsOf(PointerTo(StructType(fs)), order).value[fs[i].name];
      q == Field2Req(fs[i], order).req && q.t == fs[i].t
  {
    GatherEntries(f => Field2Req(f, order), fs);
  }

  /** The value the tag holds for an option, as the lib Get reads it. */
  lemma LookupPresent(doc: Doc, o: Opt)
    requires doc.items.Some? && Key(o) in doc.items.value
    ensures Lookup(doc, o) == LibDoc.SetValue(OptionDest(o).elem, doc.items.value[Key(o)])
  {
    OptionPath(Key(o));
    assert Seek(ValueView, Key(o), [Key(o)], Map(doc.items.value)) == Ok(doc.items.value[Key(o)]);
  }

  /** An option the tag does not mention is a NoValue error, which
      field2req tolerates. */
  lemma AbsentOptionTolerated(doc: Doc, o: Opt)
    requires doc.items.Some? && Key(o) !in doc.items.value
    ensures Lookup(doc, o) == GetFailed(SeekFailed(NoValue(Key(o), Key(o))))
    ensures Tolerated(Lookup(doc, o))
  {
    OptionPath(Key(o));
    assert Seek(ValueView, Key(o), [Key(o)], Map(doc.items.value)) == Err(NoValue(Key(o), Key(o)));
  }

  /** Lookups that stored nothing and failed only with NoValue leave the
      defaults: name, command-line name and long flag are the field's name,
      everything else is zero. */
  lemma DecideDefaults(fname: string, t: GoType, l: Looked, order: seq<Opt>)
    requires multiset(order) == multiset(Opts)
    requires forall o :: Tolerated(Of(l, o)) && !Of(l, o).Stored?
    ensures WellTyped(l)
    ensures Decide(fname, t, l, order) == Built(Req(fname, fname, "", false, Null, "", fname, t))
  {
    assert !Of(l, OptName).Stored? && !Of(l, OptCliName).Stored? && !Of(l, OptHelp).Stored?;
    assert !Of(l, OptRequired).Stored? && !Of(l, OptDefault).Stored?;
    assert !Of(l, OptShort).Stored? && !Of(l, OptLong).Stored?;
    var r := Decide(fname, t, l, order);
    assert r.Built?;
    assert r.req.name == fname && r.req.cliName == fname && r.req.help == "";
    assert !r.req.required && r.req.dflt == Null && r.req.short == "";
    assert r.req.long == fname && r.req.t == t;
  }

  /** A tag that mentions none of the options yields the defaults. */
  lemma DefaultsToFieldName(f: Field<Doc>, order: seq<Opt>)
    requires multiset(order) == multiset(Opts)
    requires f.tag.Ok? && f.tag.value.items.Some?
    requires forall o :: Key(o) !in f.tag.value.items.value
    ensures Field2Req(f, order) == Built(Req(f.name, f.name, "", false, Null, "", f.name, f.t))
  {
    var doc := f.tag.value;
    var l := Lookups(doc);
    forall o ensures Tolerated(Of(l, o)) && !Of(l, o).Stored? {
      AbsentOptionTolerated(doc, o);
      assert Of(l, o) == Lookup(doc, o);
    }
    DecideDefaults(f.name, f.t, l, order);
  }

  /** A name given in the tag, without a long flag, becomes the long flag
      too. */
  lemma LongFollowsName(f: Field<Doc>, order: seq<Opt>, n: string)
    requires multiset(order) == multiset(Opts)
    requires f.tag.Ok? && f.tag.value.items.Some?
    requires var m := f.tag.value.items.value; Key(OptName) in m && m[Key(OptName)] == Str(n) && Key(OptLong) !in m
    requires Field2Req(f, order).Built?
    ensures Field2Req(f, order).req.name == n && Field2Req(f, order).req.long == n
  {
    var doc := f.tag.value;
    var l := Lookups(doc);
    AbsentOptionTolerated(doc, OptLong);
    LookupPresent(doc, OptName);
    assert l.name == Stored(Str(n));
    assert Field2Req(f, order) == Decide(f.name, f.t, l, order);
  }

  /** A `default` option never survives: setValue finds the value's type
      different from the interface{} of req.d_fault, so field2req fails. */
  lemma DefaultTagRejected(f: Field<Doc>, order: seq<Opt>)
    requires multiset(order) == multiset(Opts)
    requires f.tag.Ok? && f.tag.value.items.Some?
    requires Key(OptDefault) in f.tag.value.items.value && !f.tag.value.items.value[Key(OptDefault)].Null?
    ensures !Field2Req(f, order).Built?
    ensures Lookups(f.tag.value).dflt ==
      GetFailed(Mismatch(TypeOf(f.tag.value.items.value[Key(OptDefault)]), TAny))
  {
    LookupPresent(f.tag.value, OptDefault);
    assert !Tolerated(Of(Lookups(f.tag.value), OptDefault));
  }

  /** An option holding a value of the wrong type is an error, where the
      root package panics. */
  lemma WrongTypeRejected(f: Field<Doc>, order: seq<Opt>, o: Opt, v: Value)
    requires multiset(order) == multiset(Opts)
    requires f.tag.Ok? && f.tag.value.items.Some?
    requires o != OptRequired && Key(o) in f.tag.value.items.value && f.tag.value.items.value[Key(o)] == v
    requires !v.Null? && TypeOf(v) != OptionDest(o).elem
    ensures !Field2Req(f, order).Built?
    ensures Of(Lookups(f.tag.value), o) == GetFailed(Mismatch(TypeOf(v), OptionDest(o).elem))
  {
    LookupPresent(f.tag.value, o);
    assert !Tolerated(Of(Lookups(f.tag.value), o));
  }

  /** A string given for `required` is read as a bool: anything but
      "false" is true. */
  lemma RequiredFromString(f: Field<Doc>, order: seq<Opt>, s: string)
    requires multiset(order) == multiset(Opts)
    requires f.tag.Ok? && f.tag.value.items.Some?
    requires Key(OptRequired) in f.tag.value.items.value && f.tag.value.items.value[Key(OptRequired)] == Str(s)
    requires Field2Req(f, order).Built?
    ensures Field2Req(f, order).req.required <==> s != "false"
  {
    LookupPresent(f.tag.value, OptRequired);
  }
}
