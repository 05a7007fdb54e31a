/**
 * What req.go and lib/req.go share: a struct field as `field2req` sees it
 * (its name, its type and its tag already read as a Moon document), the
 * error filter over the tag lookups, and the loop of `requirements` that
 * gathers one requirement per field.
 */
module Requirements {
  import opened Wrappers
  import opened Values
  import opened Paths
  import opened Documents
  import opened Numbers

  /** A struct field: its name, its type, and the result of reading its tag
      as a Moon document `D` (ReadString, whose lexer is outside the model):
      an *Object in the root package, a *Doc in lib/. */
  datatype Field<D> = Field(name: string, t: GoType, tag: Result<D, string>)

  /** The destination of `requirements`, as far as its kind goes. */
  datatype TypeDesc<D> = StructType(fields: seq<Field<D>>) | PointerTo(elem: TypeDesc<D>) | OtherKind(name: string)

  datatype FieldError =
    | TagUnparsable(field: string, message: string)   // "unable to parse requirements for field %s"
    | OptionFailed(option: string, cause: GetError)   // "unable to parse requirement %s"

  datatype GatherError<D> =
    | NotStructOrPointer(t: TypeDesc<D>)               // req.go: "a pointer or struct type is required"
    | NotPointerDest(t: TypeDesc<D>)                   // lib/req.go: "a pointer type is required"
    | FieldFailed(field: string, cause: FieldError)    // "unable to gather requirements for field %s"

  /** What field2req returns: the requirement, an error, or a panic that
      escapes. */
  datatype Built<R> = Built(req: R) | FieldRejected(error: FieldError) | FieldAborted(reason: string)

  /** What `requirements` returns. */
  datatype Gathered<T, D> = Made(value: T) | Rejected(error: GatherError<D>) | Aborted(reason: string)

  datatype ReqError =
    | Unnamed                                        // "requirement must have a name"
    | RequiredBool                                   // "a boolean cannot be required"
    | RequiredWithDefault(name: string)              // "a required value cannot have a default"
    | ShortTooLong(name: string, short: string)      // "provided short flag (%s) is more than 1 rune"

  /** req.validate, which both revisions write alike, on the fields it
      reads: the first failing check is reported.  The bool check asks for
      the field type's kind, so a type defined over bool is refused too.  A
      nil default is Null; a string counts its runes, which are the
      characters of the model's strings. */
  function Validate(name: string, t: GoType, required: bool, dflt: Value, short: string): (r: Option<ReqError>)
    ensures r.None? <==> name != "" && !(IsBoolKind(t) && required) && !(required && dflt != Null) && |short| <= 1
    ensures r == Some(Unnamed) <==> name == ""
    ensures r == Some(RequiredBool) <==> name != "" && IsBoolKind(t) && required
    ensures r == Some(RequiredWithDefault(name)) <==> name != "" && !IsBoolKind(t) && required && dflt != Null
    ensures r == Some(ShortTooLong(name, short)) <==>
      name != "" && !(IsBoolKind(t) && required) && !(required && dflt != Null) && |short| > 1
  {
    if name == "" then Some(Unnamed)
    else if IsBoolKind(t) && required then Some(RequiredBool)
    else if required && dflt != Null then Some(RequiredWithDefault(name))
    else if |short| > 1 then Some(ShortTooLong(name, short))
    else None
  }

  /** A required field of a type defined over bool is refused like a bool
      field, whatever its name. */
  lemma NamedBoolNotRequired(name: string, typeName: string, dflt: Value, short: string)
    requires name != ""
    ensures Validate(name, TNamed(typeName, TBool), true, dflt, short) == Some(RequiredBool)
    ensures Validate(name, TOther(typeName), true, Null, short) != Some(RequiredBool)
  {
    assert IsBoolKind(TNamed(typeName, TBool));
  }

  /** The error type that field2req tolerates. */
  predicate IsNoValue(e: GetError)
  {
    e.SeekFailed? && e.cause.NoValue?
  }

  /** A lookup that makes field2req fail: an error other than NoValue. */
  predicate Fails<V>(g: Got<V>)
  {
    g.GetFailed? && !IsNoValue(g.e)
  }

  /** A lookup result that does not stop field2req: a value stored,
      nothing stored, or a NoValue error. */
  predicate Tolerated<V>(g: Got<V>)
  {
    !g.GetPanicked? && !Fails(g)
  }

  /** `order[i]` is the first option of `order` whose lookup fails. */
  predicate FailsFirstAt<K>(order: seq<K>, look: K -> Got<Value>, i: int)
  {
    0 <= i < |order| && Fails(look(order[i])) && forall j :: 0 <= j < i ==> !Fails(look(order[j]))
  }

  /** The first option, in the order the error map is ranged over, whose
      lookup failed with an error other than NoValue. */
  function FirstError<K>(order: seq<K>, look: K -> Got<Value>): (r: Option<K>)
    ensures r.Some? ==> exists i :: FailsFirstAt(order, look, i) && order[i] == r.value
    ensures r.None? <==> forall o :: o in order ==> !Fails(look(o))
  {
    if order == [] then None
    else if Fails(look(order[0])) then
      assert FailsFirstAt(order, look, 0);
      Some(order[0])
    else
      var r := FirstError(order[1..], look);
      assert r.Some? ==> exists i :: FailsFirstAt(order, look, i) && order[i] == r.value by {
        if r.Some? {
          var i :| FailsFirstAt(order[1..], look, i) && order[1..][i] == r.value;
          forall j | 0 <= j < i + 1 ensures !Fails(look(order[j])) {
            if j > 0 { assert order[j] == order[1..][j - 1]; }
          }
          assert FailsFirstAt(order, look, i + 1);
        }
      }
      r
  }

  /** A reordering of a list holding every option holds every option. */
  lemma Covers<K>(order: seq<K>, all: seq<K>)
    requires multiset(order) == multiset(all)
    requires forall o :: o in all
    ensures forall o :: o in order
  {
    forall o ensures o in order {
      assert o in all;
      assert o in multiset(all);
      assert o in multiset(order);
    }
  }

  /** Every tag option is a path of one segment that is not a number. */
  lemma OptionPath(o: string)
    requires o != [] && NoSlash(o) && 'a' <= o[0] <= 'z'
    ensures Split(o) == [o] && Atoi(o).None?
  {
    SplitJoin([o]);
    AtoiRejectsName(o);
  }

  /** A lookup into a string variable stores only strings. */
  predicate StoresString(g: Got<Value>)
  {
    g.Stored? ==> g.v.Str?
  }

  /** The string a lookup stored, or the variable's previous value. */
  function StringOr(g: Got<Value>, previous: string): (s: string)
    ensures g.Stored? && g.v.Str? ==> s == g.v.s
    ensures !(g.Stored? && g.v.Str?) ==> s == previous
  {
    if g.Stored? && g.v.Str? then g.v.s else previous
  }

  /** The bool a lookup stored, or false, the zero value. */
  function BoolOr(g: Got<Value>): (b: bool)
    ensures b <==> g.Stored? && g.v == Bool(true)
  {
    g.Stored? && g.v.Bool? && g.v.b
  }

  function Names<D>(fs: seq<Field<D>>): (ns: seq<string>)
    ensures |ns| == |fs|
    ensures forall i :: 0 <= i < |fs| ==> ns[i] == fs[i].name
  {
    if fs == [] then [] else [fs[0].name] + Names(fs[1..])
  }

  predicate DistinctNames<D>(fs: seq<Field<D>>)
  {
    forall i, j :: 0 <= i < j < |fs| ==> fs[i].name != fs[j].name
  }

  /** The loop of `requirements`: field2req on each field in declaration
      order; the first failure ends it, wrapped with the field's name. */
  function Gather<R, D>(mk: Field<D> -> Built<R>, fs: seq<Field<D>>): (r: Gathered<map<string, R>, D>)
    ensures r.Made? <==> forall i :: 0 <= i < |fs| ==> mk(fs[i]).Built?
    ensures r.Made? ==> forall k :: k in r.value <==> k in Names(fs)
    ensures r.Rejected? ==>
      exists i :: 0 <= i < |fs| && mk(fs[i]).FieldRejected? && r.error == FieldFailed(fs[i].name, mk(fs[i]).error)
  {
    if fs == [] then Made(map[])
    else
      match mk(fs[0])
      case FieldRejected(e) => Rejected(FieldFailed(fs[0].name, e))
      case FieldAborted(p) => Aborted(p)
      case Built(q) =>
        match Gather(mk, fs[1..])
        case Made(m) =>
          assert Names(fs) == [fs[0].name] + Names(fs[1..]);
          Made(m[fs[0].name := q])
        case Rejected(e) =>
          assert exists i :: 0 <= i < |fs| && mk(fs[i]).FieldRejected? && e == FieldFailed(fs[i].name, mk(fs[i]).error) by {
            var j :| 0 <= j < |fs[1..]| && mk(fs[1..][j]).FieldRejected? && e == FieldFailed(fs[1..][j].name, mk(fs[1..][j]).error);
            assert fs[1..][j] == fs[j + 1];
          }
          Rejected(e)
        case Aborted(p) => Aborted(p)
  }

  /** With distinct field names, each field's requirement is stored under
      its own name. */
  lemma {:induction false} GatherEntries<R, D>(mk: Field<D> -> Built<R>, fs: seq<Field<D>>)
    requires DistinctNames(fs)
    requires Gather(mk, fs).Made?
    ensures forall i :: 0 <= i < |fs| ==> Gather(mk, fs).value[fs[i].name] == mk(fs[i]).req
  {
    if fs != [] {
      var tail := fs[1..];
      assert DistinctNames(tail) by {
        forall i, j | 0 <= i < j < |tail| ensures tail[i].name != tail[j].name {
          assert tail[i] == fs[i + 1] && tail[j] == fs[j + 1];
        }
      }
      GatherEntries(mk, tail);
      forall i | 1 <= i < |fs| ensures Gather(mk, fs).value[fs[i].name] == mk(fs[i]).req {
        assert fs[i] == tail[i - 1];
        assert fs[i].name != fs[0].name;
      }
    }
  }
}
