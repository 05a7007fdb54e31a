/**
 * What doc.go and lib/doc.go share: the Doc record (a possibly nil map of
 * resolved values), the way a resolved value looks to path lookup, the
 * destinations Get assigns into, and the MarshalMoon loop, which object.go
 * repeats for its own values.
 */
module Documents {
  import opened Wrappers
  import opened Values
  import opened Paths
  import opened Encoding

  /** Doc: `items` is None when the map is nil. */
  datatype Doc = Doc(items: Option<map<string, Value>>)

  /** A []interface{} is indexed and a map[string]interface{} is keyed. */
  function ValueView(v: Value): (s: Shape<Value>)
    ensures s.ListShape? <==> v.List?
    ensures s.MapShape? <==> v.Map?
    ensures v.List? ==> s.items == v.items
    ensures v.Map? ==> s.entries == v.entries
  {
    match v
    case List(items) => ListShape(items)
    case Map(m) => MapShape(m)
    case _ => Neither
  }

  /** Get's destination argument: a pointer to a variable of type `elem`,
      or something that is not a pointer. */
  datatype Dest = Ptr(elem: GoType) | NotPtr(t: GoType)

  datatype GetError =
    | EmptyDoc(path: string)                 // "no item found at path %s (doc is empty)"
    | SeekFailed(cause: SeekError)
    | NotPointer(t: GoType)                  // "a pointer type is required"
    | Mismatch(src: GoType, dest: GoType)    // "src and destination are not of same type"

  /** What a Get call does to its destination: store a value, return
      success without storing, return an error, or panic inside reflect. */
  datatype Got<V> = Stored(v: V) | Untouched | GetFailed(e: GetError) | GetPanicked(reason: string)

  // ---------------------------------------------------------------------
  // MarshalMoon

  /** The loop of MarshalMoon: for each key, in the order the map's
      iteration yields them, `key: <encoding>` and a newline; the first
      entry that does not encode decides the outcome and nothing is
      returned.  Keys that are not in the map are passed over, so that any
      sequence can stand for the iteration order. */
  function Marshal<V>(enc: V -> Outcome, keys: seq<string>, items: map<string, V>): (r: Outcome)
    ensures keys == [] ==> r == Written("")
    decreases |keys|
  {
    if keys == [] then Written("")
    else if keys[0] !in items then Marshal(enc, keys[1..], items)
    else Cat(Cat(Cat(Written(keys[0] + ": "), enc(items[keys[0]])), Written("\n")), Marshal(enc, keys[1..], items))
  }

  /** The keys of `keys` that are in `items`, in order. */
  function Present<V>(keys: seq<string>, items: map<string, V>): (ks: seq<string>)
    ensures forall i :: 0 <= i < |ks| ==> ks[i] in items
    ensures forall k :: k in ks <==> k in keys && k in items
  {
    if keys == [] then []
    else if keys[0] in items then [keys[0]] + Present(keys[1..], items)
    else Present(keys[1..], items)
  }

  /** When every key of the sequence is in the map, none is passed over. */
  lemma {:induction false} PresentAll<V>(keys: seq<string>, items: map<string, V>)
    requires forall i :: 0 <= i < |keys| ==> keys[i] in items
    ensures Present(keys, items) == keys
  {
    if keys != [] {
      PresentAll(keys[1..], items);
    }
  }

  predicate AllEncode<V>(enc: V -> Outcome, keys: seq<string>, items: map<string, V>)
  {
    forall k :: k in keys && k in items ==> enc(items[k]).Written?
  }

  /** The lines of the marshalled text, one per present key. */
  function Lines<V>(enc: V -> Outcome, ks: seq<string>, items: map<string, V>): (ls: seq<string>)
    requires forall i :: 0 <= i < |ks| ==> ks[i] in items && enc(items[ks[i]]).Written?
    ensures |ls| == |ks|
    ensures forall i :: 0 <= i < |ks| ==> ls[i] == ks[i] + ": " + enc(items[ks[i]]).text + "\n"
  {
    if ks == [] then [] else [ks[0] + ": " + enc(items[ks[0]]).text + "\n"] + Lines(enc, ks[1..], items)
  }

  function Concat(ls: seq<string>): string
  {
    if ls == [] then "" else ls[0] + Concat(ls[1..])
  }

  /** MarshalMoon succeeds exactly when every entry encodes, and then its
      text is the entries' lines in iteration order; otherwise its outcome
      is that of an entry that did not encode. */
  lemma {:induction false} MarshalLines<V>(enc: V -> Outcome, keys: seq<string>, items: map<string, V>)
    ensures Marshal(enc, keys, items).Written? <==> AllEncode(enc, keys, items)
    ensures AllEncode(enc, keys, items) ==>
      Marshal(enc, keys, items).text == Concat(Lines(enc, Present(keys, items), items))
    ensures !AllEncode(enc, keys, items) ==>
      exists k :: k in keys && k in items && Marshal(enc, keys, items) == enc(items[k])
    decreases |keys|
  {
    if keys != [] {
      var tail := keys[1..];
      MarshalLines(enc, tail, items);
      assert forall k :: k in keys <==> k == keys[0] || k in tail;
      if keys[0] in items {
        var k := keys[0];
        var head := Cat(Cat(Written(k + ": "), enc(items[k])), Written("\n"));
        assert Marshal(enc, keys, items) == Cat(head, Marshal(enc, tail, items));
        if AllEncode(enc, keys, items) {
          assert AllEncode(enc, tail, items);
          var ps := Present(keys, items);
          assert ps == [k] + Present(tail, items);
          assert ps[1..] == Present(tail, items);
          assert head.text == k + ": " + enc(items[k]).text + "\n";
        } else if enc(items[k]).Written? {
          assert !AllEncode(enc, tail, items);
        }
      } else {
        assert Present(keys, items) == Present(tail, items);
      }
    }
  }
}
