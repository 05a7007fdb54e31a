/**
 * Path lookup in a document: the `seekValue` function that doc.go:164-200,
 * lib/doc.go:177-213 and object.go:219-255 define alike, and the
 * strings.Split(path, "/") that every Get applies first.  The three
 * revisions differ only in which dynamic types count as a list and as a
 * map, so the lookup is defined once over a `view` that says which of the
 * two a value is.
 */
module Paths {
  import opened Wrappers
  import opened Numbers

  // ---------------------------------------------------------------------
  // Splitting a path on '/'

  predicate NoSlash(s: string)
  {
    forall i :: 0 <= i < |s| ==> s[i] != '/'
  }

  /** strings.Split(s, "/"): the maximal slash-free pieces, in order; an
      empty string gives one empty piece. */
  function Split(s: string): (parts: seq<string>)
    ensures |parts| >= 1
    ensures forall i :: 0 <= i < |parts| ==> NoSlash(parts[i])
    decreases |s|
  {
    if s == [] then [""]
    else
      var rest := Split(s[1..]);
      if s[0] == '/' then [""] + rest
      else [[s[0]] + rest[0]] + rest[1..]
  }

  /** strings.Join(parts, "/"), the inverse of Split. */
  function Join(parts: seq<string>): string
    requires |parts| >= 1
  {
    if |parts| == 1 then parts[0] else parts[0] + "/" + Join(parts[1..])
  }

  lemma {:induction false} JoinSplit(s: string)
    ensures Join(Split(s)) == s
    decreases |s|
  {
    if s != [] {
      JoinSplit(s[1..]);
      var rest := Split(s[1..]);
      if s[0] != '/' {
        var parts := Split(s);
        assert parts[1..] == rest[1..];
        if |rest| > 1 {
          assert Join(rest) == rest[0] + "/" + Join(rest[1..]);
        }
      }
    }
  }

  /** A slash-free prefix joins the first piece of whatever follows it. */
  lemma {:induction false} SplitPrefix(a: string, t: string)
    requires NoSlash(a)
    ensures Split(a + t) == [a + Split(t)[0]] + Split(t)[1..]
    decreases |a|
  {
    if a != [] {
      SplitPrefix(a[1..], t);
      assert (a + t)[1..] == a[1..] + t;
      assert [a[0]] + (a[1..] + Split(t)[0]) == a + Split(t)[0];
    } else {
      assert a + t == t;
      assert a + Split(t)[0] == Split(t)[0];
      assert [Split(t)[0]] + Split(t)[1..] == Split(t);
    }
  }

  lemma {:induction false} SplitJoin(parts: seq<string>)
    requires |parts| >= 1
    requires forall i :: 0 <= i < |parts| ==> NoSlash(parts[i])
    ensures Split(Join(parts)) == parts
    decreases |parts|
  {
    if |parts| == 1 {
      SplitPrefix(parts[0], "");
      assert parts[0] + "" == parts[0];
    } else {
      var rest := parts[1..];
      SplitJoin(rest);
      var t := "/" + Join(rest);
      assert parts[0] + "/" + Join(rest) == parts[0] + t;
      SplitPrefix(parts[0], t);
      assert t[0] == '/' && t[1..] == Join(rest);
      assert Split(t) == [""] + rest;
      assert parts[0] + "" == parts[0];
      assert [parts[0]] + rest == parts;
    }
  }

  /** A segment that starts with a letter is never read as an index. */
  lemma AtoiRejectsName(s: string)
    requires s != [] && ('a' <= s[0] <= 'z' || 'A' <= s[0] <= 'Z')
    ensures Atoi(s).None?
  {
    assert !AllDigits(s, 10) by { assert DigitOf(s[0]) >= 10; }
  }

  // ---------------------------------------------------------------------
  // Walking a path

  /** What a value is to the lookup: something to index, something to key,
      or neither. */
  datatype Shape<V> = ListShape(items: seq<V>) | MapShape(entries: map<string, V>) | Neither

  datatype SeekError =
    | PathEmpty                                          // "path is empty"
    | CannotIndex                                        // "can only index ..."
    | OutOfBounds(fullpath: string, index: int, length: nat)
    | CannotKey                                          // "can only key ..."
    | NoValue(fullpath: string, relpath: string)         // the NoValue error type

  /** NoValue's message names the segment that was missing, not the whole
      path. */
  function NoValueMessage(e: SeekError): (m: string)
    requires e.NoValue?
    ensures |m| >= |e.relpath| && m[|m| - |e.relpath|..] == e.relpath
  {
    "no value found for path " + e.relpath
  }

  /** One segment: a segment that Atoi accepts indexes a list, any other
      segment keys a map.  This is the corrected bound check, which refuses
      negative indices as out of bounds. */
  function Step<V>(view: V -> Shape<V>, fullpath: string, root: V, head: string): (r: Result<V, SeekError>)
    ensures r.Ok? && Atoi(head).Some? ==>
      view(root).ListShape? && 0 <= Atoi(head).value < |view(root).items| && r.value == view(root).items[Atoi(head).value]
    ensures r.Ok? && Atoi(head).None? ==>
      view(root).MapShape? && head in view(root).entries && r.value == view(root).entries[head]
    ensures r.Err? ==> r.error != PathEmpty
    ensures r.Err? && r.error.OutOfBounds? ==> r.error.fullpath == fullpath
    ensures r.Err? && r.error.NoValue? ==> r.error == NoValue(fullpath, head)
  {
    match Atoi(head)
    case Some(n) =>
      if !view(root).ListShape? then Err(CannotIndex)
      else
        var l := view(root).items;
        if n < 0 || n >= |l| then Err(OutOfBounds(fullpath, n, |l|))
        else Ok(l[n])
    case None =>
      if !view(root).MapShape? then Err(CannotKey)
      else
        var m := view(root).entries;
        if head !in m then Err(NoValue(fullpath, head))
        else Ok(m[head])
  }

  /** seekValue with the corrected bound check: the segments are resolved
      one at a time, the value at the last one is the result and the first
      failing segment decides the error. */
  function Seek<V>(view: V -> Shape<V>, fullpath: string, parts: seq<string>, root: V): (r: Result<V, SeekError>)
    ensures r.Err? && r.error == PathEmpty <==> parts == []
    ensures r.Err? && r.error.NoValue? ==> r.error.fullpath == fullpath && r.error.relpath in parts
    ensures r.Err? && r.error.OutOfBounds? ==>
      r.error.fullpath == fullpath && (r.error.index < 0 || r.error.index >= r.error.length)
    decreases |parts|
  {
    if parts == [] then Err(PathEmpty)
    else
      match Step(view, fullpath, root, parts[0])
      case Err(e) =>
        assert e.OutOfBounds? ==> e.index < 0 || e.index >= e.length;
        Err(e)
      case Ok(v) => if |parts| == 1 then Ok(v) else Seek(view, fullpath, parts[1..], v)
  }

  /** Resolving `p + q` is resolving `p` and then resolving `q` from where
      `p` led. */
  lemma {:induction false} SeekAppend<V>(view: V -> Shape<V>, fullpath: string, p: seq<string>, q: seq<string>, root: V)
    requires p != [] && q != []
    ensures Seek(view, fullpath, p + q, root) ==
      (match Seek(view, fullpath, p, root)
       case Ok(v) => Seek(view, fullpath, q, v)
       case Err(e) => Err(e))
    decreases |p|
  {
    assert (p + q)[0] == p[0];
    if |p| > 1 {
      assert (p + q)[1..] == p[1..] + q;
      match Step(view, fullpath, root, p[0])
      case Err(_) =>
      case Ok(v) => SeekAppend(view, fullpath, p[1..], q, v);
    } else {
      assert (p + q)[1..] == q;
    }
  }

  // ---------------------------------------------------------------------
  // The bound check as written

  /** What seekValue does: an error, a value, or the runtime panic of
      indexing a Go slice below zero. */
  datatype Seeking<V> = Found(v: V) | Refused(e: SeekError) | IndexPanic(index: int, length: nat)

  /** seekValue as the three revisions write it: only `n >= len(l)` is
      checked before `l[n]`. */
  function SeekAsWritten<V>(view: V -> Shape<V>, fullpath: string, parts: seq<string>, root: V): (r: Seeking<V>)
    ensures r.IndexPanic? ==> r.index < 0
    decreases |parts|
  {
    if parts == [] then Refused(PathEmpty)
    else
      var head := parts[0];
      match Atoi(head)
      case Some(n) =>
        if !view(root).ListShape? then Refused(CannotIndex)
        else
          var l := view(root).items;
          if n >= |l| then Refused(OutOfBounds(fullpath, n, |l|))
          else if n < 0 then IndexPanic(n, |l|)
          else if |parts| == 1 then Found(l[n])
          else SeekAsWritten(view, fullpath, parts[1..], l[n])
      case None =>
        if !view(root).MapShape? then Refused(CannotKey)
        else
          var m := view(root).entries;
          if head !in m then Refused(NoValue(fullpath, head))
          else if |parts| == 1 then Found(m[head])
          else SeekAsWritten(view, fullpath, parts[1..], m[head])
  }

  /** The discrepancy: "-1" passes the guard, and indexing panics instead of
      returning the out-of-bounds error. */
  lemma NegativeIndexPanics<V>(view: V -> Shape<V>, fullpath: string, tail: seq<string>, root: V)
    requires view(root).ListShape?
    ensures SeekAsWritten(view, fullpath, ["-1"] + tail, root) == IndexPanic(-1, |view(root).items|)
    ensures Seek(view, fullpath, ["-1"] + tail, root) == Err(OutOfBounds(fullpath, -1, |view(root).items|))
  {
    assert Atoi("-1") == Some(-1) by { FormatIntRoundTrip(-1); assert FormatInt(-1) == "-1"; }
    assert (["-1"] + tail)[0] == "-1";
  }

  /** The corrected lookup differs from the code only where the code
      panics, and there it reports the out-of-bounds error. */
  lemma {:induction false} SeekCorrectsAsWritten<V>(view: V -> Shape<V>, fullpath: string, parts: seq<string>, root: V)
    ensures SeekAsWritten(view, fullpath, parts, root).Found? <==> Seek(view, fullpath, parts, root).Ok?
    ensures SeekAsWritten(view, fullpath, parts, root).Found? ==>
      Seek(view, fullpath, parts, root).value == SeekAsWritten(view, fullpath, parts, root).v
    ensures SeekAsWritten(view, fullpath, parts, root).Refused? ==>
      Seek(view, fullpath, parts, root) == Err(SeekAsWritten(view, fullpath, parts, root).e)
    ensures SeekAsWritten(view, fullpath, parts, root).IndexPanic? ==>
      var p := SeekAsWritten(view, fullpath, parts, root);
      Seek(view, fullpath, parts, root) == Err(OutOfBounds(fullpath, p.index, p.length))
    decreases |parts|
  {
    if parts != [] {
      var head := parts[0];
      match Atoi(head)
      case Some(n) =>
        if view(root).ListShape? && 0 <= n < |view(root).items| && |parts| > 1 {
          SeekCorrectsAsWritten(view, fullpath, parts[1..], view(root).items[n]);
        }
      case None =>
        if view(root).MapShape? && head in view(root).entries && |parts| > 1 {
          SeekCorrectsAsWritten(view, fullpath, parts[1..], view(root).entries[head]);
        }
    }
  }
}
