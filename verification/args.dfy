/**
 * Command-line scanning of the lib/ revision (lib/args.go, parseArgs): long
 * options `--key=val` and `--key val` are read from the second argument
 * on, until `--` or the first argument that is not a flag.  The
 * requirements enter as the long names they declare, each marked with
 * whether its type is bool; the reading of `key: val` as a document
 * (ReadString) is a parameter.
 */
module LibArgs {
  import opened Wrappers
  import opened Values
  import opened Documents

  /** ReadString. */
  type Reader = string -> Result<Doc, string>

  datatype ArgError =
    | MissingValue(key: string)                 // "terminal arg %s is missing a value"
    | Unparsable(key: string, message: string)  // "unable to parse cli argument %s"

  /** How parseArgs ends: with the values read, with an error, inside
      showHelp (which exits the process), or in the short-flag panic. */
  datatype Scanned = Parsed(values: map<string, Value>) | ScanFailed(error: ArgError) | HelpShown | ShortFlagPanic

  /** One pass of the loop: go on at `next` with `out`, or leave it. */
  datatype Stepped = Continue(next: nat, out: map<string, Value>) | Stop(result: Scanned)

  predicate HasPrefix(s: string, p: string)
  {
    |p| <= |s| && s[..|p|] == p
  }

  /** strings.SplitN(s, c, 2) for an `s` that contains `c`: the text before
      the first `c` and the text after it. */
  function SplitFirst(s: string, c: char): (r: (string, string))
    requires c in s
    ensures r.0 + [c] + r.1 == s
    ensures c !in r.0
  {
    if s[0] == c then ([], s[1..])
    else
      var (b, a) := SplitFirst(s[1..], c);
      assert [s[0]] + b + [c] + a == s by { assert s == [s[0]] + s[1..]; }
      ([s[0]] + b, a)
  }

  /** The split at the first `c` is the only one whose left part holds no
      `c`. */
  lemma {:induction false} SplitFirstUnique(b: string, c: char, a: string)
    requires c !in b
    ensures c in b + [c] + a
    ensures SplitFirst(b + [c] + a, c) == (b, a)
  {
    var s := b + [c] + a;
    assert s[|b|] == c;
    if b != [] {
      assert s[0] == b[0] && b[0] != c;
      assert s[1..] == b[1..] + [c] + a;
      SplitFirstUnique(b[1..], c, a);
      assert [b[0]] + b[1..] == b;
    } else {
      assert s[1..] == a;
    }
  }

  /** `d.items[key]`: nil for a nil map or a missing key. */
  function Item(d: Doc, key: string): (v: Value)
    ensures v != Null ==> d.items.Some? && key in d.items.value && v == d.items.value[key]
  {
    if d.items.Some? && key in d.items.value then d.items.value[key] else Null
  }

  /** A long option with its value, the scan going on at `next`: an unknown
      key is passed over, a bool key records true whatever the value, any
      other key records what reading `key: val` yields under the key. */
  function Option(longs: map<string, bool>, read: Reader, out: map<string, Value>,
                  key: string, val: string, next: nat): (r: Stepped)
    ensures key !in longs ==> r == Continue(next, out)
    ensures key in longs && longs[key] ==> r == Continue(next, out[key := Bool(true)])
    ensures key in longs && !longs[key] && read(key + ": " + val).Err? ==>
      r == Stop(ScanFailed(Unparsable(key, read(key + ": " + val).error)))
    ensures key in longs && !longs[key] && read(key + ": " + val).Ok? ==>
      r == Continue(next, out[key := Item(read(key + ": " + val).value, key)])
  {
    if key !in longs then Continue(next, out)
    else if longs[key] then Continue(next, out[key := Bool(true)])
    else
      match read(key + ": " + val)
      case Err(m) => Stop(ScanFailed(Unparsable(key, m)))
      case Ok(d) => Continue(next, out[key := Item(d, key)])
  }

  /** What a pass may do to the values: keys already there stay, a new or
      changed value is under a known long key, and a bool key holds true. */
  predicate Extends(longs: map<string, bool>, out: map<string, Value>, out': map<string, Value>)
  {
    (forall k :: k in out ==> k in out') &&
    forall k :: k in out' ==>
      (k in out && out'[k] == out[k]) || (k in longs && (longs[k] ==> out'[k] == Bool(true)))
  }

  /** The body of the loop at argument `i`. */
  function Step(args: seq<string>, i: nat, longs: map<string, bool>, read: Reader, out: map<string, Value>): (r: Stepped)
    requires i < |args|
    ensures r.Continue? ==> i < r.next <= |args| && Extends(longs, out, r.out)
    ensures r.Stop? && r.result.Parsed? ==> r.result.values == out
    ensures r.Stop? && r.result.ScanFailed? && r.result.error.MissingValue? ==>
      i == |args| - 1 && args[i] == "--" + r.result.error.key && '=' !in r.result.error.key
    ensures r.Stop? && r.result.ScanFailed? && r.result.error.Unparsable? ==>
      r.result.error.key in longs && !longs[r.result.error.key]
    ensures r.Stop? && r.result.HelpShown? <==> args[i] == "help"
    ensures r.Stop? && r.result.ShortFlagPanic? <==> args[i] != "help" && HasPrefix(args[i], "-") && !HasPrefix(args[i], "--")
  {
    var arg := args[i];
    if arg == "help" then Stop(HelpShown)
    else if arg == "--" then Stop(Parsed(out))
    else if HasPrefix(arg, "--") then
      var rest := arg[2..];
      assert arg == "--" + rest;
      if '=' in rest then
        var (key, val) := SplitFirst(rest, '=');
        Option(longs, read, out, key, val, i + 1)
      else if i + 1 >= |args| then Stop(ScanFailed(MissingValue(rest)))
      else Option(longs, read, out, rest, args[i + 1], i + 2)
    else if HasPrefix(arg, "-") then Stop(ShortFlagPanic)
    else Stop(Parsed(out))
  }

  /** The loop of parseArgs from argument `i`, with the values read so
      far. */
  function Scan(args: seq<string>, i: nat, longs: map<string, bool>, read: Reader, out: map<string, Value>): (r: Scanned)
    ensures r.Parsed? ==> Extends(longs, out, r.values)
    ensures r.ScanFailed? && r.error.MissingValue? ==>
      |args| > 0 && args[|args| - 1] == "--" + r.error.key && '=' !in r.error.key
    ensures r.ScanFailed? && r.error.Unparsable? ==> r.error.key in longs && !longs[r.error.key]
    ensures i >= |args| ==> r == Parsed(out)
    decreases |args| - i, 1
  {
    ScanAt(args, i, longs, read, out)
  }

  /** One pass of the loop at `i`, then the scan from where it leaves off. */
  function ScanAt(args: seq<string>, i: nat, longs: map<string, bool>, read: Reader, out: map<string, Value>): (r: Scanned)
    ensures r.Parsed? ==> Extends(longs, out, r.values)
    ensures r.ScanFailed? && r.error.MissingValue? ==>
      |args| > 0 && args[|args| - 1] == "--" + r.error.key && '=' !in r.error.key
    ensures r.ScanFailed? && r.error.Unparsable? ==> r.error.key in longs && !longs[r.error.key]
    ensures i >= |args| ==> r == Parsed(out)
    decreases |args| - i, 0
  {
    if i >= |args| then Parsed(out)
    else
      match Step(args, i, longs, read, out)
      case Stop(s) => s
      case Continue(next, out') => Scan(args, next, longs, read, out')
  }

  /** The scan after a pass. */
  function Resume(args: seq<string>, longs: map<string, bool>, read: Reader, st: Stepped): Scanned
  {
    match st
    case Stop(s) => s
    case Continue(next, out') => Scan(args, next, longs, read, out')
  }

  /** parseArgs after its requirements are known: the scan starts at index
      1, past the program name. */
  method ParseArgs(args: seq<string>, longs: map<string, bool>, read: Reader) returns (r: Scanned)
    ensures r == Scan(args, 1, longs, read, map[])
    ensures r.Parsed? ==> forall k :: k in r.values ==> k in longs && (longs[k] ==> r.values[k] == Bool(true))
  {
    var i: nat := 1;
    var out: map<string, Value> := map[];
    while i < |args|
      invariant Scan(args, 1, longs, read, map[]) == Scan(args, i, longs, read, out)
      decreases |args| - i
    {
      var s := Step(args, i, longs, read, out);
      match s
      case Stop(result) =>
        return result;
      case Continue(next, out') =>
        i, out := next, out';
    }
    return Parsed(out);
  }

  /** `--` ends the scan, keeping what was read. */
  lemma StopsAtDoubleDash(args: seq<string>, i: nat, longs: map<string, bool>, read: Reader, out: map<string, Value>)
    requires i < |args| && args[i] == "--"
    ensures Scan(args, i, longs, read, out) == Parsed(out)
  {
  }

  /** So does the first argument that does not start with `-`, other than
      `help`. */
  lemma StopsAtBareArgument(args: seq<string>, i: nat, longs: map<string, bool>, read: Reader, out: map<string, Value>)
    requires i < |args| && args[i] != "help" && !HasPrefix(args[i], "-")
    ensures Scan(args, i, longs, read, out) == Parsed(out)
  {
  }

  /** `--key=val` splits at the first `=`: the value may hold more, the key
      none. */
  lemma EqualsSplitsAtFirst(args: seq<string>, i: nat, longs: map<string, bool>, read: Reader,
                            out: map<string, Value>, key: string, val: string)
    requires i < |args| && args[i] == "--" + key + "=" + val && '=' !in key
    ensures Scan(args, i, longs, read, out) == Resume(args, longs, read, Option(longs, read, out, key, val, i + 1))
  {
    var arg := args[i];
    assert arg[0] == '-' && |arg| >= 3;
    assert arg != "help" by { assert "help"[0] == 'h'; }
    assert arg != "--";
    assert HasPrefix(arg, "--");
    assert arg[2..] == key + "=" + val;
    assert '=' in arg[2..] by { assert arg[2..][|key|] == '='; }
    SplitFirstUnique(key, '=', val);
    assert key + "=" + val == key + ['='] + val;
  }

  /** `--key` without `=` takes the next argument as its value, and fails
      when it is the last argument. */
  lemma SeparateValue(args: seq<string>, i: nat, longs: map<string, bool>, read: Reader,
                      out: map<string, Value>, key: string)
    requires i < |args| && args[i] == "--" + key && key != [] && '=' !in key
    ensures i + 1 == |args| ==> Scan(args, i, longs, read, out) == ScanFailed(MissingValue(key))
    ensures i + 1 < |args| ==>
      Scan(args, i, longs, read, out) == Resume(args, longs, read, Option(longs, read, out, key, args[i + 1], i + 2))
  {
    var arg := args[i];
    assert arg[0] == '-' && |arg| > 2;
    assert arg != "help" by { assert "help"[0] == 'h'; }
    assert arg != "--";
    assert HasPrefix(arg, "--");
    assert arg[2..] == key;
  }

  /** An unknown long key is passed over; a bool key records true and, given
      without `=`, still takes the next argument, whatever it is. */
  lemma UnknownAndBoolKeys(args: seq<string>, i: nat, longs: map<string, bool>, read: Reader,
                           out: map<string, Value>, key: string)
    requires i + 1 < |args| && args[i] == "--" + key && key != [] && '=' !in key
    ensures key !in longs ==> Scan(args, i, longs, read, out) == Scan(args, i + 2, longs, read, out)
    ensures key in longs && longs[key] ==>
      Scan(args, i, longs, read, out) == Scan(args, i + 2, longs, read, out[key := Bool(true)])
  {
    SeparateValue(args, i, longs, read, out, key);
  }

  /** The test of lib/args_test.go: `--host=example.com --port 9000` reads
      host and port, given a reader that reads those two lines. */
  lemma ArgsTestExample(read: Reader)
    requires read("host: example.com") == Ok(Doc(Some(map["host" := Str("example.com")])))
    requires read("port: 9000") == Ok(Doc(Some(map["port" := Value.Int(9000)])))
    ensures
      Scan(["program", "--host=example.com", "--port", "9000"], 1, TestLongs(), read, map[]) ==
      Parsed(map["host" := Str("example.com"), "port" := Value.Int(9000)])
  {
    var args := ["program", "--host=example.com", "--port", "9000"];
    ExampleHost(args, read);
    ExamplePort(args, read);
  }

  /** The long flags of the test's struct, and whether each is a bool. */
  function TestLongs(): map<string, bool>
  {
    map["host" := false, "port" := false, "ssl-enabled" := true, "ssl-cert" := false]
  }

  lemma ExampleHost(args: seq<string>, read: Reader)
    requires |args| == 4 && args[1] == "--host=example.com"
    requires read("host: example.com") == Ok(Doc(Some(map["host" := Str("example.com")])))
    ensures Scan(args, 1, TestLongs(), read, map[]) == Scan(args, 2, TestLongs(), read, map["host" := Str("example.com")])
  {
    assert args[1] == "--" + "host" + "=" + "example.com";
    EqualsSplitsAtFirst(args, 1, TestLongs(), read, map[], "host", "example.com");
    ExampleLines();
    var d := Doc(Some(map["host" := Str("example.com")]));
    assert "host" in TestLongs() && !TestLongs()["host"];
    assert Item(d, "host") == Str("example.com");
    assert Option(TestLongs(), read, map[], "host", "example.com", 2) == Continue(2, map["host" := Str("example.com")]);
  }

  lemma ExamplePort(args: seq<string>, read: Reader)
    requires |args| == 4 && args[2] == "--port" && args[3] == "9000"
    requires read("port: 9000") == Ok(Doc(Some(map["port" := Value.Int(9000)])))
    ensures Scan(args, 2, TestLongs(), read, map["host" := Str("example.com")]) ==
      Parsed(map["host" := Str("example.com"), "port" := Value.Int(9000)])
  {
    var m1 := map["host" := Str("example.com")];
    assert args[2] == "--" + "port";
    SeparateValue(args, 2, TestLongs(), read, m1, "port");
    ExampleLines();
  }

  lemma ExampleLines()
    ensures "host" + ": " + "example.com" == "host: example.com"
    ensures "port" + ": " + "9000" == "port: 9000"
  {
  }
}
