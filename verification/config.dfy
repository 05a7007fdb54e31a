/**
 * The scope map of the package main prototype (config.go): a Go map that
 * may be nil, with an insert that refuses a name already present.
 */
module Config {
  import opened Wrappers
  import opened Values

  /** `items` is None while the Go map is still nil. */
  datatype Config = Config(items: Option<map<string, Value>>)

  const Empty := Config(None)

  datatype ConfigError = AlreadyDefined(key: string) // "the name %s is already defined in this scope"

  /** What the scope binds `key` to, if anything. */
  function Lookup(c: Config, key: string): Option<Value>
  {
    if c.items.Some? && key in c.items.value then Some(c.items.value[key]) else None
  }

  /** Config.hasKey: a nil map holds nothing; otherwise membership. */
  function HasKey(c: Config, key: string): (b: bool)
    ensures c.items.None? ==> !b
    ensures b <==> Lookup(c, key).Some?
  {
    if c.items.None? then false else key in c.items.value
  }

  /** Config.set: the map is created on first use; `key` is bound to `v`
      whether or not it was bound before, and no other key changes. */
  function Set(c: Config, key: string, v: Value): (r: Config)
    ensures r.items.Some?
    ensures Lookup(r, key) == Some(v)
    ensures forall k :: k != key ==> Lookup(r, k) == Lookup(c, k)
  {
    match c.items
    case None => Config(Some(map[key := v]))
    case Some(m) => Config(Some(m[key := v]))
  }

  /** Config.setUnique: a key already present is refused and the scope is
      unchanged; a new key is inserted as by `set`. */
  function SetUnique(c: Config, key: string, v: Value): (r: Result<Config, ConfigError>)
    ensures r.Err? <==> Lookup(c, key).Some?
    ensures r.Err? ==> r.error == AlreadyDefined(key)
    ensures r.Ok? ==> r.value == Set(c, key, v)
  {
    if HasKey(c, key) then Err(AlreadyDefined(key)) else Ok(Set(c, key, v))
  }

  /** Inserting a fresh key and inserting it again: the second insert is
      refused and the first value stays. */
  lemma SetUniqueTwice(c: Config, key: string, v1: Value, v2: Value)
    requires !HasKey(c, key)
    ensures SetUnique(c, key, v1).Ok?
    ensures SetUnique(SetUnique(c, key, v1).value, key, v2) == Err(AlreadyDefined(key))
    ensures Lookup(SetUnique(c, key, v1).value, key) == Some(v1)
  {
  }

  /** Binding two distinct keys in either order gives the same scope. */
  lemma SetCommutes(c: Config, k1: string, v1: Value, k2: string, v2: Value)
    requires k1 != k2
    ensures Set(Set(c, k1, v1), k2, v2) == Set(Set(c, k2, v2), k1, v1)
  {
    match c.items
    case None =>
      assert map[k1 := v1][k2 := v2] == map[k2 := v2][k1 := v1];
    case Some(m) =>
      assert m[k1 := v1][k2 := v2] == m[k2 := v2][k1 := v1];
  }

  /** Successful unique inserts of distinct keys commute. */
  lemma SetUniqueCommutes(c: Config, k1: string, v1: Value, k2: string, v2: Value)
    requires k1 != k2 && !HasKey(c, k1) && !HasKey(c, k2)
    ensures SetUnique(SetUnique(c, k1, v1).value, k2, v2).Ok?
    ensures SetUnique(SetUnique(c, k2, v2).value, k1, v1).Ok?
    ensures SetUnique(SetUnique(c, k1, v1).value, k2, v2).value ==
            SetUnique(SetUnique(c, k2, v2).value, k1, v1).value
  {
    var c1 := Set(c, k1, v1);
    var c2 := Set(c, k2, v2);
    assert SetUnique(c, k1, v1) == Ok(c1) && SetUnique(c, k2, v2) == Ok(c2);
    assert Lookup(c1, k2) == Lookup(c, k2) && Lookup(c2, k1) == Lookup(c, k1);
    SetCommutes(c, k1, v1, k2, v2);
  }
}

/**
 * The scope map of lib/config.go: the same map and inserts as config.go,
 * and two read accessors.
 */
module LibConfig {
  import opened Wrappers
  import opened Values
  import opened Config

  /** Config.Get: nil for a nil map or a missing key, else the stored
      value. */
  function Get(c: Config, key: string): (v: Value)
    ensures Lookup(c, key).None? ==> v == Null
    ensures Lookup(c, key).Some? ==> v == Lookup(c, key).value
  {
    if c.items.None? then Null
    else if key in c.items.value then c.items.value[key] else Null
  }

  /** Config.GetString: the stored string, and "" for a missing key or a
      value of another type. */
  function GetString(c: Config, key: string): (s: string)
    ensures Lookup(c, key).Some? && Lookup(c, key).value.Str? ==> s == Lookup(c, key).value.s
    ensures !(Lookup(c, key).Some? && Lookup(c, key).value.Str?) ==> s == ""
  {
    var v := Get(c, key);
    if v.Null? then ""
    else if v.Str? then v.s
    else ""
  }

  /** What `set` stores, `Get` and `GetString` read back. */
  lemma SetThenGet(c: Config, key: string, v: Value)
    ensures Get(Set(c, key, v), key) == v
    ensures GetString(Set(c, key, v), key) == (if v.Str? then v.s else "")
  {
  }
}
