/**
  The already-parsed project configuration document and the few Python
  operations the validator applies to its values: truthiness, `type()`,
  `str()`, `dict.get`, `str.lower` and the dotted-path lookup.
*/
module ConfigValues {
  import opened Wrappers
  import opened Strings

  /**
    A value produced by the YAML loader. `Other` stands for a list, float,
    date or set: it carries that type's name, its `str()` text and its
    truthiness, and it has none of the methods `get`, `items`, `values`,
    `lower` or `startswith`. Byte strings are not among the values.
  */
  datatype Value =
    | Map(entries: map<string, Value>)
    | Str(s: string)
    | Bool(b: bool)
    | Int(i: int)
    | Null
    | Other(pyType: string, text: string, truthy: bool)

  const EmptyMap: Value := Map(map[])

  /** Python truthiness: `None`, `""`, `False`, `0` and `{}` are false. */
  predicate Truthy(v: Value) {
    match v
    case Map(m) => m != map[]
    case Str(s) => s != ""
    case Bool(b) => b
    case Int(i) => i != 0
    case Null => false
    case Other(_, _, t) => t
  }

  /** The name Python gives the value's type. */
  function TypeName(v: Value): string {
    match v
    case Map(_) => "dict"
    case Str(_) => "str"
    case Bool(_) => "bool"
    case Int(_) => "int"
    case Null => "NoneType"
    case Other(t, _, _) => t
  }

  /** `str(type(v))`. */
  function ClassName(v: Value): string {
    "<class '" + TypeName(v) + "'>"
  }

  /** `str(e)` of the `AttributeError` raised by calling method `attr` on `v`. */
  function NoAttribute(v: Value, attr: string): string {
    "'" + TypeName(v) + "' object has no attribute '" + attr + "'"
  }

  /** `str(v)` as an f-string renders it; a non-empty mapping is shown only as `{...}`. */
  function Show(v: Value): string {
    match v
    case Map(m) => if m == map[] then "{}" else "{...}"
    case Str(s) => s
    case Bool(b) => if b then "True" else "False"
    case Int(i) => IntToDecimal(i)
    case Null => "None"
    case Other(_, text, _) => text
  }

  /** `m.get(key, default)` on a mapping. */
  function MapGet(m: map<string, Value>, key: string, default: Value): (r: Value)
    ensures key in m ==> r == m[key]
    ensures key !in m ==> r == default
  {
    if key in m then m[key] else default
  }

  /** `v.get(key, default)`: only a mapping has `get`. */
  function PyGet(v: Value, key: string, default: Value): (r: Result<Value>)
    ensures r.Ok? <==> v.Map?
    ensures r.Err? ==> r.error == NoAttribute(v, "get")
  {
    if v.Map? then Ok(MapGet(v.entries, key, default)) else Err(NoAttribute(v, "get"))
  }

  /** `v.lower()`: only a string has `lower`. */
  function PyLower(v: Value): (r: Result<string>)
    ensures r.Ok? <==> v.Str?
    ensures r.Ok? ==> r.value == Lower(v.s)
    ensures r.Err? ==> r.error == NoAttribute(v, "lower")
  {
    if v.Str? then Ok(Lower(v.s)) else Err(NoAttribute(v, "lower"))
  }

  /**
    The value reached by following `keys` from `v`, or `Null` (Python's `None`)
    as soon as a key is missing or the value in hand is not a mapping.
  */
  function Lookup(v: Value, keys: seq<string>): Value
    decreases |keys|
  {
    if keys == [] then v
    else if v.Map? && keys[0] in v.entries then Lookup(v.entries[keys[0]], keys[1..])
    else Null
  }

  /** Every key of `keys` is found in a mapping on the way down from `v`. */
  ghost predicate PathPresent(v: Value, keys: seq<string>) {
    forall i :: 0 <= i < |keys| ==>
      Lookup(v, keys[..i]).Map? && keys[i] in Lookup(v, keys[..i]).entries
  }

  /** Looking up one more key continues from where the shorter path ended. */
  lemma {:induction false} LookupStep(v: Value, keys: seq<string>, k: string)
    ensures Lookup(v, keys + [k]) ==
      var p := Lookup(v, keys); if p.Map? && k in p.entries then p.entries[k] else Null
    decreases |keys|
  {
    if keys != [] {
      assert (keys + [k])[1..] == keys[1..] + [k];
      if v.Map? && keys[0] in v.entries {
        LookupStep(v.entries[keys[0]], keys[1..], k);
      }
    }
  }

  /**
    The lookup finds a value only along a present path: a missing key or a
    non-mapping on the way gives `Null`, and along a present path the result is
    the last mapping's entry (which is `Null` again for an explicit null).
  */
  lemma {:induction false} LookupFindsPresentPath(v: Value, keys: seq<string>)
    ensures !PathPresent(v, keys) ==> Lookup(v, keys) == Null
    ensures PathPresent(v, keys) && keys != [] ==>
      var last := |keys| - 1;
      Lookup(v, keys) == Lookup(v, keys[..last]).entries[keys[last]]
    decreases |keys|
  {
    if keys != [] {
      var last := |keys| - 1;
      var init := keys[..last];
      assert keys == init + [keys[last]];
      LookupStep(v, init, keys[last]);
      LookupFindsPresentPath(v, init);
      assert forall i :: 0 <= i < |init| ==> init[..i] == keys[..i];
      if !PathPresent(v, keys) && PathPresent(v, init) {
        assert !(Lookup(v, init).Map? && keys[last] in Lookup(v, init).entries);
      }
    }
  }
}
