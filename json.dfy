/** The part of `serde_json::Value` the monitor reads: field access by key, and
    `string_at`, which follows a path of keys into nested objects (lib.rs lines 1573-1579). */
module Json {
  import opened Wrappers

  datatype Value =
    | Null
    | Bool(b: bool)
    | Number(n: int)
    | Str(s: string)
    | Array(items: seq<Value>)
    | Object(fields: map<string, Value>)

  /** `Value::get(key)`: the field of an object; nothing for a missing field or for any value
      that is not an object. */
  function Get(v: Value, key: string): (r: Option<Value>)
    ensures r.Some? <==> v.Object? && key in v.fields
    ensures r.Some? ==> r.value == v.fields[key]
  {
    if v.Object? then Lookup(v.fields, key) else None
  }

  /** The value reached by taking each key of `path` in turn, each one inside the value the
      previous key gave. */
  function ValueAt(v: Value, path: seq<string>): Option<Value>
    decreases |path|
  {
    if path == [] then Some(v)
    else
      match Get(v, path[0])
      case None => None
      case Some(child) => ValueAt(child, path[1..])
  }

  /** `as_str`: the text of a string value. */
  function AsStr(v: Option<Value>): (r: Option<string>)
    ensures r.Some? <==> v.Some? && v.value.Str?
    ensures r.Some? ==> r.value == v.value.s
  {
    match v
    case Some(Str(s)) => Some(s)
    case _ => None
  }

  /** `v` is an object whose field `key` holds a string. */
  predicate HasStr(v: Value, key: string) {
    v.Object? && key in v.fields && v.fields[key].Str?
  }

  /** A path of one key reads that field of an object. */
  lemma ValueAtOneKey(v: Value, key: string)
    ensures ValueAt(v, [key]) == Get(v, key)
  {
    if Get(v, key).Some? {
      assert ValueAt(v, [key]) == ValueAt(v.fields[key], []);
    }
  }

  /** A path of two keys reads the second key inside the first: it finds nothing when the
      first field is not an object. */
  lemma ValueAtTwoKeys(v: Value, outer: string, inner: string)
    ensures ValueAt(v, [outer, inner]).Some? <==>
      v.Object? && outer in v.fields && v.fields[outer].Object? && inner in v.fields[outer].fields
    ensures ValueAt(v, [outer, inner]).Some? ==> ValueAt(v, [outer, inner]).value == v.fields[outer].fields[inner]
  {
    if Get(v, outer).Some? {
      var child := v.fields[outer];
      assert [outer, inner][1..] == [inner];
      ValueAtOneKey(child, inner);
    }
  }

  /** `string_at`: the loop that walks `path` one key at a time, giving up at the first
      missing key, and reads the string found at its end. */
  method StringAt(value: Value, path: seq<string>) returns (r: Option<string>)
    ensures r == AsStr(ValueAt(value, path))
  {
    var current := value;
    var i := 0;
    while i < |path|
      invariant 0 <= i <= |path|
      invariant ValueAt(value, path) == ValueAt(current, path[i..])
    {
      assert path[i..][1..] == path[i + 1..];
      var next := Get(current, path[i]);
      if next.None? {
        return None;
      }
      current := next.value;
      i := i + 1;
    }
    r := AsStr(Some(current));
  }
}
