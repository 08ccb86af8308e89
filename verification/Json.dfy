/** JSON values by lookup: what `serde_json::Value` answers to `get`. */
module Json {
  import opened Options

  datatype Value =
    | Null
    | Bool(b: bool)
    | Int(n: int)
    | Float(text: string)
    | String(s: string)
    | Array(items: seq<Value>)
    | Object(members: map<string, Value>)

  /** `v.get(key)`: absent unless `v` is an object with that member. */
  function Get(v: Value, key: string): Option<Value> {
    if v.Object? && key in v.members then Some(v.members[key]) else None
  }

  /** `get` along a path of keys. */
  function GetPath(v: Value, path: seq<string>): Option<Value> {
    if path == [] then Some(v)
    else
      var next := Get(v, path[0]);
      if next.None? then None else GetPath(next.value, path[1..])
  }

  /** `v.and_then(as_str)`. */
  function AsString(v: Option<Value>): Option<string> {
    if v.Some? && v.value.String? then Some(v.value.s) else None
  }
}
