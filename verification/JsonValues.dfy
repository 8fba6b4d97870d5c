/** JSON values as `serde_json::Value` presents them, with its total accessors. */
module JsonValues {
  import opened Wrappers

  /** Numbers that are not integers are kept as their source text. */
  datatype Json =
    | Null
    | Bool(flag: bool)
    | Int(n: int)
    | Float(text: string)
    | Str(s: string)
    | Arr(items: seq<Json>)
    | Obj(fields: map<string, Json>)

  /** `value.get(key)`: absent for a missing key and for anything that is not an object. */
  function Get(j: Json, key: string): Option<Json> {
    if j.Obj? && key in j.fields then Some(j.fields[key]) else None
  }

  /** `value[key]`: null where `Get` finds nothing. */
  function Index(j: Json, key: string): Json {
    var found := Get(j, key);
    if found.Some? then found.value else Null
  }

  /** `value.as_str()` on an optional value. */
  function AsStr(j: Option<Json>): Option<string> {
    if j.Some? && j.value.Str? then Some(j.value.s) else None
  }

  /** The value reached by following `path` through nested objects. */
  function At(j: Json, path: seq<string>): Option<Json>
    decreases |path|
  {
    if path == [] then Some(j)
    else
      var next := Get(j, path[0]);
      if next.None? then None else At(next.value, path[1..])
  }
}
