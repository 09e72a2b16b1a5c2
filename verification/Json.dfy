/** Parsed JSON, with the accessors of `serde_json::Value` the gateway uses. Object keys
    carry no order: the gateway is built without `preserve_order`. */
module Json {
  import opened Wrappers

  datatype Value =
    | Null
    | Bool(b: bool)
    | Number(n: int)
    | Str(s: string)
    | Array(items: seq<Value>)
    | Object(fields: map<string, Value>)

  /** `get`: a member of an object; nothing on any other value. */
  function Get(v: Value, key: string): Option<Value> {
    if v.Object? && key in v.fields then Some(v.fields[key]) else None
  }

  /** `get(key).and_then(as_str)` */
  function GetStr(v: Value, key: string): Option<string> {
    match Get(v, key)
    case Some(Str(s)) => Some(s)
    case _ => None
  }

  /** `get(key).cloned().unwrap_or(Null)` */
  function GetOrNull(v: Value, key: string): Value { Get(v, key).GetOr(Null) }

  /** `get(key).and_then(as_array)`, empty when there is none. */
  function GetItems(v: Value, key: string): seq<Value> {
    match Get(v, key)
    case Some(Array(items)) => items
    case _ => []
  }
}
