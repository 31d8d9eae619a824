/**
 * The JSON values the monitor reads: the inventory API's response body and
 * the persisted state file, as Python sees them after `json.loads`.
 */
module Json {

  /** A decoded JSON document. `Null` is Python's `None`; numbers are kept as reals. */
  datatype Value =
    | Null
    | Bool(b: bool)
    | Number(n: real)
    | Str(s: string)
    | Array(items: seq<Value>)
    | Object(fields: map<string, Value>)

  /**
   * Python truthiness of a decoded value, as used by `if available:` and
   * `if not previous_state.get(...)`: `None`, `False`, zero and empty
   * strings, lists and dicts are false; everything else is true.
   */
  predicate Truthy(v: Value) {
    match v
    case Null => false
    case Bool(b) => b
    case Number(n) => n != 0.0
    case Str(s) => |s| > 0
    case Array(items) => |items| > 0
    case Object(fields) => |fields| > 0
  }

  /** `d.get(key, default)` on a Python dict. */
  function GetOr(fields: map<string, Value>, key: string, default: Value): (v: Value)
    ensures key in fields ==> v == fields[key]
    ensures key !in fields ==> v == default
  {
    if key in fields then fields[key] else default
  }
}
