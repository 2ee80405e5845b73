/** Decoded JSON values, as the Python services see them after `json.load`
    or `response.json()`. */
module Json {
  import opened Wrappers

  datatype Json =
    | Null
    | Bool(b: bool)
    | Int(i: int)
    | Float(f: real)
    | Str(s: string)
    | Arr(items: seq<Json>)
    | Obj(fields: map<string, Json>)

  /** Python truthiness (`if value:`) of a decoded JSON value. */
  predicate Truthy(j: Json) {
    match j
    case Null => false
    case Bool(b) => b
    case Int(i) => i != 0
    case Float(f) => f != 0.0
    case Str(s) => s != []
    case Arr(items) => items != []
    case Obj(fields) => fields != map[]
  }

  /** The number Python arithmetic and comparisons see in a value, if any
      (`bool` is a subclass of `int` in Python). */
  function AsNumber(j: Json): Option<real> {
    match j
    case Bool(b) => Some(if b then 1.0 else 0.0)
    case Int(i) => Some(i as real)
    case Float(f) => Some(f)
    case _ => None
  }

  /** `d.get(key)`: the value stored under `key`, or `None` when absent. */
  function Get(d: map<string, Json>, key: string): Json {
    if key in d then d[key] else Null
  }
}
