/**
 * Python's dynamic values as the workflow nodes see them: rows and reports are
 * JSON-like dictionaries, and the nodes branch on Python truthiness and on
 * `dict.get` with a default.
 */
module Values {

  /** A JSON-like Python value (floats are not modelled). */
  datatype Value =
    | Null
    | Bool(b: bool)
    | Int(i: int)
    | Str(s: string)
    | List(items: seq<Value>)
    | Dict(fields: map<string, Value>)

  /** A Python `dict[str, Any]`; key order is not modelled. */
  type Dict = map<string, Value>

  /** The exceptions a node body can raise. */
  datatype PyError = IndexError | TypeError

  /** Python can hash the value: lists and dicts raise `TypeError` as a set element or dict key. */
  predicate Hashable(v: Value) {
    !v.List? && !v.Dict?
  }

  /** Python's `bool(v)`: `None`, `False`, `0`, `""`, `[]` and `{}` are falsy. */
  predicate Truthy(v: Value) {
    match v
    case Null => false
    case Bool(b) => b
    case Int(i) => i != 0
    case Str(s) => |s| != 0
    case List(items) => |items| != 0
    case Dict(fields) => |fields| != 0
  }

  /** Python's `d.get(key, default)`. */
  function Get(d: Dict, key: string, default: Value): (v: Value)
    ensures key in d ==> v == d[key]
    ensures key !in d ==> v == default
  {
    if key in d then d[key] else default
  }

  /** `d.get(key, {}).get(sub, [])` on a dictionary of dictionaries. */
  function GetNested(d: map<string, Dict>, key: string, sub: string): (v: Value)
    ensures key in d && sub in d[key] ==> v == d[key][sub]
    ensures !(key in d && sub in d[key]) ==> v == List([])
  {
    Get(if key in d then d[key] else map[], sub, List([]))
  }
}
