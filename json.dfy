/** Parsed JSON values, as `json.loads` returns them (numbers restricted to integers). */
module Json {

  datatype Value =
    | Null
    | Bool(b: bool)
    | Num(n: int)
    | Str(s: string)
    | Arr(items: seq<Value>)
    | Obj(fields: map<string, Value>)

  /** Python truthiness of the value a JSON document parses to. */
  predicate Truthy(v: Value)
  {
    match v
    case Null => false
    case Bool(b) => b
    case Num(n) => n != 0
    case Str(s) => s != ""
    case Arr(items) => items != []
    case Obj(fields) => |fields| != 0
  }

  /** Lists and dicts cannot be dictionary keys (nor be looked up in a dict) in Python. */
  predicate Hashable(v: Value)
  {
    !v.Arr? && !v.Obj?
  }

  /** The message of the `TypeError` Python raises when an unhashable value is looked up in a dict. */
  function UnhashableMessage(v: Value): string
    requires !Hashable(v)
  {
    if v.Arr? then "unhashable type: 'list'" else "unhashable type: 'dict'"
  }
}
