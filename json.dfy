/**
 * Already-parsed JSON values, as `json.loads` hands them to the scripts.
 * A record is a JSON object: a map from field names to values.
 */
module Json {

  datatype Value =
    | Null
    | Bool(b: bool)
    | Int(i: int)
    | Float(x: real)
    | Str(s: string)
    | Arr(items: seq<Value>)
    | Obj(fields: map<string, Value>)

  type Row = map<string, Value>

  /** `r.get(k)`: an absent key and a JSON null both read as Python's None. */
  function Get(r: Row, k: string): Value
  {
    if k in r then r[k] else Null
  }

  /** `r.get(k, d)`: the default only replaces an absent key, never a null. */
  function GetOr(r: Row, k: string, d: Value): Value
  {
    if k in r then r[k] else d
  }

  /** Python truthiness of a parsed JSON value. */
  predicate Truthy(v: Value)
  {
    match v
    case Null => false
    case Bool(b) => b
    case Int(i) => i != 0
    case Float(x) => x != 0.0
    case Str(s) => s != ""
    case Arr(xs) => xs != []
    case Obj(m) => m != map[]
  }

  /** Lists and dicts cannot be used as Python dict keys. */
  predicate Hashable(v: Value)
  {
    !v.Arr? && !v.Obj?
  }
}
