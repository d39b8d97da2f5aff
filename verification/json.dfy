/**
 * JSON-compatible values as the handlers see them after `json.loads`, with
 * Python's truthiness and the `dict.get(k) or default` idiom the handlers use.
 */
module Json {

  /** A decoded JSON value. Numbers are integers only. */
  datatype Value =
    | Null
    | Bool(b: bool)
    | Num(n: int)
    | Str(s: string)
    | Arr(items: seq<Value>)
    | Obj(fields: map<string, Value>)

  /** Python truthiness: `None`, `False`, `0`, `""`, `[]` and `{}` are false. */
  predicate Truthy(v: Value) {
    match v
    case Null => false
    case Bool(b) => b
    case Num(n) => n != 0
    case Str(s) => s != ""
    case Arr(items) => items != []
    case Obj(fields) => fields != map[]
  }

  /** `d.get(k)` on a dict: the value under `k`, or `None` when `k` is absent. */
  function Get(fields: map<string, Value>, k: string): (r: Value)
    ensures k !in fields ==> r == Null
    ensures k in fields ==> r == fields[k]
  {
    if k in fields then fields[k] else Null
  }

  /** Python `a or b`: `a` when it is truthy, `b` otherwise. */
  function Or(a: Value, b: Value): (r: Value)
    ensures Truthy(a) ==> r == a
    ensures !Truthy(a) ==> r == b
  {
    if Truthy(a) then a else b
  }

  /** `{"error": message}`, the body every error response carries. */
  function Error(message: string): Value {
    Obj(map["error" := Str(message)])
  }
}
