/** JSON values as the adapters exchange them, and the failure type of the operations on them. */
module JsonValues {

  datatype Json =
    | Null
    | Bool(b: bool)
    | Num(n: int)
    | Str(s: string)
    | Arr(items: seq<Json>)
    | Obj(fields: map<string, Json>)

  type Object = map<string, Json>

  /** A computation that ends in a value or in an exception that aborts the run. */
  datatype Result<+T> = Ok(value: T) | Err {
    predicate IsFailure() {
      Err?
    }

    function PropagateFailure<U>(): Result<U>
      requires Err?
    {
      Err
    }

    function Extract(): T
      requires Ok?
    {
      value
    }
  }

  /** The dictionary lookup that answers null for a missing key. */
  function Get(o: Object, key: string): Json {
    if key in o then o[key] else Null
  }

  /** Python's truth value of a JSON value. */
  predicate Truthy(value: Json) {
    match value
    case Null => false
    case Bool(b) => b
    case Num(n) => n != 0
    case Str(s) => s != ""
    case Arr(items) => items != []
    case Obj(fields) => fields != map[]
  }

  /** The value at a path of keys, if objects lead there. */
  function At(value: Json, path: seq<string>): Result<Json>
    decreases |path|
  {
    if path == [] then Ok(value)
    else if value.Obj? && path[0] in value.fields then At(value.fields[path[0]], path[1..])
    else Err
  }
}
