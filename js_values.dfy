/**
 * JavaScript values as they occur in a parsed JSON request body or a JSON column,
 * plus `Date` objects, which the update handler stores into a request body.
 */
module JsValues {

  datatype Value =
    | Null
    | Bool(b: bool)
    | Num(n: real)
    | Str(s: string)
    | Arr(items: seq<Value>)
    | Obj(fields: map<string, Value>)
    | Date(ms: int)

  /**
   * JavaScript truthiness: `null`, `false`, `0` and `""` are falsy; every array,
   * object and date is truthy. (`NaN` cannot come out of JSON.)
   */
  predicate Truthy(v: Value) {
    match v
    case Null => false
    case Bool(b) => b
    case Num(n) => n != 0.0
    case Str(s) => s != ""
    case Arr(_) => true
    case Obj(_) => true
    case Date(_) => true
  }

  /** `typeof v === 'object'` for a value that is not `null`. */
  predicate IsObjectLike(v: Value) {
    v.Arr? || v.Obj? || v.Date?
  }
}
