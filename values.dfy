/** JavaScript values and outcomes shared by the resolver models. */
module Values {

  datatype Option<+T> = None | Some(value: T)

  /** A computation that either yields a value or throws a TypeError
      (reading a property of `undefined`). */
  datatype Outcome<+T> = Ok(value: T) | TypeError

  /** The JavaScript values a mock record can hold. Numbers are integers here. */
  datatype JsValue =
    | Undefined
    | Null
    | Bool(b: bool)
    | Num(n: int)
    | Str(s: string)
    | Obj

  /** JavaScript truthiness, as used by `&&` and `if`. */
  predicate Truthy(v: JsValue)
  {
    match v
    case Undefined => false
    case Null => false
    case Bool(b) => b
    case Num(n) => n != 0
    case Str(s) => s != ""
    case Obj => true
  }

  /** Property read `o[k]` on a plain record: a missing key reads as `undefined`. */
  function Prop(o: map<string, JsValue>, k: string): JsValue
  {
    if k in o then o[k] else Undefined
  }
}
