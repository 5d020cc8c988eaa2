/** Values as the JavaScript code sees them: JSON request fields, record
    properties and environment variables. */
module Common {
  import Text

  datatype Option<+T> = None | Some(value: T)

  /** A JSON-ish JavaScript value. Numbers are integers here: NaN and
      fractions never reach the modelled code paths. */
  datatype Value = Undefined | Null | Bool(b: bool) | Num(n: int) | Str(s: string)

  /** JavaScript truthiness (`!!v`). */
  predicate Truthy(v: Value) {
    match v
    case Undefined => false
    case Null => false
    case Bool(b) => b
    case Num(n) => n != 0
    case Str(s) => s != ""
  }

  /** What a template literal `${v}` inserts. */
  function ToString(v: Value): string {
    match v
    case Undefined => "undefined"
    case Null => "null"
    case Bool(b) => if b then "true" else "false"
    case Num(n) => if n < 0 then "-" + Text.NatToString(-n) else Text.NatToString(n)
    case Str(s) => s
  }

  /** A plain object: a missing property reads as `undefined`. */
  type Record = map<string, Value>

  function Get(r: Record, key: string): Value {
    if key in r then r[key] else Undefined
  }

  /** An environment variable: absent, or a string (the empty string is falsy). */
  predicate EnvSet(e: Option<string>) {
    e.Some? && e.value != ""
  }

  /** `process.env.X || fallback` */
  function EnvOr(e: Option<string>, fallback: string): string {
    if EnvSet(e) then e.value else fallback
  }

  /** An exception thrown by the modelled JavaScript: a TypeError raised by
      calling a string method on a non-string (named by the variable that
      held it), or an error raised by a library with its message. */
  datatype JsError = TypeError(culprit: string) | LibraryError(message: string)

  datatype Result<+T> = Ok(value: T) | Thrown(error: JsError)
}
