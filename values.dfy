/**
 * JavaScript values as they occur in the user service: fields of user
 * records and request bodies, headers, route parameters and query strings.
 */
module JsValues {

  datatype Option<T> = None | Some(value: T)

  /**
   * The value of one field of a JSON object. `Undefined` is a field the object
   * does not have; `Date` is a timestamp written by `new Date()`.
   * JavaScript's `===` on these values is Dafny's `==`, except on two
   * dates, which JavaScript compares by object identity; no lookup of the
   * service compares dates.
   */
  datatype Value = Undefined | Str(s: string) | Bool(b: bool) | Date(time: int)

  /** A header, route parameter or query parameter: Express gives a string or `undefined`. */
  datatype Param = Absent | Given(text: string)

  /** The parameter as a field value, for comparisons with `===`. */
  function FromParam(p: Param): Value
  {
    match p
    case Absent => Undefined
    case Given(t) => Str(t)
  }

  /** The property name that `obj[p]` looks up: `undefined` becomes the name "undefined". */
  function PropertyKey(p: Param): string
  {
    match p
    case Absent => "undefined"
    case Given(t) => t
  }

  /** JavaScript truthiness, as used by `if (x)` and `!x`. */
  predicate Truthy(v: Value)
  {
    match v
    case Undefined => false
    case Str(s) => s != ""
    case Bool(b) => b
    case Date(_) => true
  }
}
