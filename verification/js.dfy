/** The few pieces of JavaScript value semantics the handlers depend on:
    absent fields, truthiness, `a || fallback` defaults and error results. */
module Js {

  /** An optional field of a request body or a stored document:
      `None` is an absent (`undefined`) field. */
  datatype Option<+T> = None | Some(value: T) {
    function GetOr(default: T): T {
      match this
      case Some(v) => v
      case None => default
    }
  }

  /** Either a value or an error; the handlers' early `return`s become `Err`. */
  datatype Result<+T, +E> = Ok(value: T) | Err(error: E)

  /** An HTTP error response: its status code and the `error` message of its JSON body. */
  datatype HttpError = HttpError(status: int, message: string)

  /** An untyped JSON value, for the places where a handler inspects the
      type of what it was given. Numbers are reals; NaN is not modelled. */
  datatype Value = Undefined | Null | Bool(b: bool) | Num(n: real) | Str(s: string) | Object

  /** JavaScript truthiness of a JSON value. */
  predicate Truthy(v: Value) {
    match v
    case Undefined => false
    case Null => false
    case Bool(b) => b
    case Num(n) => n != 0.0
    case Str(s) => s != ""
    case Object => true
  }

  /** Truthiness of an optional string field: present and non-empty. */
  predicate TruthyStr(s: Option<string>) {
    s.Some? && s.value != ""
  }

  /** Truthiness of an optional number field: present and non-zero. */
  predicate TruthyNum(x: Option<real>) {
    x.Some? && x.value != 0.0
  }

  /** `s || fallback` for an optional string. */
  function StrOr(s: Option<string>, fallback: string): string
  {
    if TruthyStr(s) then s.value else fallback
  }

  /** `x || fallback` for an optional number. */
  function NumOr(x: Option<real>, fallback: real): real
  {
    if TruthyNum(x) then x.value else fallback
  }
}
