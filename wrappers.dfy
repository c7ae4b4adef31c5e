/** Option and Result: Python's `None` and the exceptions that the
    handlers catch, as values. */
module Wrappers {

  datatype Option<+T> = None | Some(value: T)

  datatype Result<+T, +E> = Success(value: T) | Failure(error: E)

  /** Python's `x or ""` for an optional string: `None` reads as empty. */
  function OrEmpty(s: Option<string>): string
  {
    match s
    case None => ""
    case Some(v) => v
  }

  /** Python truthiness of an optional string: `None` and `""` are both false. */
  predicate IsBlank(s: Option<string>)
  {
    s.None? || s.value == ""
  }
}
