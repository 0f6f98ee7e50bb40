/** Failure-compatible wrappers: `Option` stands for a nullable result, `Result` for a value
    or the `Error` a constructor or operation throws. */
module Wrappers {

  datatype Option<+T> = None | Some(value: T)

  datatype Result<+T> = Ok(value: T) | Err(message: string)

  /** Converts a result to an option, forgetting the error message. */
  function ToOption<T>(r: Result<T>): (o: Option<T>)
    ensures o.Some? <==> r.Ok?
    ensures o.Some? ==> o.value == r.value
  {
    match r
    case Ok(v) => Some(v)
    case Err(_) => None
  }
}
