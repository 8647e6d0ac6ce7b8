/** Plain outcome datatypes shared by the checkout model.
- Option<T>: a value that may be absent (a Python `None` or a missing key).
- Result<T, E>: the outcome of a step that either produces a value or raises.
- Outcome<E>: the outcome of a check that produces nothing but may raise.
 */
module Wrappers {

  datatype Option<+T> = None | Some(value: T)

  datatype Result<+T, +E> = Ok(value: T) | Err(error: E)

  datatype Outcome<+E> = Pass | Fail(error: E)
}
