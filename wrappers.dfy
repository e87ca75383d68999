/** Option and Result, the shapes in which the model reports Go's `(value, error)` pairs. */
module Wrappers {

  datatype Option<+T> = None | Some(value: T)

  /** `Ok(v)` stands for a Go call that returned `v, nil`; `Err(e)` for one that returned a non-nil error `e`. */
  datatype Result<+T, +E> = Ok(value: T) | Err(error: E)
}
