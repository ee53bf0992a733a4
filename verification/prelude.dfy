/** Wrappers shared by the whole model: Python's `None` and raised exceptions. */
module Prelude {

  /** `None` is Python's `None`; `Some(v)` a present value. */
  datatype Option<+T> = None | Some(value: T)

  /** The outcome of a call that may raise: `Raised` carries the Python exception class. */
  datatype Result<+T> = Ok(value: T) | Raised(error: string)

  function Min(a: int, b: int): (m: int)
  {
    if a <= b then a else b
  }
}
