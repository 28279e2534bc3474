/** Small value types shared by the model: Python's `None`-or-value and the
    exceptions the modelled code raises. */
module Wrappers {

  /** `None` models Python's `None`; `Some(v)` a present value. */
  datatype Option<+T> = None | Some(value: T)

  /** The exceptions raised by the modelled code. */
  datatype Error =
    | KeyError(key: string)     // `d[k]` on a dict without `k`
    | ValueError(msg: string)   // raised explicitly by the launcher
    | TypeError(msg: string)    // unpacking `None` into a pair

  datatype Result<+T> = Ok(value: T) | Err(error: Error)
}
