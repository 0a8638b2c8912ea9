/** Optional values: the model's stand-in for JavaScript's `null`/`undefined`. */
module Wrappers {

  /** A present value or its absence. */
  datatype Option<+T> = None | Some(value: T)
}
