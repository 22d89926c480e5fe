/** Optional values, used for the Go idiom of a result paired with an `error`. */
module Wrappers {

  /** `None` stands for a non-nil Go `error`, `Some(v)` for a nil error with result `v`. */
  datatype Option<+T> = None | Some(value: T)
}
