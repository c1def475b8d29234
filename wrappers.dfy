/** Optional values: Go's nil-or-value results and decoder failure. */
module Wrappers {
  datatype Option<+T> = None | Some(value: T)
}
