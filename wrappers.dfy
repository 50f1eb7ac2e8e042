/** Optional values: Go's nil-able `error` and similar. */
module Wrappers {
  datatype Option<+T> = None | Some(value: T)
}
