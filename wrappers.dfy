/** Optional values, used for JSON bodies that may fail to parse and for
    Python operators that may raise instead of returning. */
module Wrappers {
  datatype Option<+T> = None | Some(value: T)
}
