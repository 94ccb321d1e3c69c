/** Optional values, used for lookups that may fail and for files that may not open. */
module Wrappers {
  datatype Option<T> = None | Some(value: T)
}
