/** Optional values: a C pointer that may be NULL, a slot that may be missing. */
module Wrappers {

  datatype Option<+T> = None | Some(value: T)
}
