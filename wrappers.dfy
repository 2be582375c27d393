/** Optional values: an absent client IP, a lookup that finds nothing. */
module Wrappers {

  datatype Option<+T> = None | Some(value: T)
}
