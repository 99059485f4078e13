/** Optional values: a lookup that may find nothing, an operation that may fail. */
module Wrappers {

  datatype Option<+T> = None | Some(value: T)
}
