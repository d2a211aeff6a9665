/** Optional values: a parse that may find no number. */
module Wrappers {

  datatype Option<+T> = None | Some(value: T)
}
