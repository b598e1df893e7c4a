/** Optional values, for inputs the browser may not supply. */
module Wrappers {
  datatype Option<+T> = None | Some(value: T)
}
