/** Optional values: a missing coordinate, an undefined diagnostic. */
module Wrappers {
  datatype Option<+T> = None | Some(value: T)
}
