/** Optional values, used where the source's parsers either produce a value or fail. */
module Wrappers {

  datatype Option<+T> = None | Some(value: T)
}
