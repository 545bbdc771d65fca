/** Optional values: JavaScript's `null` / `undefined` / a missing document field. */
module Wrappers {
  datatype Option<+T> = None | Some(value: T)
}
