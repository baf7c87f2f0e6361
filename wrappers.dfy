/** Optional values: JavaScript's `undefined`/`null` and SQL's NULL. */
module Wrappers {
  datatype Option<+T> = None | Some(value: T)
}
