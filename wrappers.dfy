/** Optional values: the model's rendering of `null` / `undefined` in the source. */
module Wrappers {
  datatype Option<+T> = None | Some(value: T)
}
