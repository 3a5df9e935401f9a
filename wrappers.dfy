/** Optional values: JavaScript's `null`/`undefined`/`NaN` outcomes are `None`. */
module Wrappers {
  datatype Option<+T> = None | Some(value: T)
}
