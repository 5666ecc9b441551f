/** Optional values, standing in for the source's `null` / `undefined`. */
module Wrappers {

  /** `None` plays the part of JavaScript's `null` / `undefined`. */
  datatype Option<+T> = None | Some(value: T)
}
