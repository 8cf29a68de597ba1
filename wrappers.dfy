/** Optional values, standing for JavaScript's `null`/`undefined` and for "nothing issued". */
module Wrappers {
  datatype Option<+T> = None | Some(value: T)
}
