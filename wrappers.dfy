/** Optional values: the model's stand-in for JavaScript's null / undefined
    and for operations that may throw. */
module Wrappers {

  datatype Option<+T> = None | Some(value: T)
}
