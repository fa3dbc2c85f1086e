/** Optional values, used wherever the source either produces a value or raises. */
module Wrappers {

  datatype Option<+T> = None | Some(value: T)

}
