/** Optional values, used for lookups that may miss and for computations that may raise. */
module Wrappers {

  datatype Option<T> = None | Some(value: T)
}
