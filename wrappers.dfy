/** Optional values: a generator call that raised, a dictionary key that is missing. */
module Wrappers {

  datatype Option<+T> = None | Some(value: T)
}
