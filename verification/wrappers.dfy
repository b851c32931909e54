/** Optional values, for the fields and results that PHP represents with null. */
module Wrappers {

  datatype Option<+T> = None | Some(value: T)
}
