/** Optional values, used where the server either has a value or has none. */
module Wrappers {

  datatype Option<+T> = None | Some(value: T)

}
