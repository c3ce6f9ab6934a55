/** Optional values: a lookup that may miss, a number that may not parse. */
module Wrappers {

  datatype Option<+T> = None | Some(value: T)

}
