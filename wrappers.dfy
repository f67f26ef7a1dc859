/** Optional values: a lookup that may fail, a header or variable that may be absent. */
module Wrappers {

  datatype Option<+T> = None | Some(value: T)
}
