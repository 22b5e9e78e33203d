/** Optional values, used for the `?` fields of the component descriptors. */
module Wrappers {

  datatype Option<+T> = None | Some(value: T)
}
