/** Optional values: an absent page global, DOM property or setting. */
module Wrappers {

  datatype Option<+T> = None | Some(value: T)
}
