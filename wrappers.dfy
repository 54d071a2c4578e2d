/** Optional values, used wherever the source has `null`, an absent key or a read that can fail. */
module Wrappers {

  datatype Option<+T> = None | Some(value: T)
}
