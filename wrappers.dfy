/** Optional values; `None` also stands for a run that panics. */
module Wrappers {
  datatype Option<+T> = None | Some(value: T)
}
