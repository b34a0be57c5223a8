/** Optional values: an external result that either arrived (Some) or failed (None). */
module Wrappers {

  datatype Option<+T> = None | Some(value: T)
}
