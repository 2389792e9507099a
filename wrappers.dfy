/** Optional values: a free slot, a missing database row, a column that is still NULL. */
module Wrappers {
  datatype Option<+T> = None | Some(value: T)
}
