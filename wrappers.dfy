/** Optional values: an absent JSON field, an unset environment variable,
    a `NaN` from `parseInt`, a missing first argument. */
module Wrappers {

  datatype Option<+T> = None | Some(value: T)
}
