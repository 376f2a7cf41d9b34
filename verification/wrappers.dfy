/** Optional values, for results the script may not produce. */
module Wrappers {

  datatype Option<+T> = None | Some(value: T)
}
