/** Optional values, for the places where the source leaves a key out of a record or reports "N/A". */
module Wrappers {

  datatype Option<+T> = None | Some(value: T)
}
