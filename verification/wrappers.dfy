/** Optional values, used where the Go code reports "not found" or "not parsable". */
module Wrappers {

  datatype Option<+T> = None | Some(value: T)
}
