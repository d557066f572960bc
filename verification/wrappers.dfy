/** Optional values, used wherever the Go code gets a value together with an "ok" flag or an error. */
module Wrappers {

  datatype Option<+T> = None | Some(value: T)
}
