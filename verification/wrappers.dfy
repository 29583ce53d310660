/** Optional values: a JavaScript property that may be absent, or a remote call that may throw. */
module Wrappers {

  datatype Option<+T> = None | Some(value: T)
}
