/** Optional values: a JavaScript value that may be absent (null or undefined),
    or a foreign call that may throw instead of returning. */
module Wrappers {

  datatype Option<+T> = None | Some(value: T)
}
