/** Optional values: `None` stands for the Java `null` the source returns or dereferences. */
module Wrappers {
  datatype Option<+T> = None | Some(value: T)
}
