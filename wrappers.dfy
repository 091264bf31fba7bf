/** Optional values: `None` stands for Python's `None` where the source returns it. */
module Wrappers {

  datatype Option<+T> = None | Some(value: T)
}
