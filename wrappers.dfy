/** Optional values: `None` stands for the page's `null`. */
module Wrappers {
  datatype Option<+T> = None | Some(value: T)
}
