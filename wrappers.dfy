/** Optional values. */
module Wrappers {

  /** `None` stands for JavaScript's `undefined`: a missing field or a failed lookup. */
  datatype Option<+T> = None | Some(value: T)

}
