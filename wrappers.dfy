/** Optional values, the shape both cores use for "no result". */
module Wrappers {

  /** `None` stands for Ruby's `nil` and for an absent JSON member. */
  datatype Option<+T> = None | Some(value: T)
}
