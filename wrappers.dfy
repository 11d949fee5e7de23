/** An optional value: a selector the user has not set, or a statistic that does not exist. */
module Wrappers {
  datatype Option<+T> = None | Some(value: T)
}
