/** The optional value used wherever the quiz code holds `null` or an unset property. */
module Wrappers {
  datatype Option<+T> = None | Some(value: T)
}
