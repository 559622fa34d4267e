/** The absent-or-present result that stands for the source's "null means not found". */
module Wrappers {

  datatype Option<+T> = None | Some(value: T)
}
