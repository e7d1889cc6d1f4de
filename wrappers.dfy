/** The optional-value wrapper used wherever the source uses std::optional. */
module Wrappers {
  datatype Option<+T> = None | Some(value: T)
}
