/** The optional-value datatype used for JavaScript's "argument may be omitted"
    and "may return null". */
module Wrappers {

  /** `None` stands for an omitted argument or a `null` result. */
  datatype Option<+T> = None | Some(value: T)
}
