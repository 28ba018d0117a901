/** The optional result the service returns where the Ruby code returns `nil`. */
module Wrappers {

  /** `None` stands for the `nil` the service returns when a document is absent. */
  datatype Option<+T> = None | Some(value: T)
}
