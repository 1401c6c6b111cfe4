/** Swift's `Optional`, as the model's `Option`. */
module Wrappers {

  datatype Option<+T> = None | Some(value: T)
}
