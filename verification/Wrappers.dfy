// The one optional value used across the model: a nullable column or an absent map entry.
module Wrappers {
  datatype Option<+T> = None | Some(value: T)
}
