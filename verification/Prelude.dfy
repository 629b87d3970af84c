// Option: what the Go code expresses with nil or with a missing value.
module Prelude {
  datatype Option<+T> = None | Some(value: T)
}
