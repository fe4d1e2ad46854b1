/** A possibly-absent value: None stands for the null reference that
    FirstOrDefault and the null-conditional operator produce in the service. */
module Wrappers {
  datatype Option<+T> = None | Some(value: T)
}
