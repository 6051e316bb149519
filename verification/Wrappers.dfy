/** The optional value that the model uses where the Go code returns a second
    boolean or an error that carries no data the callers look at. */
module Wrappers {
  datatype Option<+T> = None | Some(value: T)
}
