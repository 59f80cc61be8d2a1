/** The Option type used for pandas' missing values (NaN) and for the `None`
    returns of the serving code. */
module Wrappers {

  datatype Option<+T> = None | Some(value: T)
}
