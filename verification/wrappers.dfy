/** The Option type used wherever the program returns `None` or swallows an
    exception. */
module Wrappers {

  datatype Option<+T> = None | Some(value: T)
}
