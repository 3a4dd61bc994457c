/** The optional value that the JavaScript and Python sources write as null, undefined or None. */
module Wrappers {

  datatype Option<+T> = None | Some(value: T)
}
