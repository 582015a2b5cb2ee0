/** Success-or-error results, for functions that raise an exception or return a failure flag. */
module Wrappers {

  datatype Result<+R, +E> = Ok(value: R) | Err(error: E)
}
