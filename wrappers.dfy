/** Option and Result: Python's None and raised exceptions, made explicit. */
module Wrappers {

  datatype Option<+T> = None | Some(value: T)

  datatype Result<+R, +E> = Ok(value: R) | Err(error: E)

  /** Python truthiness of an optional string argument: present and non-empty. */
  predicate Given(o: Option<string>) {
    o.Some? && o.value != ""
  }
}
