/** Failure-carrying values used in place of Java's null returns and exceptions. */
module Wrappers {

  /** Java's `Optional<T>`, and a nullable lookup result. */
  datatype Option<+T> = None | Some(value: T)

  /** A value, or the exception the Java code would have thrown instead. */
  datatype Result<+T, +E> = Ok(value: T) | Err(error: E)
}
