/** Failure-carrying results for the Ruby exceptions the library raises. */
module Wrappers {

  datatype Option<T> = None | Some(value: T)

  /** The Ruby exception classes the modelled code can raise. */
  datatype Error =
    | ArgumentError   // raised explicitly, or by comparing a Float with nil
    | RuntimeError    // `raise "Logic error: ..."` during tail fitting
    | NoMethodError   // a method called on nil (or on an object lacking it)
    | TypeError       // arithmetic with nil, e.g. `x * nil`

  /** A value, or the exception that interrupted its computation. */
  datatype Result<T> = Ok(value: T) | Err(error: Error)

  /** Completion of a method that returns nothing useful, or its exception. */
  datatype Outcome = Pass | Fail(error: Error)
}
