/** Failure-carrying values shared by every module of the model. */
module Wrappers {

  /** An optional value: a cell that may be empty, a parse that may fail. */
  datatype Option<T> = None | Some(value: T)

  /** The exceptions that the modelled code raises and does not catch. */
  datatype Error =
    | ValueError         // float() of a malformed string, max() of an empty list
    | ZeroDivisionError  // a float division by zero
    | KeyError           // a dictionary lookup of a missing key
    | TypeError          // a string operation given a value that is not a string
    | AttributeError     // a string method called on a value that is not a string
    | DateParseError     // whatever the date parser of the bookkeeping export raises

  /** The outcome of an operation that may raise. */
  datatype Result<T> = Ok(value: T) | Err(error: Error)
}
