/** Values shared by every module: optional values, results, and the Python
    exceptions that the modelled code can raise. */
module Common {

  datatype Option<T> = None | Some(value: T)

  /** The outcome of an operation that either succeeds with a value or raises. */
  datatype Result<T> = Ok(value: T) | Err(error: Error)

  /** The Python exceptions the modelled code raises (the message text is not modelled). */
  datatype Error =
    | KeyError        // a dictionary lookup of a missing key
    | IndexError      // a list index out of range, or random.choice on an empty list
    | ValueError      // int() of a non-number, unpacking the wrong number of fields, max() of nothing
    | AssertionError  // a failed assert statement
}
