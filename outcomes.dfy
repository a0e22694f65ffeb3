/** The Python exceptions the core can raise, and results that carry them. */
module Outcomes {

  /** Exceptions raised by the core on malformed input; none of them is caught. */
  datatype Error =
    | IndexError      // a list index past the end of a `split` result or a CSV row
    | AttributeError  // `.keys()` called on a response that is not a JSON object
    | TypeError       // iteration over a JSON value that is not a list
    | StopIteration   // `next` on an empty file

  datatype Option<+T> = None | Some(value: T)

  datatype Result<+T> = Ok(value: T) | Err(error: Error)
}
