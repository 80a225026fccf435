/** Optional values, results, and the Python exceptions that end a search
    session when the front end hits a malformed response. */
module Wrappers {

  /** A value that may be absent: a JSON key that is missing, or Python's None. */
  datatype Option<+T> = None | Some(value: T)

  /** The outcome of an operation that may raise. */
  datatype Result<+R> = Ok(value: R) | Err(error: Exception)

  /** The exceptions the modelled code can raise on the data it is given. */
  datatype Exception =
    | IndexError               // indexing the first element of an empty list
    | KeyError(key: string)    // subscripting a dictionary (or a column set) with a missing key
}
