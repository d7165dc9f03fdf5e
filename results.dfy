/** The exceptions the two parsers and encoders can raise, and a failure-compatible result type. */
module Results {

  /** One constructor per Python exception the core can raise. */
  datatype Error =
    | BadInteger(text: string)       // ValueError raised by int() on text that is not a decimal integer
    | TooFewValues                   // ValueError raised by unpacking fewer values than names
    | IndexOutOfRange                // IndexError: a list index out of range, or pop from an empty list
    | MissingKey(key: int)           // KeyError raised by a dictionary lookup
    | MarkerNotFound(marker: string) // StopIteration raised by next() when no line contains the marker

  datatype Result<+T> = Ok(value: T) | Err(error: Error) {

    predicate IsFailure() {
      Err?
    }

    function PropagateFailure<U>(): Result<U>
      requires Err?
    {
      Err(error)
    }

    function Extract(): T
      requires Ok?
    {
      value
    }
  }
}
