/** The exceptions the teaching framework can raise, and a failure-compatible
    result type used wherever the Python code raises instead of returning. */
module Results {

  /** One constructor per exception kind the modelled code raises. */
  datatype Error =
    | AssertionError(what: string)
    | ValueError(what: string)
    | IndexError
    | ZeroDivisionError
    | TypeError(what: string)
    | KeyError(key: string)
    | AttributeError(name: string)
    | StopIteration
      /** The list of random draws handed to the model ran out or did not have
          the length the generator would have produced. */
    | DrawsExhausted

  datatype Result<+T> = Ok(value: T) | Err(error: Error) {

    predicate IsFailure() {
      Err?
    }

    function PropagateFailure<U>(): Result<U>
      requires Err?
    {
      Err(error)
    }

    function Extract(): T
      requires Ok?
    {
      value
    }
  }

  /** A value that may be absent: an attribute not set yet, a key not in a map. */
  datatype Option<+T> = None | Some(value: T)

  /** Raises an AssertionError unless `cond` holds, like Python's `assert`. */
  function Check(cond: bool, what: string): (r: Result<()>)
    ensures r.Ok? <==> cond
  {
    if cond then Ok(()) else Err(AssertionError(what))
  }
}
