/** Option and Result values shared by the whole model.
    A Python exception that escapes an operation becomes `Err(e)`, with `e`
    naming the exception class the Python code raises. */
module Wrappers {

  datatype Option<T> = None | Some(value: T)

  /** The Python exceptions the modelled code can raise. */
  datatype PyError =
    | KeyError(key: string)
    | IndexError
    | ValueError(message: string)
    | TypeError(message: string)
    | AttributeError(attribute: string)
    | NotImplementedError(message: string)
    | RaisedException(message: string)
    | Invalid(message: string)
    | IOError(message: string)

  datatype Result<T> = Ok(value: T) | Err(error: PyError)
  {
    predicate IsFailure() { Err? }

    function PropagateFailure<U>(): Result<U>
      requires Err?
    {
      Err(error)
    }

    function Extract(): T
      requires Ok?
    {
      value
    }
  }
}
