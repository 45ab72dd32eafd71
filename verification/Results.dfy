/** The exceptions of kering.py and the built-in ones the modelled code raises,
    and the result of an operation that may raise. */
module Results {

  datatype Error =
    | EmptyMaterialError | RawMaterialError | ShortageError | ConversionError
    | UnexpectedCodeError | UnexpectedCountCodeError | UnexpectedOpCodeError
    | InvalidCodeError | InvalidCodeSizeError | InvalidVarIndexError
    | InvalidVersionError | VersionError | ProtocolError | KindError
    | ValidationError | ValueError | KeyError | IndexError | TypeError | NameError | AttributeError
    | ConfigurationError | MissingEntryError

  /** How a method that returns nothing ended. */
  datatype Outcome = Pass | Fail(error: Error)

  datatype Option<+T> = None | Some(value: T)

  datatype Result<+T> = Ok(value: T) | Err(error: Error) {
    predicate IsFailure() {
      Err?
    }

    function PropagateFailure<U>(): Result<U>
      requires Err?
    {
      Err(error)
    }

    function Extract(): T
      requires Ok?
    {
      value
    }
  }
}
