/** The few Python runtime notions the leasing backend relies on: `None`,
    the built-in exceptions its code raises or catches, and an evaluation
    that either yields a value or has an exception in flight. */
module Runtime {

  datatype Option<+T> = None | Some(value: T) {
    /** `value if value is not None else default` */
    function GetOr(default: T): T {
      match this
      case Some(v) => v
      case None => default
    }
  }

  /** The exceptions the modelled code raises, catches or lets escape.
      MissingLeaseForms is the backend's own MissingLeaseFormsException;
      DatabaseError is the database refusing a statement. */
  datatype Exception =
    | KeyError
    | TypeError
    | ValueError
    | IndexError
    | AttributeError
    | ZeroDivisionError
    | MissingLeaseForms
    | DatabaseError

  /** The outcome of evaluating a Python expression or statement. */
  datatype Result<+T> = Ok(value: T) | Raise(error: Exception)
}
