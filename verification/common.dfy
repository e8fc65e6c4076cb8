/** Small shared datatypes: optional values and the three ways a parser can end. */
module Common {

  datatype Option<+T> = None | Some(value: T) {
    /** The value, or `default` when absent (Python's `x if x is not None else default`). */
    function GetOr(default: T): T {
      match this
      case Some(v) => v
      case None => default
    }
  }

  /** The Python exceptions a parser or handler of the bot can raise on matched input. */
  datatype Fault = ValueError | IndexError | KeyError | TypeError

  /** Result of a parser: a record, Python's `None`, or an exception. */
  datatype Parse<+T> = Parsed(value: T) | NoResult | Crash(fault: Fault)
}
