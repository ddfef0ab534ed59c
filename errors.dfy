/** Python's exceptions, as far as the modelled code can raise them, and the
    result of a call that either returns or raises. */
module Errors {

  /** The exceptions the modelled Python code can raise and does not catch. */
  datatype PyError =
    | StructError                // struct.pack / struct.unpack: value out of range, wrong length
    | IndexError                 // a list index past the end
    | KeyError(key: string)      // a dict lookup of a missing key
    | AttributeError(name: string) // a call of a method the object does not have

  /** A value that may be absent (Python's `None`). */
  datatype Option<+T> = None | Some(value: T)

  /** A Python call either returns a value or raises. */
  datatype Outcome<+T> = Ok(value: T) | Raised(error: PyError)
}
