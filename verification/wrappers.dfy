/**
 * Option and Result wrappers shared by the whole model.
 *
 * The library is written in Python, where a missing value is `None` and an
 * error that nobody catches is an exception escaping to the caller. `Option`
 * models the former; `Result` models an operation that either produces a
 * value or raises, with `Exc` naming the Python exception class.
 */
module Wrappers {

  datatype Option<T> = None | Some(value: T) {
    predicate IsSome() { Some? }

    function GetOr(default: T): (r: T)
      ensures Some? ==> r == value
      ensures None? ==> r == default
    {
      match this
      case Some(v) => v
      case None => default
    }
  }

  /** The exception classes the library can let escape. */
  datatype Exc =
    | IndexError      // indexing past the end of a list or string
    | TypeError       // e.g. a list indexed with a tuple, a None unpacked
    | AttributeError  // an attribute that was never set or does not exist
    | ValueError      // int() of a malformed literal, an invalid enum value
    | KeyError        // a dict lookup of a missing key
    | StructError     // struct.pack of a value outside the format's range

  datatype Result<T> = Ok(value: T) | Raised(exc: Exc) {
    predicate IsOk() { Ok? }
  }
}
