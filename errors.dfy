/** Exceptions raised by the modelled code, and the value-or-error type that carries them. */
module Errors {

  /** One constructor per kind of failure the modelled operations can end in. */
  datatype Error =
    | OutOfRange          // index(i) refused, `.at` out of range, `substr` past the end
    | Unsorted            // an algebra operand has not been sorted
    | SizeMismatch        // container or array sizes that must agree do not
    | NotEmpty            // an output container that must be empty is not
    | MultipleEncodings   // the header holds more than one encoding
    | UnknownName         // a parameter or encoding-limit name is not recognised
    | AbsentValue         // an optional header value is read or written while absent
    | EmptyContainer      // an operation that needs at least one item got none
    | NoSorting           // k-space order asked for before the container was organised
    | NotFound            // no coil map matches the requested tag
    | WrongType           // an image is not of complex-float type
    | Unsupported         // the trajectory cannot be handled by this build
    | Assertion           // an ASSERT of the library fails
    | Undefined           // the C++ behaviour is undefined here; the model does not guess it

  datatype Option<+T> = None | Some(value: T)

  datatype Result<+T> = Ok(value: T) | Err(error: Error) {
    predicate IsFailure() { Err? }
    function PropagateFailure<U>(): Result<U> requires Err? { Err(error) }
    function Extract(): T requires Ok? { value }
  }

  /** The outcome of an operation that only changes state: it completes or it throws. */
  datatype Outcome = Done | Failed(error: Error) {
    predicate IsFailure() { Failed? }
    function PropagateFailure(): Outcome requires Failed? { this }
  }

  /** The outcome of an operation that ended with the exception e, or without one. */
  function OutcomeOf(e: Option<Error>): Outcome {
    if e.Some? then Failed(e.value) else Done
  }
}
