/** Failure-compatible result types shared by the decoders and handlers of the model. */
module Wrappers {

  datatype Option<+T> = None | Some(value: T)

  /** Why a decoder or handler rejected its input. */
  datatype Error =
    | Truncated        // the field list ended before the record did
    | WrongKind        // a field of another kind stood where a record expects one
    | BadSlot          // a PUBLISH record names a slot the receiving pub does not have
    | BadCount         // an ANNOUNCE carries a negative element count
    | BadType          // a type tag outside the value-type enumeration
    | BadValue         // a numeric value outside the range of its C type

  datatype Result<+T> = Success(value: T) | Failure(error: Error) {
    predicate IsFailure() { Failure? }

    function PropagateFailure<U>(): Result<U>
      requires Failure?
    {
      Failure(error)
    }

    function Extract(): T
      requires Success?
    {
      value
    }
  }
}
