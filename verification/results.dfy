/** The failures the backend selector can raise, and a Success/Failure result
    type that carries them. Each `Error` variant stands for one Python exception
    the selector module can raise; the model returns it instead of raising. */
module Results {

  datatype Error =
    /** `KeyError`: the call arguments have no entry under this name. */
    | MissingArgument(name: string)
    /** `ValueError`: an entry of a tuple list does not unpack into `expected` names. */
    | UnpackMismatch(expected: nat)
    /** `NotImplementedError` raised by the extractor of `flush`. */
    | NotImplemented
    /** `KeyError`: a touched model has no entry in the model backend table. */
    | UnknownModel
    /** `AssertionError`: the touched models do not agree on exactly one backend. */
    | NotSingleBackend
    /** `AssertionError` at module load: the specification table does not cover
        exactly the read and write methods of the TSDB interface. */
    | SpecificationMismatch

  /** A value, or the error that stopped its computation; usable with `:-`. */
  datatype Result<+T> = Success(value: T) | Failure(error: Error) {

    predicate IsFailure() {
      Failure?
    }

    function PropagateFailure<U>(): Result<U>
      requires Failure?
    {
      Failure(error)
    }

    function Extract(): T
      requires Success?
    {
      value
    }
  }
}
