/** Result types shared by the whole model. */
module Common {

  datatype Option<+T> = None | Some(value: T)

  /** The `absl` status codes the modelled code returns. `MissingOptional` stands for
      reading an absent `std::optional` argument; `FromHandler` is whatever error an
      inline handler reports. */
  datatype Code =
    | InvalidArgument
    | NotFound
    | OutOfRange
    | Internal
    | Unimplemented
    | Unavailable
    | FailedPrecondition
    | MissingOptional
    | FromHandler(n: nat)

  /** `absl::StatusOr<T>`. */
  datatype Result<+T> = Ok(value: T) | Err(code: Code) {
    predicate IsFailure() { Err? }
    function PropagateFailure<U>(): Result<U>
      requires Err?
    {
      Err(code)
    }
    function Extract(): T
      requires Ok?
    {
      value
    }
  }

  /** The result of a bounded evaluation: a `StatusOr`, or not finished yet. */
  datatype Outcome<+T> = Done(result: Result<T>) | OutOfFuel {
    predicate IsOk() { Done? && result.Ok? }
    predicate IsFailure() { !IsOk() }
    function PropagateFailure<U>(): Outcome<U>
      requires IsFailure()
    {
      if OutOfFuel? then OutOfFuel else Done(Err(result.code))
    }
    function Extract(): T
      requires IsOk()
    {
      result.value
    }
  }
}
