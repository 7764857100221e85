/** Result types shared by the Intcode machines and their drivers, and the ways a run can fail.
    Every `panic!`, `unwrap` on `None` and out-of-range index of the programs is a `Failure`. */
module Base {

  datatype Option<+T> = None | Some(value: T)

  /** Why a construction, a step or a run did not produce a value. */
  datatype Error =
    | ParseError(token: string)    // a program token that is not a decimal integer of the word type
    | UnknownOpcode(code: int)     // "Could not parse opcode"
    | UnknownMode(mode: int)       // "can't parse parameter mode"
    | ImmediateWrite               // "destination is not a pointer"
    | OutOfBounds(index: nat)      // `unwrap` of a missing cell, or indexing past the end of memory
    | WriteDiverges(index: nat)    // a write past the end that makes `set` recurse without end
    | AddressOverflow(index: nat)  // a write whose index no vector can grow to hold
    | OutOfFuel                    // the step budget given to a run is used up

  datatype Result<+T> = Success(value: T) | Failure(error: Error) {
    predicate IsFailure() { Failure? }
    function PropagateFailure<U>(): Result<U> requires Failure? { Failure(error) }
    function Extract(): T requires Success? { value }
  }

  /** The result of an operation that produces no value. */
  datatype Outcome = Pass | Fail(error: Error)
}
