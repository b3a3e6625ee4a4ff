/** Error kinds of the matching engine and the failures an invocation can end with. */
module Errors {

  /** The engine's own error codes, reported as `ProgramError::Custom(code)`. */
  datatype EngineError =
    | InvalidInstruction
    | NotRentExempt
    | InvalidOwner
    | InvalidAccountData
    | MathError
    | MarketInactive
    | Unauthorized

  /** Why a Rust panic aborted the invocation. */
  datatype PanicKind =
    | ArithmeticOverflow   // overflow-checked i64 or usize arithmetic
    | DivideByZero         // `tail % capacity` with capacity 0
    | IndexOutOfBounds     // a slice range past the end of a buffer

  /** How an invocation fails. The runtime's `InvalidAccountData` is a different error
      from the engine's custom `InvalidAccountData`; the source uses both. */
  datatype ProgramError =
    | Custom(engine: EngineError)
    | InvalidAccountData
    | NotEnoughAccountKeys
    | BorshIoError
    | Panic(kind: PanicKind)

  datatype Result<+T> = Ok(value: T) | Err(error: ProgramError) {
    predicate IsFailure() { Err? }
    function PropagateFailure<U>(): Result<U> requires Err? { Err(error) }
    function Extract(): T requires Ok? { value }
  }

  type ProgramResult = Result<()>
}
