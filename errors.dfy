/** The error codes an instruction can fail with. A failed instruction
    leaves every account as it was (a Solana transaction is atomic). */
module Errors {
  datatype Error =
    // programs/solora-pyth-price/src/error.rs
    | EventSettled
    | InvalidOutcome
    | OverflowError
    | EventNotSettled
    | InvalidLockTime
    | EventLocked
    | InvalidMint
    | EventNotLocked
    | LockPriceSet
    | LockPriceNotSet
    | EventInWaitingPeriod
    // raised by settle_expired_event but not declared in error.rs
    | EventNotExpired
    // the account framework: an account whose address is not the one its
    // seeds derive, a `has_one` field that does not match the account
    // passed in, an `init` at an address already in use, and an account
    // that does not exist
    | ConstraintSeeds
    | ConstraintHasOne
    | AccountAlreadyInUse
    | AccountNotInitialized
    // an overflow in unchecked arithmetic or an `unwrap` of nothing, which
    // aborts the program
    | Panic

  datatype Result<+T> = Ok(value: T) | Err(error: Error) {
    predicate IsFailure() {
      Err?
    }

    function PropagateFailure<U>(): Result<U>
      requires Err?
    {
      Err(error)
    }

    function Extract(): T
      requires Ok?
    {
      value
    }
  }

  datatype Option<+T> = None | Some(value: T)
}
