/** The reasons a call into the contract aborts.  On NEAR a panic reverts
    every state change of the receipt that raised it, so each entry point of
    the model returns a `Result` and a `Failure` carries no new state.
 */
module Results {
  import opened Accounts

  datatype Error =
    | InsufficientDeposit(token: AccountId)  // "Need to deposit tokens A/B", "Insufficient balance of ..."
    | PoolAlreadyExists
    | PoolNotFound
    | ReserveUnderflow                       // u128 subtraction below zero
    | DivisionByZero                         // a zero reserve in the share formula
    | ArithmeticOverflow                     // u128 multiplication overflow
    | Unauthorized                           // "Illegal agent account_id"
    | UnknownOrClosedYieldPoint              // "Unable to resume promise"
    | SlippageViolation                      // "Output amount ... is less than minimum ..."
    | MalformedActionMessage                 // "Failed to parse message"
    | NoDepositsForAccount                   // `unwrap` on an account that never deposited

  datatype Option<T> = None | Some(value: T)

  datatype Result<T> = Success(value: T) | Failure(error: Error) {

    predicate IsFailure() {
      Failure?
    }

    function PropagateFailure<U>(): Result<U>
      requires Failure?
    {
      Failure(error)
    }

    function Extract(): T
      requires Success?
    {
      value
    }
  }
}
