/** Errors raised by the ledger, and the Result type that carries them.
    Every `throw` in Bank.js becomes an `Err`; a call that returns
    normally becomes an `Ok` carrying the new state. */
module Results {

  /** The four ways a ledger operation can be refused. */
  datatype BankError =
    | InvalidName        // blank account name
    | InvalidAmount      // non-positive amount, or a negative opening deposit
    | InsufficientFunds  // not enough money for a withdrawal or a transfer
    | NoRecipient        // the transfer's recipient is not an account

  /** An optional value; a transfer's recipient is `None` when the argument
      is not an account. */
  datatype Option<+T> = None | Some(value: T)

  datatype Result<+T> = Ok(value: T) | Err(error: BankError) {

    predicate IsFailure() {
      Err?
    }

    function PropagateFailure<U>(): Result<U>
      requires Err?
    {
      Err(error)
    }

    function Extract(): T
      requires Ok?
    {
      value
    }
  }
}
