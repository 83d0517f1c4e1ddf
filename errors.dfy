/** The simulation errors raised by the modelled handlers, and the result types that carry them. */
module Errors {
  import opened Chain

  /** The operation argument an `InvalidInput` error reports. */
  datatype ArgName = Assets | Shares | Slippage

  datatype SimulationError =
    /** On an approve-only-once token, both the current allowance for `contract` and `amount` are positive (equal or not). */
    | NonZeroAllowance(address: Address, owner: Address, contract: Contract, amount: int)
    /** The spender is neither a registered contract nor a vault of the approved token. */
    | UnknownAllowance(address: Address, owner: Address, spender: Address)
    /** An operation argument is out of range; `value` is the argument after defaulting. */
    | InvalidInput(arg: ArgName, value: int)

  datatype Option<T> = None | Some(value: T)

  /** A computed value, or the error the handler throws instead. */
  datatype Result<T> = Ok(value: T) | Err(error: SimulationError)

  /** Completion of a handler that returns nothing: it passes, or it throws `error`. */
  datatype Outcome = Pass | Fail(error: SimulationError)
}
