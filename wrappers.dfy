/** Failure-carrying values used for the contract's raised exceptions. */
module Wrappers {

  datatype Option<+T> = None | Some(value: T)

  /** Every exception the contract can raise, including the IndexError of the rate lookup. */
  datatype Error =
    | NotAdmin               // the caller is not the admin
    | PotChangeDuringGame    // the pot cannot change while a round is open
    | CommissionOutOfRange   // the commission rate is outside [0, 50]
    | GameAlreadyActive      // a round is already open
    | PotNotSet              // the pot is not positive
    | NoActiveGame           // no round is open
    | InvalidTeam            // the team is neither A nor B
    | NoDeposit              // the bet carries no tokens
    | TieScore               // both teams have the same points
    | RateIndexOutOfRange    // the rate table lookup fell off the table

  /** The result of a contract call that returns (or logs) a value, or aborts. */
  datatype Result<+T> = Ok(value: T) | Err(error: Error)

  /** The result of a contract call that returns nothing: it either commits or aborts. */
  datatype Outcome = Pass | Fail(error: Error)
}
