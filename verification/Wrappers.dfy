/** The two failure-aware types the rest of the project shares. */
module Wrappers {

  datatype Option<+T> = None | Some(value: T) {
    function GetOr(default: T): T {
      if Some? then value else default
    }
  }

  /** What a service call raises. One constructor per exception the modelled
      code distinguishes; ConstraintViolated stands for a CHECK constraint the
      database refuses the transaction with. */
  datatype Error =
    | MarketClosed
    | NoAccount
    | NotFound
    | NotCancellable
    | AlreadyClosed
    | IdempotencyConflict
    | QuoteUnavailable
    | DisciplineViolation
    | InsufficientBalance
    | ZeroAmount
    | ConstraintViolated
    | NotADraft
    | NotExecuted
    | EmptyStrategy
    | Unpriceable
    | LegNotFound
    | LegNotOpen
    | UnknownUnderlying
    | UnderlyingMismatch
    | StrikeOffGrid
    | StrikeRequired
    | BadOptionType
    | BadAction
    | BadQuantity
    | TooManyLegs
    | CalendarNotAllowed

  /** A service call either returns or raises. */
  datatype Outcome<+T> = Ok(value: T) | Raise(error: Error) {
    predicate IsFailure() {
      Raise?
    }

    function PropagateFailure<U>(): Outcome<U>
      requires Raise?
    {
      Raise(error)
    }

    function Extract(): T
      requires Ok?
    {
      value
    }
  }
}
