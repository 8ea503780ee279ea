// Option and Result: the shapes used for the source's None values and raised errors.
module Wrappers {
  datatype Option<+T> = None | Some(value: T)

  datatype Result<+R, +E> = Success(value: R) | Failure(error: E) {
    predicate IsFailure() {
      Failure?
    }

    function PropagateFailure<U>(): Result<U, E>
      requires Failure?
    {
      Failure(error)
    }

    function Extract(): R
      requires Success?
    {
      value
    }
  }
}

// Every error the modelled backtest code can raise.
module Errors {
  datatype Error =
    // costs.py
    | QuantityNotPositive
    | PriceNotPositive
    | CostsExceedPrice
    // portfolio.py
    | InitialCashNotPositive
    | FillNotPositive
    | InsufficientCash
    | ExceedsHolding
    | CashNegative
    | InvalidLot
    | NegativeInterest
    | NoMarkPrice
    // engine.py and execution.py
    | TooFewSessions
    | SessionTooShort
    | UnpricedHolding
    | LookAhead
    | IdentityViolated
}
