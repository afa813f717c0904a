/** Vocabulary of contracts, legs and instruments. */
module Domain {
  import opened Wrappers

  datatype Kind = CE | PE | FUT | OtherKind(name: string)

  datatype Action = BUY | SELL | OtherAction(name: string)

  datatype LegStatus = PENDING | OPEN | CLOSED

  function Opposite(action: Action): Action {
    if action == BUY then SELL else BUY
  }

  function Sign(action: Action): int {
    if action == BUY then 1 else -1
  }

  predicate IsOption(kind: Kind) {
    kind == CE || kind == PE
  }

  /** One underlying of the registry, with the strike grid, the lot and the
      weekday rules (Monday is 0). */
  datatype InstrumentSpec = InstrumentSpec(
    symbol: string,
    lotSize: int,
    strikeInterval: int,
    hasWeekly: bool,
    hasMonthly: bool,
    weeklyWeekday: Option<int>,
    monthlyWeekday: int)
  {
    ghost predicate Valid() {
      && 0 < strikeInterval
      && 20 <= lotSize
      && (weeklyWeekday.Some? ==> 0 <= weeklyWeekday.value < 7)
      && 0 <= monthlyWeekday < 7
    }

    predicate IsValidStrike(strike: real)
      requires 0 < strikeInterval
    {
      0.0 < strike && (strike / strikeInterval as real).Floor as real * strikeInterval as real == strike
    }
  }

  const NIFTY := InstrumentSpec("NIFTY", 65, 50, true, true, Some(1), 1)
  const BANKNIFTY := InstrumentSpec("BANKNIFTY", 30, 100, false, true, None, 1)
  const SENSEX := InstrumentSpec("SENSEX", 20, 100, true, true, Some(3), 3)

  /** Symbols reach this lookup stripped and upper-cased. */
  function GetSpec(underlying: string): (spec: Outcome<InstrumentSpec>)
    ensures spec.Ok? ==> spec.value.Valid() && spec.value.symbol == underlying
  {
    if underlying == "NIFTY" then Ok(NIFTY)
    else if underlying == "BANKNIFTY" then Ok(BANKNIFTY)
    else if underlying == "SENSEX" then Ok(SENSEX)
    else Raise(UnknownUnderlying)
  }

  /** One tradeable contract. A missing price or volatility is None, not zero. */
  datatype Contract = Contract(
    underlying: string,
    expiry: int,
    kind: Kind,
    strike: Option<real>,
    ltp: Option<real>,
    iv: Option<real>)
  {
    /** What identifies the contract, leaving the market snapshot out. */
    predicate SameIdentity(other: Contract) {
      underlying == other.underlying && expiry == other.expiry && kind == other.kind && strike == other.strike
    }
  }

  /** A directional position in one contract, sized in lots. */
  datatype Leg = Leg(
    id: nat,
    contract: Contract,
    action: Action,
    lots: int,
    lotSize: int,
    entryPrice: Option<int>,
    status: LegStatus)
}
