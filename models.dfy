/**
 * The backtester's records: the market data point a strategy reads, and the
 * order the engine builds from a signal, with the three rules `validate` checks.
 */
module Models {
  import opened Wrappers

  /** One tick of market data: a symbol and its price (the timestamp only labels the equity curve). */
  datatype MarketDataPoint = MarketDataPoint(symbol: string, price: real)

  /** An order of the backtester; the constructor stores its four fields as given. */
  datatype Order = Order(symbol: string, quantity: int, price: real, status: string)

  /** The reasons `validate` raises `OrderError`, one per rule. */
  datatype OrderError = EmptySymbol | NonPositiveQuantity | NonPositivePrice

  /** An order that meets all three rules. */
  ghost predicate WellFormed(o: Order)
  {
    o.symbol != "" && o.quantity > 0 && o.price > 0.0
  }

  /**
   * `Order.validate`: the symbol must be non-empty, the quantity positive and the
   * price positive, checked in that order, so the first rule broken names the error.
   */
  function Validate(o: Order): (r: Outcome<OrderError>)
    ensures r.Pass? <==> WellFormed(o)
    ensures r == Fail(EmptySymbol) <==> o.symbol == ""
    ensures r == Fail(NonPositiveQuantity) <==> o.symbol != "" && o.quantity <= 0
    ensures r == Fail(NonPositivePrice) <==> o.symbol != "" && o.quantity > 0 && o.price <= 0.0
  {
    if o.symbol == "" then Fail(EmptySymbol)
    else if o.quantity <= 0 then Fail(NonPositiveQuantity)
    else if o.price <= 0.0 then Fail(NonPositivePrice)
    else Pass
  }
}
