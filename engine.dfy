/**
 * The backtester's execution engine: it turns strategy signals into validated
 * orders, fills them against its cash and per-symbol positions, and marks the
 * portfolio to market. The random execution failure is a boolean parameter.
 */
module ExecutionEngine {
  import opened Wrappers
  import opened Models
  import opened Strategies

  /** A position entry `{'quantity': ..., 'avg_price': ...}`. */
  datatype Position = Position(quantity: int, avgPrice: real)

  /** The entry `_ensure_position` creates. */
  const Flat := Position(0, 0.0)

  /** An order with the action of its signal attached, as `_signal_to_order` returns it. */
  datatype Ticket = Ticket(order: Order, action: string)

  /** The exceptions `_execute_order` raises. */
  datatype ExecError =
    | ExecutionFailed               // the simulated failure (ExecutionError)
    | MissingPosition(symbol: string) // the KeyError of `self.positions[symbol]`
    | InsufficientFunds             // OrderError on a BUY that costs more than the cash
    | InsufficientPosition          // OrderError on a sell of more than is held

  /** Every position is non-negative, and a flat one has average price 0. */
  ghost predicate Sound(positions: map<string, Position>)
  {
    forall s :: s in positions ==>
      positions[s].quantity >= 0 && positions[s].avgPrice >= 0.0
      && (positions[s].quantity == 0 ==> positions[s].avgPrice == 0.0)
  }

  /** Every open position has a mark-to-market price. */
  ghost predicate Priced(positions: map<string, Position>, latestPrices: map<string, real>)
  {
    forall s :: s in positions && positions[s].quantity != 0 ==> s in latestPrices
  }

  /**
   * `_ensure_position`: a symbol without an entry makes the engine create, or
   * reset, the entry of "AAPL", whatever the symbol was; other entries stay.
   */
  function Ensured(positions: map<string, Position>, symbol: string): (r: map<string, Position>)
    ensures symbol in r <==> symbol in positions || symbol == "AAPL"
    ensures symbol in positions ==> r == positions
    ensures symbol !in positions ==> "AAPL" in r && r["AAPL"] == Flat
    ensures forall s :: s in positions && s != "AAPL" ==> s in r && r[s] == positions[s]
    ensures r.Keys == positions.Keys || r.Keys == positions.Keys + {"AAPL"}
  {
    if symbol in positions then positions else positions["AAPL" := Flat]
  }

  /**
   * A BUY of `qty` at `price`: the quantity grows by `qty` and the average price is
   * the quantity-weighted mean of the old average and the fill price.
   */
  function Bought(p: Position, qty: int, price: real): (r: Position)
    requires p.quantity >= 0 && qty > 0
    ensures r.quantity == p.quantity + qty
    ensures r.quantity as real * r.avgPrice == p.quantity as real * p.avgPrice + qty as real * price
    ensures p.avgPrice >= 0.0 && price > 0.0 ==> r.avgPrice > 0.0
  {
    var newQty := p.quantity + qty;
    assert p.avgPrice >= 0.0 ==> p.quantity as real * p.avgPrice >= 0.0;
    assert price > 0.0 ==> qty as real * price > 0.0;
    Position(newQty, (p.quantity as real * p.avgPrice + qty as real * price) / newQty as real)
  }

  /** A sell of `qty`: the quantity shrinks by `qty`; the average price stays, or becomes 0 when flat. */
  function Sold(p: Position, qty: int): (r: Position)
    ensures r.quantity == p.quantity - qty
    ensures r.quantity != 0 ==> r.avgPrice == p.avgPrice
    ensures r.quantity == 0 ==> r.avgPrice == 0.0
  {
    var newQty := p.quantity - qty;
    Position(newQty, if newQty == 0 then 0.0 else p.avgPrice)
  }

  /** The order after a fill: its status becomes FILLED. */
  function Filled(t: Ticket): Ticket
  {
    t.(order := t.order.(status := "FILLED"))
  }

  /** The engine's state after `_execute_order`, and what the call returned or raised. */
  datatype Execution = Execution(
    cash: real, positions: map<string, Position>, latestPrices: map<string, real>,
    result: Result<Ticket, ExecError>)

  /**
   * `_execute_order` on a validated order: a simulated failure raises before
   * anything changes; otherwise the position is ensured and looked up, and the
   * order is filled unless the cash or the held quantity does not cover it.
   */
  function Execute(cash: real, positions: map<string, Position>, latestPrices: map<string, real>,
                   t: Ticket, executionFails: bool): Execution
    requires Sound(positions) && t.order.quantity > 0
  {
    if executionFails then Execution(cash, positions, latestPrices, Err(ExecutionFailed))
    else
      var ensured := Ensured(positions, t.order.symbol);
      if t.order.symbol !in ensured then Execution(cash, ensured, latestPrices, Err(MissingPosition(t.order.symbol)))
      else if t.action == BUY then Buy(cash, ensured, latestPrices, t)
      else Sell(cash, ensured, latestPrices, t)
  }

  /** The BUY branch: refused when it costs more than the cash. */
  function Buy(cash: real, positions: map<string, Position>, latestPrices: map<string, real>, t: Ticket): Execution
    requires t.order.symbol in positions && positions[t.order.symbol].quantity >= 0 && t.order.quantity > 0
  {
    var symbol, qty, price := t.order.symbol, t.order.quantity, t.order.price;
    var cost := qty as real * price;
    if cost > cash then Execution(cash, positions, latestPrices, Err(InsufficientFunds))
    else Execution(cash - cost, positions[symbol := Bought(positions[symbol], qty, price)],
                   latestPrices[symbol := price], Ok(Filled(t)))
  }

  /** A BUY the cash covers is filled. */
  lemma BuyFills(cash: real, positions: map<string, Position>, latestPrices: map<string, real>, t: Ticket)
    requires t.order.symbol in positions && positions[t.order.symbol].quantity >= 0 && t.order.quantity > 0
    requires !(t.order.quantity as real * t.order.price > cash)
    ensures Buy(cash, positions, latestPrices, t)
            == Execution(cash - t.order.quantity as real * t.order.price,
                         positions[t.order.symbol := Bought(positions[t.order.symbol], t.order.quantity, t.order.price)],
                         latestPrices[t.order.symbol := t.order.price], Ok(Filled(t)))
  {
  }

  /** Any action other than BUY is a sell: refused when it sells more than is held. */
  function Sell(cash: real, positions: map<string, Position>, latestPrices: map<string, real>, t: Ticket): Execution
    requires t.order.symbol in positions
  {
    var symbol, qty, price := t.order.symbol, t.order.quantity, t.order.price;
    if qty > positions[symbol].quantity then Execution(cash, positions, latestPrices, Err(InsufficientPosition))
    else Execution(cash + qty as real * price, positions[symbol := Sold(positions[symbol], qty)],
                   latestPrices[symbol := price], Ok(Filled(t)))
  }

  /** A simulated failure leaves cash, positions and prices exactly as they were. */
  lemma FailureChangesNothing(cash: real, positions: map<string, Position>, latestPrices: map<string, real>, t: Ticket)
    requires Sound(positions) && t.order.quantity > 0
    ensures Execute(cash, positions, latestPrices, t, true) == Execution(cash, positions, latestPrices, Err(ExecutionFailed))
  {
  }

  /**
   * Executing a validated order keeps every position sound and priced, and the
   * cash non-negative when it was: a BUY never spends more than the cash and a
   * sell never sells more than is held.
   */
  lemma ExecuteKeepsInvariant(cash: real, positions: map<string, Position>, latestPrices: map<string, real>,
                              t: Ticket, executionFails: bool)
    requires Sound(positions) && Priced(positions, latestPrices) && Validate(t.order).Pass?
    ensures var e := Execute(cash, positions, latestPrices, t, executionFails);
            Sound(e.positions) && Priced(e.positions, e.latestPrices) && (cash >= 0.0 ==> e.cash >= 0.0)
  {
    var symbol := t.order.symbol;
    var ensured := Ensured(positions, symbol);
    assert Sound(ensured) && Priced(ensured, latestPrices);
    if !executionFails && symbol in ensured {
      if t.action == BUY {
        BuyKeepsInvariant(cash, ensured, latestPrices, t);
      } else {
        SellKeepsInvariant(cash, ensured, latestPrices, t);
      }
    }
  }

  /** A BUY keeps the positions sound and priced and never overdraws the cash. */
  lemma BuyKeepsInvariant(cash: real, positions: map<string, Position>, latestPrices: map<string, real>, t: Ticket)
    requires Sound(positions) && Priced(positions, latestPrices) && t.order.symbol in positions
    requires t.order.quantity > 0 && t.order.price > 0.0
    ensures var e := Buy(cash, positions, latestPrices, t);
            Sound(e.positions) && Priced(e.positions, e.latestPrices) && (cash >= 0.0 ==> e.cash >= 0.0)
  {
    var e := Buy(cash, positions, latestPrices, t);
    if e.result.Ok? {
      var symbol := t.order.symbol;
      var bought := Bought(positions[symbol], t.order.quantity, t.order.price);
      assert e.positions == positions[symbol := bought];
      assert bought.quantity > 0 && bought.avgPrice > 0.0;
    }
  }

  /** A sell keeps the positions sound and priced, and only adds to the cash. */
  lemma SellKeepsInvariant(cash: real, positions: map<string, Position>, latestPrices: map<string, real>, t: Ticket)
    requires Sound(positions) && Priced(positions, latestPrices) && t.order.symbol in positions
    requires t.order.quantity > 0 && t.order.price > 0.0
    ensures var e := Sell(cash, positions, latestPrices, t);
            Sound(e.positions) && Priced(e.positions, e.latestPrices) && (cash >= 0.0 ==> e.cash >= 0.0)
  {
    var e := Sell(cash, positions, latestPrices, t);
    if e.result.Ok? {
      var symbol := t.order.symbol;
      var sold := Sold(positions[symbol], t.order.quantity);
      assert e.positions == positions[symbol := sold];
      assert t.order.quantity as real * t.order.price > 0.0;
    }
  }

  /**
   * A rejected order changes neither the cash nor the prices, and changes the
   * positions only through `_ensure_position`; a filled order records its price
   * as the symbol's latest and comes back FILLED.
   */
  lemma PricesMoveOnlyOnFill(cash: real, positions: map<string, Position>, latestPrices: map<string, real>,
                             t: Ticket, executionFails: bool)
    requires Sound(positions) && t.order.quantity > 0
    ensures var e := Execute(cash, positions, latestPrices, t, executionFails);
            (e.result.Err? ==> e.cash == cash && e.latestPrices == latestPrices
                               && (e.positions == positions || e.positions == Ensured(positions, t.order.symbol)))
            && (e.result.Ok? ==> e.latestPrices == latestPrices[t.order.symbol := t.order.price]
                                 && e.result.value == Filled(t) && e.result.value.order.status == "FILLED")
  {
  }

  /**
   * A fill moves `qty * price` of cash: a BUY pays it and adds `qty` to the
   * position at the weighted average price (`Bought`), a sell receives it and
   * takes `qty` off (`Sold`); no other position changes. A symbol without an
   * entry fills as a new, flat position only when it is "AAPL".
   */
  lemma FillMovesCashAndQuantity(cash: real, positions: map<string, Position>, latestPrices: map<string, real>,
                                 t: Ticket, executionFails: bool)
    requires Sound(positions) && t.order.quantity > 0
    ensures var e := Execute(cash, positions, latestPrices, t, executionFails);
            var symbol, qty, price := t.order.symbol, t.order.quantity, t.order.price;
            var held := if symbol in positions then positions[symbol] else Flat;
            e.result.Ok? ==>
              !executionFails && (symbol in positions || symbol == "AAPL")
              && (t.action == BUY ==>
                    e.cash == cash - qty as real * price
                    && e.positions == Ensured(positions, symbol)[symbol := Bought(held, qty, price)])
              && (t.action != BUY ==>
                    e.cash == cash + qty as real * price
                    && e.positions == Ensured(positions, symbol)[symbol := Sold(held, qty)])
  {
    var symbol := t.order.symbol;
    var ensured := Ensured(positions, symbol);
    if !executionFails && symbol in ensured {
      assert ensured[symbol] == if symbol in positions then positions[symbol] else Flat;
    }
  }

  /**
   * The reasons a non-failing execution is refused: a new symbol other than
   * "AAPL" (whose lookup fails after "AAPL" was reset), a BUY that costs more than
   * the cash, and a sell of more than is held.
   */
  lemma RejectionReasons(cash: real, positions: map<string, Position>, latestPrices: map<string, real>, t: Ticket)
    requires Sound(positions) && t.order.quantity > 0
    ensures var e := Execute(cash, positions, latestPrices, t, false);
            var symbol, qty, price := t.order.symbol, t.order.quantity, t.order.price;
            var held := if symbol in positions then positions[symbol] else Flat;
            (e.result == Err(MissingPosition(symbol)) <==> symbol !in positions && symbol != "AAPL")
            && (e.result == Err(MissingPosition(symbol)) ==> e.positions == positions["AAPL" := Flat])
            && ((symbol in positions || symbol == "AAPL") ==>
                  (e.result == Err(InsufficientFunds) <==> t.action == BUY && qty as real * price > cash)
                  && (e.result == Err(InsufficientPosition) <==> t.action != BUY && qty > held.quantity))
  {
  }

  /** What one position adds to the equity: its quantity at the latest price, nothing when flat. */
  ghost function Worth(positions: map<string, Position>, latestPrices: map<string, real>, s: string): real
    requires s in positions && Priced(positions, latestPrices)
  {
    if positions[s].quantity == 0 then 0.0 else positions[s].quantity as real * latestPrices[s]
  }

  /** The market value of all positions, summed in any order. */
  ghost function Exposure(positions: map<string, Position>, latestPrices: map<string, real>): real
    requires Priced(positions, latestPrices)
    decreases |positions|
  {
    if positions == map[] then 0.0
    else
      var s :| s in positions;
      Worth(positions, latestPrices, s) + Exposure(positions - {s}, latestPrices)
  }

  /** One pass of the `_compute_equity` loop: adding one position's value moves it from the exposure left to the equity. */
  lemma EquityStep(rest: map<string, Position>, latestPrices: map<string, real>, s: string, equity: real, next: real)
    requires Priced(rest, latestPrices) && s in rest
    requires next == if rest[s].quantity == 0 then equity else equity + rest[s].quantity as real * latestPrices[s]
    ensures Priced(rest - {s}, latestPrices) && |rest - {s}| < |rest|
    ensures next + Exposure(rest - {s}, latestPrices) == equity + Exposure(rest, latestPrices)
  {
    ExposureRemove(rest, latestPrices, s);
  }

  /** The exposure can be summed starting from any position. */
  lemma {:induction false} ExposureRemove(positions: map<string, Position>, latestPrices: map<string, real>, s: string)
    requires Priced(positions, latestPrices) && s in positions
    ensures Priced(positions - {s}, latestPrices) && |positions - {s}| < |positions|
    ensures Exposure(positions, latestPrices)
            == Worth(positions, latestPrices, s) + Exposure(positions - {s}, latestPrices)
    decreases |positions|
  {
    RemoveOne(positions, latestPrices, s);
    var t :| t in positions && Exposure(positions, latestPrices)
                               == Worth(positions, latestPrices, t) + Exposure(positions - {t}, latestPrices);
    if t != s {
      RemoveTwo(positions, latestPrices, s, t);
      ExposureRemove(positions - {t}, latestPrices, s);
      ExposureRemove(positions - {s}, latestPrices, t);
    }
  }

  /** Removing a position leaves one fewer, all still priced. */
  lemma RemoveOne(positions: map<string, Position>, latestPrices: map<string, real>, s: string)
    requires Priced(positions, latestPrices) && s in positions
    ensures Priced(positions - {s}, latestPrices) && |positions - {s}| == |positions| - 1
  {
    assert (positions - {s}).Keys == positions.Keys - {s};
  }

  /** Removing two positions in either order leaves the same map, and neither removal changes the other's worth. */
  lemma RemoveTwo(positions: map<string, Position>, latestPrices: map<string, real>, s: string, t: string)
    requires Priced(positions, latestPrices) && s in positions && t in positions && s != t
    ensures Priced(positions - {t}, latestPrices) && Priced(positions - {s}, latestPrices)
    ensures |positions - {t}| < |positions| && |positions - {s}| < |positions|
    ensures (positions - {t}) - {s} == (positions - {s}) - {t}
    ensures Worth(positions - {t}, latestPrices, s) == Worth(positions, latestPrices, s)
    ensures Worth(positions - {s}, latestPrices, t) == Worth(positions, latestPrices, t)
  {
    assert (positions - {t}).Keys == positions.Keys - {t};
    assert (positions - {s}).Keys == positions.Keys - {s};
  }

  /** With every position flat, the exposure is zero: the equity is the cash. */
  lemma {:induction false} FlatBookHasNoExposure(positions: map<string, Position>, latestPrices: map<string, real>)
    requires forall s :: s in positions ==> positions[s].quantity == 0
    ensures Exposure(positions, latestPrices) == 0.0
    decreases |positions|
  {
    if positions != map[] {
      var s :| s in positions;
      ExposureRemove(positions, latestPrices, s);
      FlatBookHasNoExposure(positions - {s}, latestPrices);
    }
  }

  /** The engine's portfolio: cash, positions by symbol, and the latest price seen per symbol. */
  class Engine {
    const defaultQty: int
    var cash: real
    var positions: map<string, Position>
    var latestPrices: map<string, real>

    ghost predicate Valid()
      reads this
    {
      Sound(positions) && Priced(positions, latestPrices)
    }

    constructor (defaultQty: int, initialCash: real)
      ensures Valid() && this.defaultQty == defaultQty
      ensures cash == initialCash && positions == map[] && latestPrices == map[]
    {
      this.defaultQty := defaultQty;
      cash := initialCash;
      positions := map[];
      latestPrices := map[];
    }

    /** `_ensure_position`. */
    method EnsurePosition(symbol: string)
      requires Valid()
      modifies this`positions
      ensures Valid() && positions == Ensured(old(positions), symbol)
    {
      if symbol !in positions {
        positions := positions["AAPL" := Flat];
      }
    }

    /**
     * `_signal_to_order`: a missing quantity becomes the default one, the order is
     * validated, and only a valid order gets the signal's action attached.
     */
    function SignalToOrder(signal: Signal): (r: Result<Ticket, OrderError>)
      ensures var qty := if signal.qty.Some? then signal.qty.value else defaultQty;
              var order := Order(signal.symbol, qty, signal.price, "NEW");
              (r.Ok? <==> WellFormed(order))
              && (r.Ok? ==> r.value == Ticket(order, signal.action))
              && (r.Err? ==> Validate(order) == Fail(r.error))
    {
      var qty := if signal.qty.Some? then signal.qty.value else defaultQty;
      var order := Order(signal.symbol, qty, signal.price, "NEW");
      match Validate(order)
      case Fail(e) => Err(e)
      case Pass => Ok(Ticket(order, signal.action))
    }

    /** `_execute_order`, with the random failure given as `executionFails`. */
    method ExecuteOrder(t: Ticket, executionFails: bool) returns (r: Result<Ticket, ExecError>)
      requires Valid() && Validate(t.order).Pass?
      modifies this
      ensures Valid()
      ensures Execution(cash, positions, latestPrices, r)
              == Execute(old(cash), old(positions), old(latestPrices), t, executionFails)
    {
      ExecuteKeepsInvariant(cash, positions, latestPrices, t, executionFails);
      if executionFails {
        return Err(ExecutionFailed);
      }
      var symbol := t.order.symbol;
      EnsurePosition(symbol);
      if symbol !in positions {
        return Err(MissingPosition(symbol));
      }
      if t.action == BUY {
        r := FillBuy(t);
      } else {
        r := FillSell(t);
      }
    }

    /** The BUY branch of `_execute_order`, on an ensured position. */
    method FillBuy(t: Ticket) returns (r: Result<Ticket, ExecError>)
      requires t.order.symbol in positions && positions[t.order.symbol].quantity >= 0 && t.order.quantity > 0
      modifies this
      ensures Execution(cash, positions, latestPrices, r) == Buy(old(cash), old(positions), old(latestPrices), t)
    {
      var symbol, qty, price := t.order.symbol, t.order.quantity, t.order.price;
      var held := positions[symbol];
      var cost := qty as real * price;
      if cost > cash {
        return Err(InsufficientFunds);
      }
      BuyFills(cash, positions, latestPrices, t);
      cash := cash - cost;
      positions := positions[symbol := Bought(held, qty, price)];
      latestPrices := latestPrices[symbol := price];
      r := Ok(Filled(t));
    }

    /** The sell branch of `_execute_order` (any action other than BUY), on an ensured position. */
    method FillSell(t: Ticket) returns (r: Result<Ticket, ExecError>)
      requires t.order.symbol in positions
      modifies this
      ensures Execution(cash, positions, latestPrices, r) == Sell(old(cash), old(positions), old(latestPrices), t)
    {
      var symbol, qty, price := t.order.symbol, t.order.quantity, t.order.price;
      var held := positions[symbol];
      if qty > held.quantity {
        return Err(InsufficientPosition);
      }
      cash := cash + qty as real * price;
      positions := positions[symbol := Sold(held, qty)];
      latestPrices := latestPrices[symbol := price];
      r := Ok(Filled(t));
    }

    /** `_compute_equity`: the cash plus every open position at its latest price. */
    method ComputeEquity() returns (equity: real)
      requires Valid()
      ensures equity == cash + Exposure(positions, latestPrices)
    {
      equity := cash;
      var rest := positions;
      while rest != map[]
        invariant Priced(rest, latestPrices)
        invariant equity + Exposure(rest, latestPrices) == cash + Exposure(positions, latestPrices)
        decreases |rest|
      {
        var symbol :| symbol in rest;
        var quantity := rest[symbol].quantity;
        var next := equity;
        if quantity != 0 {
          next := equity + quantity as real * latestPrices[symbol];
        }
        EquityStep(rest, latestPrices, symbol, equity, next);
        equity, rest := next, rest - {symbol};
      }
    }
  }
}
