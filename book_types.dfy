/**
 * The entities shared by both limit order books: the two sides of the book,
 * the order record, the errors `add_order` raises, and what "best" means on a side.
 */
module BookTypes {
  import opened Wrappers

  /** The side of the book an order rests on; the source spells them "bid" and "ask". */
  datatype Side = Bid | Ask

  /**
   * An order as both books store it. Identity, price and side never change once the
   * order is created; `quantity` is the only field an amendment touches.
   */
  datatype Order = Order(orderId: int, price: real, quantity: int, side: Side)

  /** The ValueErrors `add_order` raises. */
  datatype BookError = DuplicateId(orderId: int) | InvalidSide(side: string)

  /** The side named by the source's side string, if it names one. */
  function ParseSide(s: string): (r: Option<Side>)
    ensures r == Some(Bid) <==> s == "bid"
    ensures r == Some(Ask) <==> s == "ask"
  {
    if s == "bid" then Some(Bid) else if s == "ask" then Some(Ask) else None
  }

  /** The source's spelling of a side. */
  function SideName(side: Side): string
  {
    if side == Bid then "bid" else "ask"
  }

  /**
   * Whether `get_orders_at_price`'s optional side argument lets orders of `side`
   * through: no argument selects both sides, and a string other than "bid" or
   * "ask" selects neither.
   */
  predicate SideSelected(filter: Option<string>, side: Side)
  {
    filter.None? || filter.value == SideName(side)
  }

  /** `p` is strictly ahead of `q` in the queue of `side`: a higher bid or a lower ask. */
  predicate Ahead(side: Side, p: real, q: real)
  {
    if side == Bid then p > q else p < q
  }

  /** No live order rests on `side`. */
  ghost predicate SideEmpty(live: set<Order>, side: Side)
  {
    forall v :: v in live ==> v.side != side
  }

  /** `o` is a live order on `side` and no live order on that side is ahead of it. */
  ghost predicate IsBest(live: set<Order>, side: Side, o: Order)
  {
    && o in live
    && o.side == side
    && forall v :: v in live && v.side == side ==> !Ahead(side, v.price, o.price)
  }

  /** Two best orders of the same live set have the same price. */
  lemma BestPriceIsUnique(live: set<Order>, side: Side, a: Order, b: Order)
    requires IsBest(live, side, a) && IsBest(live, side, b)
    ensures a.price == b.price
  {
  }

  /** Whichever side's best order is asked for, it exists exactly when the side is not empty. */
  lemma {:induction false} BestExistsUnlessEmpty(live: set<Order>, side: Side)
    ensures !SideEmpty(live, side) ==> exists o :: IsBest(live, side, o)
    decreases live
  {
    if !SideEmpty(live, side) {
      var v :| v in live && v.side == side;
      var rest := live - {v};
      if SideEmpty(rest, side) {
        assert IsBest(live, side, v);
      } else {
        BestExistsUnlessEmpty(rest, side);
        var w :| IsBest(rest, side, w);
        if Ahead(side, v.price, w.price) {
          assert IsBest(live, side, v);
        } else {
          assert IsBest(live, side, w);
        }
      }
    }
  }
}
