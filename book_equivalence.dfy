/**
 * The two order books side by side. Both implement the same interface, and the
 * performance book is meant to quote the same best bid and best ask prices as the
 * reference book after every operation. That holds when no id is added twice and
 * no amendment sets a quantity of zero or less; an amendment to zero is where the
 * two books part ways, since only the performance book then removes the order.
 */
module BookEquivalence {
  import opened Wrappers
  import opened BookTypes
  import opened PriceOrder
  import opened NaiveOrder
  import opened OptimizedOrder

  /** One call of the interface that changes a book. */
  datatype BookOp =
    | Add(orderId: int, price: real, quantity: int, side: string)
    | Amend(orderId: int, newQuantity: int)
    | Delete(orderId: int)

  /** What a book quotes: the price of its best bid and of its best ask, if any. */
  datatype Quote = Quote(bid: Option<real>, ask: Option<real>)

  function PriceOf(o: Option<Order>): Option<real>
  {
    if o.Some? then Some(o.value.price) else None
  }

  /** The live ids after `op`: an add with a valid side puts its id in, a delete takes its id out. */
  function NextIds(ids: set<int>, op: BookOp): set<int>
  {
    match op
    case Add(orderId, _, _, side) => if ParseSide(side).Some? then ids + {orderId} else ids
    case Amend(_, _) => ids
    case Delete(orderId) => ids - {orderId}
  }

  /** The live ids after `ops`, starting from empty books. */
  ghost function LiveIds(ops: seq<BookOp>): set<int>
    decreases |ops|
  {
    if ops == [] then {} else NextIds(LiveIds(ops[..|ops| - 1]), ops[|ops| - 1])
  }

  /** One more operation moves the live ids on by `NextIds`. */
  lemma LiveIdsStep(ops: seq<BookOp>, i: nat)
    requires i < |ops|
    ensures LiveIds(ops[..i + 1]) == NextIds(LiveIds(ops[..i]), ops[i])
  {
    assert ops[..i + 1][..i] == ops[..i];
  }

  /** An operation keeps one set of ids inside another. */
  lemma NextIdsMonotone(a: set<int>, b: set<int>, op: BookOp)
    requires a <= b
    ensures NextIds(a, op) <= NextIds(b, op)
  {
  }

  /** No add of the sequence names an id that is live at that point; a deleted id may come back. */
  ghost predicate AddsFresh(ops: seq<BookOp>)
  {
    forall i :: 0 <= i < |ops| && ops[i].Add? ==> ops[i].orderId !in LiveIds(ops[..i])
  }

  /** An id may be added again once it has been deleted. */
  lemma ReAddAfterDelete()
    ensures AddsFresh([Add(1, 100.0, 5, "bid"), Delete(1), Add(1, 101.0, 7, "bid")])
  {
    var ops := [Add(1, 100.0, 5, "bid"), Delete(1), Add(1, 101.0, 7, "bid")];
    LiveIdsStep(ops, 0);
    LiveIdsStep(ops, 1);
    assert ops[..0] == [];
  }

  /** Every amendment of the sequence sets a positive quantity. */
  ghost predicate AmendsPositive(ops: seq<BookOp>)
  {
    forall i :: 0 <= i < |ops| && ops[i].Amend? ==> ops[i].newQuantity > 0
  }

  /** The orders of the reference book's two lists, counted with repetition. */
  ghost function Pool(bids: seq<Order>, asks: seq<Order>): multiset<Order>
  {
    multiset(bids) + multiset(asks)
  }

  /**
   * The reference book's lists and the performance book's id index hold the same
   * orders, each once, the index keyed by order id.
   */
  ghost predicate Coupled(pool: multiset<Order>, m: map<int, Order>)
  {
    && (forall o :: o in pool ==> pool[o] == 1)
    && (forall o :: o in pool <==> o in OrdersOf(m))
    && (forall id :: id in m ==> m[id].orderId == id)
  }

  /** An order held by an index keyed by id sits under its own id. */
  lemma Keyed(m: map<int, Order>, o: Order)
    requires (forall id :: id in m ==> m[id].orderId == id) && o in OrdersOf(m)
    ensures o.orderId in m && m[o.orderId] == o
  {
  }

  /** Two coupled books stay coupled when both add the same order under a fresh id. */
  lemma AddStep(pool: multiset<Order>, m: map<int, Order>, o: Order)
    requires Coupled(pool, m) && o.orderId !in m
    ensures Coupled(pool + multiset{o}, m[o.orderId := o])
  {
    ValuesAfterAdd(m, o);
    forall v | v in OrdersOf(m) ensures v != o {
      Keyed(m, v);
    }
    assert o !in pool;
  }

  /** Two coupled books stay coupled when both remove the same order; that order is the one under its id. */
  lemma RemoveStep(pool: multiset<Order>, m: map<int, Order>, x: Order)
    requires Coupled(pool, m) && x in pool
    ensures x.orderId in m && m[x.orderId] == x
    ensures Coupled(pool - multiset{x}, m - {x.orderId})
  {
    Keyed(m, x);
    ValuesAfterRemove(m, x.orderId);
  }

  /** Two coupled books stay coupled when both replace the same order by one with its id. */
  lemma ReplaceStep(pool: multiset<Order>, m: map<int, Order>, x: Order, y: Order)
    requires Coupled(pool, m) && x in pool && y.orderId == x.orderId
    ensures x.orderId in m && m[x.orderId] == x
    ensures Coupled(pool - multiset{x} + multiset{y}, m[x.orderId := y])
  {
    RemoveStep(pool, m, x);
    AddStep(pool - multiset{x}, m - {x.orderId}, y);
    assert (m - {x.orderId})[x.orderId := y] == m[x.orderId := y];
  }

  /** An id no order of the reference book carries is not indexed by the performance book. */
  lemma AbsentStep(pool: multiset<Order>, m: map<int, Order>, id: int)
    requires Coupled(pool, m) && forall o :: o in pool ==> o.orderId != id
    ensures id !in m
  {
    forall k | k in m ensures k != id {
      assert m[k] in OrdersOf(m);
    }
  }

  /** When neither list has an order with that id, no order of the pool has it. */
  lemma AbsentFromPool(bids: seq<Order>, asks: seq<Order>, id: int)
    requires FirstIndex(bids, id).None? && FirstIndex(asks, id).None?
    ensures forall o :: o in Pool(bids, asks) ==> o.orderId != id
  {
    forall o | o in Pool(bids, asks) ensures o.orderId != id {
      if o in bids {
        var i :| 0 <= i < |bids| && bids[i] == o;
      } else {
        var i :| 0 <= i < |asks| && asks[i] == o;
      }
    }
  }

  /** Coupled books hold the same set of live orders. */
  lemma SameLive(n: NaiveOrderBook, p: OptimizedOrderBook)
    requires Coupled(Pool(n.bids, n.asks), p.ordersById)
    ensures n.Live() == p.Live()
  {
    forall o ensures o in n.Live() <==> o in p.Live() {
      assert o in n.Live() <==> o in Pool(n.bids, n.asks);
    }
  }

  /** Two answers that each name a best order of the same live set, or none when the side is empty, quote the same price. */
  lemma SameBestPrice(live: set<Order>, side: Side, r1: Option<Order>, r2: Option<Order>)
    requires r1.None? <==> SideEmpty(live, side)
    requires r1.Some? ==> IsBest(live, side, r1.value)
    requires r2.None? <==> SideEmpty(live, side)
    requires r2.Some? ==> IsBest(live, side, r2.value)
    ensures PriceOf(r1) == PriceOf(r2)
  {
    if r1.Some? && r2.Some? {
      BestPriceIsUnique(live, side, r1.value, r2.value);
    }
  }

  /** Setting a key of an id index adds that key to its ids. */
  lemma KeysAfterSet(m: map<int, Order>, id: int, o: Order)
    ensures m[id := o].Keys == m.Keys + {id}
  {
  }

  /** `add_order` on both books. */
  method AddBoth(n: NaiveOrderBook, p: OptimizedOrderBook, orderId: int, price: real, quantity: int, side: string)
    requires n.Valid() && p.Valid() && Coupled(Pool(n.bids, n.asks), p.ordersById)
    requires orderId !in p.ordersById
    modifies n, p
    ensures n.Valid() && p.Valid() && Coupled(Pool(n.bids, n.asks), p.ordersById)
    ensures p.ordersById.Keys <= NextIds(old(p.ordersById.Keys), Add(orderId, price, quantity, side))
  {
    ghost var pool, m := Pool(n.bids, n.asks), p.ordersById;
    var _ := n.AddOrder(orderId, price, quantity, side);
    var added := AddId(p, orderId, price, quantity, side);
    if added {
      AddStep(pool, m, Order(orderId, price, quantity, ParseSide(side).value));
    }
  }

  /** The performance book's `add_order` of a new id, seen through its id index alone. */
  method AddId(p: OptimizedOrderBook, orderId: int, price: real, quantity: int, side: string) returns (added: bool)
    requires p.Valid() && orderId !in p.ordersById
    modifies p
    ensures p.Valid()
    ensures added == ParseSide(side).Some?
    ensures added ==> p.ordersById == old(p.ordersById)[orderId := Order(orderId, price, quantity, ParseSide(side).value)]
    ensures !added ==> p.ordersById == old(p.ordersById)
    ensures p.ordersById.Keys <= NextIds(old(p.ordersById.Keys), Add(orderId, price, quantity, side))
  {
    var r := p.AddOrder(orderId, price, quantity, side);
    added := r.Pass?;
    if added {
      KeysAfterSet(old(p.ordersById), orderId, Order(orderId, price, quantity, ParseSide(side).value));
    }
  }

  /**
   * The reference book's `delete_order` (the first order with the id leaves its
   * list, bids searched first) keeps it coupled to an index that drops the id.
   */
  lemma DeleteStep(bids: seq<Order>, asks: seq<Order>, bids': seq<Order>, asks': seq<Order>, m: map<int, Order>, id: int)
    requires Coupled(Pool(bids, asks), m)
    requires FirstIndex(bids, id).Some? ==>
      multiset(bids') == multiset(bids) - multiset{bids[FirstIndex(bids, id).value]} && asks' == asks
    requires FirstIndex(bids, id).None? && FirstIndex(asks, id).Some? ==>
      multiset(asks') == multiset(asks) - multiset{asks[FirstIndex(asks, id).value]} && bids' == bids
    requires FirstIndex(bids, id).None? && FirstIndex(asks, id).None? ==> bids' == bids && asks' == asks
    ensures id in m ==> Coupled(Pool(bids', asks'), m - {id})
    ensures id !in m ==> Coupled(Pool(bids', asks'), m)
  {
    if FirstIndex(bids, id).Some? {
      var x := bids[FirstIndex(bids, id).value];
      assert x in multiset(bids);
      DeleteFound(bids, asks, bids', asks', m, x);
    } else if FirstIndex(asks, id).Some? {
      var x := asks[FirstIndex(asks, id).value];
      assert x in multiset(asks);
      DeleteFound(bids, asks, bids', asks', m, x);
    } else {
      AbsentFromPool(bids, asks, id);
      AbsentStep(Pool(bids, asks), m, id);
    }
  }

  /** Removing an order from one of the two lists removes it from the pool, and from the index under its id. */
  lemma DeleteFound(bids: seq<Order>, asks: seq<Order>, bids': seq<Order>, asks': seq<Order>, m: map<int, Order>, x: Order)
    requires Coupled(Pool(bids, asks), m)
    requires || (x in multiset(bids) && multiset(bids') == multiset(bids) - multiset{x} && asks' == asks)
             || (x in multiset(asks) && multiset(asks') == multiset(asks) - multiset{x} && bids' == bids)
    ensures x.orderId in m && Coupled(Pool(bids', asks'), m - {x.orderId})
  {
    assert Pool(bids', asks') == Pool(bids, asks) - multiset{x};
    RemoveStep(Pool(bids, asks), m, x);
  }

  /** Setting one element of a list trades that element for the new one in the list's multiset. */
  lemma UpdatedMultiset(s: seq<Order>, i: nat, y: Order)
    requires i < |s|
    ensures multiset(s[i := y]) == multiset(s) - multiset{s[i]} + multiset{y}
  {
    assert s[i := y] == s[..i] + [y] + s[i + 1..];
    assert s == s[..i] + [s[i]] + s[i + 1..];
  }

  /**
   * The reference book's `amend_order` (the first order with the id gets the new
   * quantity in place, bids searched first) keeps it coupled to an index that
   * amends the order under that id.
   */
  lemma AmendStep(bids: seq<Order>, asks: seq<Order>, bids': seq<Order>, asks': seq<Order>, m: map<int, Order>, id: int, q: int)
    requires Coupled(Pool(bids, asks), m)
    requires FirstIndex(bids, id).Some? ==>
      var i := FirstIndex(bids, id).value;
      bids' == bids[i := bids[i].(quantity := q)] && asks' == asks
    requires FirstIndex(bids, id).None? && FirstIndex(asks, id).Some? ==>
      var i := FirstIndex(asks, id).value;
      asks' == asks[i := asks[i].(quantity := q)] && bids' == bids
    requires FirstIndex(bids, id).None? && FirstIndex(asks, id).None? ==> bids' == bids && asks' == asks
    ensures Coupled(Pool(bids', asks'), Amended(m, id, q))
  {
    if FirstIndex(bids, id).Some? {
      AmendAt(bids, asks, bids', m, FirstIndex(bids, id).value, q);
    } else if FirstIndex(asks, id).Some? {
      assert Pool(asks, bids) == Pool(bids, asks);
      AmendAt(asks, bids, asks', m, FirstIndex(asks, id).value, q);
      assert Pool(asks', bids) == Pool(bids', asks');
    } else {
      AbsentFromPool(bids, asks, id);
      AbsentStep(Pool(bids, asks), m, id);
    }
  }

  /** Setting the quantity of one order of a list matches amending the order under its id. */
  lemma AmendAt(s: seq<Order>, t: seq<Order>, s': seq<Order>, m: map<int, Order>, i: nat, q: int)
    requires Coupled(Pool(s, t), m) && i < |s| && s' == s[i := s[i].(quantity := q)]
    ensures Coupled(Pool(s', t), Amended(m, s[i].orderId, q))
  {
    var x := s[i];
    UpdatedMultiset(s, i, x.(quantity := q));
    assert x in multiset(s);
    AmendFound(Pool(s, t), Pool(s', t), m, x, q);
  }

  /** The id index after the order under `id`, if any, gets quantity `q`. */
  function Amended(m: map<int, Order>, id: int, q: int): map<int, Order>
  {
    if id in m then m[id := m[id].(quantity := q)] else m
  }

  /** Replacing the order `x` by `x` with quantity `q` in the pool matches amending the order under its id. */
  lemma AmendFound(pool: multiset<Order>, pool': multiset<Order>, m: map<int, Order>, x: Order, q: int)
    requires Coupled(pool, m) && x in pool
    requires pool' == pool - multiset{x} + multiset{x.(quantity := q)}
    ensures x.orderId in m && m[x.orderId] == x
    ensures Coupled(pool', m[x.orderId := m[x.orderId].(quantity := q)])
  {
    ReplaceStep(pool, m, x, x.(quantity := q));
  }

  /** `delete_order` on both books. */
  method DeleteBoth(n: NaiveOrderBook, p: OptimizedOrderBook, orderId: int)
    requires n.Valid() && p.Valid() && Coupled(Pool(n.bids, n.asks), p.ordersById)
    modifies n, p
    ensures n.Valid() && p.Valid() && Coupled(Pool(n.bids, n.asks), p.ordersById)
    ensures p.ordersById.Keys <= NextIds(old(p.ordersById.Keys), Delete(orderId))
  {
    var _ := n.DeleteOrder(orderId);
    DeleteStep(old(n.bids), old(n.asks), n.bids, n.asks, p.ordersById, orderId);
    DropId(p, orderId);
  }

  /** The performance book's `delete_order`, seen through its id index alone. */
  method DropId(p: OptimizedOrderBook, orderId: int)
    requires p.Valid()
    modifies p`ordersById, p`priceLevels
    ensures p.Valid()
    ensures orderId in old(p.ordersById) ==> p.ordersById == old(p.ordersById) - {orderId}
    ensures orderId !in old(p.ordersById) ==> p.ordersById == old(p.ordersById)
    ensures p.ordersById.Keys <= NextIds(old(p.ordersById.Keys), Delete(orderId))
  {
    var _ := p.DeleteOrder(orderId);
  }

  /** `amend_order` on both books, with a positive quantity. */
  method AmendBoth(n: NaiveOrderBook, p: OptimizedOrderBook, orderId: int, newQuantity: int)
    requires n.Valid() && p.Valid() && Coupled(Pool(n.bids, n.asks), p.ordersById)
    requires newQuantity > 0
    modifies n, p
    ensures n.Valid() && p.Valid() && Coupled(Pool(n.bids, n.asks), p.ordersById)
    ensures p.ordersById.Keys <= NextIds(old(p.ordersById.Keys), Amend(orderId, newQuantity))
  {
    var _ := n.AmendOrder(orderId, newQuantity);
    AmendStep(old(n.bids), old(n.asks), n.bids, n.asks, p.ordersById, orderId, newQuantity);
    SetQuantity(p, orderId, newQuantity);
  }

  /** The performance book's `amend_order` with a positive quantity, seen through its id index alone. */
  method SetQuantity(p: OptimizedOrderBook, orderId: int, newQuantity: int)
    requires p.Valid() && newQuantity > 0
    modifies p`ordersById, p`priceLevels
    ensures p.Valid()
    ensures p.ordersById == Amended(old(p.ordersById), orderId, newQuantity)
    ensures p.ordersById.Keys <= NextIds(old(p.ordersById.Keys), Amend(orderId, newQuantity))
  {
    var _ := p.AmendOrder(orderId, newQuantity);
  }

  /** The quotes of both books, which coincide while they are coupled. */
  method QuoteBoth(n: NaiveOrderBook, p: OptimizedOrderBook) returns (qn: Quote, qp: Quote)
    requires n.Valid() && p.Valid() && Coupled(Pool(n.bids, n.asks), p.ordersById)
    modifies p`bidHeap, p`askHeap
    ensures p.Valid() && qn == qp
  {
    SameLive(n, p);
    var bid := p.BestBid();
    var ask := p.BestAsk();
    SameBestPrice(n.Live(), Bid, n.BestBid(), bid);
    SameBestPrice(n.Live(), Ask, n.BestAsk(), ask);
    qn := Quote(PriceOf(n.BestBid()), PriceOf(n.BestAsk()));
    qp := Quote(PriceOf(bid), PriceOf(ask));
  }

  /** One operation on both books. */
  method ApplyBoth(n: NaiveOrderBook, p: OptimizedOrderBook, op: BookOp)
    requires n.Valid() && p.Valid() && Coupled(Pool(n.bids, n.asks), p.ordersById)
    requires op.Add? ==> op.orderId !in p.ordersById
    requires op.Amend? ==> op.newQuantity > 0
    modifies n, p
    ensures n.Valid() && p.Valid() && Coupled(Pool(n.bids, n.asks), p.ordersById)
    ensures p.ordersById.Keys <= NextIds(old(p.ordersById.Keys), op)
  {
    match op {
      case Add(orderId, price, quantity, side) =>
        AddBoth(n, p, orderId, price, quantity, side);
      case Amend(orderId, newQuantity) =>
        AmendBoth(n, p, orderId, newQuantity);
      case Delete(orderId) =>
        DeleteBoth(n, p, orderId);
    }
  }

  /** One operation on both books, then both quotes, which agree. */
  method StepBoth(n: NaiveOrderBook, p: OptimizedOrderBook, op: BookOp) returns (qn: Quote, qp: Quote)
    requires n.Valid() && p.Valid() && Coupled(Pool(n.bids, n.asks), p.ordersById)
    requires op.Add? ==> op.orderId !in p.ordersById
    requires op.Amend? ==> op.newQuantity > 0
    modifies n, p
    ensures n.Valid() && p.Valid() && Coupled(Pool(n.bids, n.asks), p.ordersById)
    ensures p.ordersById.Keys <= NextIds(old(p.ordersById.Keys), op)
    ensures qn == qp
  {
    ApplyBoth(n, p, op);
    qn, qp := QuoteBoth(n, p);
  }

  /**
   * Apply the same operations, in the same order, to a fresh reference book and a
   * fresh performance book, and read both quotes after each one: as long as no add
   * names a live id and no amendment goes to zero or below, they never differ.
   */
  method Replay(ops: seq<BookOp>) returns (naiveQuotes: seq<Quote>, optimizedQuotes: seq<Quote>)
    requires AddsFresh(ops) && AmendsPositive(ops)
    ensures |naiveQuotes| == |ops| && naiveQuotes == optimizedQuotes
  {
    var n := new NaiveOrderBook();
    var p := new OptimizedOrderBook();
    naiveQuotes, optimizedQuotes := [], [];
    for i := 0 to |ops|
      invariant n.Valid() && p.Valid() && Coupled(Pool(n.bids, n.asks), p.ordersById)
      invariant p.ordersById.Keys <= LiveIds(ops[..i])
      invariant |naiveQuotes| == i && naiveQuotes == optimizedQuotes
    {
      ghost var before := p.ordersById.Keys;
      var qn, qp := StepBoth(n, p, ops[i]);
      NextIdsMonotone(before, LiveIds(ops[..i]), ops[i]);
      LiveIdsStep(ops, i);
      naiveQuotes, optimizedQuotes := naiveQuotes + [qn], optimizedQuotes + [qp];
    }
  }

  /**
   * The performance book on a short history: two bids and an ask, the better bid
   * deleted (its heap entry left behind and popped by the next read), the ask
   * amended to zero (its level emptied) and a new ask at the same price (the level
   * created again and its price pushed once more).
   */
  method LazyHealingScenario() returns (quotes: seq<Quote>)
    ensures quotes == [
      Quote(Some(105.0), Some(110.0)),
      Quote(Some(100.0), Some(110.0)),
      Quote(Some(100.0), None),
      Quote(Some(100.0), Some(110.0))]
  {
    var p := new OptimizedOrderBook();
    var q1 := OpenPhase(p);
    var q2 := DeletePhase(p);
    var q3 := AmendPhase(p);
    var q4 := ReAddPhase(p);
    quotes := [q1, q2, q3, q4];
  }

  /** Bids 1 at 100 and 2 at 105 and ask 3 at 110 enter an empty book, which then quotes 105 and 110. */
  method OpenPhase(p: OptimizedOrderBook) returns (q: Quote)
    requires p.Valid() && p.ordersById == map[] && p.priceLevels == map[] && p.bidHeap == [] && p.askHeap == []
    modifies p
    ensures p.Valid()
    ensures p.ordersById == map[1 := Order(1, 100.0, 10, Bid), 2 := Order(2, 105.0, 5, Bid), 3 := Order(3, 110.0, 3, Ask)]
    ensures p.bidHeap == [-105.0, -100.0] && p.askHeap == [110.0]
    ensures q == Quote(Some(105.0), Some(110.0))
  {
    SeedBids(p);
    SeedAsk(p);
    var bid := p.BestBid();
    var ask := p.BestAsk();
    q := Quote(PriceOf(bid), PriceOf(ask));
  }

  /** Ask 3 at 110 joins the two bids. */
  method SeedAsk(p: OptimizedOrderBook)
    requires p.Valid()
    requires p.ordersById == map[1 := Order(1, 100.0, 10, Bid), 2 := Order(2, 105.0, 5, Bid)]
    requires p.bidHeap == [-105.0, -100.0] && p.askHeap == []
    modifies p
    ensures p.Valid()
    ensures p.ordersById == map[1 := Order(1, 100.0, 10, Bid), 2 := Order(2, 105.0, 5, Bid), 3 := Order(3, 110.0, 3, Ask)]
    ensures p.Live() == {Order(1, 100.0, 10, Bid), Order(2, 105.0, 5, Bid), Order(3, 110.0, 3, Ask)}
    ensures p.bidHeap == [-105.0, -100.0] && p.askHeap == [110.0]
  {
    var o1, o2 := Order(1, 100.0, 10, Bid), Order(2, 105.0, 5, Bid);
    ValuesAfterAdd(map[], o1);
    ValuesAfterAdd(map[1 := o1], o2);
    assert p.Live() == {o1, o2};
    var _ := p.AddOrder(3, 110.0, 3, "ask");
  }

  /** The two bids of the opening phase: each opens a level and pushes its price. */
  method SeedBids(p: OptimizedOrderBook)
    requires p.Valid() && p.ordersById == map[] && p.priceLevels == map[] && p.bidHeap == [] && p.askHeap == []
    modifies p
    ensures p.Valid()
    ensures p.ordersById == map[1 := Order(1, 100.0, 10, Bid), 2 := Order(2, 105.0, 5, Bid)]
    ensures p.priceLevels == map[(Bid, 100.0) := [1], (Bid, 105.0) := [2]]
    ensures p.bidHeap == [-105.0, -100.0] && p.askHeap == []
  {
    assert [] + [1] == [1] && [] + [2] == [2];
    var _ := p.AddOrder(1, 100.0, 10, "bid");
    var _ := p.AddOrder(2, 105.0, 5, "bid");
  }

  /** Deleting bid 2 leaves its heap entry behind; the next best-bid read pops it and quotes 100. */
  method DeletePhase(p: OptimizedOrderBook) returns (q: Quote)
    requires p.Valid()
    requires p.ordersById == map[1 := Order(1, 100.0, 10, Bid), 2 := Order(2, 105.0, 5, Bid), 3 := Order(3, 110.0, 3, Ask)]
    requires p.bidHeap == [-105.0, -100.0] && p.askHeap == [110.0]
    modifies p
    ensures p.Valid()
    ensures p.ordersById == map[1 := Order(1, 100.0, 10, Bid), 3 := Order(3, 110.0, 3, Ask)]
    ensures p.bidHeap == [-100.0] && p.askHeap == [110.0]
    ensures q == Quote(Some(100.0), Some(110.0))
  {
    DropBid(p);
    var bid := p.BestBid();
    var ask := p.BestAsk();
    q := Quote(PriceOf(bid), PriceOf(ask));
  }

  /** Bid 2 leaves the book; the bid heap keeps its price. */
  method DropBid(p: OptimizedOrderBook)
    requires p.Valid()
    requires p.ordersById == map[1 := Order(1, 100.0, 10, Bid), 2 := Order(2, 105.0, 5, Bid), 3 := Order(3, 110.0, 3, Ask)]
    requires p.bidHeap == [-105.0, -100.0] && p.askHeap == [110.0]
    modifies p
    ensures p.Valid()
    ensures p.ordersById == map[1 := Order(1, 100.0, 10, Bid), 3 := Order(3, 110.0, 3, Ask)]
    ensures p.Live() == {Order(1, 100.0, 10, Bid), Order(3, 110.0, 3, Ask)}
    ensures p.bidHeap == [-105.0, -100.0] && p.askHeap == [110.0]
  {
    var o1, o3 := Order(1, 100.0, 10, Bid), Order(3, 110.0, 3, Ask);
    var _ := p.DeleteOrder(2);
    assert p.ordersById == map[1 := o1][3 := o3];
    ValuesAfterAdd(map[], o1);
    ValuesAfterAdd(map[1 := o1], o3);
  }

  /** Amending ask 3 to quantity zero deletes it; the next best-ask read empties the ask heap and quotes none. */
  method AmendPhase(p: OptimizedOrderBook) returns (q: Quote)
    requires p.Valid()
    requires p.ordersById == map[1 := Order(1, 100.0, 10, Bid), 3 := Order(3, 110.0, 3, Ask)]
    requires p.bidHeap == [-100.0] && p.askHeap == [110.0]
    modifies p
    ensures p.Valid()
    ensures p.ordersById == map[1 := Order(1, 100.0, 10, Bid)]
    ensures p.bidHeap == [-100.0] && p.askHeap == []
    ensures q == Quote(Some(100.0), None)
  {
    ZeroAsk(p);
    var bid := p.BestBid();
    var ask := p.BestAsk();
    q := Quote(PriceOf(bid), PriceOf(ask));
  }

  /** Ask 3 is amended to quantity zero and so deleted; the ask heap keeps its price. */
  method ZeroAsk(p: OptimizedOrderBook)
    requires p.Valid()
    requires p.ordersById == map[1 := Order(1, 100.0, 10, Bid), 3 := Order(3, 110.0, 3, Ask)]
    requires p.bidHeap == [-100.0] && p.askHeap == [110.0]
    modifies p
    ensures p.Valid()
    ensures p.ordersById == map[1 := Order(1, 100.0, 10, Bid)]
    ensures p.Live() == {Order(1, 100.0, 10, Bid)}
    ensures p.bidHeap == [-100.0] && p.askHeap == [110.0]
  {
    var o1 := Order(1, 100.0, 10, Bid);
    var _ := p.AmendOrder(3, 0);
    assert p.ordersById == map[1 := o1];
    ValuesAfterAdd(map[], o1);
  }

  /** Ask 4 at 110 creates that level again and pushes its price again; the book quotes 100 and 110. */
  method ReAddPhase(p: OptimizedOrderBook) returns (q: Quote)
    requires p.Valid()
    requires p.ordersById == map[1 := Order(1, 100.0, 10, Bid)]
    requires p.bidHeap == [-100.0] && p.askHeap == []
    modifies p
    ensures p.Valid()
    ensures p.askHeap == [110.0]
    ensures q == Quote(Some(100.0), Some(110.0))
  {
    AddAskAgain(p);
    var bid := p.BestBid();
    var ask := p.BestAsk();
    q := Quote(PriceOf(bid), PriceOf(ask));
  }

  /** Ask 4 at 110 enters a book holding only bid 1. */
  method AddAskAgain(p: OptimizedOrderBook)
    requires p.Valid()
    requires p.ordersById == map[1 := Order(1, 100.0, 10, Bid)]
    requires p.bidHeap == [-100.0] && p.askHeap == []
    modifies p
    ensures p.Valid()
    ensures p.Live() == {Order(1, 100.0, 10, Bid), Order(4, 110.0, 1, Ask)}
    ensures p.bidHeap == [-100.0] && p.askHeap == [110.0]
  {
    var o1 := Order(1, 100.0, 10, Bid);
    ValuesAfterAdd(map[], o1);
    assert p.Live() == {o1};
    var _ := p.AddOrder(4, 110.0, 1, "ask");
  }

  /** The reference book keeps an ask amended to quantity zero as its best ask. */
  method NaiveAmendToZero() returns (ask: Option<Order>)
    ensures ask == Some(Order(3, 110.0, 0, Ask))
  {
    var o := Order(3, 110.0, 3, Ask);
    var n := NaiveWithOneAsk();
    var _ := n.AmendOrder(3, 0);
    assert n.asks == [o.(quantity := 0)];
    ask := n.BestAsk();
  }

  /** A reference book holding only ask 3 at 110. */
  method NaiveWithOneAsk() returns (n: NaiveOrderBook)
    ensures fresh(n) && n.Valid() && n.bids == [] && n.asks == [Order(3, 110.0, 3, Ask)]
  {
    n := new NaiveOrderBook();
    SortSortedIsIdentity(Ask, [Order(3, 110.0, 3, Ask)]);
    var _ := n.AddOrder(3, 110.0, 3, "ask");
  }

  /** The performance book deletes an ask amended to quantity zero and then has no best ask. */
  method OptimizedAmendToZero() returns (ask: Option<Order>)
    ensures ask == None
  {
    var p := new OptimizedOrderBook();
    var _ := p.AddOrder(3, 110.0, 3, "ask");
    var _ := p.AmendOrder(3, 0);
    assert p.ordersById == map[];
    ask := p.BestAsk();
  }

  /**
   * The same add and the same amendment to quantity zero on both books: the
   * reference book still quotes the ask, the performance book quotes none.
   */
  method AmendToZeroDiverges() returns (naiveAsk: Option<real>, optimizedAsk: Option<real>)
    ensures naiveAsk == Some(110.0) && optimizedAsk == None
  {
    var n := NaiveAmendToZero();
    var p := OptimizedAmendToZero();
    naiveAsk, optimizedAsk := PriceOf(n), PriceOf(p);
  }
}
