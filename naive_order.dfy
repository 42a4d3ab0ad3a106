/**
 * The reference order book: one list of bids and one list of asks, re-sorted by
 * price after every mutation; lookups are linear scans that search the bids
 * before the asks. It does not reject duplicate ids, and an amendment to a
 * non-positive quantity keeps the order.
 */
module NaiveOrder {
  import opened Wrappers
  import opened BookTypes
  import opened PriceOrder

  /** The index of the first order of `s` with id `orderId`: the scan every search of the naive book runs. */
  method IndexOfId(s: seq<Order>, orderId: int) returns (r: Option<nat>)
    ensures r == FirstIndex(s, orderId)
  {
    var i := 0;
    while i < |s|
      invariant 0 <= i <= |s|
      invariant forall j :: 0 <= j < i ==> s[j].orderId != orderId
    {
      if s[i].orderId == orderId {
        return Some(i);
      }
      i := i + 1;
    }
    return None;
  }

  class NaiveOrderBook {
    var bids: seq<Order>
    var asks: seq<Order>

    /** Bids from the highest price down, asks from the lowest up, each list holding only its own side. */
    ghost predicate Valid()
      reads this
    {
      SortedFor(Bid, bids) && SortedFor(Ask, asks) && AllOnSide(bids, Bid) && AllOnSide(asks, Ask)
    }

    /** The live orders of the book, both sides. */
    ghost function Live(): set<Order>
      reads this
    {
      (set o | o in bids) + (set o | o in asks)
    }

    constructor ()
      ensures Valid() && bids == [] && asks == []
    {
      bids, asks := [], [];
    }

    /** `_sort_books`: stable sorts of the bids by descending and of the asks by ascending price. */
    method SortBooks()
      modifies this
      ensures bids == SortByPrice(Bid, old(bids)) && asks == SortByPrice(Ask, old(asks))
      ensures SortedFor(Bid, bids) && SortedFor(Ask, asks)
      ensures multiset(bids) == multiset(old(bids)) && multiset(asks) == multiset(old(asks))
    {
      bids := SortByPrice(Bid, bids);
      asks := SortByPrice(Ask, asks);
    }

    /**
     * `add_order`: append the new order to the list of its side and re-sort; any
     * other side string raises before anything is appended. Ids are not checked.
     */
    method AddOrder(orderId: int, price: real, quantity: int, side: string) returns (r: Outcome<BookError>)
      requires Valid()
      modifies this
      ensures Valid()
      ensures r == if ParseSide(side).Some? then Pass else Fail(InvalidSide(side))
      ensures side == "bid" ==>
        && bids == SortByPrice(Bid, old(bids) + [Order(orderId, price, quantity, Bid)])
        && multiset(bids) == multiset(old(bids)) + multiset{Order(orderId, price, quantity, Bid)}
        && asks == old(asks)
      ensures side == "ask" ==>
        && asks == SortByPrice(Ask, old(asks) + [Order(orderId, price, quantity, Ask)])
        && multiset(asks) == multiset(old(asks)) + multiset{Order(orderId, price, quantity, Ask)}
        && bids == old(bids)
      ensures r.Fail? ==> bids == old(bids) && asks == old(asks)
    {
      ghost var bids0, asks0 := bids, asks;
      if side == "bid" {
        bids := bids + [Order(orderId, price, quantity, Bid)];
      } else if side == "ask" {
        asks := asks + [Order(orderId, price, quantity, Ask)];
      } else {
        return Fail(InvalidSide(side));
      }
      ghost var bids1, asks1 := bids, asks;
      SortBooks();
      if side == "bid" {
        SortSortedIsIdentity(Ask, asks0);
      } else {
        SortSortedIsIdentity(Bid, bids0);
      }
      AllOnSideOfSubMultiset(bids, bids1, Bid);
      AllOnSideOfSubMultiset(asks, asks1, Ask);
      return Pass;
    }

    /**
     * `amend_order`: set the quantity of the first order with that id, bids searched
     * before asks, whatever the new quantity, and report whether one was found. The
     * re-sort that follows leaves the list as it is, so the order keeps its place.
     */
    method AmendOrder(orderId: int, newQuantity: int) returns (found: bool)
      requires Valid()
      modifies this
      ensures Valid()
      ensures found <==> FirstIndex(old(bids), orderId).Some? || FirstIndex(old(asks), orderId).Some?
      ensures FirstIndex(old(bids), orderId).Some? ==>
        var i := FirstIndex(old(bids), orderId).value;
        bids == old(bids)[i := old(bids)[i].(quantity := newQuantity)] && asks == old(asks)
      ensures FirstIndex(old(bids), orderId).None? && FirstIndex(old(asks), orderId).Some? ==>
        var i := FirstIndex(old(asks), orderId).value;
        bids == old(bids) && asks == old(asks)[i := old(asks)[i].(quantity := newQuantity)]
      ensures !found ==> bids == old(bids) && asks == old(asks)
    {
      var i := IndexOfId(bids, orderId);
      if i.Some? {
        AmendInPlace(Bid, bids, i.value, newQuantity);
        SortSortedIsIdentity(Ask, asks);
        bids := bids[i.value := bids[i.value].(quantity := newQuantity)];
        SortBooks();
        return true;
      }
      i := IndexOfId(asks, orderId);
      if i.Some? {
        AmendInPlace(Ask, asks, i.value, newQuantity);
        SortSortedIsIdentity(Bid, bids);
        asks := asks[i.value := asks[i.value].(quantity := newQuantity)];
        SortBooks();
        return true;
      }
      return false;
    }

    /**
     * `delete_order`: remove only the first order with that id, bids searched before
     * asks, and report whether one was found; the other orders keep their order.
     */
    method DeleteOrder(orderId: int) returns (found: bool)
      requires Valid()
      modifies this
      ensures Valid()
      ensures found <==> FirstIndex(old(bids), orderId).Some? || FirstIndex(old(asks), orderId).Some?
      ensures FirstIndex(old(bids), orderId).Some? ==>
        var i := FirstIndex(old(bids), orderId).value;
        && bids == old(bids)[..i] + old(bids)[i + 1..]
        && multiset(bids) == multiset(old(bids)) - multiset{old(bids)[i]}
        && asks == old(asks)
      ensures FirstIndex(old(bids), orderId).None? && FirstIndex(old(asks), orderId).Some? ==>
        var i := FirstIndex(old(asks), orderId).value;
        && asks == old(asks)[..i] + old(asks)[i + 1..]
        && multiset(asks) == multiset(old(asks)) - multiset{old(asks)[i]}
        && bids == old(bids)
      ensures !found ==> bids == old(bids) && asks == old(asks)
    {
      var i := IndexOfId(bids, orderId);
      if i.Some? {
        RemoveBidAt(i.value);
        return true;
      }
      i := IndexOfId(asks, orderId);
      if i.Some? {
        RemoveAskAt(i.value);
        return true;
      }
      return false;
    }

    /** `del self.bids[i]` followed by `_sort_books`, which leaves both lists as they are. */
    method RemoveBidAt(i: nat)
      requires Valid() && i < |bids|
      modifies this
      ensures Valid()
      ensures bids == old(bids)[..i] + old(bids)[i + 1..] && asks == old(asks)
      ensures multiset(bids) == multiset(old(bids)) - multiset{old(bids)[i]}
    {
      var rest := bids[..i] + bids[i + 1..];
      RemoveAtKeepsSorted(Bid, bids, i);
      AllOnSideOfSubMultiset(rest, bids, Bid);
      SortSortedIsIdentity(Bid, rest);
      SortSortedIsIdentity(Ask, asks);
      bids := rest;
      SortBooks();
    }

    /** `del self.asks[i]` followed by `_sort_books`, which leaves both lists as they are. */
    method RemoveAskAt(i: nat)
      requires Valid() && i < |asks|
      modifies this
      ensures Valid()
      ensures asks == old(asks)[..i] + old(asks)[i + 1..] && bids == old(bids)
      ensures multiset(asks) == multiset(old(asks)) - multiset{old(asks)[i]}
    {
      var rest := asks[..i] + asks[i + 1..];
      RemoveAtKeepsSorted(Ask, asks, i);
      AllOnSideOfSubMultiset(rest, asks, Ask);
      SortSortedIsIdentity(Bid, bids);
      SortSortedIsIdentity(Ask, rest);
      asks := rest;
      SortBooks();
    }

    /** `lookup_by_id`: the first order with that id, bids searched before asks, or None. */
    method LookupById(orderId: int) returns (r: Option<Order>)
      requires Valid()
      ensures r.Some? ==> r.value.orderId == orderId && r.value in Live()
      ensures r.None? <==> forall o :: o in Live() ==> o.orderId != orderId
      ensures r.Some? && r.value.side == Ask ==> forall o :: o in bids ==> o.orderId != orderId
      ensures r.Some? && r.value.side == Bid ==> r.value == bids[FirstIndex(bids, orderId).value]
      ensures r.Some? && r.value.side == Ask ==> r.value == asks[FirstIndex(asks, orderId).value]
    {
      var i := IndexOfId(bids, orderId);
      if i.Some? {
        return Some(bids[i.value]);
      }
      i := IndexOfId(asks, orderId);
      if i.Some? {
        return Some(asks[i.value]);
      }
      return None;
    }

    /**
     * `get_orders_at_price`: the orders whose price equals `price` exactly, on the
     * selected side or sides, the bids first.
     */
    function GetOrdersAtPrice(price: real, side: Option<string>): (out: seq<Order>)
      requires Valid()
      reads this
      ensures forall o :: o in out <==> o in Live() && o.price == price && SideSelected(side, o.side)
      ensures forall i, j :: 0 <= i < j < |out| && out[i].side == Ask ==> out[j].side == Ask
    {
      var b := if SideSelected(side, Bid) then AtPrice(bids, price) else [];
      var a := if SideSelected(side, Ask) then AtPrice(asks, price) else [];
      assert forall i :: 0 <= i < |b| ==> b[i].side == Bid by {
        forall i | 0 <= i < |b| ensures b[i].side == Bid {
          assert b[i] in b;
        }
      }
      assert forall i :: 0 <= i < |a| ==> a[i].side == Ask by {
        forall i | 0 <= i < |a| ensures a[i].side == Ask {
          assert a[i] in a;
        }
      }
      b + a
    }

    /** `best_bid`: None on an empty bid list, otherwise its head, a highest-priced bid. */
    function BestBid(): (r: Option<Order>)
      requires Valid()
      reads this
      ensures r.None? <==> SideEmpty(Live(), Bid)
      ensures r.Some? ==> IsBest(Live(), Bid, r.value)
    {
      if bids == [] then None
      else
        assert forall v :: v in Live() && v.side == Bid ==> v in bids;
        assert forall v :: v in bids ==> !Ahead(Bid, v.price, bids[0].price) by {
          forall v | v in bids ensures !Ahead(Bid, v.price, bids[0].price) {
            var k :| 0 <= k < |bids| && bids[k] == v;
          }
        }
        assert bids[0] in bids && bids[0].side == Bid;
        assert bids[0] in Live();
        Some(bids[0])
    }

    /** `best_ask`: None on an empty ask list, otherwise its head, a lowest-priced ask. */
    function BestAsk(): (r: Option<Order>)
      requires Valid()
      reads this
      ensures r.None? <==> SideEmpty(Live(), Ask)
      ensures r.Some? ==> IsBest(Live(), Ask, r.value)
    {
      if asks == [] then None
      else
        assert forall v :: v in Live() && v.side == Ask ==> v in asks;
        assert forall v :: v in asks ==> !Ahead(Ask, v.price, asks[0].price) by {
          forall v | v in asks ensures !Ahead(Ask, v.price, asks[0].price) {
            var k :| 0 <= k < |asks| && asks[k] == v;
          }
        }
        assert asks[0] in asks && asks[0].side == Ask;
        assert asks[0] in Live();
        Some(asks[0])
    }
  }
}
