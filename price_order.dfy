/**
 * Price-priority sequences of orders, as the naive book keeps them: bids from the
 * highest price down, asks from the lowest price up, and, because Python's
 * `list.sort` is stable (also with `reverse=True`), orders of equal price in the
 * order they were appended.
 */
module PriceOrder {
  import opened Wrappers
  import opened BookTypes

  /** No order of `s` is ahead of an order that precedes it. */
  ghost predicate SortedFor(side: Side, s: seq<Order>)
  {
    forall i, j :: 0 <= i < j < |s| ==> !Ahead(side, s[j].price, s[i].price)
  }

  /** Every order of `s` rests on `side`. */
  ghost predicate AllOnSide(s: seq<Order>, side: Side)
  {
    forall o :: o in s ==> o.side == side
  }

  /** A sequence whose orders all come from a one-sided sequence is one-sided. */
  lemma AllOnSideOfSubMultiset(s: seq<Order>, t: seq<Order>, side: Side)
    requires multiset(s) <= multiset(t) && AllOnSide(t, side)
    ensures AllOnSide(s, side)
  {
    forall o | o in s ensures o.side == side {
      assert o in multiset(s);
    }
  }

  /**
   * `o` inserted into a sorted `s` behind every order it is not ahead of: the place
   * a stable sort gives an element that comes last.
   */
  function Insert(side: Side, s: seq<Order>, o: Order): (r: seq<Order>)
    ensures multiset(r) == multiset(s) + multiset{o}
    decreases |s|
  {
    if s == [] || Ahead(side, o.price, s[0].price) then
      [o] + s
    else
      assert s == [s[0]] + s[1..];
      [s[0]] + Insert(side, s[1..], o)
  }

  /** Inserting into a sorted sequence keeps it sorted. */
  lemma {:induction false} InsertKeepsSorted(side: Side, s: seq<Order>, o: Order)
    requires SortedFor(side, s)
    ensures SortedFor(side, Insert(side, s, o))
    decreases |s|
  {
    var r := Insert(side, s, o);
    if s == [] {
    } else if Ahead(side, o.price, s[0].price) {
      forall j | 0 < j < |r| ensures !Ahead(side, r[j].price, o.price) {
        assert r[j] == s[j - 1];
      }
    } else {
      InsertKeepsSorted(side, s[1..], o);
      var t := Insert(side, s[1..], o);
      assert r == [s[0]] + t;
      forall j | 0 <= j < |t| ensures !Ahead(side, t[j].price, s[0].price) {
        assert t[j] in multiset(t);
        assert t[j] in s[1..] || t[j] == o;
        if t[j] in s[1..] {
          var k :| 0 <= k < |s[1..]| && s[1..][k] == t[j];
          assert s[k + 1] == t[j];
        }
      }
    }
  }

  /**
   * `_sort_books` on one side: a stable insertion sort, the result Python's
   * `list.sort(key=price)` (asks) or `list.sort(key=price, reverse=True)` (bids) gives.
   */
  function SortByPrice(side: Side, s: seq<Order>): (r: seq<Order>)
    ensures multiset(r) == multiset(s)
    ensures SortedFor(side, r)
    decreases |s|
  {
    if s == [] then []
    else
      assert s == s[..|s| - 1] + [s[|s| - 1]];
      InsertKeepsSorted(side, SortByPrice(side, s[..|s| - 1]), s[|s| - 1]);
      Insert(side, SortByPrice(side, s[..|s| - 1]), s[|s| - 1])
  }

  /** An order no queued order is behind goes to the back of the queue. */
  lemma {:induction false} InsertAtBack(side: Side, s: seq<Order>, o: Order)
    requires forall x :: x in s ==> !Ahead(side, o.price, x.price)
    ensures Insert(side, s, o) == s + [o]
    decreases |s|
  {
    if s != [] {
      InsertAtBack(side, s[1..], o);
      assert [s[0]] + (s[1..] + [o]) == s + [o];
    }
  }

  /** Sorting a sorted sequence leaves it as it is: the re-sort after every mutation that keeps the order is a no-op. */
  lemma {:induction false} SortSortedIsIdentity(side: Side, s: seq<Order>)
    requires SortedFor(side, s)
    ensures SortByPrice(side, s) == s
    decreases |s|
  {
    if s != [] {
      var init, last := s[..|s| - 1], s[|s| - 1];
      SortedSplit(side, s);
      calc {
        SortByPrice(side, s);
        Insert(side, SortByPrice(side, init), last);
        { SortSortedIsIdentity(side, init); }
        Insert(side, init, last);
        { InsertAtBack(side, init, last); }
        init + [last];
      }
      assert init + [last] == s;
    }
  }

  /** A sorted sequence is its sorted front followed by an order no earlier order is behind. */
  lemma SortedSplit(side: Side, s: seq<Order>)
    requires SortedFor(side, s) && s != []
    ensures SortedFor(side, s[..|s| - 1])
    ensures forall x :: x in s[..|s| - 1] ==> !Ahead(side, s[|s| - 1].price, x.price)
  {
    var init := s[..|s| - 1];
    forall x | x in init ensures !Ahead(side, s[|s| - 1].price, x.price) {
      var i :| 0 <= i < |init| && init[i] == x;
      assert s[i] == x;
    }
  }

  /** Removing one order from a sorted sequence keeps it sorted. */
  lemma RemoveAtKeepsSorted(side: Side, s: seq<Order>, i: nat)
    requires i < |s| && SortedFor(side, s)
    ensures SortedFor(side, s[..i] + s[i + 1..])
    ensures multiset(s[..i] + s[i + 1..]) == multiset(s) - multiset{s[i]}
  {
    var r := s[..i] + s[i + 1..];
    forall a, b | 0 <= a < b < |r| ensures !Ahead(side, r[b].price, r[a].price) {
      var a', b' := if a < i then a else a + 1, if b < i then b else b + 1;
      assert r[a] == s[a'] && r[b] == s[b'];
    }
    assert s == s[..i] + [s[i]] + s[i + 1..];
  }

  /**
   * Changing the quantity of one order changes no price and no side: the sequence
   * stays one-sided and sorted, so re-sorting it leaves it as it is.
   */
  lemma AmendInPlace(side: Side, s: seq<Order>, i: nat, q: int)
    requires i < |s| && SortedFor(side, s) && AllOnSide(s, side)
    ensures var s' := s[i := s[i].(quantity := q)];
            SortedFor(side, s') && AllOnSide(s', side) && SortByPrice(side, s') == s'
  {
    var s' := s[i := s[i].(quantity := q)];
    assert SortedFor(side, s');
    forall o | o in s' ensures o.side == side {
      var k :| 0 <= k < |s'| && s'[k] == o;
      if k != i {
        assert s[k] == o;
      }
    }
    SortSortedIsIdentity(side, s');
  }


  /** The orders of `s` whose price equals `p`, in their order in `s`: the source's comprehension `[o for o in s if o.price == p]`. */
  function AtPrice(s: seq<Order>, p: real): (r: seq<Order>)
    ensures forall o :: o in r <==> o in s && o.price == p
    ensures |r| <= |s|
    decreases |s|
  {
    if s == [] then []
    else if s[0].price == p then [s[0]] + AtPrice(s[1..], p)
    else AtPrice(s[1..], p)
  }

  /** Filtering by price distributes over concatenation. */
  lemma {:induction false} AtPriceAppend(a: seq<Order>, b: seq<Order>, p: real)
    ensures AtPrice(a + b, p) == AtPrice(a, p) + AtPrice(b, p)
    decreases |a|
  {
    if a == [] {
      assert a + b == b;
    } else {
      assert (a + b)[0] == a[0];
      assert (a + b)[1..] == a[1..] + b;
      AtPriceAppend(a[1..], b, p);
    }
  }

  /** Filtering a sequence by price keeps its head exactly when the head has that price. */
  lemma AtPriceCons(x: Order, t: seq<Order>, p: real)
    ensures AtPrice([x] + t, p) == (if x.price == p then [x] else []) + AtPrice(t, p)
  {
    assert ([x] + t)[0] == x;
    assert ([x] + t)[1..] == t;
  }

  /** An order ahead of every order of a sorted `s` shares its price with none of them. */
  lemma NoneAtPriceOfLeader(side: Side, s: seq<Order>, o: Order)
    requires SortedFor(side, s) && s != [] && Ahead(side, o.price, s[0].price)
    ensures AtPrice(s, o.price) == []
  {
    forall x | x in s ensures x.price != o.price {
      var k :| 0 <= k < |s| && s[k] == x;
      if k > 0 { assert !Ahead(side, s[k].price, s[0].price); }
    }
    if AtPrice(s, o.price) != [] {
      assert AtPrice(s, o.price)[0] in AtPrice(s, o.price);
    }
  }

  /** Inserting into a sorted sequence puts the new order behind every order of its own price. */
  lemma {:induction false} InsertKeepsLevelOrder(side: Side, s: seq<Order>, o: Order, p: real)
    requires SortedFor(side, s)
    ensures AtPrice(Insert(side, s, o), p) == AtPrice(s + [o], p)
    decreases |s|
  {
    if s == [] {
      assert s + [o] == [o] + s;
    } else if Ahead(side, o.price, s[0].price) {
      AtPriceAppend(s, [o], p);
      AtPriceCons(o, [], p);
      assert [o] + [] == [o];
      NoneAtPriceOfLeader(side, s, o);
      AtPriceCons(o, s, p);
    } else {
      InsertKeepsLevelOrder(side, s[1..], o, p);
      InsertBehindLeader(side, s, o, p);
    }
  }

  /** An order not ahead of the leader goes in behind it. */
  lemma InsertPastLeader(side: Side, s: seq<Order>, o: Order)
    requires s != [] && !Ahead(side, o.price, s[0].price)
    ensures Insert(side, s, o) == [s[0]] + Insert(side, s[1..], o)
  {
  }

  /** The step of the induction above: an order inserted behind the leader keeps the leader first at its price. */
  lemma InsertBehindLeader(side: Side, s: seq<Order>, o: Order, p: real)
    requires s != [] && !Ahead(side, o.price, s[0].price)
    requires AtPrice(Insert(side, s[1..], o), p) == AtPrice(s[1..] + [o], p)
    ensures AtPrice(Insert(side, s, o), p) == AtPrice(s + [o], p)
  {
    var t := s[1..];
    var lead := if s[0].price == p then [s[0]] else [];
    assert s + [o] == [s[0]] + (t + [o]);
    calc {
      AtPrice(Insert(side, s, o), p);
      { InsertPastLeader(side, s, o); }
      AtPrice([s[0]] + Insert(side, t, o), p);
      { AtPriceCons(s[0], Insert(side, t, o), p); }
      lead + AtPrice(Insert(side, t, o), p);
      lead + AtPrice(t + [o], p);
      { AtPriceCons(s[0], t + [o], p); }
      AtPrice([s[0]] + (t + [o]), p);
      AtPrice(s + [o], p);
    }
  }

  /**
   * `_sort_books` is stable: the orders at any one price keep the order in which
   * they stood before the sort, so price-time priority is insertion order.
   */
  lemma {:induction false} SortKeepsLevelOrder(side: Side, s: seq<Order>, p: real)
    ensures AtPrice(SortByPrice(side, s), p) == AtPrice(s, p)
    decreases |s|
  {
    if s != [] {
      var init, last := s[..|s| - 1], s[|s| - 1];
      SortKeepsLevelOrder(side, init, p);
      InsertKeepsLevelOrder(side, SortByPrice(side, init), last, p);
      AtPriceAppend(SortByPrice(side, init), [last], p);
      AtPriceAppend(init, [last], p);
      assert init + [last] == s;
    }
  }

  /**
   * The index of the first order of `s` with id `orderId`, or None: where the
   * naive book's `for o in s: if o.order_id == order_id` loops stop.
   */
  function FirstIndex(s: seq<Order>, orderId: int): (r: Option<nat>)
    ensures r.Some? ==> r.value < |s| && s[r.value].orderId == orderId
    ensures r.Some? ==> forall j :: 0 <= j < r.value ==> s[j].orderId != orderId
    ensures r.None? <==> forall j :: 0 <= j < |s| ==> s[j].orderId != orderId
    decreases |s|
  {
    if s == [] then None
    else if s[0].orderId == orderId then Some(0)
    else
      match FirstIndex(s[1..], orderId)
      case None => None
      case Some(k) => Some(k + 1)
  }
}
