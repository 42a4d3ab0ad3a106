/**
 * The performance order book: an id index, a price-level index whose levels keep
 * their orders in insertion order, and one min-heap of candidate best prices per
 * side (bids stored negated) that is cleaned lazily: a price is pushed when its
 * level is created, never removed when the level empties, and stale entries are
 * popped only when `best_bid` or `best_ask` finds them on top.
 */
module OptimizedOrder {
  import opened Wrappers
  import opened BookTypes
  import opened PriceHeap

  /** The key of a price level: a side and a price. */
  type LevelKey = (Side, real)

  function LevelOf(o: Order): LevelKey
  {
    (o.side, o.price)
  }

  /** The entry a level's price has in its side's heap: `-price` for bids, `price` for asks. */
  function HeapEntry(k: LevelKey): real
  {
    if k.0 == Bid then -k.1 else k.1
  }

  ghost predicate NoDuplicates(s: seq<int>)
  {
    forall i, j :: 0 <= i < j < |s| ==> s[i] != s[j]
  }

  /** `del level[order_id]` on a level kept as the ids of its orders in insertion order. */
  function RemoveId(s: seq<int>, x: int): (r: seq<int>)
    ensures forall y :: y != x ==> (y in r <==> y in s)
    ensures x !in s ==> r == s
    ensures |r| <= |s|
    decreases |s|
  {
    if s == [] then []
    else if s[0] == x then s[1..]
    else [s[0]] + RemoveId(s[1..], x)
  }

  /** Removing an id from a level without duplicates removes it entirely and creates no duplicate. */
  lemma {:induction false} RemoveIdFromDistinct(s: seq<int>, x: int)
    requires NoDuplicates(s)
    ensures NoDuplicates(RemoveId(s, x)) && x !in RemoveId(s, x)
    decreases |s|
  {
    if s != [] {
      if s[0] == x {
        assert forall j :: 0 < j < |s| ==> s[j] != x;
      } else {
        RemoveIdFromDistinct(s[1..], x);
        assert s[0] !in s[1..];
      }
    }
  }

  /** The orders named by `ids`, looked up in `m`: a level's `values()`. */
  function Resolve(m: map<int, Order>, ids: seq<int>): seq<Order>
    requires forall i :: 0 <= i < |ids| ==> ids[i] in m
  {
    seq(|ids|, i requires 0 <= i < |ids| => m[ids[i]])
  }

  /** Every indexed order is keyed by its own id and listed in the level of its side and price. */
  ghost predicate IndexedInLevels(m: map<int, Order>, levels: map<LevelKey, seq<int>>)
  {
    forall id :: id in m ==>
      && m[id].orderId == id
      && LevelOf(m[id]) in levels
      && id in levels[LevelOf(m[id])]
  }

  /** No level is empty, none lists an id twice, and each lists only indexed orders of its side and price. */
  ghost predicate LevelsIndexed(m: map<int, Order>, levels: map<LevelKey, seq<int>>)
  {
    forall k :: k in levels ==>
      && levels[k] != []
      && NoDuplicates(levels[k])
      && forall id :: id in levels[k] ==> id in m && LevelOf(m[id]) == k
  }

  /** Indexing a fresh order and appending its id to its level keeps the two indexes in step. */
  lemma AddKeepsIndexes(m: map<int, Order>, levels: map<LevelKey, seq<int>>, o: Order)
    requires IndexedInLevels(m, levels) && LevelsIndexed(m, levels) && o.orderId !in m
    ensures var k := LevelOf(o);
            var levels' := levels[k := (if k in levels then levels[k] else []) + [o.orderId]];
            IndexedInLevels(m[o.orderId := o], levels') && LevelsIndexed(m[o.orderId := o], levels')
  {
    var m', k, oid := m[o.orderId := o], LevelOf(o), o.orderId;
    var lk := if k in levels then levels[k] else [];
    var levels' := levels[k := lk + [oid]];
    assert oid !in lk;
    forall id | id in m'
      ensures m'[id].orderId == id && LevelOf(m'[id]) in levels' && id in levels'[LevelOf(m'[id])]
    {
      if id == oid {
        assert levels'[k][|lk|] == id;
      } else if LevelOf(m[id]) == k {
        assert id in lk;
        assert id in lk + [oid];
      }
    }
    forall k2 | k2 in levels'
      ensures levels'[k2] != [] && NoDuplicates(levels'[k2])
      ensures forall id :: id in levels'[k2] ==> id in m' && LevelOf(m'[id]) == k2
    {
      if k2 == k {
        forall i, j | 0 <= i < j < |lk + [oid]| ensures (lk + [oid])[i] != (lk + [oid])[j] {
          if j == |lk| {
            assert (lk + [oid])[i] in lk;
          } else {
            assert (lk + [oid])[i] == lk[i] && (lk + [oid])[j] == lk[j];
          }
        }
        forall id | id in lk + [oid] ensures id in m' && LevelOf(m'[id]) == k {
          if id != oid {
            assert id in lk;
          }
        }
      }
    }
  }

  /** Taking an indexed order out of the id index and out of its level keeps the two indexes in step. */
  lemma DeleteKeepsIndexes(m: map<int, Order>, levels: map<LevelKey, seq<int>>, id: int)
    requires IndexedInLevels(m, levels) && LevelsIndexed(m, levels) && id in m
    ensures var levels' := LevelsWithout(levels, LevelOf(m[id]), id);
            && IndexedInLevels(m - {id}, levels')
            && LevelsIndexed(m - {id}, levels')
            && levels'.Keys <= levels.Keys
  {
    var k := LevelOf(m[id]);
    var m' := m - {id};
    var rest := RemoveId(levels[k], id);
    var levels' := LevelsWithout(levels, k, id);
    RemoveIdFromDistinct(levels[k], id);
    forall i | i in m'
      ensures LevelOf(m'[i]) in levels' && i in levels'[LevelOf(m'[i])]
    {
      if LevelOf(m[i]) == k {
        assert i in rest;
      }
    }
    forall k2 | k2 in levels'
      ensures levels'[k2] != [] && NoDuplicates(levels'[k2])
      ensures forall i :: i in levels'[k2] ==> i in m' && LevelOf(m'[i]) == k2
    {
      if k2 == k {
        assert levels'[k2] == rest;
        forall i | i in rest ensures i in m' && LevelOf(m'[i]) == k2 {
          assert i in levels[k];
        }
      }
    }
  }

  /** The orders an id index holds. */
  ghost function OrdersOf(m: map<int, Order>): set<Order>
  {
    set id | id in m :: m[id]
  }

  /** Both heaps are ordered and every level's price has an entry in the heap of its side. */
  ghost predicate HeapsCoverLevels(levels: map<LevelKey, seq<int>>, bidHeap: seq<real>, askHeap: seq<real>)
  {
    && HeapOrdered(bidHeap)
    && HeapOrdered(askHeap)
    && Covers(levels, Bid, bidHeap)
    && Covers(levels, Ask, askHeap)
  }

  /** Every level of `side` has its entry in `heap`. */
  ghost predicate Covers(levels: map<LevelKey, seq<int>>, side: Side, heap: seq<real>)
  {
    forall k :: k in levels && k.0 == side ==> HeapEntry(k) in heap
  }

  /** The price a heap entry of `side` stands for. */
  function EntryPrice(side: Side, x: real): real
  {
    if side == Bid then -x else x
  }

  /** Popping a top entry whose level is gone keeps the heap ordered and covering. */
  lemma PopStaleKeepsCover(levels: map<LevelKey, seq<int>>, side: Side, heap: seq<real>)
    requires HeapOrdered(heap) && Covers(levels, side, heap)
    requires heap != [] && (side, EntryPrice(side, heap[0])) !in levels
    ensures HeapOrdered(heap[1..]) && Covers(levels, side, heap[1..])
  {
    PopKeepsOrder(heap);
    forall k | k in levels && k.0 == side ensures HeapEntry(k) in heap[1..] {
      assert k != (side, EntryPrice(side, heap[0]));
      var i :| 0 <= i < |heap| && heap[i] == HeapEntry(k);
      assert heap[1..][i - 1] == heap[i];
    }
  }

  /** An order at the price of the heap's top is the best order of its side. */
  lemma TopIsBest(m: map<int, Order>, levels: map<LevelKey, seq<int>>, side: Side, heap: seq<real>, o: Order)
    requires IndexedInLevels(m, levels) && HeapOrdered(heap) && Covers(levels, side, heap) && heap != []
    requires o in OrdersOf(m) && o.side == side && o.price == EntryPrice(side, heap[0])
    ensures IsBest(OrdersOf(m), side, o)
  {
    forall v | v in OrdersOf(m) && v.side == side ensures !Ahead(side, v.price, o.price) {
      LiveIsIndexed(m, levels, v);
      TopIsMinimum(heap, HeapEntry(LevelOf(v)));
    }
  }

  /** With no entry left in its heap, a side has no live order. */
  lemma EmptyHeapEmptySide(m: map<int, Order>, levels: map<LevelKey, seq<int>>, side: Side, heap: seq<real>)
    requires IndexedInLevels(m, levels) && Covers(levels, side, heap) && heap == []
    ensures SideEmpty(OrdersOf(m), side)
  {
    forall v | v in OrdersOf(m) ensures v.side != side {
      LiveIsIndexed(m, levels, v);
    }
  }

  /** Heap coverage survives adding to an existing level, or creating a level and pushing its price. */
  lemma AddKeepsCover(levels: map<LevelKey, seq<int>>, bidHeap: seq<real>, askHeap: seq<real>, k: LevelKey, ids: seq<int>)
    requires HeapsCoverLevels(levels, bidHeap, askHeap)
    ensures k in levels ==> HeapsCoverLevels(levels[k := ids], bidHeap, askHeap)
    ensures k !in levels && k.0 == Bid ==> HeapsCoverLevels(levels[k := ids], HeapPush(bidHeap, HeapEntry(k)), askHeap)
    ensures k !in levels && k.0 == Ask ==> HeapsCoverLevels(levels[k := ids], bidHeap, HeapPush(askHeap, HeapEntry(k)))
  {
    HeapPushKeepsOrder(bidHeap, HeapEntry(k));
    HeapPushKeepsOrder(askHeap, HeapEntry(k));
    var b', a' := HeapPush(bidHeap, HeapEntry(k)), HeapPush(askHeap, HeapEntry(k));
    assert forall x :: x in bidHeap ==> x in b' by {
      forall x | x in bidHeap ensures x in b' {
        assert x in multiset(bidHeap) && x in multiset(b');
      }
    }
    assert forall x :: x in askHeap ==> x in a' by {
      forall x | x in askHeap ensures x in a' {
        assert x in multiset(askHeap) && x in multiset(a');
      }
    }
    assert HeapEntry(k) in multiset(b') && HeapEntry(k) in multiset(a');
  }

  /** Heap coverage survives any shrinking of the level index. */
  lemma ShrinkKeepsCover(levels: map<LevelKey, seq<int>>, levels': map<LevelKey, seq<int>>, bidHeap: seq<real>, askHeap: seq<real>)
    requires HeapsCoverLevels(levels, bidHeap, askHeap) && levels'.Keys <= levels.Keys
    ensures HeapsCoverLevels(levels', bidHeap, askHeap)
  {
  }

  /** No level in the index is empty: a one-step unfolding of `LevelsIndexed` that the best-price loops call. */
  lemma LevelIsNonEmpty(m: map<int, Order>, levels: map<LevelKey, seq<int>>, k: LevelKey)
    requires LevelsIndexed(m, levels)
    ensures k in levels ==> levels[k] != []
  {
  }

  /** A live order is keyed by its id and listed in a level of its side and price. */
  lemma LiveIsIndexed(m: map<int, Order>, levels: map<LevelKey, seq<int>>, v: Order)
    requires IndexedInLevels(m, levels) && v in OrdersOf(m)
    ensures v.orderId in m && m[v.orderId] == v && LevelOf(v) in levels && v.orderId in levels[LevelOf(v)]
  {
    var id :| id in m && m[id] == v;
  }

  /** An id a level lists is indexed, at that level's side and price. */
  lemma ListedIsLive(m: map<int, Order>, levels: map<LevelKey, seq<int>>, k: LevelKey, id: int)
    requires IndexedInLevels(m, levels) && LevelsIndexed(m, levels) && k in levels && id in levels[k]
    ensures id in m && m[id].orderId == id && LevelOf(m[id]) == k && m[id] in OrdersOf(m)
  {
  }

  /** A map whose values are keyed by their own ids gains exactly the new value when a fresh id is added. */
  lemma ValuesAfterAdd(m: map<int, Order>, o: Order)
    requires o.orderId !in m
    ensures OrdersOf(m[o.orderId := o]) == OrdersOf(m) + {o}
  {
    var m' := m[o.orderId := o];
    forall v | v in OrdersOf(m') ensures v in OrdersOf(m) || v == o {
      var k :| k in m' && m'[k] == v;
      if k != o.orderId {
        assert m[k] == v;
      }
    }
    forall v | v in OrdersOf(m) ensures v in OrdersOf(m') {
      var k :| k in m && m[k] == v;
      assert m'[k] == v;
    }
    assert o == m'[o.orderId];
  }

  /** In a map whose values are keyed by their own ids, removing a key removes exactly its value. */
  lemma ValuesAfterRemove(m: map<int, Order>, id: int)
    requires id in m && forall i :: i in m ==> m[i].orderId == i
    ensures OrdersOf(m - {id}) == OrdersOf(m) - {m[id]}
  {
    var m' := m - {id};
    forall v | v in OrdersOf(m) && v != m[id] ensures v in OrdersOf(m') {
      var k :| k in m && m[k] == v;
      assert m'[k] == v;
    }
    forall v | v in OrdersOf(m') ensures v in OrdersOf(m) && v != m[id] {
      var k :| k in m' && m'[k] == v;
      assert m[k] == v;
    }
  }

  /** In a map whose values are keyed by their own ids, replacing a value swaps it for the new one. */
  lemma ValuesAfterReplace(m: map<int, Order>, o: Order)
    requires o.orderId in m && forall i :: i in m ==> m[i].orderId == i
    ensures OrdersOf(m[o.orderId := o]) == OrdersOf(m) - {m[o.orderId]} + {o}
  {
    ValuesAfterRemove(m, o.orderId);
    ValuesAfterAdd(m - {o.orderId}, o);
    assert m[o.orderId := o] == (m - {o.orderId})[o.orderId := o];
  }

  /** The level index after `id` leaves level `k`: the level shrinks, or is dropped once empty. */
  ghost function LevelsWithout(levels: map<LevelKey, seq<int>>, k: LevelKey, id: int): map<LevelKey, seq<int>>
    requires k in levels
  {
    var rest := RemoveId(levels[k], id);
    if rest == [] then levels - {k} else levels[k := rest]
  }

  /** The level index after `o` joins the back of its level, which is created if absent. */
  function LevelsWith(levels: map<LevelKey, seq<int>>, o: Order): map<LevelKey, seq<int>>
  {
    var k := LevelOf(o);
    levels[k := (if k in levels then levels[k] else []) + [o.orderId]]
  }

  /** A side's heap after `o` is added: its price is pushed only when it opens a new level on that side. */
  function HeapWith(levels: map<LevelKey, seq<int>>, side: Side, heap: seq<real>, o: Order): seq<real>
  {
    if o.side == side && LevelOf(o) !in levels then HeapPush(heap, HeapEntry(LevelOf(o))) else heap
  }

  /** Adding a fresh order keeps every invariant of the book and adds exactly that order to the live ones. */
  lemma AddKeepsInvariant(m: map<int, Order>, levels: map<LevelKey, seq<int>>, bidHeap: seq<real>, askHeap: seq<real>, o: Order)
    requires IndexedInLevels(m, levels) && LevelsIndexed(m, levels) && HeapsCoverLevels(levels, bidHeap, askHeap)
    requires o.orderId !in m
    ensures IndexedInLevels(m[o.orderId := o], LevelsWith(levels, o))
    ensures LevelsIndexed(m[o.orderId := o], LevelsWith(levels, o))
    ensures HeapsCoverLevels(LevelsWith(levels, o), HeapWith(levels, Bid, bidHeap, o), HeapWith(levels, Ask, askHeap, o))
    ensures OrdersOf(m[o.orderId := o]) == OrdersOf(m) + {o}
  {
    var k := LevelOf(o);
    AddKeepsIndexes(m, levels, o);
    AddKeepsCover(levels, bidHeap, askHeap, k, (if k in levels then levels[k] else []) + [o.orderId]);
    ValuesAfterAdd(m, o);
  }

  class OptimizedOrderBook {
    var ordersById: map<int, Order>
    var priceLevels: map<LevelKey, seq<int>>
    var bidHeap: seq<real>
    var askHeap: seq<real>

    ghost predicate Valid()
      reads this
    {
      && IndexedInLevels(ordersById, priceLevels)
      && LevelsIndexed(ordersById, priceLevels)
      && HeapsCoverLevels(priceLevels, bidHeap, askHeap)
    }

    /** The live orders of the book. */
    ghost function Live(): set<Order>
      reads this
    {
      OrdersOf(ordersById)
    }

    constructor ()
      ensures Valid()
      ensures ordersById == map[] && priceLevels == map[] && bidHeap == [] && askHeap == []
    {
      ordersById, priceLevels := map[], map[];
      bidHeap, askHeap := [], [];
    }

    /**
     * `add_order`: reject an id that is already live, then a side other than "bid" or
     * "ask", both before any state changes; otherwise index the order, append it to
     * its level, and push the level's price onto its heap only if the level is new.
     */
    method AddOrder(orderId: int, price: real, quantity: int, side: string) returns (r: Outcome<BookError>)
      requires Valid()
      modifies this
      ensures Valid()
      ensures r == if orderId in old(ordersById) then Fail(DuplicateId(orderId))
                   else if ParseSide(side).None? then Fail(InvalidSide(side))
                   else Pass
      ensures r.Fail? ==> unchanged(this)
      ensures r.Pass? ==>
        var o := Order(orderId, price, quantity, ParseSide(side).value);
        && ordersById == old(ordersById)[orderId := o]
        && priceLevels == LevelsWith(old(priceLevels), o)
        && bidHeap == HeapWith(old(priceLevels), Bid, old(bidHeap), o)
        && askHeap == HeapWith(old(priceLevels), Ask, old(askHeap), o)
        && Live() == old(Live()) + {o}
    {
      if orderId in ordersById {
        return Fail(DuplicateId(orderId));
      }
      var s := ParseSide(side);
      if s.None? {
        return Fail(InvalidSide(side));
      }
      var o := Order(orderId, price, quantity, s.value);
      AddKeepsInvariant(ordersById, priceLevels, bidHeap, askHeap, o);
      ordersById, priceLevels, bidHeap, askHeap :=
        ordersById[orderId := o], LevelsWith(priceLevels, o),
        HeapWith(priceLevels, Bid, bidHeap, o), HeapWith(priceLevels, Ask, askHeap, o);
      return Pass;
    }

    /**
     * `delete_order`: False and no change for an unknown id; otherwise the order
     * leaves the id index and its level, the level is dropped once empty, and the
     * heaps are left untouched.
     */
    method DeleteOrder(orderId: int) returns (found: bool)
      requires Valid()
      modifies this`ordersById, this`priceLevels
      ensures Valid()
      ensures found == (orderId in old(ordersById))
      ensures !found ==> ordersById == old(ordersById) && priceLevels == old(priceLevels)
      ensures found ==>
        && ordersById == old(ordersById) - {orderId}
        && priceLevels == LevelsWithout(old(priceLevels), LevelOf(old(ordersById)[orderId]), orderId)
        && Live() == old(Live()) - {old(ordersById)[orderId]}
        && LookupById(orderId) == None
      ensures orderId !in ordersById && ordersById.Keys <= old(ordersById.Keys)
      ensures bidHeap == old(bidHeap) && askHeap == old(askHeap)
    {
      if orderId !in ordersById {
        return false;
      }
      var o := ordersById[orderId];
      var k := LevelOf(o);
      if k in priceLevels && orderId in priceLevels[k] {
        var level := RemoveId(priceLevels[k], orderId);
        if level == [] {
          priceLevels := priceLevels - {k};
        } else {
          priceLevels := priceLevels[k := level];
        }
      }
      ordersById := ordersById - {orderId};
      DeleteKeepsIndexes(old(ordersById), old(priceLevels), orderId);
      ValuesAfterRemove(old(ordersById), orderId);
      return true;
    }

    /**
     * `amend_order`: False and no change for an unknown id; otherwise the quantity is
     * set, and a quantity of zero or less then deletes the order.
     */
    method AmendOrder(orderId: int, newQuantity: int) returns (found: bool)
      requires Valid()
      modifies this`ordersById, this`priceLevels
      ensures Valid()
      ensures found == (orderId in old(ordersById))
      ensures !found ==> ordersById == old(ordersById) && priceLevels == old(priceLevels)
      ensures found && newQuantity > 0 ==>
        && ordersById == old(ordersById)[orderId := old(ordersById)[orderId].(quantity := newQuantity)]
        && priceLevels == old(priceLevels)
      ensures found && newQuantity <= 0 ==>
        && ordersById == old(ordersById) - {orderId}
        && priceLevels == LevelsWithout(old(priceLevels), LevelOf(old(ordersById)[orderId]), orderId)
      ensures ordersById.Keys <= old(ordersById.Keys)
      ensures bidHeap == old(bidHeap) && askHeap == old(askHeap)
    {
      if orderId !in ordersById {
        return false;
      }
      var o := ordersById[orderId];
      ordersById := ordersById[orderId := o.(quantity := newQuantity)];
      if newQuantity <= 0 {
        var _ := DeleteOrder(orderId);
      }
      return true;
    }

    /** `lookup_by_id`: the order indexed under that id, which its level lists too, or None. */
    function LookupById(orderId: int): (r: Option<Order>)
      requires Valid()
      reads this
      ensures r.Some? ==> r.value.orderId == orderId && r.value in Live()
      ensures r.Some? ==> LevelOf(r.value) in priceLevels && orderId in priceLevels[LevelOf(r.value)]
      ensures r.None? <==> forall o :: o in Live() ==> o.orderId != orderId
      ensures r.None? ==> forall k :: k in priceLevels ==> orderId !in priceLevels[k]
    {
      if orderId in ordersById then Some(ordersById[orderId]) else None
    }

    /** The orders of level `k` in insertion order (`lvl.values()`), none when the level is absent or empty. */
    function LevelOrders(k: LevelKey): (r: seq<Order>)
      requires Valid()
      reads this
      ensures forall o :: o in r <==> o in Live() && LevelOf(o) == k
      ensures k in priceLevels ==>
        && |r| == |priceLevels[k]|
        && forall i :: 0 <= i < |r| ==> priceLevels[k][i] in ordersById && r[i] == ordersById[priceLevels[k][i]]
    {
      if k in priceLevels && priceLevels[k] != [] then
        assert forall i :: 0 <= i < |priceLevels[k]| ==> priceLevels[k][i] in ordersById by {
          forall i | 0 <= i < |priceLevels[k]| ensures priceLevels[k][i] in ordersById {
            ListedIsLive(ordersById, priceLevels, k, priceLevels[k][i]);
          }
        }
        var r := Resolve(ordersById, priceLevels[k]);
        assert forall o :: o in r ==> o in Live() && LevelOf(o) == k by {
          forall o | o in r ensures o in Live() && LevelOf(o) == k {
            var i :| 0 <= i < |r| && r[i] == o;
            ListedIsLive(ordersById, priceLevels, k, priceLevels[k][i]);
          }
        }
        assert forall o :: o in Live() && LevelOf(o) == k ==> o in r by {
          forall o | o in Live() && LevelOf(o) == k ensures o in r {
            LiveIsIndexed(ordersById, priceLevels, o);
            var i :| 0 <= i < |priceLevels[k]| && priceLevels[k][i] == o.orderId;
            assert r[i] == o;
          }
        }
        r
      else
        []
    }

    /**
     * `get_orders_at_price`: exactly the live orders at that price on the selected
     * side or sides, the bids first.
     */
    function GetOrdersAtPrice(price: real, side: Option<string>): (out: seq<Order>)
      requires Valid()
      reads this
      ensures forall o :: o in out <==> o in Live() && o.price == price && SideSelected(side, o.side)
      ensures forall i, j :: 0 <= i < j < |out| && out[i].side == Ask ==> out[j].side == Ask
    {
      var b := if SideSelected(side, Bid) then LevelOrders((Bid, price)) else [];
      var a := if SideSelected(side, Ask) then LevelOrders((Ask, price)) else [];
      assert forall i :: 0 <= i < |b| ==> b[i].side == Bid by {
        forall i | 0 <= i < |b| ensures b[i].side == Bid {
          assert b[i] in b;
        }
      }
      assert forall i :: 0 <= i < |a| ==> a[i].side == Ask by {
        forall i | 0 <= i < |a| ensures a[i].side == Ask {
          assert a[i] in a;
        }
      }
      b + a
    }

    /**
     * `best_bid`: pop stale entries off the bid heap until its top names a live
     * level, and return that level's earliest order, or None once the heap is empty.
     */
    method BestBid() returns (r: Option<Order>)
      requires Valid()
      modifies this`bidHeap
      ensures Valid()
      ensures r.None? <==> SideEmpty(Live(), Bid)
      ensures r.Some? ==> IsBest(Live(), Bid, r.value)
      ensures r.Some? ==> (Bid, r.value.price) in priceLevels && r.value == ordersById[priceLevels[(Bid, r.value.price)][0]]
      ensures r.None? ==> bidHeap == []
      ensures r.Some? ==> bidHeap != [] && r.value.price == EntryPrice(Bid, bidHeap[0])
      ensures |bidHeap| <= |old(bidHeap)| && bidHeap == old(bidHeap)[|old(bidHeap)| - |bidHeap|..]
      ensures forall x :: x in old(bidHeap)[..|old(bidHeap)| - |bidHeap|] ==> (Bid, EntryPrice(Bid, x)) !in priceLevels
    {
      ghost var popped: seq<real> := [];
      while bidHeap != []
        invariant Valid()
        invariant old(bidHeap) == popped + bidHeap
        invariant forall x :: x in popped ==> (Bid, EntryPrice(Bid, x)) !in priceLevels
        decreases |bidHeap|
      {
        var price := -bidHeap[0];
        LevelIsNonEmpty(ordersById, priceLevels, (Bid, price));
        if (Bid, price) in priceLevels && priceLevels[(Bid, price)] != [] {
          ListedIsLive(ordersById, priceLevels, (Bid, price), priceLevels[(Bid, price)][0]);
          var o := ordersById[priceLevels[(Bid, price)][0]];
          TopIsBest(ordersById, priceLevels, Bid, bidHeap, o);
          assert popped == old(bidHeap)[..|old(bidHeap)| - |bidHeap|];
          return Some(o);
        }
        PopStaleKeepsCover(priceLevels, Bid, bidHeap);
        assert bidHeap == [bidHeap[0]] + bidHeap[1..];
        popped := popped + [bidHeap[0]];
        bidHeap := bidHeap[1..];
      }
      EmptyHeapEmptySide(ordersById, priceLevels, Bid, bidHeap);
      assert popped == old(bidHeap)[..|old(bidHeap)| - |bidHeap|];
      return None;
    }

    /**
     * `best_ask`: pop stale entries off the ask heap until its top names a live
     * level, and return that level's earliest order, or None once the heap is empty.
     */
    method BestAsk() returns (r: Option<Order>)
      requires Valid()
      modifies this`askHeap
      ensures Valid()
      ensures r.None? <==> SideEmpty(Live(), Ask)
      ensures r.Some? ==> IsBest(Live(), Ask, r.value)
      ensures r.Some? ==> (Ask, r.value.price) in priceLevels && r.value == ordersById[priceLevels[(Ask, r.value.price)][0]]
      ensures r.None? ==> askHeap == []
      ensures r.Some? ==> askHeap != [] && r.value.price == EntryPrice(Ask, askHeap[0])
      ensures |askHeap| <= |old(askHeap)| && askHeap == old(askHeap)[|old(askHeap)| - |askHeap|..]
      ensures forall x :: x in old(askHeap)[..|old(askHeap)| - |askHeap|] ==> (Ask, EntryPrice(Ask, x)) !in priceLevels
    {
      ghost var popped: seq<real> := [];
      while askHeap != []
        invariant Valid()
        invariant old(askHeap) == popped + askHeap
        invariant forall x :: x in popped ==> (Ask, EntryPrice(Ask, x)) !in priceLevels
        decreases |askHeap|
      {
        var price := askHeap[0];
        LevelIsNonEmpty(ordersById, priceLevels, (Ask, price));
        if (Ask, price) in priceLevels && priceLevels[(Ask, price)] != [] {
          ListedIsLive(ordersById, priceLevels, (Ask, price), priceLevels[(Ask, price)][0]);
          var o := ordersById[priceLevels[(Ask, price)][0]];
          TopIsBest(ordersById, priceLevels, Ask, askHeap, o);
          assert popped == old(askHeap)[..|old(askHeap)| - |askHeap|];
          return Some(o);
        }
        PopStaleKeepsCover(priceLevels, Ask, askHeap);
        assert askHeap == [askHeap[0]] + askHeap[1..];
        popped := popped + [askHeap[0]];
        askHeap := askHeap[1..];
      }
      EmptyHeapEmptySide(ordersById, priceLevels, Ask, askHeap);
      assert popped == old(askHeap)[..|old(askHeap)| - |askHeap|];
      return None;
    }
  }
}
