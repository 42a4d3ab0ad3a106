/**
 * The `heapq` min-heaps of the optimized book, specified by their contents and
 * their minimum rather than by their array layout: a heap is kept as the
 * ascending sequence of its entries, so its top `h[0]` is its minimum, a push
 * adds one entry and a pop removes the top.
 */
module PriceHeap {

  /** Entries in ascending order, each no greater than the next: the view of a binary min-heap through `heappop`. */
  ghost predicate HeapOrdered(h: seq<real>)
    decreases |h|
  {
    |h| <= 1 || (h[0] <= h[1] && HeapOrdered(h[1..]))
  }

  /** `heapq.heappush`: one more entry, the heap order kept. */
  function HeapPush(h: seq<real>, x: real): (r: seq<real>)
    ensures multiset(r) == multiset(h) + multiset{x}
    ensures |r| == |h| + 1
    decreases |h|
  {
    if h == [] || x <= h[0] then [x] + h
    else
      assert h == [h[0]] + h[1..];
      [h[0]] + HeapPush(h[1..], x)
  }

  /** The top of an ordered heap is its minimum. */
  lemma {:induction false} TopIsMinimum(h: seq<real>, x: real)
    requires HeapOrdered(h) && x in h
    ensures h[0] <= x
    decreases |h|
  {
    if x != h[0] {
      assert x in h[1..];
      TopIsMinimum(h[1..], x);
    }
  }

  /** `heapq.heappop` leaves an ordered heap: a one-step unfolding of `HeapOrdered` that `PopStaleKeepsCover` calls. */
  lemma PopKeepsOrder(h: seq<real>)
    requires HeapOrdered(h) && h != []
    ensures HeapOrdered(h[1..])
  {
  }

  /** A push keeps the heap ordered. */
  lemma {:induction false} HeapPushKeepsOrder(h: seq<real>, x: real)
    requires HeapOrdered(h)
    ensures HeapOrdered(HeapPush(h, x))
    decreases |h|
  {
    if h != [] && !(x <= h[0]) {
      HeapPushKeepsOrder(h[1..], x);
      var t := HeapPush(h[1..], x);
      assert t[0] in multiset(t);
      if t[0] != x {
        assert t[0] in h;
        TopIsMinimum(h, t[0]);
      }
      assert ([h[0]] + t)[1..] == t;
    }
  }
}
