# FINM32500 order books and backtester core, in Dafny

This project models two pieces of the FINM32500 coursework repository and proves
properties of them.

**Assignment 2: two limit order books behind one interface.**

- `NaiveOrderBook` is the reference book. It keeps a list of bids and a list of
  asks and re-sorts both by price after every change. Bids go from the highest
  price down and asks from the lowest price up. Python's sort is stable, so orders
  at one price stay in arrival order.
- `OptimizedOrderBook` is the performance book. It keeps three structures:
  - an id index;
  - a price-level index, where each level lists its orders in insertion order;
  - one `heapq` min-heap of candidate prices per side, with bids stored negated.

  A level's price is pushed when the level is created. It is not removed when the
  level empties. `best_bid` and `best_ask` pop stale entries when they find them
  on top.

Each book is a Dafny `class` whose methods update its fields. Its `Valid()`
invariant holds:

- for the reference book, sorted one-sided lists;
- for the performance book, index agreement, no empty level, and every live level
  covered by an entry in an ordered heap.

Both books are proved to quote the same best bid and best ask prices after every
operation, as long as no add names an id that is live at that point and no amendment sets a quantity of
zero or less. An amendment to zero is where the two books differ: only the
performance book then deletes the order. A concrete scenario, proved by the verifier, exhibits this (`AmendToZeroDiverges`).

**Assignment 1: a toy backtester.**

- `Order.validate` is modelled as a function that returns the first rule broken.
- The two strategies are classes:
  - `MAC`, a moving-average crossover;
  - `Momentum`.

  Each strategy keeps a rolling price buffer. A ghost `history` proves that the
  buffer always holds the last `long_win + 1` (or `lookback + 1`) prices. Python's
  negative slicing and indexing are modelled for every window value, so a window
  below 1 produces the same exception or degenerate result the code produces.
- The `Engine` is a class with `cash`, `positions` and `latestPrices` fields.
  - `_execute_order` is a method proved equal to a specification function
    `Execute` of the old state.
  - Lemmas about `Execute` state the cash, position and price rules and the
    invariant (no negative position, every open position priced, cash never
    overdrawn).
  - `_compute_equity` is a loop proved to return the cash plus the market value of
    all positions.

`_ensure_position` is modelled as written: a symbol with no entry makes it create,
or reset to flat, the entry of `"AAPL"`. A first order for any other new symbol
therefore fails at the lookup that follows (`MissingPosition`). A first order for
a new symbol also wipes an existing `"AAPL"` position.

Prices, cash and averages are `real`. The random failure of `_failure_execution`
is the boolean parameter `executionFails`.

Files:

- `wrappers.dfy`: `Option`, `Result`, `Outcome`.
- `book_types.dfy`: the sides, the book's order record, and "best on a side".
- `price_heap.dfy`: the heaps, kept as ordered sequences.
- `price_order.dfy`: stable sorting by price, and filtering by price.
- `naive_order.dfy` and `optimized_order.dfy`: the two books.
- `book_equivalence.dfy`: the coupling of the two books, and the concrete scenarios proved about them.
- `models.dfy`, `strategies.dfy`, `engine.dfy`: the backtester.

## Model

| member | source | states |
|---|---|---|
| BookTypes.ParseSide | assignment2/optimized_order.py:31-32 | a side string names Bid exactly when it is "bid" and Ask exactly when it is "ask"; anything else is rejected |
| BookTypes.BestPriceIsUnique | assignment2/optimized_order.py:98-114 | two best orders of the same side of the same book have the same price, so "the best price" is well defined |
| BookTypes.BestExistsUnlessEmpty | assignment2/naive_order.py:91-99 | a side holding any live order has a best order (nothing on that side is ahead of it) |
| PriceHeap.HeapPush | assignment2/optimized_order.py:43-45 | `heappush` adds exactly one entry to the heap's multiset of entries |
| PriceHeap.HeapPushKeepsOrder | assignment2/optimized_order.py:43-45 | a push keeps the heap ordered |
| PriceHeap.TopIsMinimum | assignment2/optimized_order.py:99-100 | the top of an ordered heap is its smallest entry (the highest bid, since bids are negated) |
| PriceHeap.PopKeepsOrder | assignment2/optimized_order.py:104 | `heappop` leaves an ordered heap |
| PriceOrder.Insert | assignment2/naive_order.py:10-12 | inserting an order adds exactly that order to the multiset |
| PriceOrder.InsertKeepsSorted | assignment2/naive_order.py:10-12 | inserting into a price-sorted list keeps it sorted |
| PriceOrder.SortByPrice | assignment2/naive_order.py:10-12 | the sort returns a permutation of its input that is sorted by price for its side |
| PriceOrder.InsertAtBack | assignment2/naive_order.py:10-12 | an order that no queued order is behind goes to the back |
| PriceOrder.SortSortedIsIdentity | assignment2/naive_order.py:29 | re-sorting an already sorted list leaves it unchanged |
| PriceOrder.RemoveAtKeepsSorted | assignment2/naive_order.py:54-55 | deleting one element keeps the list sorted and removes exactly that order from the multiset |
| PriceOrder.AmendInPlace | assignment2/naive_order.py:37-38 | setting one order's quantity keeps the list sorted and one-sided, and the re-sort then leaves it unchanged |
| PriceOrder.AtPrice | assignment2/naive_order.py:84 | the filtered list holds exactly the orders whose price equals the argument |
| PriceOrder.AtPriceAppend | assignment2/naive_order.py:84 | filtering by price distributes over concatenation |
| PriceOrder.InsertKeepsLevelOrder | assignment2/naive_order.py:10-12 | inserting an order puts it behind every order of its own price |
| PriceOrder.SortKeepsLevelOrder | assignment2/naive_order.py:10-12 | the sort is stable: the orders at any one price keep their order from before the sort |
| PriceOrder.FirstIndex | assignment2/naive_order.py:35-36 | the index of the first order with the id: it carries the id, no earlier order does, and None means no order does |
| NaiveOrder.IndexOfId | assignment2/naive_order.py:52-53 | the scan loop stops at the first order with the id, or finds none |
| NaiveOrder.NaiveOrderBook.constructor | assignment2/naive_order.py:6-8 | a new book has two empty lists |
| NaiveOrder.NaiveOrderBook.SortBooks | assignment2/naive_order.py:10-12 | bids become sorted high to low and asks low to high, each a permutation of what it was |
| NaiveOrder.NaiveOrderBook.AddOrder | assignment2/naive_order.py:14-29 | a bid or ask is appended to its own list and the list re-sorted; the other list is unchanged; any other side fails with both lists unchanged; ids are not checked |
| NaiveOrder.NaiveOrderBook.AmendOrder | assignment2/naive_order.py:31-47 | the first order with the id (bids searched first) gets the new quantity in place, even zero or less, and True is returned; with no such order, False and no change |
| NaiveOrder.NaiveOrderBook.DeleteOrder | assignment2/naive_order.py:49-64 | only the first order with the id (bids searched first) is removed, the rest keep their order, and True is returned; otherwise False and no change |
| NaiveOrder.NaiveOrderBook.RemoveBidAt | assignment2/naive_order.py:54-55 | deleting a bid by index and re-sorting removes exactly that bid and keeps the book valid |
| NaiveOrder.NaiveOrderBook.RemoveAskAt | assignment2/naive_order.py:60-61 | deleting an ask by index and re-sorting removes exactly that ask and keeps the book valid |
| NaiveOrder.NaiveOrderBook.LookupById | assignment2/naive_order.py:66-77 | the first order with the id, bids before asks, or None exactly when no live order has the id |
| NaiveOrder.NaiveOrderBook.GetOrdersAtPrice | assignment2/naive_order.py:79-89 | exactly the live orders at that price on the selected sides, with every bid before every ask |
| NaiveOrder.NaiveOrderBook.BestBid | assignment2/naive_order.py:91-94 | None exactly when there is no bid; otherwise a live bid that no bid is priced above |
| NaiveOrder.NaiveOrderBook.BestAsk | assignment2/naive_order.py:96-99 | None exactly when there is no ask; otherwise a live ask that no ask is priced below |
| OptimizedOrder.RemoveId | assignment2/optimized_order.py:72 | `del level[order_id]` keeps every other id of the level and removes nothing else |
| OptimizedOrder.RemoveIdFromDistinct | assignment2/optimized_order.py:71-74 | in a level without duplicates, the deleted id is gone completely and no duplicate appears |
| OptimizedOrder.AddKeepsIndexes | assignment2/optimized_order.py:34-47 | indexing a fresh order and appending it to its level keeps the id index and the levels in agreement, with no empty level |
| OptimizedOrder.DeleteKeepsIndexes | assignment2/optimized_order.py:62-77 | removing an order from the id index and from its level (dropping the level once empty) keeps them in agreement |
| OptimizedOrder.PopStaleKeepsCover | assignment2/optimized_order.py:104 | popping a top entry whose level is gone keeps the heap ordered and still covering every live level |
| OptimizedOrder.TopIsBest | assignment2/optimized_order.py:99-103 | an order at the price of the heap's top is a best order of its side |
| OptimizedOrder.EmptyHeapEmptySide | assignment2/optimized_order.py:105 | a side whose heap is empty has no live order |
| OptimizedOrder.AddKeepsCover | assignment2/optimized_order.py:39-45 | pushing a price only when its level is new keeps every live level covered by its heap |
| OptimizedOrder.ShrinkKeepsCover | assignment2/optimized_order.py:71-74 | dropping levels while leaving the heaps alone keeps every live level covered |
| OptimizedOrder.LevelIsNonEmpty | assignment2/optimized_order.py:73-74 | no level in the index is empty |
| OptimizedOrder.ValuesAfterAdd | assignment2/optimized_order.py:34 | adding a fresh id adds exactly that order to the live orders |
| OptimizedOrder.ValuesAfterRemove | assignment2/optimized_order.py:76 | removing an id removes exactly its order from the live orders |
| OptimizedOrder.ValuesAfterReplace | assignment2/optimized_order.py:57 | replacing the order under an id swaps exactly that order for the new one |
| OptimizedOrder.AddKeepsInvariant | assignment2/optimized_order.py:34-47 | a successful add keeps the whole book invariant and adds exactly the new order to the live ones |
| OptimizedOrder.OptimizedOrderBook.constructor | assignment2/optimized_order.py:7-13 | a new book has an empty index, no levels and empty heaps |
| OptimizedOrder.OptimizedOrderBook.AddOrder | assignment2/optimized_order.py:20-47 | a live id fails with DuplicateId, then a bad side fails with InvalidSide, both with nothing changed; otherwise the order is indexed, appended to its level, its price pushed only when the level is new, and the live orders grow by exactly it |
| OptimizedOrder.OptimizedOrderBook.DeleteOrder | assignment2/optimized_order.py:62-77 | an unknown id gives False and no change; otherwise the order leaves the index and its level, an emptied level is dropped, the heaps are untouched, and lookup then gives None |
| OptimizedOrder.OptimizedOrderBook.AmendOrder | assignment2/optimized_order.py:49-60 | an unknown id gives False and no change; a positive quantity changes only that order's quantity; a quantity of zero or less deletes the order; the heaps are untouched |
| OptimizedOrder.OptimizedOrderBook.LookupById | assignment2/optimized_order.py:79-80 | the live order with that id, which its level lists; None exactly when no live order has the id |
| OptimizedOrder.OptimizedOrderBook.LevelOrders | assignment2/optimized_order.py:87-89 | a level's orders are exactly the live orders of that side and price, one per id the level lists, in the level's insertion order |
| OptimizedOrder.OptimizedOrderBook.GetOrdersAtPrice | assignment2/optimized_order.py:82-96 | exactly the live orders at that price on the selected sides, with every bid before every ask |
| OptimizedOrder.OptimizedOrderBook.BestBid | assignment2/optimized_order.py:98-105 | None exactly when no bid is live; otherwise a best bid, the earliest order of the highest live bid level; only stale entries, whose level is gone, are popped from the front of the heap |
| OptimizedOrder.OptimizedOrderBook.BestAsk | assignment2/optimized_order.py:107-114 | None exactly when no ask is live; otherwise a best ask, the earliest order of the lowest live ask level; only stale entries are popped |
| BookEquivalence.AddStep | assignment2/optimized_order.py:34 | both books adding the same order under a fresh id stay coupled (they hold the same orders) |
| BookEquivalence.RemoveStep | assignment2/optimized_order.py:76 | both books removing the same order stay coupled, and that order is the one indexed under its id |
| BookEquivalence.ReplaceStep | assignment2/optimized_order.py:57 | both books replacing an order by one with the same id stay coupled |
| BookEquivalence.AbsentStep | assignment2/optimized_order.py:53-55 | an id that no reference-book order carries is not in the performance book's index |
| BookEquivalence.AbsentFromPool | assignment2/naive_order.py:47 | when neither list has the id, no order of the reference book has it |
| BookEquivalence.SameLive | assignment2/order_book.py:4-31 | coupled books have the same set of live orders |
| BookEquivalence.SameBestPrice | assignment2/order_book.py:25-31 | two best-order answers for the same live orders quote the same price |
| BookEquivalence.DeleteStep | assignment2/naive_order.py:49-64 | the reference delete stays coupled to a performance index that drops the id |
| BookEquivalence.DeleteFound | assignment2/naive_order.py:54 | removing an order from one list matches removing its id from the index |
| BookEquivalence.AmendStep | assignment2/naive_order.py:31-47 | the reference amend stays coupled to a performance index that amends the order under the id |
| BookEquivalence.AmendAt | assignment2/naive_order.py:37 | setting one listed order's quantity matches amending the order under its id |
| BookEquivalence.AmendFound | assignment2/optimized_order.py:57 | swapping an order for its amended copy in the reference pool matches the amended index |
| BookEquivalence.AddBoth | assignment2/order_book.py:6-7 | `add_order` on both books keeps them valid and coupled |
| BookEquivalence.DeleteBoth | assignment2/order_book.py:14-15 | `delete_order` on both books keeps them valid and coupled |
| BookEquivalence.AmendBoth | assignment2/order_book.py:10-11 | `amend_order` with a positive quantity on both books keeps them valid and coupled |
| BookEquivalence.QuoteBoth | assignment2/order_book.py:25-31 | coupled books quote the same best bid and best ask prices |
| BookEquivalence.ApplyBoth | assignment2/order_book.py:4-15 | any one mutating call on both books keeps them valid and coupled |
| BookEquivalence.StepBoth | assignment2/order_book.py:4-31 | any one mutating call on both books, then both quotes, which agree |
| BookEquivalence.LiveIdsStep | assignment2/optimized_order.py:20-77 | the ids live after one more call are those before it, plus a validly added id or minus a deleted one |
| BookEquivalence.ReAddAfterDelete | assignment2/optimized_order.py:22-23 | an id may be added again once it has been deleted: such a sequence meets the precondition of `Replay` |
| BookEquivalence.AddId | assignment2/optimized_order.py:20-47 | the performance book's add of a new id indexes exactly that order when the side is valid, and leaves the index alone otherwise |
| BookEquivalence.SetQuantity | assignment2/optimized_order.py:49-60 | the performance book's amend to a positive quantity changes only the quantity of the order under the id, if any |
| BookEquivalence.DropId | assignment2/optimized_order.py:62-77 | the performance book's delete removes exactly the id from its index, or leaves the index alone for an unknown id |
| BookEquivalence.Replay | assignment2/order_book.py:4-31 | from empty books, any sequence of adds, deletes and positive amends in which no add names a live id gives the same best bid and best ask prices after every call |
| BookEquivalence.LazyHealingScenario | assignment2/optimized_order.py:98-114 | a concrete scenario, proved by the verifier: a deleted best bid's stale heap entry is popped by the next read, an ask amended to zero empties its heap, and re-adding at that price pushes it again |
| BookEquivalence.OpenPhase | assignment2/optimized_order.py:39-45 | three adds into an empty book push one heap entry per new level and quote 105 and 110 |
| BookEquivalence.SeedBids | assignment2/optimized_order.py:39-45 | two bids at different prices open two levels and push both negated prices |
| BookEquivalence.SeedAsk | assignment2/optimized_order.py:39-45 | an ask at a new price opens its level and pushes its price |
| BookEquivalence.DeletePhase | assignment2/optimized_order.py:98-105 | after the best bid is deleted, `best_bid` pops its stale entry and quotes the next bid |
| BookEquivalence.DropBid | assignment2/optimized_order.py:71-74 | deleting the best bid drops its level and leaves its heap entry behind |
| BookEquivalence.AmendPhase | assignment2/optimized_order.py:107-114 | after the only ask is amended to zero, `best_ask` empties the ask heap and quotes none |
| BookEquivalence.ZeroAsk | assignment2/optimized_order.py:58-59 | an amendment to quantity zero deletes the ask and leaves its heap entry behind |
| BookEquivalence.ReAddPhase | assignment2/optimized_order.py:39-45 | a new ask at a previously emptied price pushes that price again and is quoted |
| BookEquivalence.AddAskAgain | assignment2/optimized_order.py:39-45 | an ask re-added at 110 becomes live and its price returns to the ask heap |
| BookEquivalence.NaiveAmendToZero | assignment2/naive_order.py:41-45 | the reference book keeps an ask amended to quantity zero as its best ask |
| BookEquivalence.NaiveWithOneAsk | assignment2/naive_order.py:14-29 | adding one ask to an empty reference book leaves just that ask |
| BookEquivalence.OptimizedAmendToZero | assignment2/optimized_order.py:58-59 | the performance book deletes an ask amended to zero and has no best ask |
| BookEquivalence.AmendToZeroDiverges | assignment2/optimized_order.py:58-59 | the same add and amendment to zero make the two books quote different best asks |
| Models.Validate | assignment1/models.py:19-27 | passes exactly when the symbol is non-empty and quantity and price are positive; otherwise the first broken rule, in the order symbol, quantity, price, names the error |
| Strategies.TailSlice | assignment1/strategies.py:34 | `s[-n:]` for every integer n: the last n elements, clamped to the list; the whole list for n = 0; the list without its first -n elements for negative n |
| Strategies.AllButLast | assignment1/strategies.py:31 | `s[:-1]` is the list without its last element, and empty for an empty list |
| Strategies.At | assignment1/strategies.py:68 | `s[i]` succeeds exactly for -len(s) <= i < len(s), counting negative indexes from the end; otherwise IndexError |
| Strategies.Mean | assignment1/strategies.py:32 | `sum(s) / len(s)` raises ZeroDivisionError exactly when the slice is empty |
| Strategies.MeanOfTail | assignment1/strategies.py:34-35 | the mean of the last w prices is their simple moving average |
| Strategies.WindowStep | assignment1/strategies.py:21-25 | appending a price and popping the oldest when over capacity keeps the buffer equal to the last `cap` prices seen |
| Strategies.Decide | assignment1/strategies.py:43-49 | BUY exactly when the short average was at or below the long one and is now above it; SELL exactly when it was at or above and is now below; no signal otherwise |
| Strategies.Crossover | assignment1/strategies.py:31-49 | MAC raises ZeroDivisionError exactly when one of its four slices is empty, and otherwise returns at most one signal |
| Strategies.WindowTail | assignment1/strategies.py:31-41 | the tail slices of the buffer are the tails of the whole price history, while they fit in the buffer |
| Strategies.CrossoverOnHistory | assignment1/strategies.py:31-49 | with 1 <= short_win <= long_win and a full buffer, MAC never raises and applies the crossover rule to the moving averages of the history, without and with the latest price |
| Strategies.ZeroLongWindowDividesByZero | assignment1/strategies.py:37-38 | with long_win = 0, `prices[:-1]` is empty and every full-buffer tick raises ZeroDivisionError |
| Strategies.ZeroShortWindowIsWholeBuffer | assignment1/strategies.py:31-35 | with short_win = 0, `[-0:]` takes the whole list, so the short and long averages of the previous tick coincide |
| Strategies.MomentumRule | assignment1/strategies.py:68-73 | at most one signal, carrying the tick's symbol and price and the strategy's qty; IndexError exactly when the buffer is empty or the index `-1 - lookback` falls outside it |
| Strategies.MomentumOnHistory | assignment1/strategies.py:68-73 | with lookback >= 1 and a full buffer: BUY exactly when the latest price is above the one lookback ticks earlier, SELL when below, nothing when equal |
| Strategies.NegativeLookbackRaises | assignment1/strategies.py:62-68 | with a negative lookback the buffer stays empty and `prices[-1]` raises IndexError on every tick |
| Strategies.ZeroLookbackNeverSignals | assignment1/strategies.py:68-73 | with lookback = 0 the latest price is compared with itself and no signal is ever returned |
| Strategies.MAC.constructor | assignment1/strategies.py:12-18 | stores the windows and qty, with an empty buffer |
| Strategies.MAC.GenerateSignals | assignment1/strategies.py:20-49 | the buffer is always the last long_win + 1 prices seen and never longer; no signal while it is short; otherwise the crossover rule on it |
| Strategies.Momentum.constructor | assignment1/strategies.py:53-57 | stores lookback and qty, with an empty buffer |
| Strategies.Momentum.GenerateSignals | assignment1/strategies.py:59-73 | the buffer is always the last lookback + 1 prices seen and never longer; no signal while it is short; otherwise the momentum rule on it |
| ExecutionEngine.Ensured | assignment1/engine.py:21-24 | a known symbol leaves the positions as they are; an unknown one creates or resets the flat "AAPL" entry and nothing else |
| ExecutionEngine.Bought | assignment1/engine.py:67-71 | the quantity grows by qty, and quantity times average price grows by qty times price (the weighted average) |
| ExecutionEngine.Sold | assignment1/engine.py:80-87 | the quantity shrinks by qty; the average price is kept, or becomes 0 when the position goes flat |
| ExecutionEngine.BuyFills | assignment1/engine.py:61-73 | a BUY that the cash covers pays qty times price, updates the position, records the price and returns the order FILLED |
| ExecutionEngine.FailureChangesNothing | assignment1/engine.py:40-45 | a simulated failure raises before any cash, position or price changes |
| ExecutionEngine.ExecuteKeepsInvariant | assignment1/engine.py:44-91 | every execution keeps each position non-negative (flat ones at average 0), every open position priced, and non-negative cash non-negative |
| ExecutionEngine.BuyKeepsInvariant | assignment1/engine.py:61-73 | a BUY keeps the positions sound and priced and never overdraws the cash |
| ExecutionEngine.SellKeepsInvariant | assignment1/engine.py:74-89 | a sell keeps the positions sound and priced, since it never sells more than is held |
| ExecutionEngine.PricesMoveOnlyOnFill | assignment1/engine.py:91 | a rejected order changes neither cash nor prices, and changes positions only through `_ensure_position`; a fill records its price as the symbol's latest and returns the order FILLED |
| ExecutionEngine.FillMovesCashAndQuantity | assignment1/engine.py:58-89 | a filled BUY pays qty times price and a filled sell receives it; only the traded symbol's position changes, as `Bought` or `Sold` says |
| ExecutionEngine.RejectionReasons | assignment1/engine.py:55-76 | a new symbol other than "AAPL" fails at the lookup exactly, after resetting "AAPL"; a BUY is refused exactly when it costs more than the cash; a sell exactly when it sells more than is held |
| ExecutionEngine.EquityStep | assignment1/engine.py:95-104 | one pass of the equity loop moves one position's value from the exposure left to the running equity |
| ExecutionEngine.ExposureRemove | assignment1/engine.py:95-104 | the market value of all positions can be summed starting from any position |
| ExecutionEngine.FlatBookHasNoExposure | assignment1/engine.py:97-98 | when every position is flat the equity is just the cash |
| ExecutionEngine.Engine.constructor | assignment1/engine.py:6-18 | starts with the given cash, no positions and no prices |
| ExecutionEngine.Engine.EnsurePosition | assignment1/engine.py:21-24 | the positions become `Ensured` of the old ones for that symbol |
| ExecutionEngine.Engine.SignalToOrder | assignment1/engine.py:26-37 | a missing qty becomes the default; the result is the order with the signal's action exactly when it validates, and otherwise the validation error |
| ExecutionEngine.Engine.ExecuteOrder | assignment1/engine.py:44-91 | the new cash, positions and prices and the result are those `Execute` gives on the old state, and the engine invariant is kept |
| ExecutionEngine.Engine.FillBuy | assignment1/engine.py:61-73 | the BUY branch leaves the state and result `Buy` gives |
| ExecutionEngine.Engine.FillSell | assignment1/engine.py:74-89 | the sell branch leaves the state and result `Sell` gives |
| ExecutionEngine.Engine.ComputeEquity | assignment1/engine.py:93-106 | returns the cash plus quantity times latest price summed over all non-flat positions |

## Left out

- The `Order` class of `order.py` is not part of this model. It is declared from its uses as a datatype with an id, price, quantity and side.
- The `order_book.py` base class is not modelled as a shared type. The mutating calls are the `BookOp` datatype, and `Replay` drives both books through it.
- The heap layout is abstracted. A heap is the ascending sequence of its entries, so its top is its minimum. The sift code of `heapq` and the complexity bounds of both books are not modelled.
- Floating point is abstracted. Prices, cash, averages and equity are `real`, so the model has no rounding. Negating a bid price is exact. The sum in `_compute_equity` does not depend on the order of the positions, whereas float addition does.
- Argument coercions are not modelled. These are `int(...)` and `float(...)` on ids, prices and quantities. Ids and quantities are `int` and prices `real` from the start. The reference book stores the argument values without coercion, and the model does the same.
- Object identity and aliasing outside a book are not modelled. An order is a value, and an amendment replaces it by a copy with the new quantity. Inside the performance book, a level lists ids that resolve through the id index, so the index and the level see one record. A caller keeping a reference to an order from `lookup_by_id` would see the source's in-place mutation; the model does not capture that.
- BookEquivalence.Replay: proves only that both books quote equal best bid and best ask prices. It does not prove that they return the same best order or the same `get_orders_at_price` lists. Its precondition counts an id as live from a valid add until a delete, so a deleted id may be added again; an amendment to zero or less is excluded because that is where the books differ.
- `Engine.run` is not modelled. This covers the tick loop that records latest prices, calls the strategies and swallows exceptions, as well as `errors` and `equity_curve`. So are `reporting.py`, `data_loader.py`, both `main.py` files and `plot_compare.py` (I/O, plotting, timing, argument parsing).
- `_failure_execution`'s random number generator is not modelled. Its outcome is the `executionFails` parameter.
- The `MarketDataPoint` timestamp is not modelled. It only labels the equity curve.
- The `last_price is None` branch of `_compute_equity` is not modelled. Latest prices are always reals here, and every open position has one (the engine invariant).
- ExecutionEngine.Engine.ExecuteOrder: requires an order that passes `validate`. The only caller of `_execute_order` passes it the order `_signal_to_order` has just validated. An unvalidated order with quantity 0 could divide by zero in the source's average price.
- `Order.__init__` has no member of its own. It is the datatype constructor `Models.Order`, which stores the four fields as given.
