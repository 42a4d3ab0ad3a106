/**
 * The backtester's two strategies. Each keeps a rolling buffer of the latest
 * prices (appended to on every tick, its oldest price dropped once it is over
 * capacity) and turns a full buffer into at most one BUY or SELL signal. The
 * Python list slicing and indexing they use are modelled for every window
 * value, so a window below 1 shows up as the exception the code then raises.
 */
module Strategies {
  import opened Wrappers
  import opened Models

  const BUY: string := "BUY"
  const SELL: string := "SELL"

  /** A signal tuple `(action, symbol, qty, price)`; `qty` is the strategy's own, possibly None. */
  datatype Signal = Signal(action: string, symbol: string, qty: Option<int>, price: real)

  /** The exceptions a strategy's arithmetic or indexing raises. */
  datatype StrategyError = ZeroDivisionError | IndexError

  function Min(a: int, b: int): int { if a <= b then a else b }
  function Max(a: int, b: int): int { if a >= b then a else b }

  /** Python's `s[-n:]` for any integer `n`: a negative start counts from the end, and is clamped to the list. */
  function TailSlice<T>(s: seq<T>, n: int): (r: seq<T>)
    ensures n > 0 ==> r == s[|s| - Min(n, |s|)..]
    ensures n == 0 ==> r == s
    ensures n < 0 ==> r == if -n <= |s| then s[-n..] else []
  {
    var start := -n;
    var fromEnd := if start < 0 then start + |s| else start;
    var clamped := if fromEnd < 0 then 0 else if fromEnd > |s| then |s| else fromEnd;
    s[clamped..]
  }

  /** Python's `s[:-1]`: the list without its last element (and empty when it is empty). */
  function AllButLast<T>(s: seq<T>): (r: seq<T>)
    ensures s != [] ==> s == r + [s[|s| - 1]]
    ensures s == [] ==> r == []
  {
    var stop := |s| - 1;
    s[..if stop < 0 then 0 else stop]
  }

  /** Python's `s[i]` for any integer `i`: a negative index counts from the end. */
  function At<T>(s: seq<T>, i: int): (r: Result<T, StrategyError>)
    ensures r.Ok? <==> -|s| <= i < |s|
    ensures 0 <= i < |s| ==> r == Ok(s[i])
    ensures -|s| <= i < 0 ==> r == Ok(s[|s| + i])
  {
    var j := if i < 0 then i + |s| else i;
    if 0 <= j < |s| then Ok(s[j]) else Err(IndexError)
  }

  function Sum(s: seq<real>): real
  {
    if s == [] then 0.0 else Sum(s[..|s| - 1]) + s[|s| - 1]
  }

  /** `sum(s) / len(s)`, which raises ZeroDivisionError on an empty slice. */
  function Mean(s: seq<real>): (r: Result<real, StrategyError>)
    ensures r.Err? <==> s == []
  {
    if |s| == 0 then Err(ZeroDivisionError) else Ok(Sum(s) / |s| as real)
  }

  /** The simple moving average of the last `w` prices of `h`. */
  function Average(h: seq<real>, w: int): real
    requires 1 <= w <= |h|
  {
    Sum(h[|h| - w..]) / w as real
  }

  /** The mean of the last `w` prices is their moving average: a one-step unfolding of `Mean` that the crossover proofs call. */
  lemma MeanOfTail(h: seq<real>, w: int)
    requires 1 <= w <= |h|
    ensures Mean(h[|h| - w..]) == Ok(Average(h, w))
  {
  }

  /**
   * The last `cap` prices of `h` (all of them while there are fewer, none when
   * `cap` is not positive): what a buffer of capacity `cap` holds after seeing `h`.
   */
  ghost function Window(h: seq<real>, cap: int): seq<real>
  {
    h[|h| - Min(|h|, Max(cap, 0))..]
  }

  /** Appending a price and then dropping the oldest one while over capacity keeps the buffer the window of the history. */
  lemma WindowStep(h: seq<real>, cap: int, x: real)
    ensures var b := Window(h, cap) + [x];
            Window(h + [x], cap) == if |b| > cap then b[1..] else b
  {
    var b := Window(h, cap) + [x];
    var h' := h + [x];
    if |b| > cap {
      assert b[1..] == h'[|h'| - Min(|h'|, Max(cap, 0))..];
    } else {
      assert b == h'[|h'| - Min(|h'|, Max(cap, 0))..];
    }
  }

  /**
   * The crossover rule on the four moving averages: BUY when the short average was
   * at or below the long one a tick ago and is now above it, SELL when it was at or
   * above it and is now below it, nothing otherwise.
   */
  function Decide(shortPrev: real, longPrev: real, shortNow: real, longNow: real, tick: MarketDataPoint, qty: Option<int>)
    : (r: seq<Signal>)
    ensures r == [Signal(BUY, tick.symbol, qty, tick.price)] <==> shortPrev <= longPrev && shortNow > longNow
    ensures r == [Signal(SELL, tick.symbol, qty, tick.price)] <==> shortPrev >= longPrev && shortNow < longNow
    ensures r == [] <==> !(shortPrev <= longPrev && shortNow > longNow) && !(shortPrev >= longPrev && shortNow < longNow)
  {
    if shortPrev <= longPrev && shortNow > longNow then [Signal(BUY, tick.symbol, qty, tick.price)]
    else if shortPrev >= longPrev && shortNow < longNow then [Signal(SELL, tick.symbol, qty, tick.price)]
    else []
  }

  /**
   * MAC's rule on its buffer: the short and long averages of `prices[:-1]` and of
   * `prices`, each raising ZeroDivisionError on an empty slice, then `Decide`.
   */
  function Crossover(prices: seq<real>, shortWin: int, longWin: int, tick: MarketDataPoint, qty: Option<int>)
    : (r: Result<seq<Signal>, StrategyError>)
    ensures r.Err? <==> TailSlice(AllButLast(prices), shortWin) == [] || TailSlice(prices, shortWin) == []
                        || TailSlice(AllButLast(prices), longWin) == [] || TailSlice(prices, longWin) == []
    ensures r.Ok? ==> |r.value| <= 1
  {
    var shortPrev := Mean(TailSlice(AllButLast(prices), shortWin));
    var shortNow := Mean(TailSlice(prices, shortWin));
    var longPrev := Mean(TailSlice(AllButLast(prices), longWin));
    var longNow := Mean(TailSlice(prices, longWin));
    if shortPrev.Err? || shortNow.Err? || longPrev.Err? || longNow.Err? then Err(ZeroDivisionError)
    else Ok(Decide(shortPrev.value, longPrev.value, shortNow.value, longNow.value, tick, qty))
  }

  /** The tail of a window is the tail of the whole history, as long as it fits in the window. */
  lemma WindowTail(h: seq<real>, cap: int, w: int)
    requires 1 <= w <= cap <= |h|
    ensures TailSlice(Window(h, cap), w) == h[|h| - w..]
    ensures w < cap ==> TailSlice(AllButLast(Window(h, cap)), w) == AllButLast(h)[|h| - 1 - w..]
  {
    var b := Window(h, cap);
    assert b == h[|h| - cap..];
    if w < cap {
      assert AllButLast(b) == h[|h| - cap..|h| - 1];
    }
  }

  /**
   * With windows `1 <= shortWin <= longWin` and a full buffer, MAC never raises and
   * applies the crossover rule to the moving averages of the price history, taken
   * without the latest price and with it.
   */
  lemma CrossoverOnHistory(h: seq<real>, shortWin: int, longWin: int, tick: MarketDataPoint, qty: Option<int>)
    requires 1 <= shortWin <= longWin && longWin + 1 <= |h|
    ensures var prev := AllButLast(h);
            Crossover(Window(h, longWin + 1), shortWin, longWin, tick, qty)
            == Ok(Decide(Average(prev, shortWin), Average(prev, longWin), Average(h, shortWin), Average(h, longWin), tick, qty))
  {
    var b := Window(h, longWin + 1);
    var prev := AllButLast(h);
    WindowTail(h, longWin + 1, shortWin);
    WindowTail(h, longWin + 1, longWin);
    MeanOfTail(h, shortWin);
    MeanOfTail(h, longWin);
    assert |prev| == |h| - 1;
    var shortPrev := TailSlice(AllButLast(b), shortWin);
    var longPrev := TailSlice(AllButLast(b), longWin);
    assert shortPrev == prev[|prev| - shortWin..] && |shortPrev| == shortWin;
    assert longPrev == prev[|prev| - longWin..] && |longPrev| == longWin;
    MeanOfTail(prev, shortWin);
    MeanOfTail(prev, longWin);
  }

  /** With `long_win = 0` a full buffer holds one price, `prices[:-1]` is empty, and every tick raises. */
  lemma ZeroLongWindowDividesByZero(prices: seq<real>, shortWin: int, tick: MarketDataPoint, qty: Option<int>)
    requires |prices| == 1
    ensures Crossover(prices, shortWin, 0, tick, qty) == Err(ZeroDivisionError)
  {
    assert TailSlice(AllButLast(prices), 0) == [];
  }

  /**
   * With `short_win = 0` the slice `[-0:]` is the whole list: the short and long
   * averages a tick ago coincide, and MAC compares the mean of the whole buffer
   * with the mean of its last `long_win` prices.
   */
  lemma ZeroShortWindowIsWholeBuffer(prices: seq<real>, longWin: int, tick: MarketDataPoint, qty: Option<int>)
    requires longWin >= 1 && |prices| == longWin + 1
    ensures var prevMean := Average(AllButLast(prices), longWin);
            Crossover(prices, 0, longWin, tick, qty)
            == Ok(Decide(prevMean, prevMean, Average(prices, longWin + 1), Average(prices, longWin), tick, qty))
  {
    var prev := AllButLast(prices);
    assert TailSlice(prices, longWin) == prices[1..];
    assert TailSlice(prev, longWin) == prev;
    assert Mean(TailSlice(prev, 0)) == Ok(Average(prev, longWin));
    assert Mean(TailSlice(prev, longWin)) == Ok(Average(prev, longWin));
    assert Mean(TailSlice(prices, 0)) == Ok(Average(prices, longWin + 1));
    assert Mean(TailSlice(prices, longWin)) == Ok(Average(prices, longWin));
  }

  /**
   * Momentum's rule on its buffer: BUY when the latest price is above the price
   * `lookback` ticks earlier, SELL when it is below, nothing when they are equal;
   * IndexError when either index falls outside the buffer.
   */
  function MomentumRule(prices: seq<real>, lookback: int, tick: MarketDataPoint, qty: Option<int>)
    : (r: Result<seq<Signal>, StrategyError>)
    ensures r == Err(IndexError) <==> prices == [] || !(-|prices| <= -1 - lookback < |prices|)
    ensures r.Err? ==> r == Err(IndexError)
    ensures r.Ok? ==> |r.value| <= 1
    ensures r.Ok? && r.value != [] ==>
              r.value[0].action in {BUY, SELL} && r.value[0].symbol == tick.symbol
              && r.value[0].qty == qty && r.value[0].price == tick.price
  {
    var latest := At(prices, -1);
    var earlier := At(prices, -1 - lookback);
    if latest.Err? || earlier.Err? then Err(IndexError)
    else if latest.value > earlier.value then Ok([Signal(BUY, tick.symbol, qty, tick.price)])
    else if latest.value < earlier.value then Ok([Signal(SELL, tick.symbol, qty, tick.price)])
    else Ok([])
  }

  /**
   * With `lookback >= 1` and a full buffer, Momentum never raises and compares the
   * latest price of the history with the one `lookback` ticks before it.
   */
  lemma MomentumOnHistory(h: seq<real>, lookback: int, tick: MarketDataPoint, qty: Option<int>)
    requires 1 <= lookback && lookback + 1 <= |h|
    ensures var last := |h| - 1;
            MomentumRule(Window(h, lookback + 1), lookback, tick, qty)
            == Ok(if h[last] > h[last - lookback] then [Signal(BUY, tick.symbol, qty, tick.price)]
                  else if h[last] < h[last - lookback] then [Signal(SELL, tick.symbol, qty, tick.price)]
                  else [])
  {
    var b := Window(h, lookback + 1);
    assert b == h[|h| - lookback - 1..];
    assert At(b, -1) == Ok(h[|h| - 1]);
    assert At(b, -1 - lookback) == Ok(h[|h| - 1 - lookback]);
  }

  /** A negative lookback leaves the buffer empty, so `prices[-1]` raises IndexError on every tick. */
  lemma NegativeLookbackRaises(h: seq<real>, lookback: int, tick: MarketDataPoint, qty: Option<int>)
    requires lookback < 0
    ensures MomentumRule(Window(h, lookback + 1), lookback, tick, qty) == Err(IndexError)
  {
  }

  /** With `lookback = 0` the latest price is compared with itself: never a signal. */
  lemma ZeroLookbackNeverSignals(prices: seq<real>, tick: MarketDataPoint, qty: Option<int>)
    requires |prices| == 1
    ensures MomentumRule(prices, 0, tick, qty) == Ok([])
  {
  }

  /** The moving-average crossover strategy. */
  class MAC {
    const shortWin: int
    const longWin: int
    const qty: Option<int>
    var prices: seq<real>
    /** Every price seen so far, oldest first. */
    ghost var history: seq<real>

    /** The buffer is the last `longWin + 1` prices seen. */
    ghost predicate Valid()
      reads this
    {
      prices == Window(history, longWin + 1)
    }

    constructor (shortWin: int, longWin: int, qty: Option<int>)
      ensures Valid() && history == [] && prices == []
      ensures this.shortWin == shortWin && this.longWin == longWin && this.qty == qty
    {
      this.shortWin := shortWin;
      this.longWin := longWin;
      this.qty := qty;
      prices := [];
      history := [];
    }

    /**
     * `generate_signals`: buffer the tick's price, then no signal until the buffer
     * holds `longWin + 1` prices, and the crossover rule once it does.
     */
    method GenerateSignals(tick: MarketDataPoint) returns (r: Result<seq<Signal>, StrategyError>)
      requires Valid()
      modifies this
      ensures Valid() && history == old(history) + [tick.price]
      ensures |prices| <= Max(longWin + 1, 0)
      ensures |prices| < longWin + 1 <==> |history| < longWin + 1
      ensures |prices| < longWin + 1 ==> r == Ok([])
      ensures |prices| >= longWin + 1 ==> r == Crossover(prices, shortWin, longWin, tick, qty)
    {
      WindowStep(history, longWin + 1, tick.price);
      history := history + [tick.price];
      prices := prices + [tick.price];
      if |prices| > longWin + 1 {
        prices := prices[1..];
      }
      if |prices| < longWin + 1 {
        return Ok([]);
      }
      r := Crossover(prices, shortWin, longWin, tick, qty);
    }
  }

  /** The momentum strategy. */
  class Momentum {
    const lookback: int
    const qty: Option<int>
    var prices: seq<real>
    /** Every price seen so far, oldest first. */
    ghost var history: seq<real>

    /** The buffer is the last `lookback + 1` prices seen. */
    ghost predicate Valid()
      reads this
    {
      prices == Window(history, lookback + 1)
    }

    constructor (lookback: int, qty: Option<int>)
      ensures Valid() && history == [] && prices == []
      ensures this.lookback == lookback && this.qty == qty
    {
      this.lookback := lookback;
      this.qty := qty;
      prices := [];
      history := [];
    }

    /**
     * `generate_signals`: buffer the tick's price, then no signal until the buffer
     * holds `lookback + 1` prices, and the momentum rule once it does.
     */
    method GenerateSignals(tick: MarketDataPoint) returns (r: Result<seq<Signal>, StrategyError>)
      requires Valid()
      modifies this
      ensures Valid() && history == old(history) + [tick.price]
      ensures |prices| <= Max(lookback + 1, 0)
      ensures |prices| < lookback + 1 <==> |history| < lookback + 1
      ensures |prices| < lookback + 1 ==> r == Ok([])
      ensures |prices| >= lookback + 1 ==> r == MomentumRule(prices, lookback, tick, qty)
    {
      WindowStep(history, lookback + 1, tick.price);
      history := history + [tick.price];
      prices := prices + [tick.price];
      if |prices| > lookback + 1 {
        prices := prices[1..];
      }
      if |prices| < lookback + 1 {
        return Ok([]);
      }
      r := MomentumRule(prices, lookback, tick, qty);
    }
  }
}
