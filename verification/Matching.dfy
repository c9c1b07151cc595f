/** Prices at which an order can trade against one bar. */
module Matching {
  import opened Kernel

  /** Times are opaque instants, compared only for equality and order. */
  datatype Candle = Candle(start: int, end: int, open: real, high: real, low: real, close: real, volume: real)

  datatype MatchMode = FullBar | ClosePoint

  function EventTime(candle: Candle, mode: MatchMode): int {
    if mode == FullBar then candle.start else candle.end
  }

  /** The price of a market order before slippage. */
  function MarketPrice(candle: Candle, mode: MatchMode): real {
    if mode == ClosePoint then candle.close else candle.open
  }

  /** At least as good for `side` as `bound`. */
  predicate NotWorse(side: Side, price: real, bound: real) {
    if side == Buy then price <= bound else price >= bound
  }

  /** At least as bad for `side` as `bound`. */
  predicate NotBetter(side: Side, price: real, bound: real) {
    if side == Buy then price >= bound else price <= bound
  }

  function LimitPrice(side: Side, limit: real, candle: Candle, mode: MatchMode): (price: Option<real>)
    ensures price.Some? ==> price.value > 0.0 && NotWorse(side, price.value, limit)
  {
    if limit <= 0.0 then None
    else
      match (mode, side)
      case (ClosePoint, Buy) => if candle.close > 0.0 && candle.close <= limit then Some(candle.close) else None
      case (ClosePoint, Sell) => if candle.close > 0.0 && candle.close >= limit then Some(candle.close) else None
      case (FullBar, Buy) =>
        if candle.open > 0.0 && candle.open <= limit then Some(candle.open)
        else if candle.low > 0.0 && candle.low <= limit then Some(limit)
        else None
      case (FullBar, Sell) =>
        if candle.open > 0.0 && candle.open >= limit then Some(candle.open)
        else if candle.high > 0.0 && candle.high >= limit then Some(limit)
        else None
  }

  function StopMarketPrice(side: Side, stop: real, candle: Candle, mode: MatchMode): (price: Option<real>)
    ensures price.Some? ==> price.value > 0.0 && NotBetter(side, price.value, stop)
  {
    if stop <= 0.0 then None
    else
      match (mode, side)
      case (ClosePoint, Buy) => if candle.close > 0.0 && candle.close >= stop then Some(candle.close) else None
      case (ClosePoint, Sell) => if candle.close > 0.0 && candle.close <= stop then Some(candle.close) else None
      case (FullBar, Buy) =>
        if candle.open > 0.0 && candle.open >= stop then Some(candle.open)
        else if candle.high > 0.0 && candle.high >= stop then Some(stop)
        else None
      case (FullBar, Sell) =>
        if candle.open > 0.0 && candle.open <= stop then Some(candle.open)
        else if candle.low > 0.0 && candle.low <= stop then Some(stop)
        else None
  }

  /** Slippage moves a price against the order by whole ticks, on the tick grid; it is never favourable. */
  function ApplySlippage(side: Side, price: real, ticks: nat, tickSize: real): (r: Result<real>)
    ensures r.Ok? && r.value > 0.0 ==> price > 0.0 && NotBetter(side, r.value, price)
    ensures r.Ok? && ticks > 0 && price > 0.0 && tickSize > 0.0 ==> r.value >= 0.0 && IsMultiple(r.value, tickSize)
  {
    if ticks == 0 || price <= 0.0 || tickSize <= 0.0 then
      Ok(price)
    else
      ProductGrows(1.0, ticks as real, tickSize);
      var slipped := price + side.Signed(ticks as real * tickSize);
      if slipped <= 0.0 then
        assert 0.0 == Units(0, tickSize);
        Ok(0.0)
      else TruncateToIncrement(slipped, tickSize)
  }

  // ---- what the prices are ---------------------------------------------------------------

  /** A bar whose open and close lie between its low and its high, all of them positive. */
  predicate WellFormed(candle: Candle) {
    0.0 < candle.low && candle.low <= candle.open <= candle.high && candle.low <= candle.close <= candle.high
  }

  function Best(side: Side, a: real, b: real): real {
    if side == Buy then Min(a, b) else Max(a, b)
  }

  function Worst(side: Side, a: real, b: real): real {
    if side == Buy then Max(a, b) else Min(a, b)
  }

  /** The end of the bar that a limit order, or a stop of the other side, waits for. */
  function Cheapest(side: Side, candle: Candle): real {
    if side == Buy then candle.low else candle.high
  }

  function Other(side: Side): Side {
    if side == Buy then Sell else Buy
  }

  /** A positive price at which a limit order would trade. */
  predicate Offered(side: Side, price: real, limit: real) {
    price > 0.0 && NotWorse(side, price, limit)
  }

  /** A limit order trades exactly when the bar offers its limit: at the close, or at the better of the open and the
      limit. On a well-formed bar that is a price the bar has seen. */
  lemma LimitPriceIs(side: Side, limit: real, candle: Candle, mode: MatchMode)
    requires limit > 0.0
    ensures var price := LimitPrice(side, limit, candle, mode);
      && (mode == ClosePoint ==>
        (price.Some? <==> Offered(side, candle.close, limit)) && (price.Some? ==> price.value == candle.close))
      && (mode == FullBar ==>
            && (price.Some? <==> Offered(side, candle.open, limit) || Offered(side, Cheapest(side, candle), limit))
            && (price.Some? ==> price.value == if candle.open > 0.0 then Best(side, candle.open, limit) else limit))
      && (price.Some? && WellFormed(candle) ==> candle.low <= price.value <= candle.high)
  {
  }

  /** A positive price at which a stop is reached. */
  predicate Reached(side: Side, price: real, stop: real) {
    price > 0.0 && NotBetter(side, price, stop)
  }

  /** A stop trades exactly when the bar reaches it: at the close, or at the worse of the open and the stop. */
  lemma StopMarketPriceIs(side: Side, stop: real, candle: Candle, mode: MatchMode)
    requires stop > 0.0
    ensures var price := StopMarketPrice(side, stop, candle, mode);
      && (mode == ClosePoint ==>
        (price.Some? <==> Reached(side, candle.close, stop)) && (price.Some? ==> price.value == candle.close))
      && (mode == FullBar ==>
            && (price.Some? <==> Reached(side, candle.open, stop) || Reached(side, Cheapest(Other(side), candle), stop))
            && (price.Some? ==> price.value == if candle.open > 0.0 then Worst(side, candle.open, stop) else stop))
      && (price.Some? && WellFormed(candle) ==> candle.low <= price.value <= candle.high)
  {
  }

  /** Slippage moves a price by its ticks, give or take the cut to the grid of less than one tick; a sale that would
      go below zero is worth nothing. */
  lemma SlippageMoves(side: Side, price: real, ticks: nat, tickSize: real, offset: real)
    requires price > 0.0 && ticks > 0 && tickSize > 0.0 && offset == ticks as real * tickSize
    ensures ApplySlippage(side, price, ticks, tickSize).Ok?
    ensures var r := ApplySlippage(side, price, ticks, tickSize).value;
      && (side == Buy ==> price + offset - tickSize < r <= price + offset)
      && (side == Sell && price > offset ==> price - offset - tickSize < r <= price - offset)
      && (side == Sell && price <= offset ==> r == 0.0)
  {
    var more := (ticks - 1) as real;
    assert more * tickSize >= 0.0;
    assert offset == more * tickSize + tickSize;
  }
}
