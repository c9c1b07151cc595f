/** At which price and time every fill of a run is made, said of the prices of its bar. */
module FillPrices {
  import opened Kernel
  import opened Matching
  import opened Orders
  import opened Backtest
  import opened Invariants
  import opened Runs
  import opened Attempts

  /** How far slippage moves a price. */
  function Offset(p: Params): real {
    p.slippageTicks as real * p.tickSize
  }

  /** The price lies by the slippage of the case, to within one tick, on the bad side of `base`. */
  predicate Slipped(p: Params, side: Side, base: real, price: real) {
    if p.slippageTicks == 0 || p.tickSize <= 0.0 then price == base
    else Moved(side, base, Offset(p), p.tickSize, price)
  }

  /** The price lies by the offset, to within one tick, on the bad side of `base`. */
  predicate Moved(side: Side, base: real, offset: real, tickSize: real, price: real) {
    if side == Buy then base + offset - tickSize < price <= base + offset
    else base - offset - tickSize < price <= base - offset
  }

  lemma SlippedPositive(side: Side, base: real, ticks: nat, tickSize: real, price: real)
    requires ApplySlippage(side, base, ticks, tickSize) == Ok(price) && price > 0.0
    ensures base > 0.0 && (ticks == 0 || tickSize <= 0.0 ==> price == base)
  {
    hide TruncateToIncrement, CeilToIncrement;
  }

  lemma SlippedBy(p: Params, side: Side, base: real, price: real)
    requires ApplySlippage(side, base, p.slippageTicks, p.tickSize) == Ok(price) && price > 0.0
    ensures base > 0.0 && Slipped(p, side, base, price)
  {
    hide ApplySlippage, Moved, Offset;
    SlippedPositive(side, base, p.slippageTicks, p.tickSize, price);
    if p.slippageTicks > 0 && p.tickSize > 0.0 {
      SlippedAway(p, side, base, price);
    }
  }

  lemma SlippedAway(p: Params, side: Side, base: real, price: real)
    requires ApplySlippage(side, base, p.slippageTicks, p.tickSize) == Ok(price) && price > 0.0 && base > 0.0
    requires p.slippageTicks > 0 && p.tickSize > 0.0
    ensures Moved(side, base, Offset(p), p.tickSize, price)
  {
    hide ApplySlippage;
    SlippageMoves(side, base, p.slippageTicks, p.tickSize, Offset(p));
  }

  /** What a bar charges an order of each type: an order from before the bar on its whole range, one submitted in it at
      its close. */
  predicate Charges(p: Params, o: Order, candle: Candle, before: bool, price: real) {
    match o.orderType
    case MarketOrder => Slipped(p, o.side, if before then candle.open else candle.close, price)
    case StopMarket =>
      if before then
        && (Reached(o.side, candle.open, o.stopPrice) || Reached(o.side, Cheapest(Other(o.side), candle), o.stopPrice))
        && Slipped(p, o.side, if candle.open > 0.0 then Worst(o.side, candle.open, o.stopPrice) else o.stopPrice, price)
      else Reached(o.side, candle.close, o.stopPrice) && Slipped(p, o.side, candle.close, price)
    case OtherType(_) => false
    case _ =>
      if before then
        && (Offered(o.side, candle.open, o.limitPrice) || Offered(o.side, Cheapest(o.side, candle), o.limitPrice))
        && price == if candle.open > 0.0 then Best(o.side, candle.open, o.limitPrice) else o.limitPrice
      else Offered(o.side, candle.close, o.limitPrice) && price == candle.close
  }

  lemma LimitPositive(side: Side, limit: real, candle: Candle, mode: MatchMode)
    requires LimitPrice(side, limit, candle, mode).Some?
    ensures limit > 0.0
  {
  }

  lemma StopPositive(side: Side, stop: real, candle: Candle, mode: MatchMode)
    requires StopMarketPrice(side, stop, candle, mode).Some?
    ensures stop > 0.0
  {
  }

  lemma PriceCharged(p: Params, o: Order, candle: Candle, before: bool, price: real)
    requires PriceOn(p, o, candle, if before then FullBar else ClosePoint, price) && price > 0.0
    ensures Charges(p, o, candle, before, price)
  {
    var mode := if before then FullBar else ClosePoint;
    hide ApplySlippage, LimitPrice, StopMarketPrice, Slipped;
    match o.orderType
    case MarketOrder => SlippedBy(p, o.side, MarketPrice(candle, mode), price);
    case StopMarket =>
      StopPositive(o.side, o.stopPrice, candle, mode);
      StopMarketPriceIs(o.side, o.stopPrice, candle, mode);
      SlippedBy(p, o.side, StopMarketPrice(o.side, o.stopPrice, candle, mode).value, price);
    case OtherType(_) =>
    case _ =>
      LimitPositive(o.side, o.limitPrice, candle, mode);
      LimitPriceIs(o.side, o.limitPrice, candle, mode);
  }

  lemma FillCharged(p: Params, o: Order, f: Fill, position: real, candle: Candle, before: bool)
    requires FillOk(p, o, f, position)
    requires PricedBy(p, o, candle, if before then FullBar else ClosePoint, f)
    ensures Charges(p, o, candle, before, f.price) && f.time == if before then candle.start else candle.end
  {
    hide PriceOn, Charges;
    PriceCharged(p, o, candle, before, f.price);
  }

  /** Every fill of bar `k` of an order from before the bar is made at its start and charged on its whole range, every
      other at its end and charged at its close. */
  lemma {:induction false} FillPrice(c: Case, states: seq<State>, k: nat, n: nat)
    requires History(c, states) && k + 1 < |states| && |states[k].fills| <= n < |states[k + 1].fills|
    ensures k < |c.candles| && 0 <= IndexOf(states[k + 1].fills[n].orderId) < |states[k + 1].book.orders|
    ensures var f := states[k + 1].fills[n]; var i := IndexOf(f.orderId); var o := states[k + 1].book.orders[i];
      var before := i < |states[k].book.orders|;
      && f.time == (if before then c.candles[k].start else c.candles[k].end)
      && Charges(c.params, o, c.candles[k], before, f.price)
  {
    hide *;
    FillTerms(c, states, k, n);
    var f := states[k + 1].fills[n];
    var i := IndexOf(f.orderId);
    FillCharged(c.params, states[k + 1].book.orders[i], f, Sum(SignedQuantity, states[k + 1].fills[..n]), c.candles[k],
      i < |states[k].book.orders|);
  }

  /** A market order from before the bar trades within the slippage of the open, one submitted in the bar within the
      slippage of the close; without slippage at exactly that price. */
  lemma {:induction false} MarketFillPrice(c: Case, states: seq<State>, k: nat, n: nat)
    requires History(c, states) && k + 1 < |states| && |states[k].fills| <= n < |states[k + 1].fills|
    ensures k < |c.candles| && 0 <= IndexOf(states[k + 1].fills[n].orderId) < |states[k + 1].book.orders|
    ensures var f := states[k + 1].fills[n]; var i := IndexOf(f.orderId); var o := states[k + 1].book.orders[i];
      o.orderType.MarketOrder? ==>
        Slipped(c.params, o.side, if i < |states[k].book.orders| then c.candles[k].open
          else c.candles[k].close, f.price)
  {
    FillPrice(c, states, k, n);
    hide History, Slipped;
  }

  /** What a market order from before a bar trades at depends on the open alone, and at the close on the close alone. */
  lemma MarketPriceOnly(p: Params, s: State, i: nat, a: Candle, b: Candle)
    requires Knows(s, i) && s.book.orders[i].orderType.MarketOrder?
    ensures a.open == b.open ==> MatchPrice(p, s, i, a, FullBar) == MatchPrice(p, s, i, b, FullBar)
    ensures a.close == b.close ==> MatchPrice(p, s, i, a, ClosePoint) == MatchPrice(p, s, i, b, ClosePoint)
  {
    hide ApplySlippage;
  }
}
