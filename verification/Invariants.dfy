/** What every step of the execution model keeps, and how it moves the state forward. */
module Invariants {
  import opened Kernel
  import opened Matching
  import opened Orders
  import opened Backtest
  import FeeGroups
  import FeeLines
  import Fees
  import Ledger

  // ---- sums over fills -------------------------------------------------------------------

  function FillQuantity(f: Fill): real { f.quantity }

  function FillFee(f: Fill): real { f.fees.Total() }

  function FillBroker(f: Fill): real { f.fees.broker }

  function FillMarket(f: Fill): real { f.fees.market }

  function FillProfit(f: Fill): real { f.realized }

  function SignedQuantity(f: Fill): real { f.side.Signed(f.quantity) }

  function QuantityFor(orderId: nat): Fill -> real {
    (f: Fill) => if f.orderId == orderId then f.quantity else 0.0
  }

  function QuoteFor(orderId: nat): Fill -> real {
    (f: Fill) => if f.orderId == orderId then f.quote else 0.0
  }

  function ProfitFor(orderId: nat): Fill -> real {
    (f: Fill) => if f.orderId == orderId then f.realized else 0.0
  }

  /** How much of a position a fill closes. */
  function ClosedPart(position: real, f: Fill): real {
    Max(0.0, Min(f.quantity, if f.side == Sell then position else -position))
  }

  /** How much the fills of an order have closed of the position that each of them met. */
  function ClosedBy(orderId: nat, fills: seq<Fill>): real
    decreases |fills|
  {
    if fills == [] then 0.0
    else
      var earlier, f := fills[..|fills| - 1], fills[|fills| - 1];
      ClosedBy(orderId, earlier) + if f.orderId == orderId then ClosedPart(Sum(SignedQuantity, earlier), f) else 0.0
  }

  // ---- the invariant ---------------------------------------------------------------------

  /** The terms of an order, which nothing ever changes. */
  predicate SameTerms(a: Order, b: Order) {
    && a.orderId == b.orderId && a.clientId == b.clientId && a.side == b.side && a.orderType == b.orderType
    && a.quantity == b.quantity && a.limitPrice == b.limitPrice && a.stopPrice == b.stopPrice
    && a.reduceOnly == b.reduceOnly && a.ocoGroup == b.ocoGroup && a.submittedAt == b.submittedAt
  }

  /** A limit is never traded through, and a stop is never traded before it is reached. */
  predicate RespectsPrices(o: Order, f: Fill) {
    && (o.orderType.LimitOrder? || o.orderType.LimitMaker? || o.orderType.StopLimit? ==>
      NotWorse(f.side, f.price, o.limitPrice))
    && (o.orderType.StopMarket? ==> NotBetter(f.side, f.price, o.stopPrice))
    && !o.orderType.OtherType?
  }

  /** A reduce-only fill trades against a position at least as large as itself. */
  predicate RespectsReduceOnly(o: Order, f: Fill, position: real) {
    o.reduceOnly ==> if f.side == Sell then f.quantity <= position else f.quantity <= -position
  }

  /** A fill of order `o` on the terms of that order; `position` is the position before it. */
  ghost predicate FillOk(p: Params, o: Order, f: Fill, position: real) {
    && f.orderId == o.orderId && f.clientId == o.clientId && f.side == o.side
    && f.price > 0.0 && f.quantity > 0.0 && f.quote == Worth(f.price, f.quantity)
    && IsMultiple(f.quantity, p.quantityStep) && (p.minQuantity > 0.0 ==> f.quantity >= p.minQuantity)
    && (f.maker <==> o.orderType.LimitOrder? || o.orderType.LimitMaker? || o.orderType.StopLimit?)
    && RespectsPrices(o, f) && RespectsReduceOnly(o, f, position)
  }

  ghost predicate FillAtOk(p: Params, orders: seq<Order>, fills: seq<Fill>, k: nat)
    requires k < |fills|
  {
    var i := IndexOf(fills[k].orderId);
    && fills[k].tradeId == INITIAL_TRADE_ID + 1 + k
    && 0 <= i < |orders|
    && FillOk(p, orders[i], fills[k], Sum(SignedQuantity, fills[..k]))
  }

  ghost predicate FillsOk(p: Params, orders: seq<Order>, fills: seq<Fill>) {
    forall k | 0 <= k < |fills| :: FillAtOk(p, orders, fills, k)
  }

  /** When the order filled last. */
  function LastTime(orderId: nat, fills: seq<Fill>): Option<int>
    decreases |fills|
  {
    if fills == [] then None
    else
      var f := fills[|fills| - 1];
      if f.orderId == orderId then Some(f.time) else LastTime(orderId, fills[..|fills| - 1])
  }

  /** An order's filled quantity and notional are those of its own fills, and it is stamped with the time of the last of
      them until it is cancelled. */
  ghost predicate OrderTotalsOk(o: Order, fills: seq<Fill>) {
    && o.filled == Sum(QuantityFor(o.orderId), fills) && o.filledNotional == Sum(QuoteFor(o.orderId), fills)
    && (o.status != Cancelled ==> o.filledAt == LastTime(o.orderId, fills))
  }

  ghost predicate TotalsOk(orders: seq<Order>, fills: seq<Fill>) {
    forall i | 0 <= i < |orders| :: OrderTotalsOk(orders[i], fills)
  }

  /** An order's closing part is what its own fills closed, at the profit they realized. */
  ghost predicate OrderClosingOk(o: Order, fills: seq<Fill>) {
    o.closingQuantity == ClosedBy(o.orderId, fills) && o.closingPnl == Sum(ProfitFor(o.orderId), fills)
  }

  ghost predicate ClosingsOk(orders: seq<Order>, fills: seq<Fill>) {
    forall i | 0 <= i < |orders| :: OrderClosingOk(orders[i], fills)
  }

  /** The ledger is the sum of its fills. */
  ghost predicate LedgerOk(orders: seq<Order>, fills: seq<Fill>, ledger: Ledger.Ledger, fees: Fees.FeeState) {
    && Sum(SignedQuantity, fills) == ledger.base
    && Sum(FillProfit, fills) == ledger.realized
    && Sum(FillFee, fills) == fees.Total()
    && Sum(FillBroker, fills) == fees.brokerTotal && Sum(FillMarket, fills) == fees.marketTotal
    && Sum(ClosingPnl, orders) == ledger.realized
  }

  ghost predicate IdsOk(orders: seq<Order>, ids: map<string, nat>) {
    && (forall i | 0 <= i < |orders| :: orders[i].clientId in ids && ids[orders[i].clientId] == i)
    && (forall id <- ids :: ids[id] < |orders| && orders[ids[id]].clientId == id)
  }

  /** The last fill of an order, as the fee engine sees it. */
  function LastTrade(orderId: nat, fills: seq<Fill>): FeeLines.Trade
    decreases |fills|
  {
    if fills == [] then FeeLines.NOTHING
    else
      var f := fills[|fills| - 1];
      if f.orderId == orderId then FeeLines.Trade(f.quote, f.quantity) else LastTrade(orderId, fills[..|fills| - 1])
  }

  /** What an order has filled, as the fee engine sees it. */
  function FilledTrade(o: Order): FeeLines.Trade {
    FeeLines.Trade(o.filledNotional, o.filled)
  }

  /** The line of the rule charges the order, by linear rules alone. */
  predicate OnLinearLine(rules: seq<Fees.FeeRule>, rule: Fees.FeeRule, o: Order) {
    (rule.side == Fees.BothSides || rule.side == Fees.Only(o.side))
      && FeeLines.LinearLine(rules, Fees.LineOf(rule), o.side)
  }

  /** On the line of the rule the order has been charged for what it has filled, as of its last fill. */
  predicate LineFeeOk(rules: seq<Fees.FeeRule>, rule: Fees.FeeRule, o: Order, fees: Fees.FeeState,
        last: FeeLines.Trade)
  {
    FeeLines.LineHolds(rules, Fees.LineOf(rule), o.side, Fees.AccumulatorAt(fees, Fees.KeyOf(rule, o.orderId)),
      FilledTrade(o), last)
  }

  /** On every linear line an order has been charged for what it has filled. */
  ghost predicate OrderFeesOk(rules: seq<Fees.FeeRule>, o: Order, fees: Fees.FeeState, last: FeeLines.Trade) {
    forall rule <- rules | OnLinearLine(rules, rule, o) :: LineFeeOk(rules, rule, o, fees, last)
  }

  ghost predicate FeesOk(rules: seq<Fees.FeeRule>, orders: seq<Order>, fees: Fees.FeeState, fills: seq<Fill>) {
    && Fees.Balanced(fees, Fees.NO_FEES) && FeeGroups.SplitAsRead(rules, fees)
    && (forall key <- fees.accumulators :: key.2 <= INITIAL_ORDER_ID + |orders|)
    && (forall i | 0 <= i < |orders| :: OrderFeesOk(rules, orders[i], fees, LastTrade(orders[i].orderId, fills)))
  }

  datatype Part = OfBook | OfIds | OfCounters | OfLedger | OfFills | OfClosings | OfFees

  /** One part of the invariant. */
  ghost predicate Holds(part: Part, p: Params, initial: real, s: State) {
    match part
    case OfBook => BookOk(s.book)
    case OfIds => IdsOk(s.book.orders, s.ids)
    case OfCounters => s.nextOrderId == INITIAL_ORDER_ID + |s.book.orders|
      && s.nextTradeId == INITIAL_TRADE_ID + |s.fills|
    case OfLedger => Ledger.Balanced(s.ledger, initial, s.fees.Total())
      && LedgerOk(s.book.orders, s.fills, s.ledger, s.fees)
    case OfFills => TotalsOk(s.book.orders, s.fills) && FillsOk(p, s.book.orders, s.fills)
    case OfClosings => ClosingsOk(s.book.orders, s.fills)
    case OfFees => FeesOk(p.rules, s.book.orders, s.fees, s.fills)
  }

  /** The invariant of every reachable state; its parts are taken apart and put together by the two lemmas below. */
  ghost predicate Inv(p: Params, initial: real, s: State) {
    forall part: Part :: Holds(part, p, initial, s)
  }

  ghost predicate AllParts(p: Params, initial: real, s: State) {
    && Holds(OfBook, p, initial, s) && Holds(OfIds, p, initial, s) && Holds(OfCounters, p, initial, s)
    && Holds(OfLedger, p, initial, s) && Holds(OfFills, p, initial, s) && Holds(OfClosings, p, initial, s)
    && Holds(OfFees, p, initial, s)
  }

  lemma InvParts(p: Params, initial: real, s: State)
    requires Inv(p, initial, s)
    ensures AllParts(p, initial, s)
  {
    hide Holds;
  }

  lemma InvFromParts(p: Params, initial: real, s: State)
    requires AllParts(p, initial, s)
    ensures Inv(p, initial, s)
  {
    hide Holds;
    forall part: Part ensures Holds(part, p, initial, s) {
      match part
      case OfBook =>
      case OfIds =>
      case OfCounters =>
      case OfLedger =>
      case OfFills =>
      case OfClosings =>
      case OfFees =>
    }
  }

  /** A state before its first order. */
  ghost predicate Fresh(initial: real, s: State) {
    && s.book.orders == [] && s.book.trades == s.book.wins == 0 && s.ids == map[] && s.fills == []
    && Fees.Balanced(s.fees, Fees.NO_FEES) && s.fees == Fees.EMPTY_FEES
    && Ledger.Balanced(s.ledger, initial, 0.0) && s.ledger.base == s.ledger.realized == 0.0
    && s.nextOrderId == INITIAL_ORDER_ID && s.nextTradeId == INITIAL_TRADE_ID
  }

  lemma FreshBook(p: Params, initial: real, s: State)
    requires Fresh(initial, s)
    ensures Holds(OfBook, p, initial, s) && Holds(OfIds, p, initial, s) && Holds(OfCounters, p, initial, s)
  {
    hide Fees.Balanced, Ledger.Balanced;
  }

  lemma FreshLedger(p: Params, initial: real, s: State)
    requires Fresh(initial, s)
    ensures Holds(OfLedger, p, initial, s)
  {
    hide Fees.Balanced, Ledger.Balanced;
  }

  lemma FreshFills(p: Params, initial: real, s: State)
    requires Fresh(initial, s)
    ensures Holds(OfFills, p, initial, s) && Holds(OfClosings, p, initial, s)
  {
    hide Fees.Balanced, Ledger.Balanced, OrderTotalsOk, OrderClosingOk, FillAtOk;
  }

  lemma FreshFees(p: Params, initial: real, s: State)
    requires Fresh(initial, s)
    ensures Holds(OfFees, p, initial, s)
  {
    FeeGroups.NothingSplitAsRead(p.rules);
    hide Fees.Balanced, Ledger.Balanced, OrderFeesOk, FeeGroups.SplitAsRead;
  }

  lemma FreshInv(p: Params, initial: real, s: State)
    requires Fresh(initial, s)
    ensures Inv(p, initial, s)
  {
    hide Holds, Fresh;
    FreshBook(p, initial, s);
    FreshLedger(p, initial, s);
    FreshFills(p, initial, s);
    FreshFees(p, initial, s);
    InvFromParts(p, initial, s);
  }

  lemma InitialInv(p: Params, initial: real, s: State)
    requires s == Initial(initial)
    ensures Inv(p, initial, s)
  {
    Ledger.OpenBalanced(initial);
    Fees.EmptyFeesBalanced();
    hide Fees.Balanced, Ledger.Balanced, Inv;
    assert Fresh(initial, s);
    FreshInv(p, initial, s);
  }

  // ---- how the state moves forward -------------------------------------------------------

  /** An order keeps its terms; what is filled only grows; a closed order never changes again but for being counted. */
  ghost predicate Evolves(a: Order, b: Order) {
    && SameTerms(a, b)
    && a.filled <= b.filled
    && (a.stopTriggered ==> b.stopTriggered)
    && (a.status.Closed() ==>
        b.status == a.status && b.filled == a.filled && b.filledNotional == a.filledNotional
          && b.remaining == a.remaining)
  }

  ghost predicate OrdersEvolve(a: seq<Order>, b: seq<Order>) {
    |a| <= |b| && forall i | 0 <= i < |a| :: Evolves(a[i], b[i])
  }

  /** Among the first `n` orders, once a member of the group has traded the others are closed and never have. */
  ghost predicate OcoExclusive(orders: seq<Order>, n: nat, group: string) {
    n <= |orders|
    && forall i, j | 0 <= i < n && 0 <= j < n && i != j && orders[i].ocoGroup == group && orders[j].ocoGroup == group
         && orders[i].filled > 0.0 :: !orders[j].IsOpen() && orders[j].filled == 0.0
  }

  ghost predicate OcoKept(a: seq<Order>, b: seq<Order>) {
    forall n: nat, group: string | group != "" && OcoExclusive(a, n, group) :: OcoExclusive(b, n, group)
  }

  ghost predicate Grows(a: State, b: State) {
    && OrdersEvolve(a.book.orders, b.book.orders)
    && OcoKept(a.book.orders, b.book.orders)
    && a.fills <= b.fills
    && a.equity <= b.equity
    && a.groups <= b.groups
  }

  lemma GrowsRefl(a: State)
    ensures Grows(a, a)
  {
  }

  lemma GrowsTransitive(a: State, b: State, c: State)
    requires Grows(a, b) && Grows(b, c)
    ensures Grows(a, c)
  {
    forall i | 0 <= i < |a.book.orders| ensures Evolves(a.book.orders[i], c.book.orders[i]) {
      assert Evolves(a.book.orders[i], b.book.orders[i]) && Evolves(b.book.orders[i], c.book.orders[i]);
    }
    forall n: nat, group: string | group != "" && OcoExclusive(a.book.orders, n, group)
      ensures OcoExclusive(c.book.orders, n, group)
    {
      assert OcoExclusive(b.book.orders, n, group);
    }
  }

  /** The price of `order` on this bar in this mode: its limit price, or the market or stop price after slippage. */
  predicate PriceOn(p: Params, o: Order, candle: Candle, mode: MatchMode, price: real) {
    match o.orderType
    case MarketOrder =>
      ApplySlippage(o.side, MarketPrice(candle, mode), p.slippageTicks, p.tickSize) == Ok(price)
    case StopMarket =>
      var stop := StopMarketPrice(o.side, o.stopPrice, candle, mode);
      stop.Some? && ApplySlippage(o.side, stop.value, p.slippageTicks, p.tickSize) == Ok(price)
    case OtherType(_) => false
    case _ => LimitPrice(o.side, o.limitPrice, candle, mode) == Some(price)
  }

  predicate PricedBy(p: Params, o: Order, candle: Candle, mode: MatchMode, f: Fill) {
    f.time == EventTime(candle, mode) && PriceOn(p, o, candle, mode, f.price)
  }

  lemma PriceOnTerms(p: Params, a: Order, b: Order, candle: Candle, mode: MatchMode, price: real)
    requires SameTerms(a, b) && PriceOn(p, a, candle, mode, price)
    ensures PriceOn(p, b, candle, mode, price)
  {
    hide ApplySlippage, StopMarketPrice, LimitPrice;
  }

  ghost predicate OnBar(p: Params, orders: seq<Order>, candle: Candle, f: Fill) {
    var i := IndexOf(f.orderId);
    0 <= i < |orders| && (PricedBy(p, orders[i], candle, FullBar, f) || PricedBy(p, orders[i], candle, ClosePoint, f))
  }

  /** Between `a` and `b`, both within one bar, every new fill is priced by that bar and paid out of its budget. */
  ghost predicate TradesOn(p: Params, candle: Candle, a: State, b: State) {
    && a.fills <= b.fills
    && a.budget + Sum(FillQuantity, a.fills) == b.budget + Sum(FillQuantity, b.fills)
    && (b.budget >= 0.0 || b.fills == a.fills)
    && (forall k | |a.fills| <= k < |b.fills| :: OnBar(p, b.book.orders, candle, b.fills[k]))
  }

  lemma OnBarLater(p: Params, a: seq<Order>, b: seq<Order>, candle: Candle, f: Fill)
    requires OnBar(p, a, candle, f) && OrdersEvolve(a, b)
    ensures OnBar(p, b, candle, f)
  {
    hide PriceOn;
    var i := IndexOf(f.orderId);
    assert Evolves(a[i], b[i]);
    if PricedBy(p, a[i], candle, FullBar, f) {
      PriceOnTerms(p, a[i], b[i], candle, FullBar, f.price);
    } else {
      PriceOnTerms(p, a[i], b[i], candle, ClosePoint, f.price);
    }
  }

  lemma TradesOnTransitive(p: Params, candle: Candle, a: State, b: State, c: State)
    requires TradesOn(p, candle, a, b) && TradesOn(p, candle, b, c) && OrdersEvolve(b.book.orders, c.book.orders)
    ensures TradesOn(p, candle, a, c)
  {
    forall k | |a.fills| <= k < |c.fills| ensures OnBar(p, c.book.orders, candle, c.fills[k]) {
      if k < |b.fills| {
        assert OnBar(p, b.book.orders, candle, b.fills[k]) && c.fills[k] == b.fills[k];
        OnBarLater(p, b.book.orders, c.book.orders, candle, c.fills[k]);
      }
    }
  }

  /** One step within a bar: the invariant is kept and the state moves forward. */
  ghost predicate Step(p: Params, initial: real, candle: Candle, a: State, b: State) {
    Inv(p, initial, b) && Grows(a, b) && TradesOn(p, candle, a, b)
  }

  lemma StepInv(p: Params, initial: real, candle: Candle, a: State, b: State)
    requires Step(p, initial, candle, a, b)
    ensures Inv(p, initial, b)
  {
    hide Inv, Grows, TradesOn;
  }

  lemma StepTransitive(p: Params, initial: real, candle: Candle, a: State, b: State, c: State)
    requires Step(p, initial, candle, a, b) && Step(p, initial, candle, b, c)
    ensures Step(p, initial, candle, a, c)
  {
    GrowsTransitive(a, b, c);
    TradesOnTransitive(p, candle, a, b, c);
  }
}
