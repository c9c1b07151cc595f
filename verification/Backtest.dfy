/** The `conservative-bar-v1` execution model as functions on values: the specification of the engine. */
module Backtest {
  import opened Kernel
  import opened Matching
  import opened Orders
  import Drawdown
  import Fees
  import Indicators
  import Ledger

  datatype Action = Submit | Cancel | OtherAction

  /** `side` is None for any text but buy and sell; an empty order type has been read as market. */
  datatype Intent = Intent(
    barIndex: nat, action: Action, id: string, targetId: string, side: Option<Side>, orderType: OrderType,
    quantity: real, limitPrice: real, stopPrice: real, reduceOnly: bool,
    parentId: string, ocoGroup: string, atomicGroup: string)

  /** Everything a bar depends on besides its candle and its intents. */
  datatype Params = Params(
    onClose: bool, slippageTicks: nat, tickSize: real, quantityStep: real, minQuantity: real, rules: seq<Fees.FeeRule>)

  datatype Case = Case(
    id: string, symbol: string, initialBalance: real, params: Params,
    cancelBeforeBar: Option<nat>, candles: seq<Candle>, intents: seq<Intent>, periods: seq<nat>)

  datatype Fill = Fill(
    tradeId: nat, orderId: nat, clientId: string, side: Side, price: real, quantity: real, quote: real,
    time: int, maker: bool, fees: Fees.AppliedFees, realized: real)

  datatype Warning = ZeroVolume | LiquidityStep | LiquidityMin | UnsupportedType(text: string)

  const INITIAL_TRADE_ID: nat := 1_200_000_000

  datatype State = State(
    ledger: Ledger.Ledger, book: Book, matching: seq<nat>, ids: map<string, nat>, groups: set<string>,
    fills: seq<Fill>, equity: seq<Drawdown.EquityPoint>, warnings: seq<Warning>, fees: Fees.FeeState,
    nextOrderId: nat, nextTradeId: nat, bar: Option<Candle>, budget: real)

  function Initial(balance: real): State {
    State(Ledger.Open(balance), EMPTY_BOOK, [], map[], {}, [], [], [], Fees.EMPTY_FEES,
          INITIAL_ORDER_ID, INITIAL_TRADE_ID, None, 0.0)
  }

  function WarnOnce(s: State, warning: Warning): State {
    if warning in s.warnings then s else s.(warnings := s.warnings + [warning])
  }

  function SetOrder(s: State, i: nat, o: Order): State
    requires i < |s.book.orders|
  {
    s.(book := s.book.(orders := s.book.orders[i := o]))
  }

  predicate Knows(s: State, i: nat) {
    i < |s.book.orders|
  }

  // ---- matching one order ----------------------------------------------------------------

  datatype Matched = Matched(price: Option<real>, state: State)

  /** The price at which an order trades against a bar. A stop-limit order only arms itself the first time its
      stop is touched. */
  function MatchPrice(p: Params, s: State, i: nat, candle: Candle, mode: MatchMode): Result<Matched>
    requires Knows(s, i)
  {
    var o := s.book.orders[i];
    match o.orderType
    case MarketOrder =>
      var price :- ApplySlippage(o.side, MarketPrice(candle, mode), p.slippageTicks, p.tickSize);
      Ok(Matched(Some(price), s))
    case LimitOrder => Ok(Matched(LimitPrice(o.side, o.limitPrice, candle, mode), s))
    case LimitMaker => Ok(Matched(LimitPrice(o.side, o.limitPrice, candle, mode), s))
    case StopMarket =>
      var stop := StopMarketPrice(o.side, o.stopPrice, candle, mode);
      if stop.None? then Ok(Matched(None, s))
      else
        var price :- ApplySlippage(o.side, stop.value, p.slippageTicks, p.tickSize);
        Ok(Matched(Some(price), s))
    case StopLimit =>
      if !o.stopTriggered then
        if StopMarketPrice(o.side, o.stopPrice, candle, mode).None? then Ok(Matched(None, s))
        else Ok(Matched(None, SetOrder(s, i, o.(stopTriggered := true))))
      else Ok(Matched(LimitPrice(o.side, o.limitPrice, candle, mode), s))
    case OtherType(text) => Ok(Matched(None, WarnOnce(s, UnsupportedType(text))))
  }

  function ReduceOnlyQuantity(base: real, side: Side): real {
    if (side == Sell && base > 0.0) || (side == Buy && base < 0.0) then Abs(base) else 0.0
  }

  function IsMaker(t: OrderType): bool {
    t.LimitOrder? || t.LimitMaker? || t.StopLimit?
  }

  function UpdateFilledOrder(o: Order, quantity: real, quote: real, at: int): Result<Order> {
    var filled, notional := o.filled + quantity, o.filledNotional + quote;
    if filled == 0.0 then Err(DivisionByZero)
    else
      Ok(o.(filled := filled, remaining := o.remaining - quantity, filledNotional := notional,
            averagePrice := notional / filled, filledAt := Some(at),
            status := if o.remaining - quantity > 0.0 then PartiallyFilled else Filled))
  }

  function AddClosing(o: Order, closed: real, realized: real): Order {
    if closed > 0.0 then o.(closingQuantity := o.closingQuantity + closed, closingPnl := o.closingPnl + realized) else o
  }

  function MakeFill(o: Order, tradeId: nat, price: real, quantity: real, quote: real, at: int, fees: Fees.AppliedFees,
        realized: real): Fill {
    Fill(tradeId, o.orderId, o.clientId, o.side, price, quantity, quote, at, IsMaker(o.orderType), fees, realized)
  }

  /** What closing an order and its OCO group do to the book after a fill of order `i`. */
  function SettleBook(b: Book, i: nat): (r: Book)
    requires i < |b.orders|
    ensures |r.orders| == |b.orders|
  {
    var o := b.orders[i];
    var settled := if o.status.Closed() then Finalize(b, i) else b;
    if o.ocoGroup != "" && o.filled > 0.0 then
      CancelAll(settled, Siblings(settled.orders, i, o.ocoGroup, 0), o.filledAt)
    else settled
  }

  /** The state once a fill has moved the account, with what it closed, what it realized and what it was charged. */
  datatype Settled = Settled(state: State, closed: real, realized: real, fees: Fees.AppliedFees)

  /** Cash, the position, the profit and the fees of a fill. */
  function SettleFill(p: Params, s: State, i: nat, quantity: real, price: real): (r: Result<Settled>)
    requires Knows(s, i)
    ensures r.Ok? ==> SameShape(s, r.value.state)
  {
    var o := s.book.orders[i];
    var position := Ledger.ApplyFill(s.ledger, o.side, quantity, price);
    var charge :- Fees.Apply(s.fees, p.rules, o.orderId, o.side, price, quantity);
    Ok(Settled(s.(ledger := Ledger.PayFees(position.ledger, charge.applied.Total()), fees := charge.fees),
               position.closed, position.realized, charge.applied))
  }

  /** Update the filled order and append the fill. */
  function RecordFill(s: State, i: nat, quantity: real, price: real, at: int, closed: real, realized: real,
        fees: Fees.AppliedFees): (r: Result<State>)
    requires Knows(s, i)
    ensures r.Ok? ==> SameShape(s, r.value)
  {
    var quote := Worth(price, quantity);
    var updated :- UpdateFilledOrder(s.book.orders[i], quantity, quote, at);
    var order := AddClosing(updated, closed, realized);
    Ok(s.(nextTradeId := s.nextTradeId + 1,
          fills := s.fills + [MakeFill(order, s.nextTradeId + 1, price, quantity, quote, at, fees, realized)],
          book := s.book.(orders := s.book.orders[i := order])))
  }

  function ApplyFill(p: Params, s: State, i: nat, quantity: real, price: real, at: int): (r: Result<State>)
    requires Knows(s, i)
    ensures r.Ok? ==> SameShape(s, r.value)
  {
    var settled :- SettleFill(p, s, i, quantity, price);
    var recorded :- RecordFill(settled.state, i, quantity, price, at, settled.closed, settled.realized, settled.fees);
    Ok(recorded.(book := SettleBook(recorded.book, i)))
  }

  predicate ParentFilled(orders: seq<Order>, parentId: nat) {
    exists o :: o in orders && o.orderId == parentId && o.status == Filled
  }

  /** How much of an order may trade before the cut to the quantity step; None when a reduce-only order has nothing to
      reduce. */
  function Tradable(s: State, o: Order): Option<real> {
    var quantity := Min(o.remaining, s.budget);
    if !o.reduceOnly then Some(quantity)
    else
      var reducible := ReduceOnlyQuantity(s.ledger.base, o.side);
      if reducible <= 0.0 then None else Some(Min(quantity, reducible))
  }

  function CancelAt(s: State, i: nat, at: Option<int>): (r: State)
    requires Knows(s, i)
    ensures SameShape(s, r)
  {
    s.(book := CancelOrder(s.book, i, at))
  }

  /** Trade what the price, the liquidity left on the bar and the position allow. */
  function Execute(p: Params, s: State, i: nat, price: real, at: int): (r: Result<State>)
    requires Knows(s, i)
    ensures r.Ok? ==> SameShape(s, r.value)
  {
    var o := s.book.orders[i];
    var wanted := Tradable(s, o);
    if wanted.None? then Ok(CancelAt(s, i, Some(at)))
    else
      var quantity :- TruncateToIncrement(wanted.value, p.quantityStep);
      if quantity <= 0.0 then Ok(WarnOnce(s, LiquidityStep))
      else if p.minQuantity > 0.0 && quantity < p.minQuantity then Ok(WarnOnce(s, LiquidityMin))
      else
        var done :- ApplyFill(p, s, i, quantity, price, at);
        Ok(done.(budget := done.budget - quantity))
  }

  /** One attempt to match one order against one bar. */
  function TryFill(p: Params, s: State, i: nat, candle: Candle, mode: MatchMode): (r: Result<State>)
    requires Knows(s, i)
    ensures r.Ok? ==> SameShape(s, r.value)
  {
    var o := s.book.orders[i];
    if !o.IsOpen() then Ok(s)
    else if o.parentId != 0 && !ParentFilled(s.book.orders, o.parentId) then Ok(s)
    else if s.budget <= 0.0 then Ok(s)
    else
      var matched :- MatchPrice(p, s, i, candle, mode);
      if matched.price.None? || matched.price.value <= 0.0 then Ok(matched.state)
      else Execute(p, matched.state, i, matched.price.value, EventTime(candle, mode))
  }

  // ---- one bar ---------------------------------------------------------------------------

  /** What no attempt to match ever moves. */
  predicate SameShape(a: State, b: State) {
    && |b.book.orders| == |a.book.orders|
    && b.matching == a.matching && b.ids == a.ids && b.groups == a.groups
    && b.equity == a.equity && b.nextOrderId == a.nextOrderId && b.bar == a.bar
  }

  predicate Indexed(s: State) {
    Indices(s.matching, |s.book.orders|)
  }

  function MatchAll(p: Params, s: State, queue: seq<nat>, candle: Candle): (r: Result<State>)
    requires Indices(queue, |s.book.orders|)
    ensures r.Ok? ==> SameShape(s, r.value)
    decreases |queue|
  {
    if queue == [] then Ok(s)
    else
      var next :- TryFill(p, s, queue[0], candle, FullBar);
      if next.budget <= 0.0 then Ok(next) else MatchAll(p, next, queue[1..], candle)
  }

  predicate HasPending(orders: seq<Order>) {
    exists o :: o in orders && o.IsOpen()
  }

  /** Cash and the position at a price. */
  function Valuation(cash: real, base: real, price: real): real {
    cash + base * price
  }

  function RecordEquity(s: State, candle: Candle): State {
    s.(equity := s.equity + [Drawdown.EquityPoint(candle.end, Valuation(s.ledger.cash, s.ledger.base, candle.close))])
  }

  /** Start a bar: its liquidity budget is a tenth of its volume. */
  function StartBar(s: State, candle: Candle): State {
    s.(bar := Some(candle), budget := candle.volume * 0.1)
  }

  function ConsumeBar(p: Params, s: State, candle: Candle): (r: Result<State>)
    requires Indexed(s)
    ensures r.Ok? ==> Indexed(r.value) && |r.value.book.orders| == |s.book.orders| && r.value.bar == Some(candle)
  {
    var started := StartBar(s, candle);
    if candle.volume <= 0.0 && HasPending(s.book.orders) then Ok(RecordEquity(WarnOnce(started, ZeroVolume), candle))
    else
      var matched :- MatchAll(p, started, started.matching, candle);
      Ok(RecordEquity(matched, candle))
  }

  // ---- submitting and cancelling ---------------------------------------------------------

  function ValidateSubmit(intent: Intent): Result<Side> {
    if intent.action != Submit then Err(UnsupportedAction)
    else if Trim(intent.id) == "" || intent.quantity <= 0.0 then Err(MissingIdOrQuantity)
    else if intent.side.None? then Err(UnsupportedSide)
    else
      match intent.orderType
      case LimitOrder => if intent.limitPrice <= 0.0 then Err(MissingPrice) else Ok(intent.side.value)
      case LimitMaker => if intent.limitPrice <= 0.0 then Err(MissingPrice) else Ok(intent.side.value)
      case StopMarket => if intent.stopPrice <= 0.0 then Err(MissingPrice) else Ok(intent.side.value)
      case StopLimit =>
        if intent.stopPrice <= 0.0 || intent.limitPrice <= 0.0 then Err(MissingPrice) else Ok(intent.side.value)
      case _ => Ok(intent.side.value)
  }

  function BarEnd(s: State): Option<int> {
    if s.bar.Some? then Some(s.bar.value.end) else None
  }

  function NewOrder(s: State, intent: Intent, side: Side): Order {
    Order(s.nextOrderId + 1, intent.id, side, intent.orderType,
          intent.quantity, intent.limitPrice, intent.stopPrice, intent.reduceOnly,
          0, intent.ocoGroup, false, false,
          intent.quantity, 0.0, 0.0, 0.0, New, BarEnd(s), None, 0.0, 0.0, false)
  }

  /** Append an order under the next order id; its index is the number of orders before it. */
  function Append(s: State, o: Order, defer: bool): State {
    var index := |s.book.orders|;
    s.(nextOrderId := s.nextOrderId + 1,
       book := s.book.(orders := s.book.orders + [o]),
       ids := s.ids[o.clientId := index],
       matching := if defer then s.matching else s.matching + [index])
  }

  function AddOrder(s: State, intent: Intent, defer: bool): (r: Result<State>)
    ensures r.Ok? ==> |r.value.book.orders| == |s.book.orders| + 1 && r.value.bar == s.bar
    ensures r.Ok? && Indexed(s) ==> Indexed(r.value)
  {
    var side :- ValidateSubmit(intent);
    if intent.id in s.ids then Err(DuplicateOrderId)
    else
      Ok(Append(s, NewOrder(s, intent, side), defer))
  }

  function SubmitOne(p: Params, s: State, intent: Intent): (r: Result<State>)
    requires Indexed(s)
    ensures r.Ok? ==> Indexed(r.value) && r.value.bar == s.bar
  {
    var added :- AddOrder(s, intent, false);
    if !p.onClose then Ok(added)
    else if s.bar.None? then Err(NoCurrentBar)
    else TryFill(p, added, |s.book.orders|, s.bar.value, ClosePoint)
  }

  function AddOrders(s: State, group: seq<Intent>): (r: Result<State>)
    requires Indexed(s)
    ensures r.Ok? ==> Indexed(r.value) && |r.value.book.orders| == |s.book.orders| + |group| && r.value.bar == s.bar
    decreases |group|
  {
    if group == [] then Ok(s)
    else
      var next :- AddOrder(s, group[0], true);
      AddOrders(next, group[1..])
  }

  /** Hang the order at `index` under the order named by its intent. */
  function LinkOne(s: State, intent: Intent, index: nat): (r: Result<State>)
    requires Knows(s, index)
    ensures r.Ok? ==> SameShape(s, r.value)
  {
    if intent.parentId == "" then Ok(s)
    else if intent.parentId !in s.ids || !Knows(s, s.ids[intent.parentId]) then Err(AtomicParentMissing)
    else
      var parent := s.ids[intent.parentId];
      var child := s.book.orders[index].(parentId := s.book.orders[parent].orderId);
      var orders := s.book.orders[index := child];
      Ok(s.(book := s.book.(orders := orders[parent := orders[parent].(hasChildren := true)])))
  }

  /** Link the group whose orders start at `index`. */
  function Link(s: State, group: seq<Intent>, index: nat): (r: Result<State>)
    requires index + |group| <= |s.book.orders|
    ensures r.Ok? ==> SameShape(s, r.value)
    decreases |group|
  {
    if group == [] then Ok(s)
    else
      var next :- LinkOne(s, group[0], index);
      Link(next, group[1..], index + 1)
  }

  /** Parents first, then protective stops, then the rest. */
  function AtomicPriority(o: Order): nat {
    if o.parentId == 0 then 0 else if o.orderType == StopMarket then 1 else 2
  }

  function WithPriority(orders: seq<Order>, from: nat, until: nat, priority: nat): (r: seq<nat>)
    requires from <= until <= |orders|
    ensures Indices(r, |orders|)
    decreases until - from
  {
    if from == until then []
    else if AtomicPriority(orders[from]) == priority then [from] + WithPriority(orders, from + 1, until, priority)
    else WithPriority(orders, from + 1, until, priority)
  }

  /** The stable sort of the indices `from..until` by priority. */
  function ByPriority(orders: seq<Order>, from: nat, until: nat): (r: seq<nat>)
    requires from <= until <= |orders|
    ensures Indices(r, |orders|)
  {
    WithPriority(orders, from, until, 0) + WithPriority(orders, from, until, 1) + WithPriority(orders, from, until, 2)
  }

  function FillEach(p: Params, s: State, queue: seq<nat>, candle: Candle): (r: Result<State>)
    requires Indices(queue, |s.book.orders|)
    ensures r.Ok? ==> SameShape(s, r.value)
    decreases |queue|
  {
    if queue == [] then Ok(s)
    else
      var next :- TryFill(p, s, queue[0], candle, ClosePoint);
      FillEach(p, next, queue[1..], candle)
  }

  function IdsOf(group: seq<Intent>): set<string> {
    set intent | intent in group :: intent.id
  }

  predicate ParentsLocal(group: seq<Intent>) {
    forall intent <- group :: intent.parentId == "" || intent.parentId in IdsOf(group)
  }

  /** Append the orders of a group and link them; none of them is queued yet. */
  function PlaceGroup(s: State, group: seq<Intent>): (r: Result<State>)
    requires Indexed(s)
    ensures r.Ok? ==> Indexed(r.value) && |r.value.book.orders| == |s.book.orders| + |group| && r.value.bar == s.bar
  {
    var added :- AddOrders(s, group);
    Link(added, group, |s.book.orders|)
  }

  function Queued(s: State, queue: seq<nat>): State {
    s.(matching := s.matching + queue)
  }

  /** Queue a placed group and, if orders execute on the close, match it at once. */
  function ReleaseGroup(p: Params, placed: State, first: nat): (r: Result<State>)
    requires Indexed(placed) && first <= |placed.book.orders|
    ensures r.Ok? ==> Indexed(r.value) && r.value.bar == placed.bar
  {
    var queue := ByPriority(placed.book.orders, first, |placed.book.orders|);
    if !p.onClose then Ok(Queued(placed, queue))
    else if placed.bar.None? then Err(NoCurrentBar)
    else FillEach(p, Queued(placed, queue), queue, placed.bar.value)
  }

  /** A group of linked orders, submitted together before any of them is matched. */
  function SubmitAtomic(p: Params, s: State, groupId: string, group: seq<Intent>): (r: Result<State>)
    requires Indexed(s)
    ensures r.Ok? ==> Indexed(r.value) && r.value.bar == s.bar
  {
    if groupId == "" || |group| < 2 then Err(BadAtomicGroup)
    else if !ParentsLocal(group) then Err(AtomicParentMissing)
    else
      var placed :- PlaceGroup(s, group);
      ReleaseGroup(p, placed, |s.book.orders|)
  }

  predicate IsDigit(c: char) { '0' <= c <= '9' }

  function DecimalValue(digits: string): nat
    requires forall c <- digits :: IsDigit(c)
    decreases |digits|
  {
    if digits == "" then 0
    else
      var last := digits[|digits| - 1];
      assert last in digits && IsDigit(last);
      10 * DecimalValue(digits[..|digits| - 1]) + (last as int - '0' as int)
  }

  /** An order id written in digits, if it fits 64 bits. */
  function ParseOrderId(text: string): Option<nat> {
    if text != "" && (forall c <- text :: IsDigit(c)) && DecimalValue(text) <= U64_MAX then Some(DecimalValue(text))
      else None
  }

  function PositionOf(orders: seq<Order>, orderId: nat, from: nat): (r: Option<nat>)
    requires from <= |orders|
    ensures r.Some? ==> from <= r.value < |orders|
    decreases |orders| - from
  {
    if from == |orders| then None
    else if orders[from].orderId == orderId then Some(from)
    else PositionOf(orders, orderId, from + 1)
  }

  function FindTarget(s: State, targetId: string): Option<nat> {
    if targetId in s.ids then Some(s.ids[targetId])
    else
      var orderId := ParseOrderId(targetId);
      if orderId.None? then None else PositionOf(s.book.orders, orderId.value, 0)
  }

  function CancelTarget(s: State, targetId: string): (r: State)
    ensures SameShape(s, r)
  {
    var target := FindTarget(s, targetId);
    if target.None? || !Knows(s, target.value) then s else CancelAt(s, target.value, BarEnd(s))
  }

  function InGroup(intents: seq<Intent>, groupId: string): seq<Intent> {
    if intents == [] then []
    else if intents[0].atomicGroup == groupId then [intents[0]] + InGroup(intents[1..], groupId)
    else InGroup(intents[1..], groupId)
  }

  function ApplyIntent(p: Params, s: State, intents: seq<Intent>, intent: Intent): (r: Result<State>)
    requires Indexed(s)
    ensures r.Ok? ==> Indexed(r.value) && r.value.bar == s.bar
  {
    if intent.action == Cancel then Ok(CancelTarget(s, intent.targetId))
    else if intent.atomicGroup == "" then SubmitOne(p, s, intent)
    else if intent.atomicGroup in s.groups then Ok(s)
    else SubmitAtomic(p, s.(groups := s.groups + {intent.atomicGroup}), intent.atomicGroup,
      InGroup(intents, intent.atomicGroup))
  }

  function ApplyIntents(p: Params, s: State, intents: seq<Intent>, from: nat): (r: Result<State>)
    requires Indexed(s) && from <= |intents|
    ensures r.Ok? ==> Indexed(r.value) && r.value.bar == s.bar
    decreases |intents| - from
  {
    if from == |intents| then Ok(s)
    else
      var next :- ApplyIntent(p, s, intents, intents[from]);
      ApplyIntents(p, next, intents, from + 1)
  }

  // ---- whole runs ------------------------------------------------------------------------

  function IntentsAt(intents: seq<Intent>, bar: nat): seq<Intent> {
    if intents == [] then []
    else if intents[0].barIndex == bar then [intents[0]] + IntentsAt(intents[1..], bar)
    else IntentsAt(intents[1..], bar)
  }

  function Bar(p: Params, s: State, candle: Candle, intents: seq<Intent>): (r: Result<State>)
    requires Indexed(s)
    ensures r.Ok? ==> Indexed(r.value)
  {
    var consumed :- ConsumeBar(p, s, candle);
    ApplyIntents(p, consumed, intents, 0)
  }

  /** The state after the first `bars` bars of a case. */
  function Run(c: Case, bars: nat): (r: Result<State>)
    requires bars <= |c.candles|
    ensures r.Ok? ==> Indexed(r.value)
  {
    if bars == 0 then Ok(Initial(c.initialBalance))
    else
      var before :- Run(c, bars - 1);
      Bar(c.params, before, c.candles[bars - 1], IntentsAt(c.intents, bars - 1))
  }

  lemma RunStart(c: Case, bars: nat)
    requires bars == 0
    ensures Run(c, bars) == Ok(Initial(c.initialBalance))
  {
  }

  lemma RunUnfold(c: Case, bars: nat)
    requires bars < |c.candles|
    ensures var before := Run(c, bars);
      Run(c, bars + 1) == if before.Ok? then Bar(c.params, before.value, c.candles[bars], IntentsAt(c.intents, bars))
        else before
  {
    hide Bar;
  }

  /** Nothing follows a bar that fails. */
  lemma {:induction false} RunFails(c: Case, bars: nat, until: nat)
    requires bars <= until <= |c.candles| && Run(c, bars).Err?
    ensures Run(c, until) == Run(c, bars)
    decreases until - bars
  {
    hide Bar;
    if bars == until {
    } else {
      RunUnfold(c, bars);
      RunFails(c, bars + 1, until);
    }
  }

  predicate StrictlyOrdered(candles: seq<Candle>) {
    forall i :: 0 < i < |candles| ==> candles[i - 1].start < candles[i].start && candles[i - 1].end < candles[i].end
  }

  predicate ValidCase(c: Case) {
    && Trim(c.id) != "" && Trim(c.symbol) != ""
    && c.initialBalance >= 0.0
    && c.params.quantityStep > 0.0 && c.params.tickSize > 0.0 && c.params.minQuantity >= 0.0
    && c.candles != [] && StrictlyOrdered(c.candles)
    && forall intent <- c.intents :: intent.barIndex < |c.candles|
  }

  /** How many bars are processed before the case ends or is cancelled. */
  function ProcessedBars(c: Case): (n: nat)
    ensures n <= |c.candles|
  {
    if c.cancelBeforeBar.Some? && c.cancelBeforeBar.value < |c.candles| then c.cancelBeforeBar.value else |c.candles|
  }

  function FinalizeAll(b: Book, from: nat): Book
    requires from <= |b.orders|
    decreases |b.orders| - from
  {
    if from == |b.orders| then b else FinalizeAll(Finalize(b, from), from + 1)
  }

  datatype Output = Output(
    completed: bool, processedBars: nat, cash: real, basePosition: real, finalEquity: real, realized: real,
    brokerFees: real, marketFees: real, trades: nat, wins: nat, winRate: real,
    orders: seq<Order>, fills: seq<Fill>, equity: seq<Drawdown.EquityPoint>, drawdown: Drawdown.Metrics,
    breakdown: map<Fees.LineKey, Fees.Line>, indicators: seq<Indicators.Indicator>, warnings: seq<Warning>)

  function LastClose(c: Case, processed: nat): real {
    var last := if processed == 0 then 0 else processed - 1;
    if last < |c.candles| then c.candles[last].close else 0.0
  }

  function Closes(candles: seq<Candle>): seq<real> {
    seq(|candles|, k requires 0 <= k < |candles| => candles[k].close)
  }

  function WinRate(wins: nat, trades: nat): real {
    if trades == 0 then 0.0 else wins as real / trades as real
  }

  /** What is reported of a state, once the indicators are there. */
  function Summary(c: Case, s: State, processed: nat, indicators: seq<Indicators.Indicator>): Output {
    var book := FinalizeAll(s.book, 0);
    Output(processed == |c.candles|, processed, s.ledger.cash, s.ledger.base,
           Valuation(s.ledger.cash, s.ledger.base, LastClose(c, processed)), s.ledger.realized,
           s.fees.brokerTotal, s.fees.marketTotal, book.trades, book.wins, WinRate(book.wins, book.trades),
           book.orders, s.fills, s.equity, Drawdown.MetricsOf(s.equity), s.fees.breakdown, indicators, s.warnings)
  }

  function Report(c: Case, s: State, processed: nat): Result<Output>
    requires processed <= |c.candles|
  {
    var indicators :- Indicators.IndicatorsOf(Closes(c.candles[..processed]), c.periods);
    Ok(Summary(c, s, processed, indicators))
  }

  function RunCase(c: Case): Result<Output> {
    if !ValidCase(c) then Err(BadCase)
    else
      var s :- Run(c, ProcessedBars(c));
      Report(c, s, ProcessedBars(c))
  }
}
