/** The engine as the program runs it: objects whose fields are updated in place, method by method.
    Each method is proved to leave exactly the state that `Backtest` and `Fees` specify. */
module Engine {
  import opened Kernel
  import opened Matching
  import opened Orders
  import opened Backtest
  import Drawdown
  import Fees
  import Indicators
  import Ledger

  class FeeEngine {
    const rules: seq<Fees.FeeRule>
    var accumulators: map<Fees.AccumulatorKey, Fees.Accumulator>
    var breakdown: map<Fees.LineKey, Fees.Line>
    var brokerTotal: real
    var marketTotal: real

    ghost function State(): Fees.FeeState
      reads this
    {
      Fees.FeeState(accumulators, breakdown, brokerTotal, marketTotal)
    }

    constructor (rules: seq<Fees.FeeRule>)
      ensures this.rules == rules && State() == Fees.EMPTY_FEES
    {
      this.rules := rules;
      accumulators, breakdown, brokerTotal, marketTotal := map[], map[], 0.0, 0.0;
    }

    method Apply(orderId: nat, side: Side, price: real, quantity: real) returns (r: Result<Fees.AppliedFees>)
      modifies this
      ensures var spec := Fees.Apply(old(State()), rules, orderId, side, price, quantity);
        if spec.Ok? then r == Ok(spec.value.applied) && State() == spec.value.fees else r == Err(spec.error)
    {
      var notional := Worth(price, quantity);
      if notional <= 0.0 || quantity <= 0.0 {
        return Ok(Fees.NO_FEES);
      }
      var applied := Fees.NO_FEES;
      ghost var spec := Fees.ApplyRules(Fees.Charge(State(), applied), rules, orderId, side, notional, quantity);
      var i := 0;
      while i < |rules|
        invariant i <= |rules|
        invariant Fees.ApplyRules(Fees.Charge(State(), applied), rules[i..], orderId, side, notional, quantity) == spec
        invariant brokerTotal == old(brokerTotal) && marketTotal == old(marketTotal)
      {
        ghost var before := Fees.Charge(State(), applied);
        assert rules[i..][0] == rules[i] && rules[i..][1..] == rules[i + 1..];
        applied :- ApplyRule(rules[i], orderId, side, notional, quantity, applied);
        i := i + 1;
      }
      brokerTotal := brokerTotal + applied.broker;
      marketTotal := marketTotal + applied.market;
      return Ok(applied);
    }

    /** What one more billable trade adds to the accumulator of a rule; returns the rise of its charge. */
    method AccrueFee(rule: Fees.FeeRule, key: Fees.AccumulatorKey, notional: real, quantity: real)
          returns (r: Result<real>)
      modifies `accumulators
      ensures var before := Fees.AccumulatorAt(old(State()), key);
        var spec := Fees.Accrue(rule, before, notional, quantity);
        if spec.Ok? then r == Ok(spec.value.charged - before.charged)
          && accumulators == old(accumulators)[key := spec.value]
        else r == Err(spec.error)
    {
      hide Fees.RawFee, Fees.CapAmount, Fees.RoundFee;
      var accumulator := if key in accumulators then accumulators[key] else Fees.EMPTY_ACCUMULATOR;
      var fee :- Fees.RawFee(rule, accumulator, notional, quantity);
      var (raw, used) := fee;
      accumulators := accumulators[key := used];
      if raw <= 0.0 {
        return Ok(0.0);
      }
      accumulator := used.(raw := used.raw + raw, notional := used.notional + notional);
      accumulators := accumulators[key := accumulator];
      var target := accumulator.raw;
      if rule.minAmount > 0.0 && target < rule.minAmount {
        target := rule.minAmount;
      }
      var cap := Fees.CapAmount(rule, accumulator.notional);
      if cap > 0.0 && target > cap {
        target := cap;
      }
      target :- Fees.RoundFee(target, rule.rounding);
      var incremental := target - accumulator.charged;
      if incremental <= 0.0 {
        return Ok(0.0);
      }
      accumulators := accumulators[key := accumulator.(charged := target)];
      return Ok(incremental);
    }

    /** One turn of the loop over the rules. */
    method ApplyRule(rule: Fees.FeeRule, orderId: nat, side: Side, notional: real, quantity: real,
          applied: Fees.AppliedFees)
      returns (r: Result<Fees.AppliedFees>)
      modifies `accumulators, `breakdown
      ensures var spec := Fees.ApplyRule(Fees.Charge(old(State()), applied), rule, orderId, side, notional, quantity);
        if spec.Ok? then r == Ok(spec.value.applied) && State() == spec.value.fees else r == Err(spec.error)
    {
      hide Fees.Accrue;
      if !Fees.SideMatches(rule.side, side) {
        return Ok(applied);
      }
      var incremental :- AccrueFee(rule, Fees.KeyOf(rule, orderId), notional, quantity);
      if incremental <= 0.0 {
        return Ok(applied);
      }
      var charged := applied;
      match rule.groupKind {
        case Broker => charged := applied.(broker := applied.broker + incremental);
        case Market => charged := applied.(market := applied.market + incremental);
        case OtherGroup => return Err(UnsupportedFeeGroup);
      }
      var entry := if (rule.group, rule.id) in breakdown then breakdown[(rule.group, rule.id)] else Fees.Line(0.0, 0);
      breakdown := breakdown[(rule.group, rule.id) := Fees.Line(entry.amount + incremental, entry.count + 1)];
      return Ok(charged);
    }
  }

  /** The ids name orders. */
  ghost predicate Known(ids: map<string, nat>, count: nat) {
    forall id <- ids :: ids[id] < count
  }

  lemma KnownMore(ids: map<string, nat>, id: string, queue: seq<nat>, count: nat)
    requires Known(ids, count) && Indices(queue, count)
    ensures Known(ids[id := count], count + 1) && Indices(queue, count + 1) && Indices(queue + [count], count + 1)
  {
  }

  class Engine {
    const input: Case
    var cash: real
    var basePosition: real
    var accountingPosition: real
    var averageEntryPrice: real
    var positionCostKnown: bool
    var realizedPnl: real
    var orders: seq<Order>
    var matchingOrder: seq<nat>
    var orderIndexByClientId: map<string, nat>
    var processedAtomicGroups: set<string>
    var fills: seq<Fill>
    var equityCurve: seq<Drawdown.EquityPoint>
    var warnings: seq<Warning>
    var warningKeys: set<Warning>
    const feeEngine: FeeEngine
    var nextOrderId: nat
    var nextTradeId: nat
    var currentBar: Option<Candle>
    var currentBarBudget: real
    var totalTrades: nat
    var winningTrades: nat

    ghost function Account(): Ledger.Ledger
      reads this
    {
      Ledger.Ledger(cash, basePosition, accountingPosition, averageEntryPrice, positionCostKnown, realizedPnl)
    }

    ghost function OrderBook(): Book
      reads this
    {
      Book(orders, totalTrades, winningTrades)
    }

    ghost function State(): State
      reads this, feeEngine
    {
      Backtest.State(
        Ledger.Ledger(cash, basePosition, accountingPosition, averageEntryPrice, positionCostKnown, realizedPnl),
        Book(orders, totalTrades, winningTrades), matchingOrder, orderIndexByClientId, processedAtomicGroups,
        fills, equityCurve, warnings,
        Fees.FeeState(feeEngine.accumulators, feeEngine.breakdown, feeEngine.brokerTotal, feeEngine.marketTotal),
        nextOrderId, nextTradeId, currentBar, currentBarBudget)
    }

    /** Indices point at orders, the fee engine charges by the rules of the case, and a warning is given once. */
    ghost predicate Valid()
      reads this, feeEngine
    {
      && Indices(matchingOrder, |orders|)
      && Known(orderIndexByClientId, |orders|)
      && feeEngine.rules == input.params.rules
      && (forall w :: w in warningKeys <==> w in warnings)
    }

    /** A method ran as specified: the same error, or the specified state. */
    ghost predicate Agrees(r: Result<()>, spec: Result<State>)
      reads this, feeEngine
    {
      if spec.Ok? then r == Ok(()) && Valid() && State() == spec.value else r == Err(spec.error)
    }

    constructor (c: Case)
      ensures Valid() && fresh(feeEngine) && input == c && State() == Initial(c.initialBalance)
    {
      input := c;
      cash, basePosition, accountingPosition := c.initialBalance, 0.0, 0.0;
      averageEntryPrice, positionCostKnown, realizedPnl := 0.0, false, 0.0;
      orders, matchingOrder, orderIndexByClientId, processedAtomicGroups := [], [], map[], {};
      fills, equityCurve, warnings, warningKeys := [], [], [], {};
      feeEngine := new FeeEngine(c.params.rules);
      nextOrderId, nextTradeId := INITIAL_ORDER_ID, INITIAL_TRADE_ID;
      currentBar, currentBarBudget := None, 0.0;
      totalTrades, winningTrades := 0, 0;
    }

    method WarnOnce(warning: Warning)
      requires Valid()
      modifies `warnings, `warningKeys
      ensures Valid() && State() == Backtest.WarnOnce(old(State()), warning)
    {
      if warning !in warningKeys {
        warningKeys := warningKeys + {warning};
        warnings := warnings + [warning];
      }
    }

    // ---- closing orders ------------------------------------------------------------------

    method FinalizeClosingOrder(i: nat)
      requires Valid() && i < |orders|
      modifies `orders, `totalTrades, `winningTrades
      ensures Valid() && OrderBook() == Finalize(old(OrderBook()), i)
    {
      var order := orders[i];
      if order.closingFinalized || order.closingQuantity <= 0.0 {
        return;
      }
      orders := orders[i := order.(closingFinalized := true)];
      totalTrades := totalTrades + 1;
      if order.closingPnl > 0.0 {
        winningTrades := winningTrades + 1;
      }
    }

    method CancelOrder(i: nat, at: Option<int>)
      requires Valid() && i < |orders|
      modifies `orders, `totalTrades, `winningTrades
      ensures Valid() && OrderBook() == Orders.CancelOrder(old(OrderBook()), i, at)
      decreases OpenSet(orders), 0
    {
      if orders[i].remaining <= 0.0 {
        return;
      }
      var parentId := orders[i].orderId;
      orders := orders[i := orders[i].(remaining := 0.0, status := Cancelled, filledAt := at)];
      FinalizeClosingOrder(i);
      assert OrderBook() == CloseOne(old(OrderBook()), i, at);
      CancelEach(Dependents(orders, parentId, 0), at);
    }

    method CancelEach(targets: seq<nat>, at: Option<int>)
      requires Valid() && Indices(targets, |orders|)
      modifies `orders, `totalTrades, `winningTrades
      ensures Valid() && OrderBook() == CancelAll(old(OrderBook()), targets, at)
      decreases OpenSet(orders), 1 + |targets|
    {
      ghost var first := OrderBook();
      for n := 0 to |targets|
        invariant Valid() && OnlyCancels(first.orders, orders, at)
        invariant CancelAll(OrderBook(), targets[n..], at) == CancelAll(first, targets, at)
      {
        assert targets[n..][0] == targets[n] && targets[n..][1..] == targets[n + 1..];
        OnlyCancelsCloses(first.orders, orders, at);
        ghost var before := OrderBook();
        CancelOrder(targets[n], at);
        OnlyCancelsTransitive(first.orders, before.orders, orders, at);
      }
    }

    method CancelOcoSiblings(filled: nat)
      requires Valid() && filled < |orders|
      modifies `orders, `totalTrades, `winningTrades
      ensures Valid() && OrderBook() == CancelAll(old(OrderBook()),
        Siblings(old(orders), filled, old(orders)[filled].ocoGroup, 0), old(orders)[filled].filledAt)
    {
      var order := orders[filled];
      CancelEach(Siblings(orders, filled, order.ocoGroup, 0), order.filledAt);
    }

    method CancelByTargetId(targetId: string)
      requires Valid()
      modifies `orders, `totalTrades, `winningTrades
      ensures Valid() && State() == CancelTarget(old(State()), targetId)
    {
      hide Orders.CancelOrder, ParseOrderId, PositionOf, SameShape, Indices;
      var target: Option<nat> := None;
      if targetId in orderIndexByClientId {
        target := Some(orderIndexByClientId[targetId]);
      } else {
        var orderId := ParseOrderId(targetId);
        if orderId.Some? {
          target := PositionOf(orders, orderId.value, 0);
        }
      }
      if target.None? {
        return;
      }
      CancelOrder(target.value, if currentBar.Some? then Some(currentBar.value.end) else None);
    }

    // ---- filling -------------------------------------------------------------------------

    method ApplyPositionFill(side: Side, quantity: real, price: real) returns (closed: real, realized: real)
      modifies `accountingPosition, `averageEntryPrice, `positionCostKnown
      ensures Ledger.ApplyPositionFill(old(Account()), side, quantity, price)
        == Ledger.PositionFill(Account(), closed, realized)
    {
      hide Ledger.Profit, Ledger.Blend;
      var delta := if side == Sell then -quantity else quantity;
      var current := accountingPosition;
      var next := current + delta;
      if current == 0.0 || (current > 0.0 && delta > 0.0) || (current < 0.0 && delta < 0.0) {
        if current == 0.0 {
          averageEntryPrice := price;
          positionCostKnown := price > 0.0;
        } else if positionCostKnown && price > 0.0 {
          averageEntryPrice := Ledger.Blend(averageEntryPrice, Abs(current), price, quantity, Abs(next));
        } else {
          averageEntryPrice := 0.0;
          positionCostKnown := false;
        }
        accountingPosition := next;
        return 0.0, 0.0;
      }
      closed := Min(quantity, Abs(current));
      if !positionCostKnown || price <= 0.0 {
        realized := 0.0;
      } else if current > 0.0 {
        realized := Ledger.Profit(averageEntryPrice, price, closed);
      } else {
        realized := Ledger.Profit(price, averageEntryPrice, closed);
      }
      accountingPosition := next;
      if next == 0.0 {
        averageEntryPrice := 0.0;
        positionCostKnown := false;
      } else if (next > 0.0 && current < 0.0) || (next < 0.0 && current > 0.0) {
        averageEntryPrice := price;
        positionCostKnown := price > 0.0;
      }
    }

    method UpdateFilledOrder(i: nat, quantity: real, quote: real, at: int) returns (r: Result<()>)
      requires i < |orders|
      modifies `orders
      ensures var spec := Backtest.UpdateFilledOrder(old(orders)[i], quantity, quote, at);
        if spec.Ok? then r == Ok(()) && orders == old(orders)[i := spec.value] else r == Err(spec.error)
    {
      var order := orders[i];
      order := order.(filled := order.filled + quantity);
      order := order.(remaining := order.remaining - quantity);
      order := order.(filledNotional := order.filledNotional + quote);
      if order.filled == 0.0 {
        return Err(DivisionByZero);
      }
      order := order.(averagePrice := order.filledNotional / order.filled, filledAt := Some(at));
      order := order.(status := if order.remaining > 0.0 then PartiallyFilled else Filled);
      orders := orders[i := order];
      return Ok(());
    }

    method MoveCash(side: Side, quantity: real, quote: real)
      modifies `cash, `basePosition
      ensures Account() == Ledger.MoveCash(old(Account()), side, quantity, quote)
    {
      match side {
        case Buy =>
          cash := cash - quote;
          basePosition := basePosition + quantity;
        case Sell =>
          cash := cash + quote;
          basePosition := basePosition - quantity;
      }
    }

    /** Cash, the position and the profit of a fill. */
    method MoveAccount(side: Side, quantity: real, price: real) returns (closed: real, realized: real)
      modifies `cash, `basePosition, `accountingPosition, `averageEntryPrice, `positionCostKnown, `realizedPnl
      ensures Ledger.ApplyFill(old(Account()), side, quantity, price)
        == Ledger.PositionFill(Account(), closed, realized)
    {
      hide Worth, Ledger.ApplyPositionFill, Ledger.MoveCash;
      MoveCash(side, quantity, Worth(price, quantity));
      closed, realized := ApplyPositionFill(side, quantity, price);
      realizedPnl := realizedPnl + realized;
    }

    method PayFees(fees: real)
      modifies `cash
      ensures Account() == Ledger.PayFees(old(Account()), fees)
    {
      cash := cash - fees;
    }

    /** What a fill did to the account, fees included. */
    method SettleFill(i: nat, quantity: real, price: real)
          returns (r: Result<()>, closed: real, realized: real, fees: Fees.AppliedFees)
      requires Valid() && i < |orders|
      modifies `cash, `basePosition, `accountingPosition, `averageEntryPrice, `positionCostKnown, `realizedPnl
      modifies feeEngine
      ensures var spec := Backtest.SettleFill(input.params, old(State()), i, quantity, price);
        if spec.Ok? then r == Ok(()) && Valid() && spec.value == Settled(State(), closed, realized, fees)
          else r == Err(spec.error)
    {
      hide Fees.Apply, Ledger.ApplyFill, Ledger.PayFees, SameShape, Indices, Known;
      var side := orders[i].side;
      closed, realized := MoveAccount(side, quantity, price);
      var charged := feeEngine.Apply(orders[i].orderId, side, price, quantity);
      if charged.Err? {
        return Err(charged.error), closed, realized, Fees.NO_FEES;
      }
      fees := charged.value;
      PayFees(fees.Total());
      return Ok(()), closed, realized, fees;
    }

    /** Close a filled order and its OCO group. */
    method SettleOrder(i: nat)
      requires Valid() && i < |orders|
      modifies `orders, `totalTrades, `winningTrades
      ensures Valid() && OrderBook() == SettleBook(old(OrderBook()), i)
    {
      var order := orders[i];
      if order.status.Closed() {
        FinalizeClosingOrder(i);
      }
      if order.ocoGroup != "" && order.filled > 0.0 {
        CancelOcoSiblings(i);
      }
    }

    method AddClosing(i: nat, closed: real, realized: real)
      requires i < |orders|
      modifies `orders
      ensures orders == old(orders)[i := Backtest.AddClosing(old(orders)[i], closed, realized)]
    {
      if closed > 0.0 {
        var o := orders[i];
        orders := orders[i := o.(closingQuantity := o.closingQuantity + closed, closingPnl := o.closingPnl + realized)];
      }
    }

    /** The filled order, with the part of it that closed a position. */
    method FillOrder(i: nat, quantity: real, quote: real, at: int, closed: real, realized: real)
          returns (r: Result<()>)
      requires Valid() && i < |orders|
      modifies `orders
      ensures var updated := Backtest.UpdateFilledOrder(old(orders)[i], quantity, quote, at);
        if updated.Ok? then
          && r == Ok(()) && Valid()
          && State() == SetOrder(old(State()), i, Backtest.AddClosing(updated.value, closed, realized))
        else r == Err(updated.error)
    {
      hide Backtest.UpdateFilledOrder, Backtest.AddClosing, Indices, Known;
      var _ :- UpdateFilledOrder(i, quantity, quote, at);
      AddClosing(i, closed, realized);
      return Ok(());
    }

    method AppendFill(fill: Fill)
      requires Valid()
      modifies `nextTradeId, `fills
      ensures Valid() && orders == old(orders)
      ensures State() == old(State()).(nextTradeId := old(State()).nextTradeId + 1,
        fills := old(State()).fills + [fill])
    {
      nextTradeId := nextTradeId + 1;
      fills := fills + [fill];
    }

    /** Update the filled order and append the fill. */
    method RecordFill(i: nat, quantity: real, price: real, at: int, closed: real, realized: real,
          fees: Fees.AppliedFees)
      returns (r: Result<()>)
      requires Valid() && i < |orders|
      modifies `orders, `nextTradeId, `fills
      ensures Agrees(r, Backtest.RecordFill(old(State()), i, quantity, price, at, closed, realized, fees))
    {
      hide Backtest.UpdateFilledOrder, Worth, Backtest.AddClosing, IsMaker, SameShape, Valid;
      var quote := Worth(price, quantity);
      var _ :- FillOrder(i, quantity, quote, at, closed, realized);
      var order := orders[i];
      AppendFill(Fill(nextTradeId + 1, order.orderId, order.clientId, order.side, price, quantity, quote, at,
                      IsMaker(order.orderType), fees, realized));
      return Ok(());
    }

    method ApplyFill(i: nat, quantity: real, price: real, at: int) returns (r: Result<()>)
      requires Valid() && i < |orders|
      modifies this, feeEngine
      ensures Agrees(r, Backtest.ApplyFill(input.params, old(State()), i, quantity, price, at))
    {
      hide Backtest.SettleFill, Backtest.RecordFill, SettleBook, Indices, Known;
      var settled, closed, realized, fees := SettleFill(i, quantity, price);
      if settled.Err? {
        return settled;
      }
      var _ :- RecordFill(i, quantity, price, at, closed, realized, fees);
      SettleOrder(i);
      return Ok(());
    }

    // ---- matching ------------------------------------------------------------------------

    method MatchPrice(i: nat, candle: Candle, mode: MatchMode) returns (r: Result<Option<real>>)
      requires Valid() && i < |orders|
      modifies `orders, `warnings, `warningKeys
      ensures var spec := Backtest.MatchPrice(input.params, old(State()), i, candle, mode);
        if spec.Ok? then r == Ok(spec.value.price) && Valid() && State() == spec.value.state else r == Err(spec.error)
    {
      var order := orders[i];
      match order.orderType {
        case MarketOrder =>
          var price := MarketPrice(candle, mode);
          var slipped :- ApplySlippage(order.side, price, input.params.slippageTicks, input.params.tickSize);
          return Ok(Some(slipped));
        case LimitOrder | LimitMaker =>
          return Ok(LimitPrice(order.side, order.limitPrice, candle, mode));
        case StopMarket =>
          var price := StopMarketPrice(order.side, order.stopPrice, candle, mode);
          if price.None? {
            return Ok(None);
          }
          var slipped :- ApplySlippage(order.side, price.value, input.params.slippageTicks, input.params.tickSize);
          return Ok(Some(slipped));
        case StopLimit =>
          if !order.stopTriggered {
            if StopMarketPrice(order.side, order.stopPrice, candle, mode).None? {
              return Ok(None);
            }
            orders := orders[i := order.(stopTriggered := true)];
            return Ok(None);
          }
          return Ok(LimitPrice(order.side, order.limitPrice, candle, mode));
        case OtherType(text) =>
          WarnOnce(UnsupportedType(text));
          return Ok(None);
      }
    }

    method TryFill(i: nat, candle: Candle, mode: MatchMode) returns (r: Result<()>)
      requires Valid() && i < |orders|
      modifies this, feeEngine
      ensures Agrees(r, Backtest.TryFill(input.params, old(State()), i, candle, mode))
    {
      if orders[i].remaining <= 0.0 {
        return Ok(());
      }
      var parentId := orders[i].parentId;
      if parentId != 0 && !ParentFilled(orders, parentId) {
        return Ok(());
      }
      if currentBarBudget <= 0.0 {
        return Ok(());
      }
      var price :- MatchPrice(i, candle, mode);
      if price.None? || price.value <= 0.0 {
        return Ok(());
      }
      r := ExecuteAt(i, price.value, EventTime(candle, mode));
    }

    /** The rest of an attempt, once a price is found. */
    method ExecuteAt(i: nat, price: real, at: int) returns (r: Result<()>)
      requires Valid() && i < |orders|
      modifies this, feeEngine
      ensures Agrees(r, Execute(input.params, old(State()), i, price, at))
    {
      hide Backtest.ApplyFill, Orders.CancelOrder, Valid, ReduceOnlyQuantity, TruncateToIncrement, SameShape,
        IsMultiple;
      hide Backtest.WarnOnce;
      var quantity := Min(orders[i].remaining, currentBarBudget);
      if orders[i].reduceOnly {
        var reducible := ReduceOnlyQuantity(basePosition, orders[i].side);
        if reducible <= 0.0 {
          CancelOrder(i, Some(at));
          return Ok(());
        }
        quantity := Min(quantity, reducible);
      }
      quantity :- TruncateToIncrement(quantity, input.params.quantityStep);
      if quantity <= 0.0 {
        WarnOnce(LiquidityStep);
        return Ok(());
      }
      if input.params.minQuantity > 0.0 && quantity < input.params.minQuantity {
        WarnOnce(LiquidityMin);
        return Ok(());
      }
      var _ :- ApplyFill(i, quantity, price, at);
      Spend(quantity);
      return Ok(());
    }

    method Spend(quantity: real)
      requires Valid()
      modifies `currentBarBudget
      ensures Valid() && State() == old(State()).(budget := old(State()).budget - quantity)
    {
      currentBarBudget := currentBarBudget - quantity;
    }

    method RecordEquity(candle: Candle)
      requires Valid()
      modifies `equityCurve
      ensures Valid() && State() == Backtest.RecordEquity(old(State()), candle)
    {
      equityCurve := equityCurve + [Drawdown.EquityPoint(candle.end, Valuation(cash, basePosition, candle.close))];
    }

    method MatchQueue(candle: Candle) returns (r: Result<()>)
      requires Valid()
      modifies this, feeEngine
      ensures Agrees(r, MatchAll(input.params, old(State()), old(matchingOrder), candle))
    {
      var queue := matchingOrder;
      ghost var spec := MatchAll(input.params, State(), queue, candle);
      for n := 0 to |queue|
        invariant Valid() && Indices(queue, |orders|)
        invariant MatchAll(input.params, State(), queue[n..], candle) == spec
      {
        assert queue[n..][0] == queue[n] && queue[n..][1..] == queue[n + 1..];
        var _ :- TryFill(queue[n], candle, FullBar);
        if currentBarBudget <= 0.0 {
          return Ok(());
        }
      }
      return Ok(());
    }

    method StartBar(candle: Candle)
      requires Valid()
      modifies `currentBar, `currentBarBudget
      ensures Valid() && State() == Backtest.StartBar(old(State()), candle) && matchingOrder == old(matchingOrder)
      ensures orders == old(orders)
    {
      currentBar := Some(candle);
      currentBarBudget := candle.volume * 0.1;
    }

    method ConsumeBar(candle: Candle) returns (r: Result<()>)
      requires Valid()
      modifies this, feeEngine
      ensures Agrees(r, Backtest.ConsumeBar(input.params, old(State()), candle))
    {
      hide MatchAll, HasPending, Backtest.RecordEquity, Backtest.WarnOnce, Backtest.StartBar;
      StartBar(candle);
      if candle.volume <= 0.0 && HasPending(orders) {
        WarnOnce(ZeroVolume);
      } else {
        var _ :- MatchQueue(candle);
      }
      RecordEquity(candle);
      return Ok(());
    }

    // ---- submitting ----------------------------------------------------------------------

    /** Append an order under the next id, outside the matching queue. */
    method Place(order: Order)
      requires Valid()
      modifies `nextOrderId, `orders, `orderIndexByClientId
      ensures Valid() && State() == Append(old(State()), order, true) && |orders| == |old(orders)| + 1
    {
      hide Known, Indices;
      KnownMore(orderIndexByClientId, order.clientId, matchingOrder, |orders|);
      nextOrderId := nextOrderId + 1;
      orderIndexByClientId := orderIndexByClientId[order.clientId := |orders|];
      orders := orders + [order];
    }

    method Enqueue(index: nat)
      requires Valid() && index < |orders|
      modifies `matchingOrder
      ensures Valid() && State() == old(State()).(matching := old(State()).matching + [index])
    {
      hide Known;
      matchingOrder := matchingOrder + [index];
    }

    /** Append an order; `defer` leaves it out of the matching queue. */
    method Push(order: Order, defer: bool)
      requires Valid()
      modifies `nextOrderId, `orders, `orderIndexByClientId, `matchingOrder
      ensures Valid() && State() == Append(old(State()), order, defer)
    {
      hide Valid;
      var index := |orders|;
      Place(order);
      if !defer {
        Enqueue(index);
      }
    }

    /** Validate an intent and append its order. */
    method PushOrder(intent: Intent, defer: bool) returns (r: Result<()>)
      requires Valid()
      modifies `nextOrderId, `orders, `orderIndexByClientId, `matchingOrder
      ensures Agrees(r, AddOrder(old(State()), intent, defer))
    {
      hide ValidateSubmit;
      var side :- ValidateSubmit(intent);
      if intent.id in orderIndexByClientId {
        return Err(DuplicateOrderId);
      }
      var submittedAt := if currentBar.Some? then Some(currentBar.value.end) else None;
      var order := Order(nextOrderId + 1, intent.id, side, intent.orderType,
                         intent.quantity, intent.limitPrice, intent.stopPrice, intent.reduceOnly,
                         0, intent.ocoGroup, false, false,
                         intent.quantity, 0.0, 0.0, 0.0, New, submittedAt, None, 0.0, 0.0, false);
      assert order == NewOrder(State(), intent, side);
      hide NewOrder, Append;
      Push(order, defer);
      return Ok(());
    }

    method SubmitOne(intent: Intent) returns (r: Result<()>)
      requires Valid()
      modifies this, feeEngine
      ensures Agrees(r, Backtest.SubmitOne(input.params, old(State()), intent))
    {
      var index := |orders|;
      var _ :- PushOrder(intent, false);
      if input.params.onClose {
        if currentBar.None? {
          return Err(NoCurrentBar);
        }
        r := TryFill(index, currentBar.value, ClosePoint);
        return;
      }
      return Ok(());
    }

    method PushGroup(group: seq<Intent>) returns (r: Result<()>)
      requires Valid()
      modifies `nextOrderId, `orders, `orderIndexByClientId, `matchingOrder
      ensures Agrees(r, AddOrders(old(State()), group))
    {
      ghost var spec := AddOrders(State(), group);
      for n := 0 to |group|
        invariant Valid() && AddOrders(State(), group[n..]) == spec
      {
        assert group[n..][0] == group[n] && group[n..][1..] == group[n + 1..];
        var _ :- PushOrder(group[n], true);
      }
      return Ok(());
    }

    method LinkGroup(group: seq<Intent>, first: nat) returns (r: Result<()>)
      requires Valid() && first + |group| <= |orders|
      modifies `orders
      ensures Agrees(r, Link(old(State()), group, first))
    {
      ghost var spec := Link(State(), group, first);
      for n := 0 to |group|
        invariant Valid() && |orders| == |old(orders)|
        invariant Link(State(), group[n..], first + n) == spec
      {
        ghost var before := State();
        assert group[n..][0] == group[n] && group[n..][1..] == group[n + 1..];
        var intent := group[n];
        if intent.parentId != "" {
          if intent.parentId !in orderIndexByClientId {
            return Err(AtomicParentMissing);
          }
          var parent := orderIndexByClientId[intent.parentId];
          orders := orders[first + n := orders[first + n].(parentId := orders[parent].orderId)];
          orders := orders[parent := orders[parent].(hasChildren := true)];
        }
        assert LinkOne(before, intent, first + n) == Ok(State());
      }
      return Ok(());
    }

    method ReleaseOrders(first: nat) returns (r: Result<()>)
      requires Valid() && first <= |orders|
      modifies this, feeEngine
      ensures Agrees(r, ReleaseGroup(input.params, old(State()), first))
    {
      hide ByPriority;
      var created := ByPriority(orders, first, |orders|);
      matchingOrder := matchingOrder + created;
      assert State() == Queued(old(State()), created);
      if input.params.onClose {
        if currentBar.None? {
          return Err(NoCurrentBar);
        }
        var candle := currentBar.value;
        ghost var spec := FillEach(input.params, State(), created, candle);
        for n := 0 to |created|
          invariant Valid() && Indices(created, |orders|)
          invariant FillEach(input.params, State(), created[n..], candle) == spec
        {
          assert created[n..][0] == created[n] && created[n..][1..] == created[n + 1..];
          var _ :- TryFill(created[n], candle, ClosePoint);
        }
      }
      return Ok(());
    }

    method SubmitAtomic(groupId: string, group: seq<Intent>) returns (r: Result<()>)
      requires Valid()
      modifies this, feeEngine
      ensures Agrees(r, Backtest.SubmitAtomic(input.params, old(State()), groupId, group))
    {
      if groupId == "" || |group| < 2 {
        return Err(BadAtomicGroup);
      }
      if !ParentsLocal(group) {
        return Err(AtomicParentMissing);
      }
      var first := |orders|;
      var _ :- PushGroup(group);
      var _ :- LinkGroup(group, first);
      r := ReleaseOrders(first);
    }

    method ApplyBarIntents(bar: nat) returns (r: Result<()>)
      requires Valid()
      modifies this, feeEngine
      ensures Agrees(r, ApplyIntents(input.params, old(State()), IntentsAt(input.intents, bar), 0))
    {
      var intents := IntentsAt(input.intents, bar);
      ghost var spec := ApplyIntents(input.params, State(), intents, 0);
      for n := 0 to |intents|
        invariant Valid() && ApplyIntents(input.params, State(), intents, n) == spec
      {
        var _ :- ApplyOneIntent(intents, intents[n]);
      }
      return Ok(());
    }

    method ApplyOneIntent(intents: seq<Intent>, intent: Intent) returns (r: Result<()>)
      requires Valid()
      modifies this, feeEngine
      ensures Agrees(r, ApplyIntent(input.params, old(State()), intents, intent))
    {
      if intent.action == Cancel {
        CancelByTargetId(intent.targetId);
        return Ok(());
      } else if intent.atomicGroup == "" {
        r := SubmitOne(intent);
      } else if intent.atomicGroup !in processedAtomicGroups {
        processedAtomicGroups := processedAtomicGroups + {intent.atomicGroup};
        assert State() == old(State()).(groups := old(State()).groups + {intent.atomicGroup});
        r := SubmitAtomic(intent.atomicGroup, InGroup(intents, intent.atomicGroup));
      } else {
        return Ok(());
      }
    }

    /** Count every closing order that is still open when the run ends. */
    method FinalizeOrders()
      requires Valid()
      modifies `orders, `totalTrades, `winningTrades
      ensures Valid() && OrderBook() == FinalizeAll(old(OrderBook()), 0)
    {
      ghost var spec := FinalizeAll(OrderBook(), 0);
      for i := 0 to |orders|
        invariant Valid() && |orders| == |old(orders)|
        invariant FinalizeAll(OrderBook(), i) == spec
      {
        FinalizeClosingOrder(i);
      }
    }

    method Summary(processed: nat) returns (r: Result<Output>)
      requires Valid() && processed <= |input.candles|
      modifies `orders, `totalTrades, `winningTrades
      ensures r == Report(input, old(State()), processed)
    {
      FinalizeOrders();
      var equity := Valuation(cash, basePosition, LastClose(input, processed));
      var drawdown := Drawdown.Measure(equityCurve);
      var winRate := if totalTrades == 0 then 0.0 else winningTrades as real / totalTrades as real;
      var indicators :- Indicators.CalculateIndicators(Closes(input.candles[..processed]), input.periods);
      return Ok(Output(processed == |input.candles|, processed, cash, basePosition, equity, realizedPnl,
                       feeEngine.brokerTotal, feeEngine.marketTotal, totalTrades, winningTrades, winRate,
                       orders, fills, equityCurve, drawdown, feeEngine.breakdown, indicators, warnings));
    }
  }

  lemma BarOrFailure(c: Case, bars: nat)
    requires bars < ProcessedBars(c) && Run(c, bars).Ok?
    ensures var consumed := Backtest.ConsumeBar(c.params, Run(c, bars).value, c.candles[bars]);
      var next := if consumed.Ok? then ApplyIntents(c.params, consumed.value, IntentsAt(c.intents, bars), 0)
        else consumed;
      Run(c, bars + 1) == next && (next.Err? ==> Run(c, ProcessedBars(c)) == next)
  {
    hide Backtest.ConsumeBar, ApplyIntents, IntentsAt;
    RunUnfold(c, bars);
    if Run(c, bars + 1).Err? {
      RunFails(c, bars + 1, ProcessedBars(c));
    }
  }

  /** Run a case on a fresh engine. What it returns is what `Backtest.RunCase` specifies, about which the
      results of `Runs` are proved. */
  method RunCase(c: Case) returns (r: Result<Output>)
    ensures r == Backtest.RunCase(c)
  {
    hide Backtest.ConsumeBar, ApplyIntents, IntentsAt, Bar, Report, ValidCase;
    if !ValidCase(c) {
      return Err(BadCase);
    }
    RunStart(c, 0);
    var engine := new Engine(c);
    var processed := 0;
    while processed < |c.candles| && c.cancelBeforeBar != Some(processed)
      invariant processed <= ProcessedBars(c)
      invariant engine.input == c && engine.Valid() && fresh(engine) && fresh(engine.feeEngine)
      invariant Run(c, processed) == Ok(engine.State())
    {
      BarOrFailure(c, processed);
      var _ :- engine.ConsumeBar(c.candles[processed]);
      var _ :- engine.ApplyBarIntents(processed);
      processed := processed + 1;
    }
    r := engine.Summary(processed);
  }
}
