/** Matching, submitting, linking and cancelling are steps; so are whole bars. */
module Progress {
  import opened Kernel
  import opened Matching
  import opened Orders
  import opened Backtest
  import opened Invariants
  import opened Steps
  import opened Filling
  import FeeLines
  import Fees
  import Ledger

  lemma SameStep(p: Params, initial: real, candle: Candle, s: State)
    requires Inv(p, initial, s)
    ensures Step(p, initial, candle, s, s)
  {
    GrowsRefl(s);
  }

  // ---- matching --------------------------------------------------------------------------

  /** What a matched price promises about order `i` on this bar: it respects the order's own prices, and a stop-limit
      order has been armed before. */
  ghost predicate PriceOk(p: Params, o: Order, candle: Candle, mode: MatchMode, price: real) {
    && PriceOn(p, o, candle, mode, price)
    && (o.orderType.LimitOrder? || o.orderType.LimitMaker? || o.orderType.StopLimit? ==>
      NotWorse(o.side, price, o.limitPrice))
    && (o.orderType.StopMarket? ==> NotBetter(o.side, price, o.stopPrice))
    && (o.orderType.StopLimit? ==> o.stopTriggered)
    && !o.orderType.OtherType?
  }

  /** Either a price is found and nothing moves, or no price is found and at most a stop is armed or a warning given. */
  lemma MatchPriceOutcome(p: Params, s: State, i: nat, candle: Candle, mode: MatchMode, m: Matched)
    requires Knows(s, i) && MatchPrice(p, s, i, candle, mode) == Ok(m)
    ensures m.price.Some? ==> m.state == s
    ensures m.price.Some? && m.price.value > 0.0 ==> PriceOk(p, s.book.orders[i], candle, mode, m.price.value)
    ensures
      || m.state == s
      || m.state == SetOrder(s, i, s.book.orders[i].(stopTriggered := true))
      || exists warning :: m.state == WarnOnce(s, warning)
  {
  }

  lemma MatchPriceStep(p: Params, initial: real, s: State, i: nat, candle: Candle, mode: MatchMode, m: Matched)
    requires Inv(p, initial, s) && Knows(s, i) && MatchPrice(p, s, i, candle, mode) == Ok(m)
    ensures Step(p, initial, candle, s, m.state)
  {
    MatchPriceOutcome(p, s, i, candle, mode, m);
    if m.state == s {
      SameStep(p, initial, candle, s);
    } else if m.state == SetOrder(s, i, s.book.orders[i].(stopTriggered := true)) {
      ArmStep(p, initial, candle, s, i);
    } else {
      var warning :| m.state == WarnOnce(s, warning);
      WarnStep(p, initial, candle, s, warning);
    }
  }

  lemma TradableFillable(p: Params, s: State, i: nat, candle: Candle, mode: MatchMode, price: real, quantity: real)
    requires Knows(s, i) && MayTrade(s.book.orders, i) && s.budget > 0.0 && price > 0.0
    requires PriceOk(p, s.book.orders[i], candle, mode, price)
    requires Tradable(s, s.book.orders[i]).Some? && 0.0 < quantity <= Tradable(s, s.book.orders[i]).value
    requires IsMultiple(quantity, p.quantityStep) && !(p.minQuantity > 0.0 && quantity < p.minQuantity)
    ensures Fillable(p, s, i, quantity, price) && quantity <= s.budget
  {
  }

  lemma FilledTradesOn(p: Params, s: State, r: State, i: nat, candle: Candle, mode: MatchMode, quantity: real)
    requires Knows(s, i) && OrdersOk(s.book.orders) && OrdersEvolve(s.book.orders, r.book.orders) && s.fills <= r.fills
    requires |r.fills| == |s.fills| + 1 && r.fills[|s.fills|].orderId == s.book.orders[i].orderId
    requires r.fills[|s.fills|].quantity == quantity && 0.0 < quantity <= s.budget && r.budget == s.budget - quantity
    requires r.fills[|s.fills|].time == EventTime(candle, mode)
    requires PriceOk(p, s.book.orders[i], candle, mode, r.fills[|s.fills|].price)
    ensures TradesOn(p, candle, s, r)
  {
    var f := r.fills[|s.fills|];
    assert r.fills == s.fills + [f];
    SumAppend(FillQuantity, s.fills, f);
    assert OrderOk(s.book.orders[i], i) && Evolves(s.book.orders[i], r.book.orders[i]);
    PriceOnTerms(p, s.book.orders[i], r.book.orders[i], candle, mode, f.price);
    assert PricedBy(p, r.book.orders[i], candle, mode, f);
    assert mode == FullBar || mode == ClosePoint;
  }

  lemma BudgetKeeps(p: Params, initial: real, s: State, budget: real)
    requires Inv(p, initial, s)
    ensures Inv(p, initial, s.(budget := budget))
  {
    InvParts(p, initial, s);
    InvFromParts(p, initial, s.(budget := budget));
  }

  lemma ExecuteFillStep(p: Params, initial: real, s: State, i: nat, candle: Candle, mode: MatchMode, price: real,
        quantity: real)
    requires Inv(p, initial, s) && Fillable(p, s, i, quantity, price) && 0.0 < quantity <= s.budget
    requires PriceOk(p, s.book.orders[i], candle, mode, price)
    ensures var done := ApplyFill(p, s, i, quantity, price, EventTime(candle, mode));
      done.Ok? ==> Step(p, initial, candle, s, done.value.(budget := done.value.budget - quantity))
  {
    var at := EventTime(candle, mode);
    var done := ApplyFill(p, s, i, quantity, price, at);
    assert Holds(OfBook, p, initial, s);
    ApplyFillKeeps(p, initial, s, i, quantity, price, at);
    hide ApplyFill, Fillable, PriceOk, TradesOn;
    if done.Ok? {
      var r := done.value.(budget := done.value.budget - quantity);
      FilledTradesOn(p, s, r, i, candle, mode, quantity);
      BudgetKeeps(p, initial, done.value, r.budget);
    }
  }

  lemma ExecuteStep(p: Params, initial: real, s: State, i: nat, candle: Candle, mode: MatchMode, price: real)
    requires Inv(p, initial, s) && Knows(s, i) && MayTrade(s.book.orders, i) && s.budget > 0.0
    requires price > 0.0 && PriceOk(p, s.book.orders[i], candle, mode, price)
    ensures var r := Execute(p, s, i, price, EventTime(candle, mode));
      r.Ok? ==> Step(p, initial, candle, s, r.value)
  {
    hide Step, Inv, PriceOk, IsMultiple, Tradable, ApplyFill;
    var o, at := s.book.orders[i], EventTime(candle, mode);
    var r := Execute(p, s, i, price, at);
    var wanted := Tradable(s, o);
    if wanted.None? {
      CancelStep(p, initial, candle, s, i, Some(at));
    } else if r.Ok? {
      var quantity := TruncateToIncrement(wanted.value, p.quantityStep).value;
      if quantity <= 0.0 {
        WarnStep(p, initial, candle, s, LiquidityStep);
      } else if p.minQuantity > 0.0 && quantity < p.minQuantity {
        WarnStep(p, initial, candle, s, LiquidityMin);
      } else {
        TradableFillable(p, s, i, candle, mode, price, quantity);
        ExecuteFillStep(p, initial, s, i, candle, mode, price, quantity);
      }
    }
  }

  /** An attempt leaves the state alone, stops at matching, or executes at a matched positive price. */
  lemma TryFillOutcome(p: Params, s: State, i: nat, candle: Candle, mode: MatchMode)
    requires Knows(s, i)
    ensures var r, m := TryFill(p, s, i, candle, mode), MatchPrice(p, s, i, candle, mode);
      || r.Err?
      || r == Ok(s)
      || (m.Ok? && r == Ok(m.value.state))
      || (m.Ok? && m.value.price.Some? && m.value.price.value > 0.0 && s.budget > 0.0 && MayTrade(s.book.orders, i)
          && PriceOk(p, s.book.orders[i], candle, mode, m.value.price.value)
          && r == Execute(p, s, i, m.value.price.value, EventTime(candle, mode)))
  {
    var m := MatchPrice(p, s, i, candle, mode);
    if m.Ok? {
      MatchPriceOutcome(p, s, i, candle, mode, m.value);
    }
  }

  /** An attempt to match an order is a step of the run. */
  lemma TryFillStep(p: Params, initial: real, s: State, i: nat, candle: Candle, mode: MatchMode)
    requires Inv(p, initial, s) && Knows(s, i)
    ensures var r := TryFill(p, s, i, candle, mode);
      r.Ok? ==> Step(p, initial, candle, s, r.value)
  {
    var r, m := TryFill(p, s, i, candle, mode), MatchPrice(p, s, i, candle, mode);
    TryFillOutcome(p, s, i, candle, mode);
    if r == Ok(s) {
      SameStep(p, initial, candle, s);
    } else if m.Ok? && r == Ok(m.value.state) {
      MatchPriceStep(p, initial, s, i, candle, mode, m.value);
    } else if r.Ok? {
      ExecuteStep(p, initial, s, i, candle, mode, m.value.price.value);
    }
  }

  /** The bar, or its close, reaches the positive stop of the order. */
  predicate StopReached(o: Order, candle: Candle, mode: MatchMode) {
    && o.stopPrice > 0.0
    && match mode
       case FullBar =>
         Reached(o.side, candle.open, o.stopPrice) || Reached(o.side, Cheapest(Other(o.side), candle), o.stopPrice)
       case ClosePoint => Reached(o.side, candle.close, o.stopPrice)
  }

  lemma StopReachedIs(o: Order, candle: Candle, mode: MatchMode)
    ensures StopReached(o, candle, mode) <==> StopMarketPrice(o.side, o.stopPrice, candle, mode).Some?
  {
    if o.stopPrice > 0.0 {
      StopMarketPriceIs(o.side, o.stopPrice, candle, mode);
      hide StopMarketPrice;
    }
  }

  /** An attempt on a stop-limit order that is not armed arms it exactly when it may be matched, there is liquidity and
      the bar reaches its stop; it does no more: the order can only trade later. */
  lemma StopLimitArmsFirst(p: Params, s: State, i: nat, candle: Candle, mode: MatchMode)
    requires Knows(s, i) && s.book.orders[i].orderType == StopLimit && !s.book.orders[i].stopTriggered
    ensures var o := s.book.orders[i];
      var arms := o.remaining > 0.0 && s.budget > 0.0 && (o.parentId != 0 ==> ParentFilled(s.book.orders, o.parentId))
        && StopReached(o, candle, mode);
      TryFill(p, s, i, candle, mode) == Ok(if arms then SetOrder(s, i, o.(stopTriggered := true)) else s)
  {
    StopReachedIs(s.book.orders[i], candle, mode);
    hide Execute, StopReached, StopMarketPrice, LimitPrice, ParentFilled;
  }

  lemma {:induction false} MatchAllStep(p: Params, initial: real, s: State, queue: seq<nat>, candle: Candle)
    requires Inv(p, initial, s) && Indices(queue, |s.book.orders|)
    ensures var r := MatchAll(p, s, queue, candle);
      r.Ok? ==> Step(p, initial, candle, s, r.value)
    decreases |queue|
  {
    SameStep(p, initial, candle, s);
    if queue == [] {
    } else {
      TryFillStep(p, initial, s, queue[0], candle, FullBar);
      var next := TryFill(p, s, queue[0], candle, FullBar);
      if next.Ok? && next.value.budget > 0.0 {
        MatchAllStep(p, initial, next.value, queue[1..], candle);
        var r := MatchAll(p, next.value, queue[1..], candle);
        if r.Ok? {
          StepTransitive(p, initial, candle, s, next.value, r.value);
        }
      }
    }
  }

  lemma {:induction false} FillEachStep(p: Params, initial: real, s: State, queue: seq<nat>, candle: Candle)
    requires Inv(p, initial, s) && Indices(queue, |s.book.orders|)
    ensures var r := FillEach(p, s, queue, candle);
      r.Ok? ==> Step(p, initial, candle, s, r.value)
    decreases |queue|
  {
    SameStep(p, initial, candle, s);
    if queue == [] {
    } else {
      TryFillStep(p, initial, s, queue[0], candle, ClosePoint);
      var next := TryFill(p, s, queue[0], candle, ClosePoint);
      if next.Ok? {
        FillEachStep(p, initial, next.value, queue[1..], candle);
        var r := FillEach(p, next.value, queue[1..], candle);
        if r.Ok? {
          StepTransitive(p, initial, candle, s, next.value, r.value);
        }
      }
    }
  }

  // ---- submitting ------------------------------------------------------------------------

  /** A change of nothing but queues, groups, equity, bar and warnings is a step. */
  lemma SideStep(p: Params, initial: real, candle: Candle, a: State, b: State)
    requires Inv(p, initial, a) && a.groups <= b.groups && a.equity <= b.equity
    requires b == a.(matching := b.matching, groups := b.groups, equity := b.equity, bar := b.bar,
      warnings := b.warnings)
    ensures Step(p, initial, candle, a, b)
  {
    InvParts(p, initial, a);
    InvFromParts(p, initial, b);
    GrowsRefl(a);
  }

  lemma AddedBook(b: Book, o: Order)
    requires BookOk(b) && OrderOk(o, |b.orders|) && o.status == New && o.parentId == 0 && o.closingPnl == 0.0
    ensures var r := b.(orders := b.orders + [o]);
      BookOk(r) && Sum(ClosingPnl, r.orders) == Sum(ClosingPnl, b.orders)
  {
    SumAppend(Counted, b.orders, o);
    SumAppend(Won, b.orders, o);
    SumAppend(ClosingPnl, b.orders, o);
    var orders := b.orders + [o];
    forall k | 0 <= k < |orders| ensures OrderOk(orders[k], k) && ParentOk(orders, k) {
      if k < |b.orders| {
        assert OrderOk(b.orders[k], k) && ParentOk(b.orders, k);
      }
    }
  }

  lemma {:induction false} NoLastTime(orderId: nat, fills: seq<Fill>)
    requires forall f <- fills :: f.orderId != orderId
    ensures LastTime(orderId, fills) == None
    decreases |fills|
  {
    if fills == [] {
    } else {
      NoLastTime(orderId, fills[..|fills| - 1]);
    }
  }

  lemma {:induction false} NothingClosed(orderId: nat, fills: seq<Fill>)
    requires forall f <- fills :: f.orderId != orderId
    ensures ClosedBy(orderId, fills) == 0.0
    decreases |fills|
  {
    hide ClosedPart, Sum;
    if fills == [] {
    } else {
      NothingClosed(orderId, fills[..|fills| - 1]);
    }
  }

  lemma AddedClosings(orders: seq<Order>, o: Order, fills: seq<Fill>)
    requires o.closingQuantity == o.closingPnl == 0.0 && ClosingsOk(orders, fills)
    requires forall f <- fills :: f.orderId != o.orderId
    ensures ClosingsOk(orders + [o], fills)
  {
    NothingClosed(o.orderId, fills);
    SumZero(ProfitFor(o.orderId), fills);
    forall i | 0 <= i < |orders + [o]| ensures OrderClosingOk((orders + [o])[i], fills) {
      if i < |orders| {
        assert OrderClosingOk(orders[i], fills);
      }
    }
  }

  lemma AddedTotals(p: Params, orders: seq<Order>, o: Order, fills: seq<Fill>)
    requires OrderOk(o, |orders|) && o.status == New && o.filledAt == None
    requires TotalsOk(orders, fills) && FillsOk(p, orders, fills)
    ensures TotalsOk(orders + [o], fills) && FillsOk(p, orders + [o], fills)
    ensures forall f <- fills :: f.orderId != o.orderId
  {
    forall k | 0 <= k < |fills| ensures FillAtOk(p, orders + [o], fills, k) && fills[k].orderId != o.orderId {
      assert FillAtOk(p, orders, fills, k);
    }
    SumZero(QuantityFor(o.orderId), fills);
    SumZero(QuoteFor(o.orderId), fills);
    NoLastTime(o.orderId, fills);
    forall i | 0 <= i < |orders + [o]| ensures OrderTotalsOk((orders + [o])[i], fills) {
      if i < |orders| {
        assert OrderTotalsOk(orders[i], fills);
      }
    }
  }

  lemma NewOrderFees(rules: seq<Fees.FeeRule>, o: Order, fees: Fees.FeeState)
    requires o.filled == 0.0 && o.filledNotional == 0.0 && forall key <- fees.accumulators :: key.2 != o.orderId
    ensures OrderFeesOk(rules, o, fees, FeeLines.NOTHING)
  {
    hide FeeLines.LinearLine;
  }

  lemma {:induction false} NoLastTrade(orderId: nat, fills: seq<Fill>)
    requires forall f <- fills :: f.orderId != orderId
    ensures LastTrade(orderId, fills) == FeeLines.NOTHING
    decreases |fills|
  {
    if fills == [] {
    } else {
      NoLastTrade(orderId, fills[..|fills| - 1]);
    }
  }

  lemma AddedFees(rules: seq<Fees.FeeRule>, orders: seq<Order>, o: Order, fees: Fees.FeeState, fills: seq<Fill>)
    requires OrderOk(o, |orders|) && o.status == New && FeesOk(rules, orders, fees, fills)
    requires forall f <- fills :: f.orderId != o.orderId
    ensures FeesOk(rules, orders + [o], fees, fills)
  {
    hide OrderFeesOk, LastTrade;
    forall i | 0 <= i < |orders + [o]|
      ensures OrderFeesOk(rules, (orders + [o])[i], fees, LastTrade((orders + [o])[i].orderId, fills))
    {
      if i < |orders| {
        assert OrderFeesOk(rules, orders[i], fees, LastTrade(orders[i].orderId, fills));
      } else {
        NoLastTrade(o.orderId, fills);
        NewOrderFees(rules, o, fees);
      }
    }
  }

  lemma AddedGrows(a: seq<Order>, o: Order)
    ensures OrdersEvolve(a, a + [o]) && OcoKept(a, a + [o])
  {
    forall n: nat, group: string | group != "" && OcoExclusive(a, n, group) ensures OcoExclusive(a + [o], n, group) {
    }
  }

  lemma AddOrderStep(p: Params, initial: real, candle: Candle, s: State, intent: Intent, defer: bool)
    requires Inv(p, initial, s)
    ensures var r := AddOrder(s, intent, defer);
      r.Ok? ==>
        && Step(p, initial, candle, s, r.value) && r.value.fills == s.fills && r.value.budget == s.budget
        && r.value.book.orders == s.book.orders + [NewOrder(s, intent, intent.side.value)]
        && intent.side.Some? && intent.quantity > 0.0
  {
    hide *;
    var r := AddOrder(s, intent, defer);
    if r.Ok? {
      InvParts(p, initial, s);
      NewOrderIs(s, intent, defer);
      var o := NewOrder(s, intent, intent.side.value);
      AddedParts(p, initial, s, o, r.value);
      InvFromParts(p, initial, r.value);
      AddedStep(p, candle, s, o, r.value);
      StepFrom(p, initial, candle, s, r.value);
    }
  }

  lemma NewOrderIs(s: State, intent: Intent, defer: bool)
    requires AddOrder(s, intent, defer).Ok?
    ensures intent.side.Some? && intent.quantity > 0.0 && intent.id !in s.ids
    ensures var o := NewOrder(s, intent, intent.side.value);
      && AddOrder(s, intent, defer).value == Append(s, o, defer) && Adds(s, o, Append(s, o, defer))
      && NewTerms(s, o)
  {
    hide Trim;
  }

  /** The order is new, and the next one. */
  ghost predicate NewTerms(s: State, o: Order) {
    && o.orderId == s.nextOrderId + 1 && o.clientId !in s.ids && o.status == New && o.parentId == 0
    && o.quantity > 0.0 && o.remaining == o.quantity && o.filled == o.filledNotional == 0.0
    && o.closingQuantity == o.closingPnl == 0.0 && !o.closingFinalized && o.filledAt == None
  }

  /** `r` is `s` with order `o` appended. */
  ghost predicate Adds(s: State, o: Order, r: State) {
    r == s.(nextOrderId := s.nextOrderId + 1, book := s.book.(orders := s.book.orders + [o]),
            ids := s.ids[o.clientId := |s.book.orders|], matching := r.matching)
  }

  lemma NewTermsOk(p: Params, initial: real, s: State, o: Order)
    requires AllParts(p, initial, s) && NewTerms(s, o)
    ensures OrderOk(o, |s.book.orders|)
  {
    hide BookOk, IdsOk, Ledger.Balanced, LedgerOk, TotalsOk, ClosingsOk, FillsOk, FeesOk;
  }

  lemma AddedParts(p: Params, initial: real, s: State, o: Order, r: State)
    requires AllParts(p, initial, s) && NewTerms(s, o) && Adds(s, o, r)
    ensures AllParts(p, initial, r)
  {
    hide BookOk, IdsOk, Ledger.Balanced, TotalsOk, ClosingsOk, FillsOk, FeesOk, OrderOk, Sum;
    NewTermsOk(p, initial, s, o);
    AddedBook(s.book, o);
    AddedTotals(p, s.book.orders, o, s.fills);
    AddedClosings(s.book.orders, o, s.fills);
    AddedFees(p.rules, s.book.orders, o, s.fees, s.fills);
    IdsAdded(s.book.orders, o, s.ids);
  }

  lemma AddedStep(p: Params, candle: Candle, s: State, o: Order, r: State)
    requires Adds(s, o, r)
    ensures Grows(s, r) && TradesOn(p, candle, s, r)
    ensures r.fills == s.fills && r.budget == s.budget && r.book.orders == s.book.orders + [o]
  {
    AddedGrows(s.book.orders, o);
    hide OrdersEvolve, OcoKept, OnBar, Sum;
  }

  lemma IdsAdded(orders: seq<Order>, o: Order, ids: map<string, nat>)
    requires IdsOk(orders, ids) && o.clientId !in ids
    ensures IdsOk(orders + [o], ids[o.clientId := |orders|])
  {
  }

  /** The orders from `first` on are new: none has traded or been cancelled. */
  ghost predicate NewFrom(orders: seq<Order>, first: nat) {
    forall k | first <= k < |orders| :: orders[k].status == New
  }

  /** The orders of a group, all new, stand after the first `n` orders. */
  ghost predicate Appended(orders: seq<Order>, group: seq<Intent>, n: nat) {
    && |orders| == n + |group|
    && forall k | n <= k < |orders| :: orders[k].clientId == group[k - n].id && orders[k].status == New
  }

  lemma AppendedOne(a: seq<Order>, o: Order, b: seq<Order>, group: seq<Intent>)
    requires group != [] && o.clientId == group[0].id && o.status == New
    requires a + [o] <= b && Appended(b, group[1..], |a| + 1)
    ensures Appended(b, group, |a|)
  {
    forall k | |a| <= k < |b| ensures b[k].clientId == group[k - |a|].id && b[k].status == New {
      if k == |a| {
        assert b[k] == (a + [o])[k];
      } else {
        assert group[k - |a|] == group[1..][k - (|a| + 1)];
      }
    }
  }

  lemma AppendedNew(orders: seq<Order>, group: seq<Intent>, n: nat)
    requires Appended(orders, group, n)
    ensures NewFrom(orders, n)
  {
  }

  lemma AddOrderShape(s: State, intent: Intent, defer: bool)
    requires AddOrder(s, intent, defer).Ok?
    ensures var r := AddOrder(s, intent, defer).value;
      && r.fills == s.fills && r.budget == s.budget && |r.book.orders| == |s.book.orders| + 1
      && var o := r.book.orders[|s.book.orders|];
        r.book.orders == s.book.orders + [o] && o.clientId == intent.id && o.status == New
  {
  }

  lemma {:induction false} AddOrdersShape(s: State, group: seq<Intent>)
    requires Indexed(s)
    ensures var r := AddOrders(s, group);
      r.Ok? ==>
        && r.value.fills == s.fills && r.value.budget == s.budget && s.book.orders <= r.value.book.orders
        && Appended(r.value.book.orders, group, |s.book.orders|)
    decreases |group|
  {
    var r := AddOrders(s, group);
    if group != [] && r.Ok? {
      var next := AddOrder(s, group[0], true).value;
      AddOrderShape(s, group[0], true);
      AddOrdersShape(next, group[1..]);
      AppendedOne(s.book.orders, next.book.orders[|s.book.orders|], r.value.book.orders, group);
    }
  }

  lemma {:induction false} AddOrdersStep(p: Params, initial: real, candle: Candle, s: State, group: seq<Intent>)
    requires Inv(p, initial, s) && Indexed(s)
    ensures var r := AddOrders(s, group);
      r.Ok? ==> Step(p, initial, candle, s, r.value)
    decreases |group|
  {
    var r := AddOrders(s, group);
    if group == [] {
      SameStep(p, initial, candle, s);
    } else if r.Ok? {
      AddOrderStep(p, initial, candle, s, group[0], true);
      var next := AddOrder(s, group[0], true).value;
      AddOrdersStep(p, initial, candle, next, group[1..]);
      StepTransitive(p, initial, candle, s, next, r.value);
    }
  }

  // ---- linking ---------------------------------------------------------------------------

  lemma TouchMoves(b: Book, i: nat, o: Order)
    requires BookOk(b) && i < |b.orders| && SameAccount(b.orders[i], o) && ParentsOk(b.orders[i := o])
    requires b.orders[i].stopTriggered ==> o.stopTriggered
    ensures BookMoves(b, b.(orders := b.orders[i := o]))
  {
    TouchOrder(b, i, o);
    forall k | 0 <= k < |b.orders| ensures Evolves(b.orders[k], b.orders[i := o][k]) {
    }
  }

  /** A new order may be hung under a new order. */
  lemma HangMoves(b: Book, child: nat, parent: nat)
    requires BookOk(b) && child < |b.orders| && parent < |b.orders|
    requires b.orders[child].status == New && b.orders[parent].status == New
    ensures BookMoves(b, b.(orders := b.orders[child := b.orders[child].(parentId := b.orders[parent].orderId)]))
  {
    var o := b.orders[child].(parentId := b.orders[parent].orderId);
    var orders := b.orders[child := o];
    assert OrderOk(b.orders[parent], parent) && OrderOk(b.orders[child], child);
    forall k | 0 <= k < |orders| ensures ParentOk(orders, k) {
      assert ParentOk(b.orders, k);
    }
    TouchMoves(b, child, o);
  }

  lemma MarkParentMoves(b: Book, parent: nat)
    requires BookOk(b) && parent < |b.orders|
    ensures BookMoves(b, b.(orders := b.orders[parent := b.orders[parent].(hasChildren := true)]))
  {
    var orders := b.orders[parent := b.orders[parent].(hasChildren := true)];
    forall k | 0 <= k < |orders| ensures ParentOk(orders, k) {
      assert ParentOk(b.orders, k);
    }
    TouchMoves(b, parent, orders[parent]);
  }

  lemma LinkOneStep(p: Params, initial: real, candle: Candle, s: State, intent: Intent, index: nat)
    requires Inv(p, initial, s) && Knows(s, index) && s.book.orders[index].status == New
    requires intent.parentId != "" ==>
      intent.parentId in s.ids && Knows(s, s.ids[intent.parentId])
      && s.book.orders[s.ids[intent.parentId]].status == New
    ensures var r := LinkOne(s, intent, index);
      r.Ok? && Step(p, initial, candle, s, r.value)
  {
    if intent.parentId == "" {
      SameStep(p, initial, candle, s);
    } else {
      InvParts(p, initial, s);
      var parent := s.ids[intent.parentId];
      HangMoves(s.book, index, parent);
      var child := s.book.orders[index].(parentId := s.book.orders[parent].orderId);
      var hung := s.book.(orders := s.book.orders[index := child]);
      BookStep(p, initial, candle, s, hung);
      MarkParentMoves(hung, parent);
      var marked := hung.(orders := hung.orders[parent := hung.orders[parent].(hasChildren := true)]);
      BookStep(p, initial, candle, s.(book := hung), marked);
      StepTransitive(p, initial, candle, s, s.(book := hung), s.(book := marked));
    }
  }

  /** Every parent named by the group is one of the new orders. */
  ghost predicate ParentsNew(s: State, group: seq<Intent>, first: nat) {
    forall k | 0 <= k < |group| && group[k].parentId != "" ::
      group[k].parentId in s.ids && first <= s.ids[group[k].parentId] < |s.book.orders|
  }

  /** Linking moves no status, no fill, no id and no budget. */
  lemma LinkOneShape(s: State, intent: Intent, index: nat, first: nat)
    requires Knows(s, index) && NewFrom(s.book.orders, first) && LinkOne(s, intent, index).Ok?
    ensures var r := LinkOne(s, intent, index).value;
      NewFrom(r.book.orders, first) && r.ids == s.ids && |r.book.orders| == |s.book.orders|
  {
  }

  lemma ParentsNewRest(s: State, next: State, group: seq<Intent>, first: nat)
    requires group != [] && ParentsNew(s, group, first) && next.ids == s.ids && |next.book.orders| == |s.book.orders|
    ensures ParentsNew(next, group[1..], first)
  {
    assert forall k | 0 <= k < |group[1..]| :: group[1..][k] == group[k + 1];
  }

  lemma LinkHeadStep(p: Params, initial: real, candle: Candle, s: State, group: seq<Intent>, index: nat, first: nat)
    requires Inv(p, initial, s) && group != [] && first <= index && index + |group| <= |s.book.orders|
    requires NewFrom(s.book.orders, first) && ParentsNew(s, group, first)
    ensures var next := LinkOne(s, group[0], index);
      && next.Ok? && Step(p, initial, candle, s, next.value)
      && NewFrom(next.value.book.orders, first) && ParentsNew(next.value, group[1..], first)
      && Link(s, group, index) == Link(next.value, group[1..], index + 1)
  {
    assert s.book.orders[index].status == New;
    LinkOneStep(p, initial, candle, s, group[0], index);
    LinkOneShape(s, group[0], index, first);
    ParentsNewRest(s, LinkOne(s, group[0], index).value, group, first);
  }

  lemma LinkNone(s: State, group: seq<Intent>, index: nat)
    requires group == [] && index <= |s.book.orders|
    ensures Link(s, group, index) == Ok(s)
  {
  }

  lemma {:induction false} LinkStep(p: Params, initial: real, candle: Candle, s: State, group: seq<Intent>, index: nat,
        first: nat) returns (r: State)
    requires Inv(p, initial, s) && first <= index && index + |group| <= |s.book.orders|
    requires NewFrom(s.book.orders, first) && ParentsNew(s, group, first)
    ensures Link(s, group, index) == Ok(r) && Step(p, initial, candle, s, r)
    decreases |group|
  {
    if group == [] {
      SameStep(p, initial, candle, s);
      r := s;
      LinkNone(s, group, index);
    } else {
      LinkHeadStep(p, initial, candle, s, group, index, first);
      var next := LinkOne(s, group[0], index).value;
      r := LinkStep(p, initial, candle, next, group[1..], index + 1, first);
      StepTransitive(p, initial, candle, s, next, r);
    }
  }

  lemma GroupParentsNew(s: State, group: seq<Intent>, first: nat)
    requires IdsOk(s.book.orders, s.ids) && Appended(s.book.orders, group, first) && ParentsLocal(group)
    ensures ParentsNew(s, group, first)
  {
    forall k | 0 <= k < |group| && group[k].parentId != ""
      ensures group[k].parentId in s.ids && first <= s.ids[group[k].parentId] < |s.book.orders|
    {
      assert group[k] in group;
      var parent :| parent in group && parent.id == group[k].parentId;
      var j :| 0 <= j < |group| && group[j] == parent;
      assert s.book.orders[first + j].clientId == parent.id;
    }
  }

  lemma PlaceGroupStep(p: Params, initial: real, candle: Candle, s: State, group: seq<Intent>) returns (placed: State)
    requires Inv(p, initial, s) && Indexed(s) && ParentsLocal(group) && AddOrders(s, group).Ok?
    ensures PlaceGroup(s, group) == Ok(placed) && Step(p, initial, candle, s, placed)
  {
    var added := AddOrders(s, group).value;
    AddOrdersStep(p, initial, candle, s, group);
    AddOrdersShape(s, group);
    assert Holds(OfIds, p, initial, added);
    AppendedNew(added.book.orders, group, |s.book.orders|);
    GroupParentsNew(added, group, |s.book.orders|);
    placed := LinkStep(p, initial, candle, added, group, |s.book.orders|, |s.book.orders|);
    StepTransitive(p, initial, candle, s, added, placed);
  }

  lemma ReleaseGroupStep(p: Params, initial: real, candle: Candle, placed: State, first: nat)
    requires Inv(p, initial, placed) && Indexed(placed) && first <= |placed.book.orders| && placed.bar == Some(candle)
    ensures var r := ReleaseGroup(p, placed, first);
      r.Ok? ==> Step(p, initial, candle, placed, r.value)
  {
    var queue := ByPriority(placed.book.orders, first, |placed.book.orders|);
    var queued := Queued(placed, queue);
    SideStep(p, initial, candle, placed, queued);
    if p.onClose {
      FillEachStep(p, initial, queued, queue, candle);
      var r := FillEach(p, queued, queue, candle);
      if r.Ok? {
        StepTransitive(p, initial, candle, placed, queued, r.value);
      }
    }
  }

  /** A group of orders, linked, queued and perhaps matched at the close, is a step. */
  lemma SubmitAtomicStep(p: Params, initial: real, candle: Candle, s: State, groupId: string, group: seq<Intent>)
    requires Inv(p, initial, s) && Indexed(s) && s.bar == Some(candle)
    ensures var r := SubmitAtomic(p, s, groupId, group);
      r.Ok? ==> Step(p, initial, candle, s, r.value)
  {
    var r := SubmitAtomic(p, s, groupId, group);
    if r.Ok? {
      var placed := PlaceGroupStep(p, initial, candle, s, group);
      ReleaseGroupStep(p, initial, candle, placed, |s.book.orders|);
      StepTransitive(p, initial, candle, s, placed, r.value);
    }
  }

  lemma SubmitOneStep(p: Params, initial: real, candle: Candle, s: State, intent: Intent)
    requires Inv(p, initial, s) && Indexed(s) && s.bar == Some(candle)
    ensures var r := SubmitOne(p, s, intent);
      r.Ok? ==> Step(p, initial, candle, s, r.value)
  {
    var r := SubmitOne(p, s, intent);
    if r.Ok? {
      AddOrderStep(p, initial, candle, s, intent, false);
      var added := AddOrder(s, intent, false).value;
      if p.onClose {
        TryFillStep(p, initial, added, |s.book.orders|, candle, ClosePoint);
        StepTransitive(p, initial, candle, s, added, r.value);
      }
    }
  }

  lemma CancelTargetStep(p: Params, initial: real, candle: Candle, s: State, targetId: string)
    requires Inv(p, initial, s)
    ensures Step(p, initial, candle, s, CancelTarget(s, targetId))
  {
    var target := FindTarget(s, targetId);
    if target.None? || !Knows(s, target.value) {
      SameStep(p, initial, candle, s);
    } else {
      CancelStep(p, initial, candle, s, target.value, BarEnd(s));
    }
  }

  lemma ApplyIntentStep(p: Params, initial: real, candle: Candle, s: State, intents: seq<Intent>, intent: Intent)
    requires Inv(p, initial, s) && Indexed(s) && s.bar == Some(candle)
    ensures var r := ApplyIntent(p, s, intents, intent);
      r.Ok? ==> Step(p, initial, candle, s, r.value)
  {
    if intent.action == Cancel {
      CancelTargetStep(p, initial, candle, s, intent.targetId);
    } else if intent.atomicGroup == "" {
      SubmitOneStep(p, initial, candle, s, intent);
    } else if intent.atomicGroup in s.groups {
      SameStep(p, initial, candle, s);
    } else {
      var marked := s.(groups := s.groups + {intent.atomicGroup});
      SideStep(p, initial, candle, s, marked);
      SubmitAtomicStep(p, initial, candle, marked, intent.atomicGroup, InGroup(intents, intent.atomicGroup));
      var r := SubmitAtomic(p, marked, intent.atomicGroup, InGroup(intents, intent.atomicGroup));
      if r.Ok? {
        StepTransitive(p, initial, candle, s, marked, r.value);
      }
    }
  }

  lemma {:induction false} ApplyIntentsStep(p: Params, initial: real, candle: Candle, s: State, intents: seq<Intent>,
        from: nat)
    requires Inv(p, initial, s) && Indexed(s) && s.bar == Some(candle) && from <= |intents|
    ensures var r := ApplyIntents(p, s, intents, from);
      r.Ok? ==> Step(p, initial, candle, s, r.value)
    decreases |intents| - from
  {
    if from == |intents| {
      SameStep(p, initial, candle, s);
    } else {
      ApplyIntentStep(p, initial, candle, s, intents, intents[from]);
      var next := ApplyIntent(p, s, intents, intents[from]);
      if next.Ok? {
        ApplyIntentsStep(p, initial, candle, next.value, intents, from + 1);
        var r := ApplyIntents(p, next.value, intents, from + 1);
        if r.Ok? {
          StepTransitive(p, initial, candle, s, next.value, r.value);
        }
      }
    }
  }

  // ---- bars ------------------------------------------------------------------------------

  lemma StartBarKeeps(p: Params, initial: real, s: State, candle: Candle)
    requires Inv(p, initial, s)
    ensures Inv(p, initial, StartBar(s, candle)) && Grows(s, StartBar(s, candle))
  {
    InvParts(p, initial, s);
    InvFromParts(p, initial, StartBar(s, candle));
    GrowsRefl(s);
  }

  lemma ConsumeBarStep(p: Params, initial: real, s: State, candle: Candle)
    requires Inv(p, initial, s) && Indexed(s)
    ensures var r := ConsumeBar(p, s, candle);
      r.Ok? ==> Step(p, initial, candle, StartBar(s, candle), r.value)
  {
    var started, r := StartBar(s, candle), ConsumeBar(p, s, candle);
    StartBarKeeps(p, initial, s, candle);
    if candle.volume <= 0.0 && HasPending(s.book.orders) {
      WarnStep(p, initial, candle, started, ZeroVolume);
      var warned := WarnOnce(started, ZeroVolume);
      SideStep(p, initial, candle, warned, RecordEquity(warned, candle));
      StepTransitive(p, initial, candle, started, warned, RecordEquity(warned, candle));
    } else if r.Ok? {
      MatchAllStep(p, initial, started, started.matching, candle);
      var matched := MatchAll(p, started, started.matching, candle).value;
      SideStep(p, initial, candle, matched, RecordEquity(matched, candle));
      StepTransitive(p, initial, candle, started, matched, RecordEquity(matched, candle));
    }
  }

  /** A whole bar keeps the invariant, and trades within its own liquidity at its own prices. */
  lemma BarStep(p: Params, initial: real, s: State, candle: Candle, intents: seq<Intent>)
    requires Inv(p, initial, s) && Indexed(s)
    ensures var r := Bar(p, s, candle, intents);
      r.Ok? ==> Step(p, initial, candle, StartBar(s, candle), r.value) && Grows(s, r.value)
  {
    var started, r := StartBar(s, candle), Bar(p, s, candle, intents);
    if r.Ok? {
      StartBarKeeps(p, initial, s, candle);
      ConsumeBarStep(p, initial, s, candle);
      var consumed := ConsumeBar(p, s, candle).value;
      ApplyIntentsStep(p, initial, candle, consumed, intents, 0);
      StepTransitive(p, initial, candle, started, consumed, r.value);
      GrowsTransitive(s, started, r.value);
    }
  }
}
