/** Every order is matched at most once per bar: against the full bar if it was there before, and otherwise at the
    close. */
module Attempts {
  import opened Kernel
  import opened Matching
  import opened Orders
  import opened Backtest
  import opened Invariants
  import opened Filling
  import opened Progress
  import opened Runs
  import Fees
  import Ledger
  import Names

  /** The bar reaches the stop of the order. */
  predicate Touches(o: Order, candle: Candle, mode: MatchMode) {
    StopMarketPrice(o.side, o.stopPrice, candle, mode).Some?
  }

  lemma TouchesTerms(a: Order, b: Order, candle: Candle, mode: MatchMode)
    requires SameTerms(a, b) && Touches(a, candle, mode)
    ensures Touches(b, candle, mode)
  {
    hide StopMarketPrice;
  }

  // ---- one attempt -----------------------------------------------------------------------

  /** No order but a stop-limit order whose stop is touched has been armed. */
  ghost predicate ArmsOnly(a: seq<Order>, b: seq<Order>, i: nat, candle: Candle, mode: MatchMode) {
    && |a| == |b| && i < |a|
    && forall j | 0 <= j < |a| :: b[j].stopTriggered == a[j].stopTriggered || (j == i && Touches(a[i], candle, mode))
  }

  /** Exactly one fill was added, of order `i` at its price; a stop-limit order had been armed before. */
  ghost predicate FillsOnce(p: Params, a: State, b: State, i: nat, candle: Candle, mode: MatchMode)
    requires i < |a.book.orders|
  {
    var o, n := a.book.orders[i], |a.fills|;
    && |b.fills| == n + 1 && a.fills <= b.fills && b.fills[n].orderId == o.orderId
    && PricedBy(p, o, candle, mode, b.fills[n])
    && (o.orderType.StopLimit? ==> o.stopTriggered)
  }

  ghost predicate FillsOnly(p: Params, a: State, b: State, i: nat, candle: Candle, mode: MatchMode) {
    i < |a.book.orders| && (b.fills == a.fills || FillsOnce(p, a, b, i, candle, mode))
  }

  ghost predicate Attempt(p: Params, a: State, b: State, i: nat, candle: Candle, mode: MatchMode) {
    && ArmsOnly(a.book.orders, b.book.orders, i, candle, mode)
    && FillsOnly(p, a, b, i, candle, mode)
  }

  lemma OnlyCancelsArms(a: seq<Order>, b: seq<Order>, at: Option<int>, i: nat, candle: Candle, mode: MatchMode)
    requires OnlyCancels(a, b, at) && i < |a|
    ensures ArmsOnly(a, b, i, candle, mode)
  {
    hide Touches;
  }

  ghost predicate SameArms(a: seq<Order>, b: seq<Order>) {
    |a| == |b| && forall j | 0 <= j < |a| :: b[j].stopTriggered == a[j].stopTriggered
  }

  lemma CancelAllArms(b: Book, targets: seq<nat>, at: Option<int>)
    requires Indices(targets, |b.orders|)
    ensures SameArms(b.orders, CancelAll(b, targets, at).orders)
  {
    hide CancelAll;
    assert OnlyCancels(b.orders, CancelAll(b, targets, at).orders, at);
  }

  lemma SettleBookArms(b: Book, i: nat)
    requires i < |b.orders|
    ensures SameArms(b.orders, SettleBook(b, i).orders)
  {
    hide CancelAll, Siblings;
    var o := b.orders[i];
    var settled := if o.status.Closed() then Finalize(b, i) else b;
    CancelAllArms(settled, Siblings(settled.orders, i, o.ocoGroup, 0), o.filledAt);
  }

  lemma RecordFillArms(s: State, i: nat, quantity: real, price: real, at: int, closed: real, realized: real,
        fees: Fees.AppliedFees)
    requires Knows(s, i) && RecordFill(s, i, quantity, price, at, closed, realized, fees).Ok?
    ensures SameArms(s.book.orders, RecordFill(s, i, quantity, price, at, closed, realized, fees).value.book.orders)
  {
  }

  lemma SettleFillBook(p: Params, s: State, i: nat, quantity: real, price: real)
    requires Knows(s, i) && SettleFill(p, s, i, quantity, price).Ok?
    ensures SettleFill(p, s, i, quantity, price).value.state.book == s.book
  {
    hide Ledger.ApplyFill, Fees.Apply;
  }

  lemma ApplyFillArms(p: Params, s: State, i: nat, quantity: real, price: real, at: int)
    requires Knows(s, i) && ApplyFill(p, s, i, quantity, price, at).Ok?
    ensures SameArms(s.book.orders, ApplyFill(p, s, i, quantity, price, at).value.book.orders)
  {
    hide SettleFill, RecordFill, SettleBook;
    var settled := SettleFill(p, s, i, quantity, price).value;
    SettleFillBook(p, s, i, quantity, price);
    RecordFillArms(settled.state, i, quantity, price, at, settled.closed, settled.realized, settled.fees);
    var recorded := RecordFill(settled.state, i, quantity, price, at, settled.closed, settled.realized,
      settled.fees).value;
    SettleBookArms(recorded.book, i);
  }

  lemma ExecuteAttempt(p: Params, initial: real, s: State, i: nat, candle: Candle, mode: MatchMode, price: real,
        r: State)
    requires Inv(p, initial, s) && Knows(s, i) && MayTrade(s.book.orders, i) && s.budget > 0.0 && price > 0.0
    requires PriceOk(p, s.book.orders[i], candle, mode, price)
    requires Execute(p, s, i, price, EventTime(candle, mode)) == Ok(r)
    ensures Attempt(p, s, r, i, candle, mode)
  {
    hide Inv, IsMultiple, Tradable, ApplyFill, CancelOrder, Touches, PriceOn, Fillable, Grows;
    var at := EventTime(candle, mode);
    var wanted := Tradable(s, s.book.orders[i]);
    if wanted.None? {
      OnlyCancelsArms(s.book.orders, r.book.orders, Some(at), i, candle, mode);
    } else {
      var quantity := TruncateToIncrement(wanted.value, p.quantityStep).value;
      if quantity > 0.0 && !(p.minQuantity > 0.0 && quantity < p.minQuantity) {
        TradableFillable(p, s, i, candle, mode, price, quantity);
        ApplyFillKeeps(p, initial, s, i, quantity, price, at);
        ApplyFillArms(p, s, i, quantity, price, at);
        GrowsFills(s, ApplyFill(p, s, i, quantity, price, at).value);
      }
    }
  }

  lemma GrowsFills(a: State, b: State)
    requires Grows(a, b)
    ensures a.fills <= b.fills
  {
    hide OrdersEvolve, OcoKept;
  }

  lemma MatchPriceAttempt(p: Params, s: State, i: nat, candle: Candle, mode: MatchMode, m: Matched)
    requires Knows(s, i) && MatchPrice(p, s, i, candle, mode) == Ok(m)
    ensures Attempt(p, s, m.state, i, candle, mode)
  {
    hide ApplySlippage, LimitPrice, StopMarketPrice, PriceOn;
  }

  lemma TryFillAttempt(p: Params, initial: real, s: State, i: nat, candle: Candle, mode: MatchMode, r: State)
    requires Inv(p, initial, s) && Knows(s, i) && TryFill(p, s, i, candle, mode) == Ok(r)
    ensures Attempt(p, s, r, i, candle, mode)
  {
    hide Inv, TryFill, Execute, MatchPrice, MayTrade, PriceOk;
    var m := MatchPrice(p, s, i, candle, mode);
    TryFillOutcome(p, s, i, candle, mode);
    if m.Ok? {
      MatchPriceAttempt(p, s, i, candle, mode, m.value);
    }
    if r != s && !(m.Ok? && r == m.value.state) {
      ExecuteAttempt(p, initial, s, i, candle, mode, m.value.price.value, r);
    }
  }

  // ---- one bar ---------------------------------------------------------------------------

  /** How the orders from before the bar are matched, and those submitted during it. */
  function ModeOf(a: State, i: nat): MatchMode {
    if i < |a.book.orders| then FullBar else ClosePoint
  }

  predicate ArmedBefore(a: State, i: nat) {
    i < |a.book.orders| && a.book.orders[i].stopTriggered
  }

  /** A fill since `a`: at the price of its order in the mode of that order; a stop-limit order was armed before the
      bar. */
  ghost predicate NewFill(p: Params, candle: Candle, a: State, b: State, n: nat)
    requires n < |b.fills|
  {
    var i := IndexOf(b.fills[n].orderId);
    && 0 <= i < |b.book.orders|
    && PricedBy(p, b.book.orders[i], candle, ModeOf(a, i), b.fills[n])
    && (i >= |a.book.orders| ==> p.onClose)
    && (b.book.orders[i].orderType.StopLimit? ==> ArmedBefore(a, i))
  }

  /** No order fills twice within the bar. */
  ghost predicate FillsDistinct(a: State, b: State) {
    forall m, n | |a.fills| <= m < n < |b.fills| :: b.fills[m].orderId != b.fills[n].orderId
  }

  /** Orders armed since `a` have been touched. */
  ghost predicate ArmedTouched(candle: Candle, a: State, b: State) {
    forall i: nat | i < |b.book.orders| && b.book.orders[i].stopTriggered ::
      ArmedBefore(a, i) || Touches(b.book.orders[i], candle, ModeOf(a, i))
  }

  /** Between `a`, the state before a bar, and `b`, a state within it, each order has been matched at most once. */
  ghost predicate Attempted(p: Params, candle: Candle, a: State, b: State) {
    && |a.book.orders| <= |b.book.orders| && a.fills <= b.fills
    && (forall n | |a.fills| <= n < |b.fills| :: NewFill(p, candle, a, b, n))
    && FillsDistinct(a, b) && ArmedTouched(candle, a, b)
  }

  /** Order `i` has not been matched in this bar. */
  ghost predicate Untried(a: State, b: State, i: nat) {
    && i < |b.book.orders|
    && (b.book.orders[i].stopTriggered ==> ArmedBefore(a, i))
    && forall n | |a.fills| <= n < |b.fills| :: b.fills[n].orderId != b.book.orders[i].orderId
  }

  ghost predicate AllUntried(a: State, b: State, queue: seq<nat>) {
    forall n | 0 <= n < |queue| :: Untried(a, b, queue[n])
  }

  ghost predicate Distinct(queue: seq<nat>) {
    forall m, n | 0 <= m < n < |queue| :: queue[m] != queue[n]
  }

  lemma NewFillLater(p: Params, candle: Candle, a: State, s: State, r: State, n: nat)
    requires n < |s.fills| <= |r.fills| && r.fills[n] == s.fills[n] && NewFill(p, candle, a, s, n)
    requires OrdersEvolve(s.book.orders, r.book.orders)
    ensures NewFill(p, candle, a, r, n)
  {
    hide PriceOn;
    var i := IndexOf(s.fills[n].orderId);
    assert Evolves(s.book.orders[i], r.book.orders[i]);
    PriceOnTerms(p, s.book.orders[i], r.book.orders[i], candle, ModeOf(a, i), s.fills[n].price);
  }

  lemma AttemptFill(p: Params, candle: Candle, a: State, s: State, r: State, i: nat)
    requires Untried(a, s, i) && OrderOk(s.book.orders[i], i) && OrdersEvolve(s.book.orders, r.book.orders)
    requires i >= |a.book.orders| ==> p.onClose
    requires FillsOnce(p, s, r, i, candle, ModeOf(a, i))
    ensures NewFill(p, candle, a, r, |s.fills|)
  {
    hide PriceOn;
    assert Evolves(s.book.orders[i], r.book.orders[i]);
    PriceOnTerms(p, s.book.orders[i], r.book.orders[i], candle, ModeOf(a, i), r.fills[|s.fills|].price);
  }

  lemma AttemptFills(p: Params, candle: Candle, a: State, s: State, r: State, i: nat)
    requires Attempted(p, candle, a, s) && Untried(a, s, i) && OrdersOk(s.book.orders)
    requires OrdersEvolve(s.book.orders, r.book.orders)
    requires i >= |a.book.orders| ==> p.onClose
    requires FillsOnly(p, s, r, i, candle, ModeOf(a, i))
    ensures a.fills <= r.fills && FillsDistinct(a, r) && forall n | |a.fills| <= n < |r.fills| ::
      NewFill(p, candle, a, r, n)
  {
    hide PricedBy, OrdersEvolve, ArmedTouched, Evolves;
    assert OrderOk(s.book.orders[i], i);
    forall n | |a.fills| <= n < |r.fills| ensures NewFill(p, candle, a, r, n) {
      if n < |s.fills| {
        NewFillLater(p, candle, a, s, r, n);
      } else {
        AttemptFill(p, candle, a, s, r, i);
      }
    }
  }

  lemma AttemptArms(candle: Candle, a: State, s: State, r: State, i: nat)
    requires ArmedTouched(candle, a, s) && OrdersEvolve(s.book.orders, r.book.orders)
    requires ArmsOnly(s.book.orders, r.book.orders, i, candle, ModeOf(a, i))
    ensures ArmedTouched(candle, a, r)
  {
    hide Touches;
    forall j: nat | j < |r.book.orders| && r.book.orders[j].stopTriggered
      ensures ArmedBefore(a, j) || Touches(r.book.orders[j], candle, ModeOf(a, j))
    {
      assert Evolves(s.book.orders[j], r.book.orders[j]);
      if !ArmedBefore(a, j) {
        assert Touches(s.book.orders[j], candle, ModeOf(a, j));
        TouchesTerms(s.book.orders[j], r.book.orders[j], candle, ModeOf(a, j));
      }
    }
  }

  lemma AttemptLeaves(p: Params, candle: Candle, a: State, s: State, r: State, i: nat, j: nat, mode: MatchMode)
    requires Attempt(p, s, r, i, candle, mode) && OrdersOk(s.book.orders) && OrdersEvolve(s.book.orders, r.book.orders)
    requires Untried(a, s, j) && i != j && |a.fills| <= |s.fills|
    ensures Untried(a, r, j)
  {
    hide PricedBy, Touches;
    assert OrderOk(s.book.orders[i], i) && OrderOk(s.book.orders[j], j) && Evolves(s.book.orders[j], r.book.orders[j]);
  }

  /** Trying an order that has not been tried in this bar. */
  lemma AttemptExtends(p: Params, initial: real, candle: Candle, a: State, s: State, r: State, i: nat)
    requires Attempted(p, candle, a, s) && Untried(a, s, i) && Inv(p, initial, s)
    requires i >= |a.book.orders| ==> p.onClose
    requires TryFill(p, s, i, candle, ModeOf(a, i)) == Ok(r)
    ensures Attempted(p, candle, a, r) && Step(p, initial, candle, s, r) && |r.book.orders| == |s.book.orders|
    ensures forall j: nat | j != i && Untried(a, s, j) :: Untried(a, r, j)
  {
    TryFillAttempt(p, initial, s, i, candle, ModeOf(a, i), r);
    TryFillStep(p, initial, s, i, candle, ModeOf(a, i));
    StepFacts(p, initial, candle, s, r);
    hide Inv, TryFill, NewFill, FillsDistinct, ArmedTouched, Untried, FillsOnly, Step, OrdersOk, OrdersEvolve, ModeOf;
    AttemptFills(p, candle, a, s, r, i);
    AttemptArms(candle, a, s, r, i);
    forall j: nat | j != i && Untried(a, s, j) ensures Untried(a, r, j) {
      AttemptLeaves(p, candle, a, s, r, i, j, ModeOf(a, i));
    }
  }

  lemma StepFacts(p: Params, initial: real, candle: Candle, s: State, r: State)
    requires Inv(p, initial, s) && Step(p, initial, candle, s, r)
    ensures OrdersOk(s.book.orders) && OrdersEvolve(s.book.orders, r.book.orders) && Inv(p, initial, r)
  {
    assert Holds(OfBook, p, initial, s);
    hide OrderOk, Evolves, TradesOn, OcoKept;
  }

  // ---- every operation of a bar ----------------------------------------------------------

  lemma QueueRest(a: State, s: State, r: State, queue: seq<nat>)
    requires queue != [] && AllUntried(a, s, queue) && Distinct(queue)
    requires forall j: nat | j != queue[0] && Untried(a, s, j) :: Untried(a, r, j)
    ensures AllUntried(a, r, queue[1..]) && Distinct(queue[1..])
  {
    hide Untried;
    forall n | 0 <= n < |queue[1..]| ensures Untried(a, r, queue[1..][n]) {
      assert Untried(a, s, queue[n + 1]);
    }
  }

  lemma {:induction false} MatchAllAttempts(p: Params, initial: real, candle: Candle, a: State, s: State,
        queue: seq<nat>, r: State)
    requires Attempted(p, candle, a, s) && Inv(p, initial, s) && AllUntried(a, s, queue) && Distinct(queue)
    requires Indices(queue, |s.book.orders|) && Indices(queue, |a.book.orders|)
    requires MatchAll(p, s, queue, candle) == Ok(r)
    ensures Attempted(p, candle, a, r)
    decreases |queue|
  {
    hide Attempted, Inv, Untried, TryFill, Step;
    if queue == [] {
    } else {
      var next := TryFill(p, s, queue[0], candle, FullBar).value;
      assert Untried(a, s, queue[0]);
      AttemptExtends(p, initial, candle, a, s, next, queue[0]);
      StepFacts(p, initial, candle, s, next);
      QueueRest(a, s, next, queue);
      if next.budget > 0.0 {
        MatchAllAttempts(p, initial, candle, a, next, queue[1..], r);
      }
    }
  }

  lemma {:induction false} FillEachAttempts(p: Params, initial: real, candle: Candle, a: State, s: State,
        queue: seq<nat>, r: State)
    requires Attempted(p, candle, a, s) && Inv(p, initial, s) && AllUntried(a, s, queue) && Distinct(queue) && p.onClose
    requires Indices(queue, |s.book.orders|) && (forall n | 0 <= n < |queue| :: queue[n] >= |a.book.orders|)
    requires FillEach(p, s, queue, candle) == Ok(r)
    ensures Attempted(p, candle, a, r)
    decreases |queue|
  {
    hide Attempted, Inv, Untried, TryFill, Step;
    if queue == [] {
    } else {
      var next := TryFill(p, s, queue[0], candle, ClosePoint).value;
      assert Untried(a, s, queue[0]);
      AttemptExtends(p, initial, candle, a, s, next, queue[0]);
      StepFacts(p, initial, candle, s, next);
      QueueRest(a, s, next, queue);
      FillEachAttempts(p, initial, candle, a, next, queue[1..], r);
    }
  }

  /** Adding unarmed orders, or changing nothing that an attempt looks at. */
  lemma QuietKeeps(p: Params, candle: Candle, a: State, s: State, r: State)
    requires Attempted(p, candle, a, s) && r.fills == s.fills && OrdersEvolve(s.book.orders, r.book.orders)
    requires forall i: nat | i < |r.book.orders| && r.book.orders[i].stopTriggered ::
      i < |s.book.orders| && s.book.orders[i].stopTriggered
    ensures Attempted(p, candle, a, r)
  {
    hide Touches, PricedBy, Evolves;
    forall n | |a.fills| <= n < |r.fills| ensures NewFill(p, candle, a, r, n) {
      NewFillLater(p, candle, a, s, r, n);
    }
    forall j: nat | j < |r.book.orders| && r.book.orders[j].stopTriggered
      ensures ArmedBefore(a, j) || Touches(r.book.orders[j], candle, ModeOf(a, j))
    {
      assert Evolves(s.book.orders[j], r.book.orders[j]);
      if !ArmedBefore(a, j) {
        EvolvesTerms(s.book.orders[j], r.book.orders[j]);
        TouchesTerms(s.book.orders[j], r.book.orders[j], candle, ModeOf(a, j));
      }
    }
  }

  lemma EvolvesTerms(a: Order, b: Order)
    requires Evolves(a, b)
    ensures SameTerms(a, b)
  {
  }

  lemma FreshUntried(p: Params, candle: Candle, a: State, s: State, r: State, j: nat)
    requires Attempted(p, candle, a, s) && r.fills == s.fills && |s.book.orders| <= j < |r.book.orders|
    requires OrderOk(r.book.orders[j], j) && !r.book.orders[j].stopTriggered
    ensures Untried(a, r, j)
  {
    hide PricedBy;
    forall n | |a.fills| <= n < |r.fills| ensures r.fills[n].orderId != r.book.orders[j].orderId {
      assert NewFill(p, candle, a, s, n);
    }
  }

  lemma SubmitOneAttempts(p: Params, initial: real, candle: Candle, a: State, s: State, intent: Intent, r: State)
    requires Attempted(p, candle, a, s) && Inv(p, initial, s) && Indexed(s) && s.bar == Some(candle)
    requires SubmitOne(p, s, intent) == Ok(r)
    ensures Attempted(p, candle, a, r)
  {
    var added, n := AddOrder(s, intent, false).value, |s.book.orders|;
    assert |a.book.orders| <= n;
    AddOrderStep(p, initial, candle, s, intent, false);
    StepFacts(p, initial, candle, s, added);
    AddedOk(p, initial, added, n);
    hide Inv, Attempted, Untried, Step, TryFill, AddOrder, OrdersEvolve, OrderOk;
    QuietKeeps(p, candle, a, s, added);
    if p.onClose {
      FreshUntried(p, candle, a, s, added, n);
      AttemptExtends(p, initial, candle, a, added, r, n);
    }
  }

  lemma AddedOk(p: Params, initial: real, s: State, j: nat)
    requires Inv(p, initial, s) && j < |s.book.orders|
    ensures OrderOk(s.book.orders[j], j)
  {
    assert Holds(OfBook, p, initial, s);
    hide OrderOk;
  }

  /** No fill is added, and no order is armed. */
  ghost predicate Quiet(s: State, r: State) {
    && r.fills == s.fills && |s.book.orders| <= |r.book.orders|
    && forall i: nat | i < |r.book.orders| && r.book.orders[i].stopTriggered ::
         i < |s.book.orders| && s.book.orders[i].stopTriggered
  }

  lemma {:induction false} AddOrdersQuiet(s: State, group: seq<Intent>, r: State)
    requires Indexed(s) && AddOrders(s, group) == Ok(r)
    ensures Quiet(s, r)
    decreases |group|
  {
    if group == [] {
    } else {
      var next := AddOrder(s, group[0], true).value;
      AddOrderQuiet(s, group[0], true);
      hide AddOrder, Indexed;
      AddOrdersQuiet(next, group[1..], r);
    }
  }

  lemma AddOrderQuiet(s: State, intent: Intent, defer: bool)
    requires AddOrder(s, intent, defer).Ok?
    ensures Quiet(s, AddOrder(s, intent, defer).value)
  {
    hide ValidateSubmit;
  }

  lemma {:induction false} LinkQuiet(s: State, group: seq<Intent>, index: nat, r: State)
    requires index + |group| <= |s.book.orders| && Link(s, group, index) == Ok(r)
    ensures Quiet(s, r)
    decreases |group|
  {
    if group == [] {
    } else {
      LinkQuiet(LinkOne(s, group[0], index).value, group[1..], index + 1, r);
    }
  }

  lemma PlaceGroupQuiet(s: State, group: seq<Intent>, placed: State)
    requires Indexed(s) && PlaceGroup(s, group) == Ok(placed)
    ensures Quiet(s, placed)
  {
    hide AddOrders, Link, Indexed;
    var added := AddOrders(s, group).value;
    AddOrdersQuiet(s, group, added);
    LinkQuiet(added, group, |s.book.orders|, placed);
  }

  lemma PriorityDistinct(orders: seq<Order>, first: nat)
    requires first <= |orders|
    ensures var queue := ByPriority(orders, first, |orders|);
      Distinct(queue) && forall n | 0 <= n < |queue| :: first <= queue[n]
  {
    var queue := ByPriority(orders, first, |orders|);
    ByPrioritySorts(orders, first, |orders|);
    hide ByPriority, AtomicPriority;
    var range: set<nat> := Range(first, |orders|);
    Names.ListsElements(queue, range);
    forall n | 0 <= n < |queue| ensures first <= queue[n] {
      assert queue[n] in range;
    }
  }

  lemma AllFresh(p: Params, initial: real, candle: Candle, a: State, s: State, r: State, queue: seq<nat>)
    requires Attempted(p, candle, a, s) && Quiet(s, r) && Inv(p, initial, r)
    requires forall n | 0 <= n < |queue| :: |s.book.orders| <= queue[n] < |r.book.orders|
    ensures AllUntried(a, r, queue)
  {
    hide Attempted, Inv, OrderOk, Untried;
    forall n | 0 <= n < |queue| ensures Untried(a, r, queue[n]) {
      AddedOk(p, initial, r, queue[n]);
      FreshUntried(p, candle, a, s, r, queue[n]);
    }
  }

  lemma ReleaseAttempts(p: Params, initial: real, candle: Candle, a: State, s: State, placed: State, r: State)
    requires Attempted(p, candle, a, s) && Attempted(p, candle, a, placed) && Quiet(s, placed)
    requires Inv(p, initial, placed)
    requires Indexed(placed) && placed.bar == Some(candle) && |a.book.orders| <= |s.book.orders|
    requires ReleaseGroup(p, placed, |s.book.orders|) == Ok(r)
    ensures Attempted(p, candle, a, r)
  {
    var first := |s.book.orders|;
    var queue := ByPriority(placed.book.orders, first, |placed.book.orders|);
    var queued := Queued(placed, queue);
    SideStep(p, initial, candle, placed, queued);
    StepFacts(p, initial, candle, placed, queued);
    PriorityDistinct(placed.book.orders, first);
    hide Attempted, Inv, Untried, OrdersEvolve, Step, ByPriority, FillEach, Distinct;
    QuietKeeps(p, candle, a, placed, queued);
    if p.onClose {
      AllFresh(p, initial, candle, a, s, queued, queue);
      FillEachAttempts(p, initial, candle, a, queued, queue, r);
    }
  }

  lemma SubmitAtomicAttempts(p: Params, initial: real, candle: Candle, a: State, s: State, id: string,
        group: seq<Intent>, r: State)
    requires Attempted(p, candle, a, s) && Inv(p, initial, s) && Indexed(s) && s.bar == Some(candle)
    requires SubmitAtomic(p, s, id, group) == Ok(r)
    ensures Attempted(p, candle, a, r)
  {
    assert |a.book.orders| <= |s.book.orders|;
    hide Attempted, Inv, OrdersEvolve, Step, AddOrders, Link, ReleaseGroup, Quiet;
    var placed := PlaceGroupStep(p, initial, candle, s, group);
    StepFacts(p, initial, candle, s, placed);
    PlaceGroupQuiet(s, group, placed);
    QuietStep(p, candle, a, s, placed);
    ReleaseAttempts(p, initial, candle, a, s, placed, r);
  }

  lemma QuietStep(p: Params, candle: Candle, a: State, s: State, r: State)
    requires Attempted(p, candle, a, s) && Quiet(s, r) && OrdersEvolve(s.book.orders, r.book.orders)
    ensures Attempted(p, candle, a, r)
  {
    hide Attempted, OrdersEvolve;
    QuietKeeps(p, candle, a, s, r);
  }

  lemma CancelQuiet(s: State, targetId: string)
    ensures Quiet(s, CancelTarget(s, targetId))
  {
    hide CancelOrder, FindTarget;
  }

  lemma ApplyIntentAttempts(p: Params, initial: real, candle: Candle, a: State, s: State, intents: seq<Intent>,
        intent: Intent, r: State)
    requires Attempted(p, candle, a, s) && Inv(p, initial, s) && Indexed(s) && s.bar == Some(candle)
    requires ApplyIntent(p, s, intents, intent) == Ok(r)
    ensures Attempted(p, candle, a, r)
  {
    hide Attempted, Inv, Indexed, OrdersEvolve, Step, SubmitOne, SubmitAtomic, CancelTarget, Quiet;
    if intent.action == Cancel {
      CancelTargetStep(p, initial, candle, s, intent.targetId);
      StepFacts(p, initial, candle, s, r);
      CancelQuiet(s, intent.targetId);
      QuietStep(p, candle, a, s, r);
    } else if intent.atomicGroup == "" {
      SubmitOneAttempts(p, initial, candle, a, s, intent, r);
    } else if intent.atomicGroup !in s.groups {
      var marked := s.(groups := s.groups + {intent.atomicGroup});
      SideStep(p, initial, candle, s, marked);
      StepFacts(p, initial, candle, s, marked);
      MarkedQuiet(s, marked);
      QuietStep(p, candle, a, s, marked);
      IndexedMarked(s, marked);
      SubmitAtomicAttempts(p, initial, candle, a, marked, intent.atomicGroup, InGroup(intents, intent.atomicGroup), r);
    }
  }

  lemma MarkedQuiet(s: State, r: State)
    requires r.book == s.book && r.fills == s.fills
    ensures Quiet(s, r)
  {
  }

  lemma IndexedMarked(s: State, r: State)
    requires Indexed(s) && r.book == s.book && r.matching == s.matching
    ensures Indexed(r)
  {
  }

  lemma {:induction false} ApplyIntentsAttempts(p: Params, initial: real, candle: Candle, a: State, s: State,
        intents: seq<Intent>, from: nat, r: State)
    requires Attempted(p, candle, a, s) && Inv(p, initial, s) && Indexed(s) && s.bar == Some(candle)
    requires from <= |intents|
    requires ApplyIntents(p, s, intents, from) == Ok(r)
    ensures Attempted(p, candle, a, r)
    decreases |intents| - from
  {
    hide Attempted, Inv, Indexed, Step, ApplyIntent, OrdersEvolve;
    if from == |intents| {
    } else {
      var next := ApplyIntent(p, s, intents, intents[from]).value;
      ApplyIntentAttempts(p, initial, candle, a, s, intents, intents[from], next);
      ApplyIntentStep(p, initial, candle, s, intents, intents[from]);
      StepFacts(p, initial, candle, s, next);
      ApplyIntentsAttempts(p, initial, candle, a, next, intents, from + 1, r);
    }
  }

  lemma StartAttempted(p: Params, initial: real, s: State, candle: Candle)
    requires Inv(p, initial, s) && Indexed(s) && Queue(s)
    ensures var started := StartBar(s, candle);
      Attempted(p, candle, s, started) && AllUntried(s, started, s.matching) && Distinct(s.matching)
  {
    StartBarKeeps(p, initial, s, candle);
    Names.ListsElements(s.matching, Range(0, |s.book.orders|));
  }

  lemma ConsumeBarAttempts(p: Params, initial: real, s: State, candle: Candle, r: State)
    requires Inv(p, initial, s) && Indexed(s) && Queue(s) && ConsumeBar(p, s, candle) == Ok(r)
    ensures Attempted(p, candle, s, r)
  {
    var started := StartBar(s, candle);
    StartBarKeeps(p, initial, s, candle);
    StartAttempted(p, initial, s, candle);
    if candle.volume <= 0.0 && HasPending(s.book.orders) {
      EvolveRefl(started.book.orders);
      MarkedQuiet(started, r);
      QuietStep(p, candle, s, started, r);
    } else {
      hide Attempted, Inv, MatchAll, AllUntried, Distinct;
      var matched := MatchAll(p, started, started.matching, candle).value;
      MatchAllAttempts(p, initial, candle, s, started, started.matching, matched);
      EvolveRefl(matched.book.orders);
      MarkedQuiet(matched, r);
      QuietStep(p, candle, s, matched, r);
    }
  }

  lemma EvolveRefl(orders: seq<Order>)
    ensures OrdersEvolve(orders, orders)
  {
  }

  lemma BarAttempts(p: Params, initial: real, s: State, candle: Candle, intents: seq<Intent>, r: State)
    requires Inv(p, initial, s) && Indexed(s) && Queue(s) && Bar(p, s, candle, intents) == Ok(r)
    ensures Attempted(p, candle, s, r)
  {
    hide Attempted, Inv, Queue, ConsumeBar, ApplyIntents, Step;
    var consumed := ConsumeBar(p, s, candle).value;
    ConsumeBarAttempts(p, initial, s, candle, consumed);
    ConsumeBarStep(p, initial, s, candle);
    StepInv(p, initial, candle, StartBar(s, candle), consumed);
    ApplyIntentsAttempts(p, initial, candle, s, consumed, intents, 0, r);
  }

  // ---- every run -------------------------------------------------------------------------

  lemma {:induction false} HistoryAttempts(c: Case, states: seq<State>, k: nat)
    requires History(c, states) && k + 1 < |states|
    ensures k < |c.candles| && Attempted(c.params, c.candles[k], states[k], states[k + 1])
  {
    hide *;
    HistoryLeads(c, states, k);
    ReachableInvariant(c, states, k);
    QueuedOnce(c, states, k);
    LeadsBar(c, states, k);
    BarAttempts(c.params, c.initialBalance, states[k], c.candles[k], IntentsAt(c.intents, k), states[k + 1]);
  }

  lemma {:induction false} LeadsBar(c: Case, states: seq<State>, k: nat)
    requires k + 1 < |states| && k < |c.candles| && Leads(c, states, k)
    ensures Indexed(states[k]) && Bar(c.params, states[k], c.candles[k], IntentsAt(c.intents, k)) == Ok(states[k + 1])
  {
    hide Bar, IntentsAt, Indexed;
  }

  /** Within one bar no order fills more than once. */
  lemma {:induction false} OncePerBar(c: Case, states: seq<State>, k: nat, m: nat, n: nat)
    requires History(c, states) && k + 1 < |states| && |states[k].fills| <= m < n < |states[k + 1].fills|
    ensures states[k + 1].fills[m].orderId != states[k + 1].fills[n].orderId
  {
    hide History, NewFill, ArmedTouched;
    HistoryAttempts(c, states, k);
  }

  /** Bar `b` touches the stop of order `i`, which was there by the end of the bar: with its whole range an order from
      before, with its close an order submitted in it. */
  ghost predicate TouchedBy(c: Case, states: seq<State>, b: nat, i: nat, o: Order) {
    && b < |c.candles| && b + 1 < |states| && i < |states[b + 1].book.orders|
    && Touches(o, c.candles[b], ModeOf(states[b], i))
  }

  /** Some bar before bar `k` has touched the stop of order `i`. */
  ghost predicate TouchedBefore(c: Case, states: seq<State>, k: nat, i: nat, o: Order) {
    exists b: nat :: b < k && TouchedBy(c, states, b, i, o)
  }

  lemma {:induction false} TouchedTerms(c: Case, states: seq<State>, k: nat, n: nat, i: nat, a: Order, b: Order)
    requires SameTerms(a, b) && TouchedBefore(c, states, k, i, a) && k <= n
    ensures TouchedBefore(c, states, n, i, b)
  {
    hide Touches, SameTerms, ModeOf;
    var bar: nat :| bar < k && TouchedBy(c, states, bar, i, a);
    TouchesTerms(a, b, c.candles[bar], ModeOf(states[bar], i));
    assert TouchedBy(c, states, bar, i, b);
  }

  /** An order that is armed has had its stop touched by a bar since it was submitted. */
  lemma {:induction false} ArmedMeansTouched(c: Case, states: seq<State>, k: nat, i: nat)
    requires History(c, states) && k < |states| && i < |states[k].book.orders| && states[k].book.orders[i].stopTriggered
    ensures TouchedBefore(c, states, k, i, states[k].book.orders[i])
    decreases k
  {
    hide *;
    if k == 0 {
      NoOrders(c, states);
    } else {
      HistoryAttempts(c, states, k - 1);
      HistoryGrows(c, states, k - 1, k);
      ArmedEarlier(c, states, k - 1, i);
      if ArmedBefore(states[k - 1], i) {
        ArmedKnown(states[k - 1], i);
        ArmedMeansTouched(c, states, k - 1, i);
        GrowsTerms(states[k - 1], states[k], i);
        TouchedTerms(c, states, k - 1, k, i, states[k - 1].book.orders[i], states[k].book.orders[i]);
      }
    }
  }

  lemma {:induction false} NoOrders(c: Case, states: seq<State>)
    requires History(c, states)
    ensures |states| > 0 && states[0].book.orders == []
  {
    hide Leads;
  }

  lemma ArmedKnown(a: State, i: nat)
    requires ArmedBefore(a, i)
    ensures i < |a.book.orders| && a.book.orders[i].stopTriggered
  {
  }

  lemma GrowsTerms(a: State, b: State, i: nat)
    requires Grows(a, b) && i < |a.book.orders|
    ensures i < |b.book.orders| && SameTerms(a.book.orders[i], b.book.orders[i])
  {
    hide OcoKept, SameTerms;
    assert Evolves(a.book.orders[i], b.book.orders[i]);
  }

  lemma {:induction false} ArmedEarlier(c: Case, states: seq<State>, k: nat, i: nat)
    requires k < |c.candles| && k + 1 < |states| && Attempted(c.params, c.candles[k], states[k], states[k + 1])
    requires i < |states[k + 1].book.orders| && states[k + 1].book.orders[i].stopTriggered
    ensures ArmedBefore(states[k], i) || TouchedBefore(c, states, k + 1, i, states[k + 1].book.orders[i])
  {
    hide Touches, ArmedBefore, NewFill, FillsDistinct, ModeOf;
    if !ArmedBefore(states[k], i) {
      assert TouchedBy(c, states, k, i, states[k + 1].book.orders[i]);
    }
  }

  /** Every fill of bar `k` is on the terms of its order and at exactly the price that the bar offers that order:
      against the full bar for an order from before, at the close for an order of this bar. A stop-limit order trades
      only if an earlier bar, since its submission, has touched its stop. */
  lemma {:induction false} FillTerms(c: Case, states: seq<State>, k: nat, n: nat)
    requires History(c, states) && k + 1 < |states| && |states[k].fills| <= n < |states[k + 1].fills|
    ensures k < |c.candles| && 0 <= IndexOf(states[k + 1].fills[n].orderId) < |states[k + 1].book.orders|
    ensures var f := states[k + 1].fills[n]; var i := IndexOf(f.orderId); var o := states[k + 1].book.orders[i];
      && FillOk(c.params, o, f, Sum(SignedQuantity, states[k + 1].fills[..n]))
      && PricedBy(c.params, o, c.candles[k], if i < |states[k].book.orders| then FullBar else ClosePoint, f)
      && (i >= |states[k].book.orders| ==> c.params.onClose)
      && (o.orderType.StopLimit? ==> TouchedBefore(c, states, k, i, o))
  {
    hide *;
    HistoryAttempts(c, states, k);
    FillOfBar(c, states[k], states[k + 1], k, n);
    FillOfRun(c, states, k + 1, n);
    var i := IndexOf(states[k + 1].fills[n].orderId);
    var o := states[k + 1].book.orders[i];
    if o.orderType.StopLimit? {
      ArmedKnown(states[k], i);
      ArmedMeansTouched(c, states, k, i);
      HistoryGrows(c, states, k, k + 1);
      GrowsTerms(states[k], states[k + 1], i);
      TouchedTerms(c, states, k, k, i, states[k].book.orders[i], o);
    }
  }

  lemma FillOfBar(c: Case, a: State, b: State, k: nat, n: nat)
    requires k < |c.candles| && Attempted(c.params, c.candles[k], a, b) && |a.fills| <= n < |b.fills|
    ensures var i := IndexOf(b.fills[n].orderId);
      && 0 <= i < |b.book.orders|
      && PricedBy(c.params, b.book.orders[i], c.candles[k], if i < |a.book.orders| then FullBar
        else ClosePoint, b.fills[n])
      && (i >= |a.book.orders| ==> c.params.onClose)
      && (b.book.orders[i].orderType.StopLimit? ==> ArmedBefore(a, i))
  {
    hide PricedBy, FillsDistinct, ArmedTouched, IndexOf;
    assert NewFill(c.params, c.candles[k], a, b, n);
  }

  lemma {:induction false} FillOfRun(c: Case, states: seq<State>, k: nat, n: nat)
    requires History(c, states) && k < |states| && n < |states[k].fills|
    ensures var i := IndexOf(states[k].fills[n].orderId);
      0 <= i < |states[k].book.orders|
      && FillOk(c.params, states[k].book.orders[i], states[k].fills[n], Sum(SignedQuantity, states[k].fills[..n]))
  {
    ReachableParts(c, states, k);
    hide History, FillOk, Sum, IndexOf;
    assert FillAtOk(c.params, states[k].book.orders, states[k].fills, n);
  }
}
