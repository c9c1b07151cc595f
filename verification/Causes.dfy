/** Why orders end up cancelled: by an intent, for want of a position to reduce, or because their group has traded. */
module Causes {
  import opened Kernel
  import opened Matching
  import opened Orders
  import opened Backtest
  import opened Invariants
  import opened Steps
  import opened Filling
  import opened Progress
  import opened Runs

  /** Parent links stay as they are. */
  ghost predicate SameLinks(a: seq<Order>, b: seq<Order>) {
    |a| <= |b| && forall i | 0 <= i < |a| :: b[i].parentId == a[i].parentId
  }

  /** The text is the client id of the order, or its order id in digits. */
  predicate Names(target: string, o: Order) {
    target == o.clientId || ParseOrderId(target) == Some(o.orderId)
  }

  /** There is nothing for an order of this side to reduce. */
  predicate NothingToReduce(position: real, side: Side) {
    if side == Sell then position <= 0.0 else position >= 0.0
  }

  /** One of the intents cancels the order. */
  ghost predicate ByIntent(due: seq<Intent>, o: Order) {
    exists intent :: intent in due && intent.action == Cancel && Names(intent.targetId, o)
  }

  /** At some point between `a` and `b` the order, which only reduces, had nothing to reduce. */
  ghost predicate ByPosition(a: State, b: State, o: Order) {
    o.reduceOnly && exists n ::
      |a.fills| <= n <= |b.fills| && NothingToReduce(Sum(SignedQuantity, b.fills[..n]), o.side)
  }

  /** Between `a` and `b` another order of its group has traded. */
  ghost predicate ByGroup(a: State, b: State, r: nat)
    requires r < |b.book.orders|
  {
    b.book.orders[r].ocoGroup != "" && exists n :: |a.fills| <= n < |b.fills| && TradedBeside(b, r, n)
  }

  /** Fill `n` is of another order of the group of order `r`. */
  ghost predicate TradedBeside(b: State, r: nat, n: nat)
    requires r < |b.book.orders| && n < |b.fills|
  {
    var i := IndexOf(b.fills[n].orderId);
    0 <= i < |b.book.orders| && i != r && b.book.orders[i].ocoGroup == b.book.orders[r].ocoGroup
  }

  /** Order `r` itself was cancelled between `a` and `b`, for one of the three reasons. */
  ghost predicate RootCause(due: seq<Intent>, a: State, b: State, r: nat) {
    && r < |b.book.orders| && b.book.orders[r].status == Cancelled
    && (ByIntent(due, b.book.orders[r]) || ByPosition(a, b, b.book.orders[r]) || ByGroup(a, b, r))
  }

  /** Order `j`, or an order above it, was cancelled for one of the three reasons. */
  ghost predicate Cause(due: seq<Intent>, a: State, b: State, j: nat) {
    exists r: nat :: RootCause(due, a, b, r) && Descends(b.book.orders, r, j)
  }

  ghost predicate NewlyCancelled(a: State, b: State, j: nat) {
    && j < |b.book.orders| && b.book.orders[j].status == Cancelled
    && (j < |a.book.orders| ==> a.book.orders[j].status != Cancelled)
  }

  /** Nothing is cancelled between `a` and `b` without a cause. */
  ghost predicate Explained(due: seq<Intent>, a: State, b: State) {
    && SameLinks(a.book.orders, b.book.orders) && OrdersEvolve(a.book.orders, b.book.orders) && a.fills <= b.fills
    && forall j: nat | NewlyCancelled(a, b, j) :: Cause(due, a, b, j)
  }

  // ---- causes stay causes ----------------------------------------------------------------

  lemma DescendsLater(a: seq<Order>, b: seq<Order>, i: nat, j: nat)
    requires Descends(a, i, j) && SameLinks(a, b) && OrdersEvolve(a, b)
    ensures Descends(b, i, j)
  {
    hide Evolves;
    var path :| Descent(a, path) && path[0] == i && path[|path| - 1] == j;
    forall n | 0 < n < |path| ensures ChildOf(b, path[n], path[n - 1]) {
      assert ChildOf(a, path[n], path[n - 1]);
      SameOrder(a, b, path[n - 1]);
    }
    assert Descent(b, path);
  }

  lemma SameOrder(a: seq<Order>, b: seq<Order>, i: nat)
    requires OrdersEvolve(a, b) && i < |a|
    ensures i < |b| && SameTerms(a[i], b[i]) && (a[i].status == Cancelled ==> b[i].status == Cancelled)
  {
    assert Evolves(a[i], b[i]);
  }

  lemma NamesLater(target: string, a: Order, b: Order)
    requires SameTerms(a, b) && Names(target, a)
    ensures Names(target, b)
  {
    hide ParseOrderId;
  }

  lemma ByIntentLater(due: seq<Intent>, a: Order, b: Order)
    requires SameTerms(a, b) && ByIntent(due, a)
    ensures ByIntent(due, b)
  {
    hide SameTerms, Names;
    var intent :| intent in due && intent.action == Cancel && Names(intent.targetId, a);
    NamesLater(intent.targetId, a, b);
  }

  lemma ByPositionLater(a: State, b: State, c: State, o: Order, later: Order)
    requires ByPosition(a, b, o) && SameTerms(o, later) && b.fills <= c.fills
    ensures ByPosition(a, c, later)
  {
    hide Sum, NothingToReduce;
    var n :| |a.fills| <= n <= |b.fills| && NothingToReduce(Sum(SignedQuantity, b.fills[..n]), o.side);
    assert c.fills[..n] == b.fills[..n];
  }

  lemma ByGroupLater(a: State, b: State, c: State, r: nat)
    requires r < |b.book.orders| && ByGroup(a, b, r) && OrdersEvolve(b.book.orders, c.book.orders) && b.fills <= c.fills
    ensures r < |c.book.orders| && ByGroup(a, c, r)
  {
    hide Evolves;
    SameOrder(b.book.orders, c.book.orders, r);
    var n :| |a.fills| <= n < |b.fills| && TradedBeside(b, r, n);
    SameOrder(b.book.orders, c.book.orders, IndexOf(b.fills[n].orderId));
    assert TradedBeside(c, r, n);
  }

  lemma RootCauseLater(due: seq<Intent>, a: State, b: State, c: State, r: nat)
    requires RootCause(due, a, b, r) && OrdersEvolve(b.book.orders, c.book.orders) && b.fills <= c.fills
    ensures RootCause(due, a, c, r)
  {
    hide Evolves, SameTerms, ByIntent, ByPosition, ByGroup;
    SameOrder(b.book.orders, c.book.orders, r);
    if ByIntent(due, b.book.orders[r]) {
      ByIntentLater(due, b.book.orders[r], c.book.orders[r]);
    } else if ByPosition(a, b, b.book.orders[r]) {
      ByPositionLater(a, b, c, b.book.orders[r], c.book.orders[r]);
    } else {
      ByGroupLater(a, b, c, r);
    }
  }

  lemma CauseLater(due: seq<Intent>, a: State, b: State, c: State, j: nat)
    requires Cause(due, a, b, j) && SameLinks(b.book.orders, c.book.orders)
    requires OrdersEvolve(b.book.orders, c.book.orders) && b.fills <= c.fills
    ensures Cause(due, a, c, j)
  {
    hide RootCause, Descends, SameLinks, OrdersEvolve;
    var r: nat :| RootCause(due, a, b, r) && Descends(b.book.orders, r, j);
    RootCauseLater(due, a, b, c, r);
    DescendsLater(b.book.orders, c.book.orders, r, j);
  }

  lemma RootCauseEarlier(due: seq<Intent>, a: State, b: State, c: State, r: nat)
    requires RootCause(due, b, c, r) && a.fills <= b.fills
    ensures RootCause(due, a, c, r)
  {
    hide ByIntent, TradedBeside, Sum, NothingToReduce;
  }

  lemma CauseEarlier(due: seq<Intent>, a: State, b: State, c: State, j: nat)
    requires Cause(due, b, c, j) && a.fills <= b.fills
    ensures Cause(due, a, c, j)
  {
    hide RootCause, Descends;
    var r: nat :| RootCause(due, b, c, r) && Descends(c.book.orders, r, j);
    RootCauseEarlier(due, a, b, c, r);
  }

  lemma EvolveTransitive(a: seq<Order>, b: seq<Order>, c: seq<Order>)
    requires OrdersEvolve(a, b) && OrdersEvolve(b, c)
    ensures OrdersEvolve(a, c)
  {
    forall i | 0 <= i < |a| ensures Evolves(a[i], c[i]) {
      assert Evolves(a[i], b[i]) && Evolves(b[i], c[i]);
    }
  }

  lemma ExplainedTransitive(due: seq<Intent>, a: State, b: State, c: State)
    requires Explained(due, a, b) && Explained(due, b, c)
    ensures Explained(due, a, c)
  {
    hide Cause, OrdersEvolve;
    EvolveTransitive(a.book.orders, b.book.orders, c.book.orders);
    forall j: nat | NewlyCancelled(a, c, j) ensures Cause(due, a, c, j) {
      if NewlyCancelled(b, c, j) {
        CauseEarlier(due, a, b, c, j);
      } else {
        CauseLater(due, a, b, c, j);
      }
    }
  }

  // ---- steps that cancel nothing ---------------------------------------------------------

  /** The orders keep their links and their statuses; any new ones are not cancelled. */
  ghost predicate Quiet(a: State, b: State) {
    && SameLinks(a.book.orders, b.book.orders) && a.fills <= b.fills
    && (forall i | 0 <= i < |a.book.orders| :: b.book.orders[i].status == a.book.orders[i].status)
    && (forall i | |a.book.orders| <= i < |b.book.orders| :: b.book.orders[i].status == New)
  }

  lemma GrowsMeans(a: State, b: State)
    requires Grows(a, b)
    ensures OrdersEvolve(a.book.orders, b.book.orders) && a.fills <= b.fills
  {
    hide OrdersEvolve, OcoKept;
  }

  lemma QuietExplained(due: seq<Intent>, a: State, b: State)
    requires Quiet(a, b) && OrdersEvolve(a.book.orders, b.book.orders)
    ensures Explained(due, a, b)
  {
    hide OrdersEvolve, Cause;
  }

  lemma SameExplained(due: seq<Intent>, a: State, b: State)
    requires b.book == a.book && b.fills == a.fills
    ensures Explained(due, a, b)
  {
    hide Cause;
    forall i | 0 <= i < |a.book.orders| ensures Evolves(a.book.orders[i], b.book.orders[i]) {
    }
  }

  // ---- a cancellation --------------------------------------------------------------------

  lemma OpenDescendsDescends(a: seq<Order>, b: seq<Order>, i: nat, j: nat)
    requires OpenDescends(a, i, j) && SameLinks(a, b) && OrdersEvolve(a, b)
    ensures Descends(b, i, j) && i < |a| && a[i].IsOpen()
  {
    var path :| OpenDescent(a, path) && path[0] == i && path[|path| - 1] == j;
    assert Descent(a, path) && a[path[0]].IsOpen();
    hide OrdersEvolve, SameLinks, ChildOf;
    assert Descends(a, i, j);
    DescendsLater(a, b, i, j);
  }

  lemma OnlyCancelsLinks(a: seq<Order>, b: seq<Order>, at: Option<int>)
    requires OnlyCancels(a, b, at)
    ensures SameLinks(a, b)
  {
  }

  /** Cancelling an order for a reason explains all it cancels. */
  lemma CancelExplained(due: seq<Intent>, s: State, i: nat, at: Option<int>)
    requires Knows(s, i) && OrdersEvolve(s.book.orders, CancelAt(s, i, at).book.orders)
    requires ByIntent(due, s.book.orders[i]) || ByPosition(s, s, s.book.orders[i])
    ensures Explained(due, s, CancelAt(s, i, at))
  {
    hide CancelOrder, OnlyCancels, OrdersEvolve, ByIntent, ByPosition, OpenDescends, Descends, SameTerms;
    var r := CancelAt(s, i, at);
    OnlyCancelsLinks(s.book.orders, r.book.orders, at);
    forall j: nat | NewlyCancelled(s, r, j) ensures Cause(due, s, r, j) {
      CancelOrderExactly(s.book, i, at, j);
      OpenDescendsDescends(s.book.orders, r.book.orders, i, j);
      CancelOrderCloses(s.book, i, at);
      CancelOrderExactly(s.book, i, at, i);
      SameOrder(s.book.orders, r.book.orders, i);
      if ByIntent(due, s.book.orders[i]) {
        ByIntentLater(due, s.book.orders[i], r.book.orders[i]);
      } else {
        ByPositionLater(s, s, r, s.book.orders[i], r.book.orders[i]);
      }
      assert RootCause(due, s, r, i);
    }
  }

  // ---- a fill ----------------------------------------------------------------------------

  lemma CancelsSiblingsMeans(a: seq<Order>, b: seq<Order>, i: nat, j: nat)
    requires CancelsSiblings(a, b, i) && j < |a| && j != i && b[j] != a[j]
    ensures a[i].ocoGroup != "" && b[j].status == Cancelled && UnderSibling(a, i, j)
  {
    hide OpenDescends;
  }

  lemma SiblingCancelled(a: seq<Order>, b: seq<Order>, i: nat, k: nat, j: nat)
    requires CancelsSiblings(a, b, i) && k < |a| && k != i && a[i].ocoGroup != "" && a[k].ocoGroup == a[i].ocoGroup
    requires OpenDescends(a, k, j)
    ensures b[k].status == Cancelled
  {
    hide ChildOf;
    var path :| OpenDescent(a, path) && path[0] == k && path[|path| - 1] == j;
    assert OpenDescent(a, [k]);
    assert OpenDescends(a, k, k);
    assert UnderSibling(a, i, k);
  }

  /** A fill of order `i` explains what it cancels. */
  lemma FillExplained(due: seq<Intent>, s: State, r: State, i: nat)
    requires Knows(s, i) && OrdersEvolve(s.book.orders, r.book.orders) && SameLinks(s.book.orders, r.book.orders)
    requires CancelsSiblings(s.book.orders, r.book.orders, i) && r.book.orders[i].status != Cancelled
    requires s.fills <= r.fills && |r.fills| == |s.fills| + 1 && IndexOf(r.fills[|s.fills|].orderId) == i
    ensures Explained(due, s, r)
  {
    hide OrdersEvolve, SameLinks, UnderSibling, CancelsSiblings, OpenDescends, Descends, Evolves, SameTerms;
    var a, b := s.book.orders, r.book.orders;
    CancelsSize(a, b, i);
    forall j: nat | NewlyCancelled(s, r, j) ensures Cause(due, s, r, j) {
      CancelsSiblingsMeans(a, b, i, j);
      var k := Sibling(a, i, j);
      SiblingCancelled(a, b, i, k, j);
      OpenDescendsDescends(a, b, k, j);
      SameGroups(a, b, i, k);
      assert TradedBeside(r, k, |s.fills|);
      assert RootCause(due, s, r, k);
    }
  }

  lemma CancelsSize(a: seq<Order>, b: seq<Order>, i: nat)
    requires CancelsSiblings(a, b, i)
    ensures i < |a| == |b|
  {
  }

  lemma SameGroups(a: seq<Order>, b: seq<Order>, i: nat, k: nat)
    requires OrdersEvolve(a, b) && i < |a| && k < |a|
    ensures i < |b| && k < |b| && b[i].ocoGroup == a[i].ocoGroup && b[k].ocoGroup == a[k].ocoGroup
  {
    SameOrder(a, b, i);
    SameOrder(a, b, k);
  }

  lemma Sibling(orders: seq<Order>, i: nat, j: nat) returns (k: nat)
    requires i < |orders| && UnderSibling(orders, i, j)
    ensures k < |orders| && k != i && orders[k].ocoGroup == orders[i].ocoGroup && OpenDescends(orders, k, j)
  {
    k :| k < |orders| && k != i && orders[k].ocoGroup == orders[i].ocoGroup && OpenDescends(orders, k, j);
  }

  lemma UpdatedLinks(o: Order, quantity: real, quote: real, at: int)
    requires UpdateFilledOrder(o, quantity, quote, at).Ok?
    ensures var f := UpdateFilledOrder(o, quantity, quote, at).value; f.parentId == o.parentId && f.status != Cancelled
  {
  }

  lemma SettleBookLinks(b: Book, i: nat)
    requires i < |b.orders|
    ensures SameLinks(b.orders, SettleBook(b, i).orders)
  {
    hide CancelAll, Siblings;
    var o := b.orders[i];
    var settled := if o.status.Closed() then Finalize(b, i) else b;
    if o.ocoGroup != "" && o.filled > 0.0 {
      OnlyCancelsLinks(settled.orders, CancelAll(settled, Siblings(settled.orders, i, o.ocoGroup, 0),
        o.filledAt).orders,
        o.filledAt);
    }
  }

  lemma ApplyFillLinks(p: Params, s: State, i: nat, quantity: real, price: real, at: int)
    requires Knows(s, i) && ApplyFill(p, s, i, quantity, price, at).Ok?
    ensures SameLinks(s.book.orders, ApplyFill(p, s, i, quantity, price, at).value.book.orders)
  {
    var settled := SettleFill(p, s, i, quantity, price).value;
    SettleFillOrders(p, s, i, quantity, price);
    var recorded := RecordFill(settled.state, i, quantity, price, at, settled.closed, settled.realized,
      settled.fees).value;
    RecordFillLinks(settled.state, i, quantity, price, at, settled.closed, settled.realized, settled.fees);
    SettleBookLinks(recorded.book, i);
    hide SettleFill, RecordFill, SettleBook;
  }

  lemma SettleFillOrders(p: Params, s: State, i: nat, quantity: real, price: real)
    requires Knows(s, i) && SettleFill(p, s, i, quantity, price).Ok?
    ensures SettleFill(p, s, i, quantity, price).value.state.book == s.book
  {
    hide Ledger.ApplyFill, Fees.Apply;
  }

  lemma RecordFillLinks(s: State, i: nat, quantity: real, price: real, at: int, closed: real, realized: real,
        fees: Fees.AppliedFees)
    requires Knows(s, i) && RecordFill(s, i, quantity, price, at, closed, realized, fees).Ok?
    ensures SameLinks(s.book.orders, RecordFill(s, i, quantity, price, at, closed, realized, fees).value.book.orders)
  {
    UpdatedLinks(s.book.orders[i], quantity, Worth(price, quantity), at);
    hide UpdateFilledOrder;
  }

  /** An order that has traded is not cancelled by its own fill. */
  lemma FilledStatus(p: Params, initial: real, s: State, r: State, i: nat, quantity: real, price: real, at: int)
    requires Inv(p, initial, s) && Fillable(p, s, i, quantity, price)
    requires ApplyFill(p, s, i, quantity, price, at) == Ok(r)
    ensures i < |r.book.orders| && r.book.orders[i].status != Cancelled
  {
    hide *;
    FillableValues(p, s, i, quantity, price);
    InvParts(p, initial, s);
    PositiveWorth(price, quantity);
    var quote := Worth(price, quantity);
    var parts := ApplyFillParts(p, s, i, quantity, price, at, quote);
    SettledStatus(p, initial, s, i, quantity, price, at, quote, parts, r);
  }

  lemma SettledStatus(p: Params, initial: real, s: State, i: nat, quantity: real, price: real, at: int, quote: real,
        parts: Parts, r: State)
    requires AllParts(p, initial, s) && Fillable(p, s, i, quantity, price) && r == Filling.Booked(s, i, parts)
    requires Applied(s, i, quantity, price, at, quote, parts) && quote > 0.0
    ensures i < |r.book.orders| && r.book.orders[i].status != Cancelled
  {
    hide Fees.ApplyTrade, Ledger.Balanced, SameTerms, TotalsOk, FillsOk, IdsOk, FeesOk, SettleBook, CancelAll, Siblings;
    hide ParentsOk, CountersOk, Sum, OcoKept, Evolves;
    AppliedClosing(initial, s, i, quantity, price, at, quote, parts);
    assert OrderOk(s.book.orders[i], i);
    SettleBookKeeps(s.book, i, parts.order, quantity, quote, parts.position.closed, parts.position.realized);
  }

  // ---- an attempt ------------------------------------------------------------------------

  lemma NoPosition(p: Params, initial: real, s: State, o: Order)
    requires Inv(p, initial, s) && Tradable(s, o).None?
    ensures ByPosition(s, s, o)
  {
    assert Holds(OfLedger, p, initial, s);
    assert s.fills[..|s.fills|] == s.fills;
    hide Holds, Inv, Sum;
    assert NothingToReduce(Sum(SignedQuantity, s.fills[..|s.fills|]), o.side);
  }

  lemma StepGrows(p: Params, initial: real, candle: Candle, a: State, b: State)
    requires Step(p, initial, candle, a, b)
    ensures Inv(p, initial, b) && OrdersEvolve(a.book.orders, b.book.orders) && a.fills <= b.fills
  {
    hide Inv, OrdersEvolve, OcoKept, TradesOn;
  }

  lemma ApplyFillExplained(due: seq<Intent>, p: Params, initial: real, s: State, i: nat, quantity: real, price: real,
        at: int, r: State)
    requires Inv(p, initial, s) && Fillable(p, s, i, quantity, price)
    requires ApplyFill(p, s, i, quantity, price, at) == Ok(r)
    ensures Explained(due, s, r)
  {
    hide *;
    FillableValues(p, s, i, quantity, price);
    ApplyFillKeeps(p, initial, s, i, quantity, price, at);
    GrowsMeans(s, r);
    ApplyFillLinks(p, s, i, quantity, price, at);
    FilledStatus(p, initial, s, r, i, quantity, price, at);
    IndexOfOrder(p, initial, s, i);
    FillExplained(due, s, r, i);
  }

  lemma IndexOfOrder(p: Params, initial: real, s: State, i: nat)
    requires Inv(p, initial, s) && Knows(s, i)
    ensures IndexOf(s.book.orders[i].orderId) == i
  {
    assert Holds(OfBook, p, initial, s);
    assert OrderOk(s.book.orders[i], i);
  }

  lemma ExplainedBudget(due: seq<Intent>, a: State, b: State, c: State)
    requires Explained(due, a, b) && c.book == b.book && c.fills == b.fills
    ensures Explained(due, a, c)
  {
    hide *;
    SameExplained(due, b, c);
    ExplainedTransitive(due, a, b, c);
  }

  lemma WarnSame(s: State, warning: Warning)
    ensures WarnOnce(s, warning).book == s.book && WarnOnce(s, warning).fills == s.fills
  {
  }

  lemma ExecuteExplained(due: seq<Intent>, p: Params, initial: real, s: State, i: nat, candle: Candle, mode: MatchMode,
        price: real, r: State)
    requires Inv(p, initial, s) && Knows(s, i) && MayTrade(s.book.orders, i) && s.budget > 0.0
    requires price > 0.0 && PriceOk(p, s.book.orders[i], candle, mode, price)
    requires Execute(p, s, i, price, EventTime(candle, mode)) == Ok(r)
    ensures Explained(due, s, r)
  {
    hide Inv, PriceOk, IsMultiple, Tradable, ApplyFill, CancelOrder, Explained, WarnOnce, Step, MayTrade, ByPosition;
    var o, at := s.book.orders[i], EventTime(candle, mode);
    var wanted := Tradable(s, o);
    if wanted.None? {
      NoPosition(p, initial, s, o);
      CancelStep(p, initial, candle, s, i, Some(at));
      StepGrows(p, initial, candle, s, CancelAt(s, i, Some(at)));
      CancelExplained(due, s, i, Some(at));
    } else {
      var quantity := TruncateToIncrement(wanted.value, p.quantityStep).value;
      if quantity <= 0.0 {
        WarnSame(s, LiquidityStep);
        SameExplained(due, s, r);
      } else if p.minQuantity > 0.0 && quantity < p.minQuantity {
        WarnSame(s, LiquidityMin);
        SameExplained(due, s, r);
      } else {
        TradableFillable(p, s, i, candle, mode, price, quantity);
        var done := ApplyFill(p, s, i, quantity, price, at).value;
        ApplyFillExplained(due, p, initial, s, i, quantity, price, at, done);
        ExplainedBudget(due, s, done, r);
      }
    }
  }

  lemma MatchPriceQuiet(p: Params, s: State, i: nat, candle: Candle, mode: MatchMode, m: Matched)
    requires Knows(s, i) && MatchPrice(p, s, i, candle, mode) == Ok(m)
    ensures Quiet(s, m.state)
  {
    hide ApplySlippage, LimitPrice, StopMarketPrice;
  }

  /** What an attempt cancels it cancels for a reason. */
  lemma TryFillExplained(due: seq<Intent>, p: Params, initial: real, s: State, i: nat, candle: Candle, mode: MatchMode,
        r: State)
    requires Inv(p, initial, s) && Knows(s, i) && TryFill(p, s, i, candle, mode) == Ok(r)
    ensures Explained(due, s, r)
  {
    hide Inv, TryFill, Execute, MatchPrice, MayTrade, PriceOk, Explained, Step, Quiet;
    var m := MatchPrice(p, s, i, candle, mode);
    TryFillOutcome(p, s, i, candle, mode);
    if r == s {
      SameExplained(due, s, r);
    } else if m.Ok? && r == m.value.state {
      MatchPriceQuiet(p, s, i, candle, mode, m.value);
      MatchPriceStep(p, initial, s, i, candle, mode, m.value);
      StepGrows(p, initial, candle, s, r);
      QuietExplained(due, s, r);
    } else {
      ExecuteExplained(due, p, initial, s, i, candle, mode, m.value.price.value, r);
    }
  }

  lemma {:induction false} MatchAllExplained(due: seq<Intent>, p: Params, initial: real, s: State, queue: seq<nat>,
        candle: Candle, r: State)
    requires Inv(p, initial, s) && Indices(queue, |s.book.orders|) && MatchAll(p, s, queue, candle) == Ok(r)
    ensures Explained(due, s, r)
    decreases |queue|
  {
    hide Inv, TryFill, Explained, Step;
    if queue == [] {
      SameExplained(due, s, r);
    } else {
      var next := TryFill(p, s, queue[0], candle, FullBar).value;
      TryFillExplained(due, p, initial, s, queue[0], candle, FullBar, next);
      TryFillStep(p, initial, s, queue[0], candle, FullBar);
      if next.budget > 0.0 {
        StepGrows(p, initial, candle, s, next);
        MatchAllExplained(due, p, initial, next, queue[1..], candle, r);
        ExplainedTransitive(due, s, next, r);
      }
    }
  }

  lemma {:induction false} FillEachExplained(due: seq<Intent>, p: Params, initial: real, s: State, queue: seq<nat>,
        candle: Candle, r: State)
    requires Inv(p, initial, s) && Indices(queue, |s.book.orders|) && FillEach(p, s, queue, candle) == Ok(r)
    ensures Explained(due, s, r)
    decreases |queue|
  {
    hide Inv, TryFill, Explained, Step;
    if queue == [] {
      SameExplained(due, s, r);
    } else {
      var next := TryFill(p, s, queue[0], candle, ClosePoint).value;
      TryFillExplained(due, p, initial, s, queue[0], candle, ClosePoint, next);
      TryFillStep(p, initial, s, queue[0], candle, ClosePoint);
      StepGrows(p, initial, candle, s, next);
      FillEachExplained(due, p, initial, next, queue[1..], candle, r);
      ExplainedTransitive(due, s, next, r);
    }
  }

  // ---- submitting ------------------------------------------------------------------------

  lemma AddOrderQuiet(s: State, intent: Intent, defer: bool)
    requires AddOrder(s, intent, defer).Ok?
    ensures Quiet(s, AddOrder(s, intent, defer).value)
  {
    hide ValidateSubmit;
  }

  lemma {:induction false} AddOrdersQuiet(s: State, group: seq<Intent>)
    requires Indexed(s) && AddOrders(s, group).Ok?
    ensures Quiet(s, AddOrders(s, group).value)
    decreases |group|
  {
    hide AddOrder;
    if group == [] {
    } else {
      AddOrderQuiet(s, group[0], true);
      AddOrdersQuiet(AddOrder(s, group[0], true).value, group[1..]);
    }
  }

  /** Linking a group moves no status and no fill, and no parent of an order before the group. */
  ghost predicate LinksOnly(a: State, b: State, first: nat) {
    && first <= |a.book.orders| == |b.book.orders| && b.fills == a.fills
    && (forall i | 0 <= i < |a.book.orders| :: b.book.orders[i].status == a.book.orders[i].status)
    && (forall i | 0 <= i < first :: b.book.orders[i].parentId == a.book.orders[i].parentId)
  }

  lemma LinkOneOnly(s: State, intent: Intent, index: nat, first: nat)
    requires Knows(s, index) && first <= index && LinkOne(s, intent, index).Ok?
    ensures LinksOnly(s, LinkOne(s, intent, index).value, first)
  {
  }

  lemma {:induction false} LinkOnly(s: State, group: seq<Intent>, index: nat, first: nat)
    requires first <= index && index + |group| <= |s.book.orders| && Link(s, group, index).Ok?
    ensures LinksOnly(s, Link(s, group, index).value, first)
    decreases |group|
  {
    hide LinkOne;
    if group == [] {
    } else {
      LinkOneOnly(s, group[0], index, first);
      LinkOnly(LinkOne(s, group[0], index).value, group[1..], index + 1, first);
    }
  }

  lemma PlaceGroupQuiet(s: State, group: seq<Intent>)
    requires Indexed(s) && PlaceGroup(s, group).Ok?
    ensures Quiet(s, PlaceGroup(s, group).value)
  {
    hide AddOrders, Link;
    AddOrdersQuiet(s, group);
    LinkOnly(AddOrders(s, group).value, group, |s.book.orders|, |s.book.orders|);
  }

  lemma SubmitOneExplained(due: seq<Intent>, p: Params, initial: real, candle: Candle, s: State, intent: Intent,
        r: State)
    requires Inv(p, initial, s) && Indexed(s) && s.bar == Some(candle) && SubmitOne(p, s, intent) == Ok(r)
    ensures Explained(due, s, r)
  {
    hide Inv, AddOrder, TryFill, Explained, Step, Quiet;
    var added := AddOrder(s, intent, false).value;
    AddOrderQuiet(s, intent, false);
    AddOrderStep(p, initial, candle, s, intent, false);
    StepGrows(p, initial, candle, s, added);
    QuietExplained(due, s, added);
    if p.onClose {
      TryFillExplained(due, p, initial, added, |s.book.orders|, candle, ClosePoint, r);
      ExplainedTransitive(due, s, added, r);
    }
  }

  lemma ReleaseExplained(due: seq<Intent>, p: Params, initial: real, candle: Candle, placed: State, first: nat,
        r: State)
    requires Inv(p, initial, placed) && Indexed(placed) && first <= |placed.book.orders| && placed.bar == Some(candle)
    requires ReleaseGroup(p, placed, first) == Ok(r)
    ensures Explained(due, placed, r)
  {
    hide Inv, FillEach, ByPriority, Explained, Step;
    var queue := ByPriority(placed.book.orders, first, |placed.book.orders|);
    var queued := Queued(placed, queue);
    SameExplained(due, placed, queued);
    if p.onClose {
      SideStep(p, initial, candle, placed, queued);
      StepGrows(p, initial, candle, placed, queued);
      FillEachExplained(due, p, initial, queued, queue, candle, r);
      ExplainedTransitive(due, placed, queued, r);
    }
  }

  lemma SubmitAtomicExplained(due: seq<Intent>, p: Params, initial: real, candle: Candle, s: State, groupId: string,
        group: seq<Intent>, r: State)
    requires Inv(p, initial, s) && Indexed(s) && s.bar == Some(candle) && SubmitAtomic(p, s, groupId, group) == Ok(r)
    ensures Explained(due, s, r)
  {
    hide Inv, PlaceGroup, ReleaseGroup, Explained, Step, ParentsLocal, Quiet;
    PlacedAdded(s, group);
    var placed := PlaceGroupStep(p, initial, candle, s, group);
    StepGrows(p, initial, candle, s, placed);
    PlaceGroupQuiet(s, group);
    QuietExplained(due, s, placed);
    ReleaseExplained(due, p, initial, candle, placed, |s.book.orders|, r);
    ExplainedTransitive(due, s, placed, r);
  }

  lemma PlacedAdded(s: State, group: seq<Intent>)
    requires Indexed(s) && PlaceGroup(s, group).Ok?
    ensures AddOrders(s, group).Ok?
  {
    hide AddOrders, Link;
  }

  // ---- intents ---------------------------------------------------------------------------

  lemma {:induction false} PositionFound(orders: seq<Order>, orderId: nat, from: nat)
    requires from <= |orders|
    ensures var r := PositionOf(orders, orderId, from);
      && (r.Some? ==> r.value < |orders| && orders[r.value].orderId == orderId)
      && (r.None? ==> forall i | from <= i < |orders| :: orders[i].orderId != orderId)
    decreases |orders| - from
  {
    if from == |orders| {
    } else {
      PositionFound(orders, orderId, from + 1);
    }
  }

  lemma TargetNamed(p: Params, initial: real, s: State, target: string)
    requires Inv(p, initial, s) && FindTarget(s, target).Some?
    ensures Knows(s, FindTarget(s, target).value) && Names(target, s.book.orders[FindTarget(s, target).value])
  {
    assert Holds(OfIds, p, initial, s);
    hide Inv, Holds, ParseOrderId, PositionOf;
    if target !in s.ids {
      PositionFound(s.book.orders, ParseOrderId(target).value, 0);
    }
  }

  lemma CancelTargetExplained(due: seq<Intent>, p: Params, initial: real, candle: Candle, s: State, intent: Intent)
    requires Inv(p, initial, s) && intent in due && intent.action == Cancel
    ensures Explained(due, s, CancelTarget(s, intent.targetId))
  {
    hide Inv, FindTarget, CancelOrder, Explained, Step, Names;
    var target := FindTarget(s, intent.targetId);
    if target.None? {
      SameExplained(due, s, s);
    } else {
      TargetNamed(p, initial, s, intent.targetId);
      CancelStep(p, initial, candle, s, target.value, BarEnd(s));
      StepGrows(p, initial, candle, s, CancelAt(s, target.value, BarEnd(s)));
      assert ByIntent(due, s.book.orders[target.value]);
      CancelExplained(due, s, target.value, BarEnd(s));
    }
  }

  lemma ApplyIntentExplained(p: Params, initial: real, candle: Candle, s: State, due: seq<Intent>, intent: Intent,
        r: State)
    requires Inv(p, initial, s) && Indexed(s) && s.bar == Some(candle) && intent in due
    requires ApplyIntent(p, s, due, intent) == Ok(r)
    ensures Explained(due, s, r)
  {
    hide Inv, SubmitAtomic, SubmitOne, CancelTarget, InGroup, Explained, Step;
    if intent.action == Cancel {
      CancelTargetExplained(due, p, initial, candle, s, intent);
    } else if intent.atomicGroup == "" {
      SubmitOneExplained(due, p, initial, candle, s, intent, r);
    } else if intent.atomicGroup in s.groups {
      SameExplained(due, s, r);
    } else {
      var marked := s.(groups := s.groups + {intent.atomicGroup});
      SideStep(p, initial, candle, s, marked);
      StepGrows(p, initial, candle, s, marked);
      SameExplained(due, s, marked);
      SubmitAtomicExplained(due, p, initial, candle, marked, intent.atomicGroup, InGroup(due, intent.atomicGroup), r);
      ExplainedTransitive(due, s, marked, r);
    }
  }

  lemma {:induction false} ApplyIntentsExplained(p: Params, initial: real, candle: Candle, s: State, due: seq<Intent>,
        from: nat, r: State)
    requires Inv(p, initial, s) && Indexed(s) && s.bar == Some(candle) && from <= |due|
    requires ApplyIntents(p, s, due, from) == Ok(r)
    ensures Explained(due, s, r)
    decreases |due| - from
  {
    hide Inv, ApplyIntent, Explained, Step;
    if from == |due| {
      SameExplained(due, s, r);
    } else {
      var next := ApplyIntent(p, s, due, due[from]).value;
      ApplyIntentExplained(p, initial, candle, s, due, due[from], next);
      ApplyIntentStep(p, initial, candle, s, due, due[from]);
      StepGrows(p, initial, candle, s, next);
      ApplyIntentsExplained(p, initial, candle, next, due, from + 1, r);
      ExplainedTransitive(due, s, next, r);
    }
  }

  // ---- bars and runs ---------------------------------------------------------------------

  lemma ConsumeBarExplained(due: seq<Intent>, p: Params, initial: real, s: State, candle: Candle, r: State)
    requires Inv(p, initial, s) && Indexed(s) && ConsumeBar(p, s, candle) == Ok(r)
    ensures Explained(due, s, r)
  {
    hide Inv, MatchAll, HasPending, Valuation, Explained, Grows;
    var started := StartBar(s, candle);
    StartBarKeeps(p, initial, s, candle);
    SameExplained(due, s, started);
    if candle.volume <= 0.0 && HasPending(s.book.orders) {
      SameExplained(due, s, r);
    } else {
      var matched := MatchAll(p, started, started.matching, candle).value;
      MatchAllExplained(due, p, initial, started, started.matching, candle, matched);
      ExplainedTransitive(due, s, started, matched);
      ExplainedBudget(due, s, matched, r);
    }
  }

  lemma BarExplained(p: Params, initial: real, s: State, candle: Candle, due: seq<Intent>, r: State)
    requires Inv(p, initial, s) && Indexed(s) && Bar(p, s, candle, due) == Ok(r)
    ensures Explained(due, s, r)
  {
    hide Inv, ConsumeBar, ApplyIntents, Explained, Step;
    var consumed := ConsumeBar(p, s, candle).value;
    ConsumeBarExplained(due, p, initial, s, candle, consumed);
    ConsumeBarStep(p, initial, s, candle);
    StepGrows(p, initial, candle, StartBar(s, candle), consumed);
    ApplyIntentsExplained(p, initial, candle, consumed, due, 0, r);
    ExplainedTransitive(due, s, consumed, r);
  }

  lemma {:induction false} HistoryExplained(c: Case, states: seq<State>, k: nat)
    requires History(c, states) && k + 1 < |states|
    ensures k < |c.candles| && Explained(IntentsAt(c.intents, k), states[k], states[k + 1])
  {
    hide *;
    HistoryLeads(c, states, k);
    ReachableInvariant(c, states, k);
    LeadsMeans(c, states, k);
    BarExplained(c.params, c.initialBalance, states[k], c.candles[k], IntentsAt(c.intents, k), states[k + 1]);
  }

  lemma {:induction false} LeadsMeans(c: Case, states: seq<State>, k: nat)
    requires k + 1 < |states| && k < |c.candles| && Leads(c, states, k)
    ensures Indexed(states[k]) && Bar(c.params, states[k], c.candles[k], IntentsAt(c.intents, k)) == Ok(states[k + 1])
  {
    hide Bar, IntentsAt, Indexed;
  }

  lemma ExplainedMeans(due: seq<Intent>, a: State, b: State, j: nat)
    requires Explained(due, a, b)
    ensures SameLinks(a.book.orders, b.book.orders)
    ensures NewlyCancelled(a, b, j) ==> Cause(due, a, b, j)
  {
    hide Cause, SameLinks, OrdersEvolve;
  }

  /** An order is cancelled in some bar, and only because an intent of that bar cancels it, because it could only reduce
      and there was nothing to reduce, or because its group had traded, or because that is so of an order above it. */
  lemma {:induction false} CancelledForCause(c: Case, states: seq<State>, k: nat, j: nat) returns (b: nat)
    requires History(c, states) && k < |states| && j < |states[k].book.orders|
    requires states[k].book.orders[j].status == Cancelled
    ensures b < k && NewlyCancelled(states[b], states[b + 1], j)
    ensures Cause(IntentsAt(c.intents, b), states[b], states[b + 1], j)
    decreases k
  {
    hide *;
    b := if k == 0 then 0 else k - 1;
    if k == 0 {
      NoOrdersYet(c, states);
    } else {
      if NewlyCancelled(states[k - 1], states[k], j) {
        HistoryExplained(c, states, k - 1);
        ExplainedMeans(IntentsAt(c.intents, k - 1), states[k - 1], states[k], j);
      } else {
        OldCancelled(states[k - 1], states[k], j);
        b := CancelledForCause(c, states, k - 1, j);
      }
    }
  }

  lemma OldCancelled(a: State, b: State, j: nat)
    requires !NewlyCancelled(a, b, j) && j < |b.book.orders| && b.book.orders[j].status == Cancelled
    ensures j < |a.book.orders| && a.book.orders[j].status == Cancelled
  {
  }

  lemma {:induction false} NoOrdersYet(c: Case, states: seq<State>)
    requires History(c, states)
    ensures |states| > 0 && states[0].book.orders == []
  {
    hide Leads;
  }

  /** The parent of an order never changes once its intent has been applied. */
  lemma {:induction false} LinksStay(c: Case, states: seq<State>, from: nat, k: nat)
    requires History(c, states) && from <= k < |states|
    ensures SameLinks(states[from].book.orders, states[k].book.orders)
    decreases k
  {
    if from < k {
      LinksStay(c, states, from, k - 1);
      HistoryExplained(c, states, k - 1);
      ExplainedMeans(IntentsAt(c.intents, k - 1), states[k - 1], states[k], 0);
    }
  }
}
