/** A fill keeps the invariant: the order, its hierarchy and OCO group, the ledger, the fees and the fills. */
module Filling {
  import opened Kernel
  import opened Matching
  import opened Orders
  import opened Backtest
  import opened Invariants
  import opened Steps
  import FeeGroups
  import FeeLines
  import Fees
  import Ledger

  // ---- the filled order ------------------------------------------------------------------

  /** `f` is the open order `o` after a fill of `quantity` for `quote`, of which `closed` closed a position for
      `profit`. */
  ghost predicate FilledBy(o: Order, f: Order, quantity: real, quote: real, closed: real, profit: real) {
    && o.IsOpen() && 0.0 < quantity <= o.remaining && quote > 0.0
    && 0.0 <= closed <= quantity && (closed == 0.0 ==> profit == 0.0)
    && exists at ::
      var updated := UpdateFilledOrder(o, quantity, quote, at);
      updated.Ok? && f == AddClosing(updated.value, closed, profit)
  }

  /** The filled order once a full fill has been counted. */
  function Settled(f: Order): Order {
    if f.status.Closed() then MarkFinalized(f) else f
  }

  lemma FilledOrderOk(o: Order, i: nat, f: Order, quantity: real, quote: real, closed: real, profit: real)
    requires OrderOk(o, i) && FilledBy(o, f, quantity, quote, closed, profit)
    ensures OrderOk(Settled(f), i) && Evolves(o, Settled(f))
    ensures f.filled == o.filled + quantity && f.filledNotional == o.filledNotional + quote
    ensures f.closingPnl == o.closingPnl + profit && f.closingQuantity == o.closingQuantity + closed
    ensures f.status == Filled || f.status == PartiallyFilled
    ensures f.closingFinalized == o.closingFinalized == false && f.parentId == o.parentId
    ensures f.hasChildren == o.hasChildren
  {
  }

  // ---- the book --------------------------------------------------------------------------

  ghost predicate MayTrade(orders: seq<Order>, i: nat)
    requires i < |orders|
  {
    orders[i].IsOpen() && (orders[i].parentId != 0 ==> ParentFilled(orders, orders[i].parentId))
  }

  /** The book with the filled order, counted if it closed, before its OCO siblings are cancelled. */
  function CountFilled(b: Book, i: nat, f: Order): Book
    requires i < |b.orders|
  {
    var r := b.(orders := b.orders[i := f]);
    if f.status.Closed() then Finalize(r, i) else r
  }

  /** An order that may trade and ends up partially or fully filled fits the hierarchy. */
  lemma PlacedOrders(orders: seq<Order>, i: nat, f: Order)
    requires OrdersOk(orders) && ParentsOk(orders) && i < |orders| && MayTrade(orders, i)
    requires OrderOk(f, i) && f.parentId == orders[i].parentId && (f.status == Filled || f.status == PartiallyFilled)
    ensures OrdersOk(orders[i := f]) && ParentsOk(orders[i := f])
  {
    var placed := orders[i := f];
    forall k | 0 <= k < |placed| ensures OrderOk(placed[k], k) && ParentOk(placed, k) {
      assert OrderOk(orders[k], k) && ParentOk(orders, k);
      if k == i && f.parentId != 0 {
        var parent :| parent in orders && parent.orderId == f.parentId && parent.status == Filled;
        var j :| 0 <= j < |orders| && orders[j] == parent;
        assert OrderOk(orders[j], j);
      }
    }
  }

  lemma CountFilledCounts(b: Book, i: nat, f: Order, profit: real)
    requires CountersOk(b) && i < |b.orders| && !b.orders[i].closingFinalized && !f.closingFinalized
    requires f.closingPnl == b.orders[i].closingPnl + profit
    ensures var r := CountFilled(b, i, f);
      && CountersOk(r) && r.orders == b.orders[i := Settled(f)]
      && Sum(ClosingPnl, r.orders) == Sum(ClosingPnl, b.orders) + profit
  {
    var placed := b.(orders := b.orders[i := f]);
    SumUpdate(Counted, b.orders, i, f);
    SumUpdate(Won, b.orders, i, f);
    SumUpdate(ClosingPnl, b.orders, i, Settled(f));
    FinalizeCounts(placed, i);
    assert CountFilled(b, i, f).orders == b.orders[i := Settled(f)];
  }

  lemma CountFilledKeeps(b: Book, i: nat, f: Order, quantity: real, quote: real, closed: real, profit: real)
    requires BookOk(b) && i < |b.orders| && MayTrade(b.orders, i)
    requires FilledBy(b.orders[i], f, quantity, quote, closed, profit)
    ensures var r := CountFilled(b, i, f);
      && BookOk(r) && r.orders == b.orders[i := Settled(f)]
      && Sum(ClosingPnl, r.orders) == Sum(ClosingPnl, b.orders) + profit
  {
    assert OrderOk(b.orders[i], i);
    FilledOrderOk(b.orders[i], i, f, quantity, quote, closed, profit);
    CountFilledCounts(b, i, f, profit);
    PlacedOrders(b.orders, i, Settled(f));
  }

  /** An order under an open order has not traded. */
  lemma UntradedUnderOpen(orders: seq<Order>, k: nat, j: nat)
    requires OrdersOk(orders) && ParentsOk(orders) && k < |orders| && j < |orders|
    requires ChildOf(orders, k, j) && orders[j].IsOpen()
    ensures orders[k].filled == 0.0
  {
    assert OrderOk(orders[j], j) && OrderOk(orders[k], k) && ParentOk(orders, k);
  }

  /** Cancelling other orders leaves an order that has traded alone: its ancestors are all Filled. */
  lemma TradedOrderSurvives(b: Book, i: nat, targets: seq<nat>, at: Option<int>)
    requires BookOk(b) && i < |b.orders| && b.orders[i].filled > 0.0
    requires Indices(targets, |b.orders|) && i !in targets
    ensures CancelAll(b, targets, at).orders[i] == b.orders[i]
  {
    hide CancelAll, BookOk;
    if CancelAll(b, targets, at).orders[i] != b.orders[i] {
      var path := CancelAllOnly(b, targets, at, i);
      DescentUntraded(b, path);
    }
  }

  /** Below its first order an open chain has not traded. */
  lemma DescentUntraded(b: Book, path: seq<nat>)
    requires BookOk(b) && OpenDescent(b.orders, path) && |path| > 1
    ensures b.orders[path[|path| - 1]].filled == 0.0
  {
    hide CountersOk, OrderOk, ParentOk;
    var n := |path| - 1;
    assert b.orders[path[n - 1]].IsOpen() && ChildOf(b.orders, path[n], path[n - 1]);
    UntradedUnderOpen(b.orders, path[n], path[n - 1]);
  }

  /** Every other member of a group is closed. */
  ghost predicate SiblingsClosed(orders: seq<Order>, i: nat)
    requires i < |orders|
  {
    orders[i].ocoGroup != "" ==>
      forall j | 0 <= j < |orders| && j != i && orders[j].ocoGroup == orders[i].ocoGroup :: !orders[j].IsOpen()
  }

  /** Order `j` is another open member of the group of order `i`, or is reached from one through open orders. */
  ghost predicate UnderSibling(orders: seq<Order>, i: nat, j: nat)
    requires i < |orders|
  {
    && orders[i].ocoGroup != ""
    && exists k: nat ::
         k < |orders| && k != i && orders[k].ocoGroup == orders[i].ocoGroup && OpenDescends(orders, k, j)
  }

  /** Besides order `i` exactly the orders under its siblings change, and these are cancelled when it is filled. */
  ghost predicate CancelsSiblings(a: seq<Order>, b: seq<Order>, i: nat) {
    && i < |a| == |b|
    && forall j: nat | j < |a| && j != i ::
         && (b[j] == a[j] || (a[j].IsOpen() && b[j].status == Cancelled && b[j].filledAt == b[i].filledAt))
         && (b[j] != a[j] <==> UnderSibling(a, i, j))
  }

  /** What hangs below open targets through open orders is cancelled with them. */
  lemma {:induction false} CancelAllDescents(b: Book, targets: seq<nat>, at: Option<int>, path: seq<nat>)
    requires Indices(targets, |b.orders|) && OpenDescent(b.orders, path) && path[0] in targets
    ensures !CancelAll(b, targets, at).orders[path[|path| - 1]].IsOpen()
    decreases |path|
  {
    hide CancelAll, OnlyCancels, ChildrenClosed;
    CancelAllCloses(b, targets, at);
    var n := |path| - 1;
    if n == 0 {
      var m :| 0 <= m < |targets| && targets[m] == path[0];
    } else {
      assert OpenDescent(b.orders, path[..n]) && path[..n][0] == path[0];
      CancelAllDescents(b, targets, at, path[..n]);
      assert b.orders[path[n - 1]].IsOpen() && ChildOf(b.orders, path[n], path[n - 1]);
      ClosedBelow(b, CancelAll(b, targets, at), path[n], path[n - 1], at);
    }
  }

  /** An open chain that does not pass through an order does not depend on it. */
  lemma DescentWithout(a: seq<Order>, b: seq<Order>, i: nat, path: seq<nat>)
    requires |a| == |b| && i < |a| && (forall j | 0 <= j < |a| && j != i :: b[j] == a[j]) && i !in path
    requires OpenDescent(a, path)
    ensures OpenDescent(b, path)
  {
    forall n | 0 < n < |path| ensures ChildOf(b, path[n], path[n - 1]) {
      assert ChildOf(a, path[n], path[n - 1]) && path[n] != i && path[n - 1] != i;
    }
  }

  /** Neither an order whose parent has filled nor one that has traded hangs under an open order. */
  lemma ParentNotOpen(orders: seq<Order>, i: nat, j: nat)
    requires OrdersOk(orders) && ParentsOk(orders) && i < |orders| && j < |orders| && ChildOf(orders, i, j)
    requires orders[i].filled > 0.0 || MayTrade(orders, i)
    ensures !orders[j].IsOpen()
  {
    assert OrderOk(orders[j], j) && OrderOk(orders[i], i);
    if orders[i].filled > 0.0 {
      if orders[j].IsOpen() {
        UntradedUnderOpen(orders, i, j);
      }
    } else {
      var parent :| parent in orders && parent.orderId == orders[i].parentId && parent.status == Filled;
      var k :| 0 <= k < |orders| && orders[k] == parent;
      assert OrderOk(orders[k], k);
    }
  }

  lemma NotBelowOpen(orders: seq<Order>, i: nat, path: seq<nat>)
    requires OrdersOk(orders) && ParentsOk(orders) && i < |orders| && OpenDescent(orders, path) && path[0] != i
    requires orders[i].filled > 0.0 || MayTrade(orders, i)
    ensures i !in path
  {
    hide OrderOk, ParentOk, MayTrade;
    forall n | 0 < n < |path| ensures path[n] != i {
      assert ChildOf(orders, path[n], path[n - 1]) && orders[path[n - 1]].IsOpen();
      if path[n] == i {
        ParentNotOpen(orders, i, path[n - 1]);
      }
    }
  }

  /** The book `a`, its order `i` filled to give `b`, and what cancelling the siblings then makes of it. */
  lemma SiblingsExactly(a: Book, b: Book, i: nat, at: Option<int>, j: nat)
    requires BookOk(a) && BookOk(b) && i < |a.orders| == |b.orders| && MayTrade(a.orders, i)
    requires (forall m | 0 <= m < |a.orders| && m != i :: b.orders[m] == a.orders[m]) && b.orders[i].filled > 0.0
    requires b.orders[i].ocoGroup == a.orders[i].ocoGroup != "" && j < |a.orders| && j != i
    ensures var r := CancelAll(b, Siblings(b.orders, i, b.orders[i].ocoGroup, 0), at);
      r.orders[j] != a.orders[j] <==> UnderSibling(a.orders, i, j)
  {
    hide CancelAll, CountersOk, OrderOk, ParentOk, MayTrade, ChildOf;
    var targets := Siblings(b.orders, i, b.orders[i].ocoGroup, 0);
    var r := CancelAll(b, targets, at);
    if r.orders[j] != b.orders[j] {
      var path := CancelAllOnly(b, targets, at, j);
      NotBelowOpen(b.orders, i, path);
      DescentWithout(b.orders, a.orders, i, path);
      assert OpenDescends(a.orders, path[0], j);
    }
    if UnderSibling(a.orders, i, j) {
      var k: nat :| k < |a.orders| && k != i && a.orders[k].ocoGroup == a.orders[i].ocoGroup
        && OpenDescends(a.orders, k, j);
      var path :| OpenDescent(a.orders, path) && path[0] == k && path[|path| - 1] == j;
      NotBelowOpen(a.orders, i, path);
      DescentWithout(a.orders, b.orders, i, path);
      OpenEnds(b.orders, path);
      CancelAllDescents(b, targets, at, path);
    }
  }

  lemma OpenEnds(orders: seq<Order>, path: seq<nat>)
    requires OpenDescent(orders, path)
    ensures path[0] < |orders| && orders[path[0]].IsOpen()
    ensures path[|path| - 1] < |orders| && orders[path[|path| - 1]].IsOpen()
  {
  }

  lemma CancelledSiblings(b: Book, i: nat, at: Option<int>)
    requires BookOk(b) && i < |b.orders| && b.orders[i].filled > 0.0
    ensures var r := CancelAll(b, Siblings(b.orders, i, b.orders[i].ocoGroup, 0), at);
      && BookOk(r) && OnlyCancels(b.orders, r.orders, at) && Sum(ClosingPnl, r.orders) == Sum(ClosingPnl, b.orders)
      && r.orders[i] == b.orders[i] && SiblingsClosed(r.orders, i)
  {
    hide CancelAll, BookOk, Sum;
    var targets := Siblings(b.orders, i, b.orders[i].ocoGroup, 0);
    var r := CancelAll(b, targets, at);
    CancelAllKeeps(b, targets, at);
    TradedOrderSurvives(b, i, targets, at);
    forall j | 0 <= j < |r.orders| && j != i && r.orders[j].ocoGroup == r.orders[i].ocoGroup
      ensures !r.orders[j].IsOpen() {
      assert b.orders[j].ocoGroup == r.orders[j].ocoGroup;
      if b.orders[j].IsOpen() {
        assert j in targets;
      }
    }
  }

  /** `b` is `a` with order `i` filled; the others are as they were, or cancelled. */
  ghost predicate FilledBook(a: Book, b: Book, i: nat, f: Order, at: Option<int>)
    requires i < |a.orders|
  {
    && BookOk(b)
    && OnlyCancels(a.orders[i := Settled(f)], b.orders, at)
    && b.orders[i] == Settled(f)
    && SiblingsClosed(b.orders, i) && CancelsSiblings(a.orders, b.orders, i)
  }

  lemma SettleBookKeeps(b: Book, i: nat, f: Order, quantity: real, quote: real, closed: real, profit: real)
    requires BookOk(b) && i < |b.orders| && MayTrade(b.orders, i)
    requires FilledBy(b.orders[i], f, quantity, quote, closed, profit)
    ensures var r := SettleBook(b.(orders := b.orders[i := f]), i);
      FilledBook(b, r, i, f, f.filledAt) && Sum(ClosingPnl, r.orders) == Sum(ClosingPnl, b.orders) + profit
  {
    hide CancelAll, Siblings, Sum, UnderSibling, MayTrade;
    var counted := CountFilled(b, i, f);
    CountFilledKeeps(b, i, f, quantity, quote, closed, profit);
    assert OrderOk(b.orders[i], i);
    FilledOrderOk(b.orders[i], i, f, quantity, quote, closed, profit);
    assert counted.orders[i] == Settled(f) && f.filled > 0.0;
    CancelledSiblings(counted, i, f.filledAt);
    var r := SettleBook(b.(orders := b.orders[i := f]), i);
    forall j: nat | j < |b.orders| && j != i
      ensures r.orders[j] == b.orders[j]
        || (b.orders[j].IsOpen() && r.orders[j].status == Cancelled && r.orders[j].filledAt == r.orders[i].filledAt)
      ensures r.orders[j] != b.orders[j] <==> UnderSibling(b.orders, i, j)
    {
      assert counted.orders[j] == b.orders[j];
      if f.ocoGroup != "" {
        SiblingsExactly(b, counted, i, f.filledAt, j);
      } else {
        NoSiblings(b.orders, i, j);
      }
    }
  }

  lemma NoSiblings(orders: seq<Order>, i: nat, j: nat)
    requires i < |orders| && orders[i].ocoGroup == ""
    ensures !UnderSibling(orders, i, j)
  {
  }

  // ---- the rest of the state -------------------------------------------------------------

  /** `b` is `a` with `quantity` for `quote` more filled on order `i`, and nothing more on the others. */
  ghost predicate FilledMore(a: seq<Order>, b: seq<Order>, i: nat, quantity: real, quote: real) {
    && i < |a| == |b|
    && (forall j | 0 <= j < |a| :: SameTerms(a[j], b[j]))
    && b[i].filled == a[i].filled + quantity && b[i].filledNotional == a[i].filledNotional + quote
    && (forall j | 0 <= j < |a| && j != i ::
          b[j].filled == a[j].filled && b[j].filledNotional == a[j].filledNotional && SameTime(a[j], b[j]))
  }

  /** `b` is `a` with `closed` for a `profit` more closed by order `i`, and nothing more by the others. */
  ghost predicate ClosedMore(a: seq<Order>, b: seq<Order>, i: nat, closed: real, profit: real) {
    && i < |a| == |b|
    && (forall j | 0 <= j < |a| :: b[j].orderId == a[j].orderId)
    && b[i].closingQuantity == a[i].closingQuantity + closed && b[i].closingPnl == a[i].closingPnl + profit
    && forall j | 0 <= j < |a| && j != i :: SameClosing(a[j], b[j])
  }

  lemma FilledBookMore(a: Book, b: Book, i: nat, f: Order, quantity: real, quote: real, closed: real, profit: real)
    requires BookOk(a) && i < |a.orders| && FilledBy(a.orders[i], f, quantity, quote, closed, profit)
    requires FilledBook(a, b, i, f, f.filledAt)
    ensures FilledMore(a.orders, b.orders, i, quantity, quote) && OrdersEvolve(a.orders, b.orders)
    ensures ClosedMore(a.orders, b.orders, i, closed, profit)
  {
    hide CancelsSiblings, SiblingsClosed, ParentsOk, CountersOk;
    assert OrderOk(a.orders[i], i);
    FilledOrderOk(a.orders[i], i, f, quantity, quote, closed, profit);
    forall j | 0 <= j < |a.orders|
      ensures SameTerms(a.orders[j], b.orders[j]) && Evolves(a.orders[j], b.orders[j])
      ensures j != i ==>
        && b.orders[j].filled == a.orders[j].filled && b.orders[j].filledNotional == a.orders[j].filledNotional
        && SameTime(a.orders[j], b.orders[j]) && SameClosing(a.orders[j], b.orders[j])
    {
      assert OrderOk(a.orders[j], j);
      if j != i {
        assert a.orders[i := Settled(f)][j] == a.orders[j];
      }
    }
  }

  lemma FilledBookOco(a: Book, b: Book, i: nat, f: Order, quantity: real, quote: real, closed: real, profit: real)
    requires BookOk(a) && i < |a.orders| && FilledBy(a.orders[i], f, quantity, quote, closed, profit)
    requires FilledBook(a, b, i, f, f.filledAt)
    ensures OcoKept(a.orders, b.orders)
  {
    FilledBookMore(a, b, i, f, quantity, quote, closed, profit);
    forall n: nat, group: string | group != "" && OcoExclusive(a.orders, n, group)
      ensures OcoExclusive(b.orders, n, group)
    {
      forall j, k | 0 <= j < n && 0 <= k < n && j != k && b.orders[j].ocoGroup == group && b.orders[k].ocoGroup == group
                    && b.orders[j].filled > 0.0
        ensures !b.orders[k].IsOpen() && b.orders[k].filled == 0.0
      {
        assert SameTerms(a.orders[j], b.orders[j]) && SameTerms(a.orders[k], b.orders[k]);
        assert OrderOk(a.orders[j], j) && OrderOk(a.orders[k], k);
        if j == i {
          assert !(a.orders[k].filled > 0.0);
        } else if k != i {
          assert a.orders[i := Settled(f)][k] == a.orders[k];
        }
      }
    }
  }

  lemma FillsOkAppend(p: Params, a: seq<Order>, b: seq<Order>, fills: seq<Fill>, f: Fill, i: nat)
    requires |a| == |b| && forall j | 0 <= j < |a| :: SameTerms(a[j], b[j])
    requires FillsOk(p, a, fills)
    requires i < |a| && a[i].orderId == INITIAL_ORDER_ID + 1 + i && f.tradeId == INITIAL_TRADE_ID + 1 + |fills|
    requires FillOk(p, a[i], f, Sum(SignedQuantity, fills))
    ensures FillsOk(p, b, fills + [f])
  {
    var all := fills + [f];
    forall k | 0 <= k < |all| ensures FillAtOk(p, b, all, k) {
      if k < |fills| {
        assert FillAtOk(p, a, fills, k);
        assert all[..k] == fills[..k];
        assert SameTerms(a[IndexOf(fills[k].orderId)], b[IndexOf(fills[k].orderId)]);
      } else {
        assert all[..k] == fills;
      }
    }
  }

  lemma TotalsOkAppend(a: seq<Order>, b: seq<Order>, fills: seq<Fill>, f: Fill, i: nat)
    requires OrdersOk(a) && FilledMore(a, b, i, f.quantity, f.quote) && f.orderId == a[i].orderId && TotalsOk(a, fills)
    requires b[i].filledAt == Some(f.time)
    ensures TotalsOk(b, fills + [f])
  {
    hide OrderTotalsOk;
    forall j | 0 <= j < |b| ensures OrderTotalsOk(b[j], fills + [f]) {
      assert OrderTotalsOk(a[j], fills) && SameTerms(a[j], b[j]) && OrderOk(a[j], j) && OrderOk(a[i], i);
      if j == i {
        OwnTotalsAppend(a[j], b[j], fills, f);
      } else {
        OtherTotalsAppend(a[j], b[j], fills, f);
      }
    }
  }

  lemma LastTimeAppend(orderId: nat, fills: seq<Fill>, f: Fill)
    ensures LastTime(orderId, fills + [f]) == if f.orderId == orderId then Some(f.time) else LastTime(orderId, fills)
  {
    assert (fills + [f])[..|fills|] == fills;
  }

  lemma OwnTotalsAppend(a: Order, b: Order, fills: seq<Fill>, f: Fill)
    requires OrderTotalsOk(a, fills) && f.orderId == a.orderId == b.orderId && b.filledAt == Some(f.time)
    requires b.filled == a.filled + f.quantity && b.filledNotional == a.filledNotional + f.quote
    ensures OrderTotalsOk(b, fills + [f])
  {
    hide Sum, LastTime;
    SumAppend(QuantityFor(b.orderId), fills, f);
    SumAppend(QuoteFor(b.orderId), fills, f);
    LastTimeAppend(b.orderId, fills, f);
  }

  lemma OtherTotalsAppend(a: Order, b: Order, fills: seq<Fill>, f: Fill)
    requires OrderTotalsOk(a, fills) && f.orderId != a.orderId == b.orderId && SameTime(a, b)
    requires b.filled == a.filled && b.filledNotional == a.filledNotional
    ensures OrderTotalsOk(b, fills + [f])
  {
    hide Sum, LastTime;
    SumAppend(QuantityFor(b.orderId), fills, f);
    SumAppend(QuoteFor(b.orderId), fills, f);
    LastTimeAppend(b.orderId, fills, f);
  }

  lemma ClosingsOkAppend(a: seq<Order>, b: seq<Order>, fills: seq<Fill>, f: Fill, i: nat, closed: real)
    requires OrdersOk(a) && ClosedMore(a, b, i, closed, f.realized) && f.orderId == a[i].orderId
    requires closed == ClosedPart(Sum(SignedQuantity, fills), f) && ClosingsOk(a, fills)
    ensures ClosingsOk(b, fills + [f])
  {
    hide ClosedPart, SignedQuantity;
    assert (fills + [f])[..|fills|] == fills;
    forall j | 0 <= j < |b| ensures OrderClosingOk(b[j], fills + [f]) {
      assert OrderClosingOk(a[j], fills) && OrderOk(a[j], j) && OrderOk(a[i], i);
      SumAppend(ProfitFor(b[j].orderId), fills, f);
      assert j != i ==> SameClosing(a[j], b[j]);
    }
  }

  /** The filled order after its fill, on one line. */
  lemma LineFeeAfter(rules: seq<Fees.FeeRule>, rule: Fees.FeeRule, a: Order, b: Order, fees: Fees.FeeState,
        charge: Fees.Charge, last: FeeLines.Trade, trade: FeeLines.Trade)
    requires a.orderId == b.orderId && a.side == b.side && FeeLines.Billable(trade)
    requires FilledTrade(b) == FeeLines.Plus(FilledTrade(a), trade)
    requires OnLinearLine(rules, rule, a) && LineFeeOk(rules, rule, a, fees, last)
    requires Fees.ApplyTrade(fees, rules, a.orderId, a.side, trade.notional, trade.quantity) == Ok(charge)
    ensures LineFeeOk(rules, rule, b, charge.fees, trade)
  {
    var line, key := Fees.LineOf(rule), Fees.KeyOf(rule, a.orderId);
    assert FeeLines.LineKeyOf(line, a.orderId) == key;
    hide FeeLines.LineHolds, FeeLines.LinearLine, Fees.AccumulatorAt, Fees.ApplyTrade, FeeLines.AccrueLine, FilledTrade;
    FeeLines.ApplyTradeLine(fees, rules, line, a.orderId, a.side, trade);
    FeeLines.LineStep(Fees.AccumulatorAt(fees, key), Fees.AccumulatorAt(charge.fees, key), rules, line, a.side,
      FilledTrade(a), last, trade);
  }

  lemma OrderFeesAfter(rules: seq<Fees.FeeRule>, a: Order, b: Order, fees: Fees.FeeState, charge: Fees.Charge,
        last: FeeLines.Trade, trade: FeeLines.Trade)
    requires a.orderId == b.orderId && a.side == b.side && FeeLines.Billable(trade)
    requires FilledTrade(b) == FeeLines.Plus(FilledTrade(a), trade)
    requires OrderFeesOk(rules, a, fees, last)
    requires Fees.ApplyTrade(fees, rules, a.orderId, a.side, trade.notional, trade.quantity) == Ok(charge)
    ensures OrderFeesOk(rules, b, charge.fees, trade)
  {
    hide LineFeeOk, FeeLines.LinearLine, Fees.ApplyTrade, FilledTrade;
    forall rule <- rules | OnLinearLine(rules, rule, b) ensures LineFeeOk(rules, rule, b, charge.fees, trade) {
      assert OnLinearLine(rules, rule, a) && LineFeeOk(rules, rule, a, fees, last);
      LineFeeAfter(rules, rule, a, b, fees, charge, last, trade);
    }
  }

  lemma OtherFeesAfter(rules: seq<Fees.FeeRule>, a: Order, b: Order, fees: Fees.FeeState, orderId: nat, side: Side,
        charge: Fees.Charge, last: FeeLines.Trade, trade: FeeLines.Trade)
    requires a.orderId == b.orderId != orderId && a.side == b.side && OrderFeesOk(rules, a, fees, last)
    requires FilledTrade(b) == FilledTrade(a)
    requires Fees.ApplyTrade(fees, rules, orderId, side, trade.notional, trade.quantity) == Ok(charge)
    ensures OrderFeesOk(rules, b, charge.fees, last)
  {
    hide FeeLines.LineHolds, FeeLines.LinearLine, Fees.ApplyTrade, Fees.AccumulatorAt, FilledTrade;
    forall rule <- rules | OnLinearLine(rules, rule, b) ensures LineFeeOk(rules, rule, b, charge.fees, last) {
      assert OnLinearLine(rules, rule, a) && LineFeeOk(rules, rule, a, fees, last);
      Fees.ApplyTradeFrame(fees, rules, orderId, side, trade.notional, trade.quantity, Fees.KeyOf(rule, b.orderId));
    }
  }

  lemma LastTradeAppend(orderId: nat, fills: seq<Fill>, f: Fill)
    ensures LastTrade(orderId, fills + [f])
      == if f.orderId == orderId then FeeLines.Trade(f.quote, f.quantity) else LastTrade(orderId, fills)
  {
    assert (fills + [f])[..|fills|] == fills;
  }

  lemma FeesOkAfter(rules: seq<Fees.FeeRule>, a: seq<Order>, b: seq<Order>, fees: Fees.FeeState, i: nat,
        fills: seq<Fill>, f: Fill)
    requires OrdersOk(a) && FilledMore(a, b, i, f.quantity, f.quote) && f.quantity > 0.0 && f.quote > 0.0
    requires f.orderId == a[i].orderId && FeesOk(rules, a, fees, fills)
    ensures var r := Fees.ApplyTrade(fees, rules, a[i].orderId, a[i].side, f.quote, f.quantity);
      r.Ok? ==> FeesOk(rules, b, r.value.fees, fills + [f]) && Fees.Booked(fees, r.value)
  {
    var id, side := a[i].orderId, a[i].side;
    var r := Fees.ApplyTrade(fees, rules, id, side, f.quote, f.quantity);
    Fees.ApplyTradeBalanced(fees, rules, id, side, f.quote, f.quantity);
    Fees.ApplyTradeKeys(fees, rules, id, side, f.quote, f.quantity);
    FeeGroups.TradeSplitAsRead(fees, rules, id, side, f.quote, f.quantity);
    hide FeeGroups.SplitAsRead, OrderFeesOk, Fees.ApplyTrade, LastTrade;
    assert OrderOk(a[i], i);
    if r.Ok? {
      var trade := FeeLines.Trade(f.quote, f.quantity);
      forall j | 0 <= j < |b|
        ensures OrderFeesOk(rules, b[j], r.value.fees, LastTrade(b[j].orderId, fills + [f]))
      {
        assert SameTerms(a[j], b[j]) && OrderOk(a[j], j);
        assert OrderFeesOk(rules, a[j], fees, LastTrade(a[j].orderId, fills));
        LastTradeAppend(b[j].orderId, fills, f);
        if j == i {
          OrderFeesAfter(rules, a[i], b[i], fees, r.value, LastTrade(a[i].orderId, fills), trade);
        } else {
          OtherFeesAfter(rules, a[j], b[j], fees, id, side, r.value, LastTrade(a[j].orderId, fills), trade);
        }
      }
    }
  }

  /** The conditions under which the engine fills order `i`. */
  ghost predicate Fillable(p: Params, s: State, i: nat, quantity: real, price: real) {
    && Knows(s, i) && MayTrade(s.book.orders, i)
    && 0.0 < quantity <= s.book.orders[i].remaining && price > 0.0
    && IsMultiple(quantity, p.quantityStep) && (p.minQuantity > 0.0 ==> quantity >= p.minQuantity)
    && var o := s.book.orders[i];
      && (o.orderType.LimitOrder? || o.orderType.LimitMaker? || o.orderType.StopLimit? ==>
        NotWorse(o.side, price, o.limitPrice))
      && (o.orderType.StopMarket? ==> NotBetter(o.side, price, o.stopPrice))
      && !o.orderType.OtherType?
      && (o.reduceOnly ==> if o.side == Sell then quantity <= s.ledger.base else quantity <= -s.ledger.base)
  }

  /** What a fill computes on its way. */
  datatype Parts = Parts(position: Ledger.PositionFill, charge: Fees.Charge, order: Order, fill: Fill)

  /** The parts of a fill of order `i`, spelled out. */
  ghost predicate Applied(s: State, i: nat, quantity: real, price: real, at: int, quote: real, parts: Parts)
    requires Knows(s, i)
  {
    var o := s.book.orders[i];
    && quote == Worth(price, quantity)
    && parts.position == Ledger.ApplyFill(s.ledger, o.side, quantity, price)
    && UpdateFilledOrder(o, quantity, quote, at).Ok?
    && parts.order == AddClosing(UpdateFilledOrder(o, quantity, quote, at).value, parts.position.closed,
      parts.position.realized)
    && parts.fill == MakeFill(parts.order, s.nextTradeId + 1, price, quantity, quote, at, parts.charge.applied,
      parts.position.realized)
  }

  function Booked(s: State, i: nat, parts: Parts): State
    requires Knows(s, i)
  {
    s.(ledger := Ledger.PayFees(parts.position.ledger, parts.charge.applied.Total()),
       fees := parts.charge.fees,
       nextTradeId := s.nextTradeId + 1,
       fills := s.fills + [parts.fill],
       book := SettleBook(s.book.(orders := s.book.orders[i := parts.order]), i))
  }

  lemma PositiveWorth(price: real, quantity: real)
    requires price > 0.0 && quantity > 0.0
    ensures Worth(price, quantity) > 0.0
  {
  }

  lemma ApplyFillParts(p: Params, s: State, i: nat, quantity: real, price: real, at: int, quote: real)
        returns (parts: Parts)
    requires Knows(s, i) && quote == Worth(price, quantity) && ApplyFill(p, s, i, quantity, price, at).Ok?
    ensures Applied(s, i, quantity, price, at, quote, parts) && ApplyFill(p, s, i, quantity, price, at).value
      == Booked(s, i, parts)
    ensures Fees.ApplyTrade(s.fees, p.rules, s.book.orders[i].orderId, s.book.orders[i].side, quote, quantity)
      == Ok(parts.charge)
  {
    hide Worth, Ledger.ApplyFill, Fees.ApplyTrade, UpdateFilledOrder, AddClosing, MakeFill, SettleBook;
    var o := s.book.orders[i];
    var position := Ledger.ApplyFill(s.ledger, o.side, quantity, price);
    var charge := Fees.Apply(s.fees, p.rules, o.orderId, o.side, price, quantity).value;
    var order := AddClosing(UpdateFilledOrder(o, quantity, quote, at).value, position.closed, position.realized);
    parts := Parts(position, charge, order, MakeFill(order, s.nextTradeId + 1, price, quantity, quote, at,
      charge.applied, position.realized));
  }

  lemma {:induction false} AppliedBook(p: Params, s: State, i: nat, quantity: real, price: real, at: int, quote: real,
        parts: Parts, r: State)
    requires BookOk(s.book) && Fillable(p, s, i, quantity, price) && Applied(s, i, quantity, price, at, quote, parts)
    requires r == Booked(s, i, parts)
    requires quote > 0.0 && 0.0 <= parts.position.closed <= quantity
    requires (parts.position.closed == 0.0 ==> parts.position.realized == 0.0)
    ensures BookOk(r.book) && FilledMore(s.book.orders, r.book.orders, i, quantity, quote)
    ensures ClosedMore(s.book.orders, r.book.orders, i, parts.position.closed, parts.position.realized)
    ensures OrdersEvolve(s.book.orders, r.book.orders) && OcoKept(s.book.orders, r.book.orders)
    ensures SiblingsClosed(r.book.orders, i) && CancelsSiblings(s.book.orders, r.book.orders, i)
    ensures i < |r.book.orders| && r.book.orders[i].filledAt == Some(at)
    ensures Sum(ClosingPnl, r.book.orders) == Sum(ClosingPnl, s.book.orders) + parts.position.realized
  {
    assert OrderOk(s.book.orders[i], i);
    assert FilledBy(s.book.orders[i], parts.order, quantity, quote, parts.position.closed, parts.position.realized);
    SettleBookKeeps(s.book, i, parts.order, quantity, quote, parts.position.closed, parts.position.realized);
    FilledBookMore(s.book, r.book, i, parts.order, quantity, quote, parts.position.closed, parts.position.realized);
    FilledBookOco(s.book, r.book, i, parts.order, quantity, quote, parts.position.closed, parts.position.realized);
  }

  lemma {:induction false} AppliedFills(p: Params, s: State, i: nat, quantity: real, price: real, at: int, quote: real,
        parts: Parts, r: State)
    requires OrdersOk(s.book.orders) && Fillable(p, s, i, quantity, price)
    requires Applied(s, i, quantity, price, at, quote, parts) && r == Booked(s, i, parts)
    requires s.nextTradeId == INITIAL_TRADE_ID + |s.fills| && Sum(SignedQuantity, s.fills) == s.ledger.base
    requires FilledMore(s.book.orders, r.book.orders, i, quantity, quote) && r.book.orders[i].filledAt == Some(at)
    requires TotalsOk(s.book.orders, s.fills) && FillsOk(p, s.book.orders, s.fills)
    ensures TotalsOk(r.book.orders, r.fills) && FillsOk(p, r.book.orders, r.fills)
  {
    assert OrderOk(s.book.orders[i], i);
    FillsOkAppend(p, s.book.orders, r.book.orders, s.fills, parts.fill, i);
    TotalsOkAppend(s.book.orders, r.book.orders, s.fills, parts.fill, i);
  }

  lemma AppliedClosings(initial: real, s: State, i: nat, quantity: real, price: real, at: int, quote: real,
        parts: Parts, r: State)
    requires Knows(s, i) && quantity > 0.0 && OrdersOk(s.book.orders)
    requires Applied(s, i, quantity, price, at, quote, parts)
    requires r == Booked(s, i, parts) && Ledger.Balanced(s.ledger, initial, s.fees.Total())
    requires Sum(SignedQuantity, s.fills) == s.ledger.base && ClosingsOk(s.book.orders, s.fills)
    requires ClosedMore(s.book.orders, r.book.orders, i, parts.position.closed, parts.position.realized)
    ensures ClosingsOk(r.book.orders, r.fills)
  {
    hide ClosingsOk, ClosedMore, OrdersOk, Sum, Ledger.ApplyFill, SettleBook, Ledger.PayFees, Worth;
    Ledger.FillClosed(s.ledger, s.book.orders[i].side, quantity, price);
    ClosingsOkAppend(s.book.orders, r.book.orders, s.fills, parts.fill, i, parts.position.closed);
  }

  /** The account after the fill. */
  lemma AppliedBalance(initial: real, s: State, i: nat, quantity: real, price: real, at: int, quote: real, parts: Parts,
        r: State)
    requires Knows(s, i) && quantity > 0.0 && price > 0.0 && Applied(s, i, quantity, price, at, quote, parts)
    requires r == Booked(s, i, parts) && Ledger.Balanced(s.ledger, initial, s.fees.Total())
    requires Fees.Booked(s.fees, parts.charge)
    ensures Ledger.Balanced(r.ledger, initial, r.fees.Total())
    ensures r.ledger.base == s.ledger.base + s.book.orders[i].side.Signed(quantity)
    ensures r.ledger.realized == s.ledger.realized + parts.position.realized
  {
    hide SettleBook, UpdateFilledOrder, AddClosing, Worth, Ledger.ApplyFill, Ledger.Balanced, Fees.Balanced;
    var o := s.book.orders[i];
    Ledger.ApplyFillBalanced(s.ledger, initial, s.fees.Total(), o.side, quantity, price);
    Ledger.PayFeesBalanced(parts.position.ledger, initial, s.fees.Total(), parts.charge.applied.Total());
  }

  /** What the appended fill adds to the sums over fills. */
  lemma AppliedSums(s: State, i: nat, quantity: real, price: real, at: int, quote: real, parts: Parts, fills: seq<Fill>)
    requires Knows(s, i) && Applied(s, i, quantity, price, at, quote, parts) && fills == s.fills + [parts.fill]
    ensures Sum(SignedQuantity, fills) == Sum(SignedQuantity, s.fills) + s.book.orders[i].side.Signed(quantity)
    ensures Sum(FillProfit, fills) == Sum(FillProfit, s.fills) + parts.position.realized
    ensures Sum(FillFee, fills) == Sum(FillFee, s.fills) + parts.charge.applied.Total()
    ensures Sum(FillBroker, fills) == Sum(FillBroker, s.fills) + parts.charge.applied.broker
    ensures Sum(FillMarket, fills) == Sum(FillMarket, s.fills) + parts.charge.applied.market
  {
    hide Sum, Worth, Ledger.ApplyFill;
    SumAppend(SignedQuantity, s.fills, parts.fill);
    SumAppend(FillProfit, s.fills, parts.fill);
    SumAppend(FillFee, s.fills, parts.fill);
    SumAppend(FillBroker, s.fills, parts.fill);
    SumAppend(FillMarket, s.fills, parts.fill);
  }

  lemma AppliedLedger(initial: real, s: State, i: nat, quantity: real, price: real, at: int, quote: real, parts: Parts,
        r: State)
    requires Knows(s, i) && quantity > 0.0 && price > 0.0 && Applied(s, i, quantity, price, at, quote, parts)
    requires r == Booked(s, i, parts)
    requires Ledger.Balanced(s.ledger, initial, s.fees.Total()) && LedgerOk(s.book.orders, s.fills, s.ledger, s.fees)
    requires Fees.Booked(s.fees, parts.charge)
    requires Sum(ClosingPnl, r.book.orders) == Sum(ClosingPnl, s.book.orders) + parts.position.realized
    ensures Ledger.Balanced(r.ledger, initial, r.fees.Total()) && LedgerOk(r.book.orders, r.fills, r.ledger, r.fees)
  {
    hide Sum, SettleBook, Applied, Ledger.PayFees, Ledger.Balanced, Fees.Balanced;
    AppliedBalance(initial, s, i, quantity, price, at, quote, parts, r);
    AppliedSums(s, i, quantity, price, at, quote, parts, r.fills);
  }

  lemma IdsOkAfter(a: seq<Order>, b: seq<Order>, ids: map<string, nat>)
    requires |a| == |b| && (forall j | 0 <= j < |a| :: SameTerms(a[j], b[j])) && IdsOk(a, ids)
    ensures IdsOk(b, ids)
  {
    forall j | 0 <= j < |b| ensures b[j].clientId in ids && ids[b[j].clientId] == j {
      assert SameTerms(a[j], b[j]);
    }
    forall id <- ids ensures ids[id] < |b| && b[ids[id]].clientId == id {
      assert SameTerms(a[ids[id]], b[ids[id]]);
    }
  }

  /** The fill itself closes at most its own quantity. */
  lemma AppliedClosing(initial: real, s: State, i: nat, quantity: real, price: real, at: int, quote: real, parts: Parts)
    requires Knows(s, i) && quantity > 0.0 && price > 0.0 && Applied(s, i, quantity, price, at, quote, parts)
    requires Ledger.Balanced(s.ledger, initial, s.fees.Total())
    ensures 0.0 <= parts.position.closed <= quantity && (parts.position.closed == 0.0 ==>
      parts.position.realized == 0.0)
  {
    Ledger.ApplyFillBalanced(s.ledger, initial, s.fees.Total(), s.book.orders[i].side, quantity, price);
  }

  lemma AppliedFill(s: State, i: nat, quantity: real, price: real, at: int, quote: real, parts: Parts, r: State)
    requires Knows(s, i) && Applied(s, i, quantity, price, at, quote, parts) && r == Booked(s, i, parts)
    ensures s.fills <= r.fills && |r.fills| == |s.fills| + 1 && r.budget == s.budget
    ensures r.equity == s.equity && r.groups == s.groups && r.ids == s.ids
    ensures r.nextOrderId == s.nextOrderId && r.nextTradeId == s.nextTradeId + 1
    ensures r.fees == parts.charge.fees && |r.book.orders| == |s.book.orders|
    ensures r.fills == s.fills + [r.fills[|s.fills|]]
    ensures var f := r.fills[|s.fills|];
      f.orderId == s.book.orders[i].orderId && f.price == price && f.quantity == quantity && f.quote == quote
      && f.time == at
  {
    hide SettleBook, Ledger.ApplyFill, Ledger.PayFees, Worth;
  }

  lemma AppliedParts(p: Params, initial: real, s: State, i: nat, quantity: real, price: real, at: int, quote: real,
        parts: Parts, r: State)
    requires AllParts(p, initial, s) && Fillable(p, s, i, quantity, price) && r == Booked(s, i, parts)
    requires Applied(s, i, quantity, price, at, quote, parts) && quote > 0.0
    requires Fees.ApplyTrade(s.fees, p.rules, s.book.orders[i].orderId, s.book.orders[i].side, quote, quantity)
      == Ok(parts.charge)
    ensures AllParts(p, initial, r)
    ensures OrdersEvolve(s.book.orders, r.book.orders) && OcoKept(s.book.orders, r.book.orders)
    ensures SiblingsClosed(r.book.orders, i) && CancelsSiblings(s.book.orders, r.book.orders, i)
  {
    hide SiblingsClosed, CancelsSiblings;
    hide Fees.ApplyTrade, Fees.Booked, Booked, Applied, Ledger.Balanced, SameTerms, TotalsOk, FillsOk, IdsOk, FeesOk;
    hide ParentsOk, CountersOk, OrderOk, Sum, OcoKept, Evolves, ClosingsOk, ClosedMore;
    AppliedClosing(initial, s, i, quantity, price, at, quote, parts);
    AppliedFill(s, i, quantity, price, at, quote, parts, r);
    AppliedBook(p, s, i, quantity, price, at, quote, parts, r);
    AppliedFills(p, s, i, quantity, price, at, quote, parts, r);
    AppliedClosings(initial, s, i, quantity, price, at, quote, parts, r);
    FeesOkAfter(p.rules, s.book.orders, r.book.orders, s.fees, i, s.fills, r.fills[|s.fills|]);
    AppliedLedger(initial, s, i, quantity, price, at, quote, parts, r);
    IdsOkAfter(s.book.orders, r.book.orders, s.ids);
  }

  lemma GrowsFrom(s: State, r: State)
    requires OrdersEvolve(s.book.orders, r.book.orders) && OcoKept(s.book.orders, r.book.orders)
    requires s.fills <= r.fills && r.equity == s.equity && r.groups == s.groups
    ensures Grows(s, r)
  {
    hide OrdersEvolve, OcoKept;
  }

  lemma FillableValues(p: Params, s: State, i: nat, quantity: real, price: real)
    requires Fillable(p, s, i, quantity, price)
    ensures Knows(s, i) && quantity > 0.0 && price > 0.0
  {
    hide MayTrade, IsMultiple;
  }

  /** A fill keeps the invariant, appends one fill of the order, cancels exactly its OCO siblings with what hangs under
      them, and leaves the liquidity budget to its caller. */
  lemma ApplyFillKeeps(p: Params, initial: real, s: State, i: nat, quantity: real, price: real, at: int)
    requires Inv(p, initial, s) && Fillable(p, s, i, quantity, price)
    ensures var r := ApplyFill(p, s, i, quantity, price, at);
      r.Ok? ==>
        && Inv(p, initial, r.value) && Grows(s, r.value) && SiblingsClosed(r.value.book.orders, i)
        && CancelsSiblings(s.book.orders, r.value.book.orders, i)
        && |r.value.fills| == |s.fills| + 1 && r.value.budget == s.budget
        && var f := r.value.fills[|s.fills|];
          f.orderId == s.book.orders[i].orderId && f.price == price && f.quantity == quantity && f.time == at
  {
    hide *;
    FillableValues(p, s, i, quantity, price);
    if ApplyFill(p, s, i, quantity, price, at).Ok? {
      var r, quote := ApplyFill(p, s, i, quantity, price, at).value, Worth(price, quantity);
      InvParts(p, initial, s);
      PositiveWorth(price, quantity);
      var parts := ApplyFillParts(p, s, i, quantity, price, at, quote);
      AppliedParts(p, initial, s, i, quantity, price, at, quote, parts, r);
      AppliedFill(s, i, quantity, price, at, quote, parts, r);
      InvFromParts(p, initial, r);
      GrowsFrom(s, r);
    }
  }
}
