/** Every operation of the execution model is a step: it keeps the invariant and moves the state forward. */
module Steps {
  import opened Kernel
  import opened Matching
  import opened Orders
  import opened Backtest
  import opened Invariants
  import FeeLines
  import Fees
  import Ledger

  // ---- updates that move no account ------------------------------------------------------

  /** The same order, but for its links and its armed stop. */
  predicate SameAccount(a: Order, b: Order) {
    b == a.(stopTriggered := b.stopTriggered, hasChildren := b.hasChildren, parentId := b.parentId)
  }

  lemma TouchOrder(b: Book, i: nat, o: Order)
    requires i < |b.orders| && OrdersOk(b.orders) && CountersOk(b) && SameAccount(b.orders[i], o)
    ensures var r := b.(orders := b.orders[i := o]);
      OrdersOk(r.orders) && CountersOk(r) && Sum(ClosingPnl, r.orders) == Sum(ClosingPnl, b.orders)
  {
    assert OrderOk(b.orders[i], i);
    SumUpdate(Counted, b.orders, i, o);
    SumUpdate(Won, b.orders, i, o);
    SumUpdate(ClosingPnl, b.orders, i, o);
  }

  /** Orders that keep their terms and their totals keep everything said about fills, ids and fees. */
  ghost predicate SameTotals(a: seq<Order>, b: seq<Order>) {
    |a| == |b| && forall i | 0 <= i < |a| ::
      && SameTerms(a[i], b[i]) && a[i].filled == b[i].filled && a[i].filledNotional == b[i].filledNotional
      && SameTime(a[i], b[i]) && SameClosing(a[i], b[i])
  }

  predicate SameClosing(a: Order, b: Order) {
    a.closingQuantity == b.closingQuantity && a.closingPnl == b.closingPnl
  }

  /** The order has the status and the time it had, or has been cancelled. */
  predicate SameTime(a: Order, b: Order) {
    b.status == Cancelled || (b.status == a.status && b.filledAt == a.filledAt)
  }

  lemma SameFeesOk(rules: seq<Fees.FeeRule>, a: Order, b: Order, fees: Fees.FeeState, last: FeeLines.Trade)
    requires SameTerms(a, b) && a.filled == b.filled && a.filledNotional == b.filledNotional
    requires OrderFeesOk(rules, a, fees, last)
    ensures OrderFeesOk(rules, b, fees, last)
  {
    hide FeeLines.LineHolds, FeeLines.LinearLine, Fees.AccumulatorAt;
    forall rule <- rules | OnLinearLine(rules, rule, b) ensures LineFeeOk(rules, rule, b, fees, last) {
      assert OnLinearLine(rules, rule, a) && LineFeeOk(rules, rule, a, fees, last);
    }
  }

  lemma SameTotalsKeep(p: Params, a: seq<Order>, b: seq<Order>, ids: map<string, nat>, fills: seq<Fill>,
        fees: Fees.FeeState)
    requires SameTotals(a, b)
    requires IdsOk(a, ids) && TotalsOk(a, fills) && FillsOk(p, a, fills) && FeesOk(p.rules, a, fees, fills)
    requires ClosingsOk(a, fills)
    ensures IdsOk(b, ids) && TotalsOk(b, fills) && FillsOk(p, b, fills) && FeesOk(p.rules, b, fees, fills)
    ensures ClosingsOk(b, fills)
  {
    forall i | 0 <= i < |b| ensures OrderClosingOk(b[i], fills) {
      assert SameTerms(a[i], b[i]) && OrderClosingOk(a[i], fills);
    }
    forall i | 0 <= i < |b| ensures b[i].clientId in ids && ids[b[i].clientId] == i && OrderTotalsOk(b[i], fills) {
      assert SameTerms(a[i], b[i]) && OrderTotalsOk(a[i], fills);
    }
    forall id <- ids ensures ids[id] < |b| && b[ids[id]].clientId == id {
      assert SameTerms(a[ids[id]], b[ids[id]]);
    }
    forall k | 0 <= k < |fills| ensures FillAtOk(p, b, fills, k) {
      assert FillAtOk(p, a, fills, k);
      var i := IndexOf(fills[k].orderId);
      assert SameTerms(a[i], b[i]);
    }
    forall i | 0 <= i < |b| ensures OrderFeesOk(p.rules, b[i], fees, LastTrade(b[i].orderId, fills)) {
      assert SameTerms(a[i], b[i]) && OrderFeesOk(p.rules, a[i], fees, LastTrade(a[i].orderId, fills));
      SameFeesOk(p.rules, a[i], b[i], fees, LastTrade(a[i].orderId, fills));
    }
  }

  /** `b` may replace `a`: in order, with the same totals, moved forward, and with no order reopened. */
  ghost predicate BookMoves(a: Book, b: Book) {
    && BookOk(b)
    && SameTotals(a.orders, b.orders) && Sum(ClosingPnl, b.orders) == Sum(ClosingPnl, a.orders)
    && OrdersEvolve(a.orders, b.orders)
    && forall i | 0 <= i < |b.orders| :: b.orders[i].IsOpen() ==> a.orders[i].IsOpen()
  }

  lemma BookMovesOco(a: Book, b: Book)
    requires BookMoves(a, b)
    ensures OcoKept(a.orders, b.orders)
  {
    forall n: nat, group: string | group != "" && OcoExclusive(a.orders, n, group)
      ensures OcoExclusive(b.orders, n, group)
    {
      assert forall i | 0 <= i < n :: SameTerms(a.orders[i], b.orders[i]);
    }
  }

  /** A change of the book alone that moves no total is a step. */
  lemma BookStep(p: Params, initial: real, candle: Candle, s: State, b: Book)
    requires Inv(p, initial, s) && BookMoves(s.book, b)
    ensures Step(p, initial, candle, s, s.(book := b))
  {
    hide *;
    BookKeepsParts(p, initial, s, b);
    BookGrows(p, candle, s, b);
    StepFrom(p, initial, candle, s, s.(book := b));
  }

  lemma StepFrom(p: Params, initial: real, candle: Candle, a: State, b: State)
    requires Inv(p, initial, b) && Grows(a, b) && TradesOn(p, candle, a, b)
    ensures Step(p, initial, candle, a, b)
  {
    hide Inv, Grows, TradesOn;
  }

  lemma BookKeepsParts(p: Params, initial: real, s: State, b: Book)
    requires Inv(p, initial, s) && BookMoves(s.book, b)
    ensures Inv(p, initial, s.(book := b))
  {
    hide BookOk, SameTotals, OrdersEvolve, IdsOk, TotalsOk, ClosingsOk, FillsOk, FeesOk, Inv, Sum, Ledger.Balanced;
    InvParts(p, initial, s);
    BookMovesKeep(p, s, b);
    InvFromParts(p, initial, s.(book := b));
  }

  lemma BookMovesKeep(p: Params, s: State, b: Book)
    requires BookMoves(s.book, b)
    requires IdsOk(s.book.orders, s.ids) && TotalsOk(s.book.orders, s.fills)
    requires FillsOk(p, s.book.orders, s.fills) && FeesOk(p.rules, s.book.orders, s.fees, s.fills)
    requires ClosingsOk(s.book.orders, s.fills)
    ensures ClosingsOk(b.orders, s.fills)
    ensures IdsOk(b.orders, s.ids) && TotalsOk(b.orders, s.fills) && FillsOk(p, b.orders, s.fills)
    ensures FeesOk(p.rules, b.orders, s.fees, s.fills) && |b.orders| == |s.book.orders|
  {
    hide BookOk, OrdersEvolve, IdsOk, TotalsOk, ClosingsOk, FillsOk, FeesOk;
    SameTotalsKeep(p, s.book.orders, b.orders, s.ids, s.fills, s.fees);
  }

  lemma BookGrows(p: Params, candle: Candle, s: State, b: Book)
    requires BookMoves(s.book, b)
    ensures Grows(s, s.(book := b)) && TradesOn(p, candle, s, s.(book := b))
  {
    BookMovesOco(s.book, b);
    hide BookOk, SameTotals, OrdersEvolve, OcoKept, OnBar, Sum;
  }

  lemma WarnStep(p: Params, initial: real, candle: Candle, s: State, warning: Warning)
    requires Inv(p, initial, s)
    ensures Step(p, initial, candle, s, WarnOnce(s, warning))
  {
    InvParts(p, initial, s);
    InvFromParts(p, initial, WarnOnce(s, warning));
    GrowsRefl(s);
  }

  lemma ArmMoves(b: Book, i: nat)
    requires BookOk(b) && i < |b.orders|
    ensures BookMoves(b, b.(orders := b.orders[i := b.orders[i].(stopTriggered := true)]))
  {
    var o := b.orders[i].(stopTriggered := true);
    var r := b.(orders := b.orders[i := o]);
    TouchOrder(b, i, o);
    forall k | 0 <= k < |r.orders| ensures ParentOk(r.orders, k) {
      assert ParentOk(b.orders, k);
    }
  }

  lemma ArmStep(p: Params, initial: real, candle: Candle, s: State, i: nat)
    requires Inv(p, initial, s) && Knows(s, i)
    ensures Step(p, initial, candle, s, SetOrder(s, i, s.book.orders[i].(stopTriggered := true)))
  {
    InvParts(p, initial, s);
    ArmMoves(s.book, i);
    BookStep(p, initial, candle, s, s.book.(orders := s.book.orders[i := s.book.orders[i].(stopTriggered := true)]));
  }

  lemma OnlyCancelsMoves(a: Book, b: Book, at: Option<int>)
    requires BookOk(a) && BookOk(b) && OnlyCancels(a.orders, b.orders, at)
    requires Sum(ClosingPnl, b.orders) == Sum(ClosingPnl, a.orders)
    ensures BookMoves(a, b)
  {
    forall i | 0 <= i < |a.orders|
      ensures SameTerms(a.orders[i], b.orders[i]) && a.orders[i].filled == b.orders[i].filled
      ensures a.orders[i].filledNotional == b.orders[i].filledNotional && Evolves(a.orders[i], b.orders[i])
      ensures SameTime(a.orders[i], b.orders[i]) && SameClosing(a.orders[i], b.orders[i])
      ensures b.orders[i].IsOpen() ==> a.orders[i].IsOpen()
    {
      assert OrderOk(a.orders[i], i);
    }
  }

  lemma CancelStep(p: Params, initial: real, candle: Candle, s: State, i: nat, at: Option<int>)
    requires Inv(p, initial, s) && Knows(s, i)
    ensures Step(p, initial, candle, s, CancelAt(s, i, at))
  {
    InvParts(p, initial, s);
    CancelOrderKeeps(s.book, i, at);
    OnlyCancelsMoves(s.book, CancelOrder(s.book, i, at), at);
    BookStep(p, initial, candle, s, CancelOrder(s.book, i, at));
  }
}
