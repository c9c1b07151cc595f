/** What holds of every run of every case. */
module Runs {
  import opened Kernel
  import opened Matching
  import opened Orders
  import opened Backtest
  import opened Invariants
  import opened Progress
  import Drawdown
  import FeeGroups
  import FeeLines
  import Fees
  import Indicators
  import Ledger

  // ---- histories -------------------------------------------------------------------------

  /** Bar `k` leads from the state before it to the state after it. */
  ghost predicate Leads(c: Case, states: seq<State>, k: nat)
    requires k + 1 < |states| && k < |c.candles|
  {
    Indexed(states[k]) && Bar(c.params, states[k], c.candles[k], IntentsAt(c.intents, k)) == Ok(states[k + 1])
  }

  /** `states[k]` is the state of the case after its first `k` bars. */
  ghost predicate History(c: Case, states: seq<State>) {
    && 0 < |states| <= |c.candles| + 1
    && states[0] == Initial(c.initialBalance)
    && forall k: nat {:trigger Leads(c, states, k)} | k + 1 < |states| :: Leads(c, states, k)
  }

  lemma {:induction false} HistoryExtends(c: Case, states: seq<State>, next: State)
    requires History(c, states) && |states| <= |c.candles| && Indexed(states[|states| - 1])
    requires Bar(c.params, states[|states| - 1], c.candles[|states| - 1], IntentsAt(c.intents, |states| - 1))
      == Ok(next)
    ensures History(c, states + [next])
  {
    hide Bar, IntentsAt, Indexed;
    var all := states + [next];
    forall k: nat | k + 1 < |all| ensures Leads(c, all, k) {
      assert all[k] == states[k];
      if k + 1 < |states| {
        assert all[k + 1] == states[k + 1] && Leads(c, states, k);
      }
    }
  }

  /** Every successful run has its history. */
  lemma {:induction false} RunHistory(c: Case, bars: nat) returns (states: seq<State>)
    requires bars <= |c.candles| && Run(c, bars).Ok?
    ensures History(c, states) && |states| == bars + 1 && states[bars] == Run(c, bars).value
    decreases bars
  {
    hide Bar;
    if bars == 0 {
      RunStart(c, bars);
      states := [Initial(c.initialBalance)];
    } else {
      var before := RunHistory(c, bars - 1);
      RunUnfold(c, bars - 1);
      HistoryExtends(c, before, Run(c, bars).value);
      states := before + [Run(c, bars).value];
    }
  }

  /** The state reached after the bars of a history is the one `Run` computes. */
  lemma {:induction false} HistoryRuns(c: Case, states: seq<State>, bars: nat)
    requires History(c, states) && bars < |states|
    ensures Run(c, bars) == Ok(states[bars])
    decreases bars
  {
    hide Bar;
    if bars == 0 {
      RunStart(c, bars);
    } else {
      HistoryRuns(c, states, bars - 1);
      assert Leads(c, states, bars - 1);
      RunNext(c, bars - 1, states[bars - 1], states[bars]);
    }
  }

  lemma RunNext(c: Case, bars: nat, before: State, after: State)
    requires bars < |c.candles| && Run(c, bars) == Ok(before) && Indexed(before)
    requires Bar(c.params, before, c.candles[bars], IntentsAt(c.intents, bars)) == Ok(after)
    ensures Run(c, bars + 1) == Ok(after)
  {
    RunUnfold(c, bars);
  }

  lemma {:induction false} LeadsStep(c: Case, states: seq<State>, k: nat)
    requires k + 1 < |states| && k < |c.candles| && Leads(c, states, k) && Inv(c.params, c.initialBalance, states[k])
    ensures Step(c.params, c.initialBalance, c.candles[k], StartBar(states[k], c.candles[k]), states[k + 1])
    ensures Grows(states[k], states[k + 1])
  {
    BarStep(c.params, c.initialBalance, states[k], c.candles[k], IntentsAt(c.intents, k));
  }

  lemma HistoryStarts(c: Case, states: seq<State>)
    requires History(c, states)
    ensures |states| > 0 && Inv(c.params, c.initialBalance, states[0])
  {
    hide Leads, Inv;
    InitialInv(c.params, c.initialBalance, states[0]);
  }

  lemma HistoryLeads(c: Case, states: seq<State>, k: nat)
    requires History(c, states) && k + 1 < |states|
    ensures k < |c.candles| && Leads(c, states, k)
  {
    hide Leads;
  }

  /** Every reachable state satisfies the invariant. */
  lemma {:induction false} ReachableInvariant(c: Case, states: seq<State>, k: nat)
    requires History(c, states) && k < |states|
    ensures Inv(c.params, c.initialBalance, states[k])
    decreases k
  {
    hide *;
    if k == 0 {
      HistoryStarts(c, states);
    } else {
      ReachableInvariant(c, states, k - 1);
      HistoryLeads(c, states, k - 1);
      LeadsStep(c, states, k - 1);
    }
  }

  lemma {:induction false} ReachableParts(c: Case, states: seq<State>, k: nat)
    requires History(c, states) && k < |states|
    ensures AllParts(c.params, c.initialBalance, states[k])
  {
    ReachableInvariant(c, states, k);
    InvParts(c.params, c.initialBalance, states[k]);
  }

  lemma {:induction false} BarOf(c: Case, states: seq<State>, k: nat)
    requires History(c, states) && k + 1 < |states|
    ensures Step(c.params, c.initialBalance, c.candles[k], StartBar(states[k], c.candles[k]), states[k + 1])
    ensures Grows(states[k], states[k + 1])
  {
    ReachableInvariant(c, states, k);
    HistoryLeads(c, states, k);
    LeadsStep(c, states, k);
  }

  /** A run only moves forward. */
  lemma {:induction false} HistoryGrows(c: Case, states: seq<State>, from: nat, k: nat)
    requires History(c, states) && from <= k < |states|
    ensures Grows(states[from], states[k])
    decreases k
  {
    if from == k {
      GrowsRefl(states[k]);
    } else {
      BarOf(c, states, k - 1);
      HistoryGrows(c, states, from, k - 1);
      GrowsTransitive(states[from], states[k - 1], states[k]);
    }
  }

  // ---- money -----------------------------------------------------------------------------

  /** In every reachable state cash and the position at cost come to the initial balance, plus profit, minus fees. */
  lemma {:induction false} AccountingIdentity(c: Case, states: seq<State>, k: nat)
    requires History(c, states) && k < |states|
    ensures var s := states[k];
      && s.ledger.base == s.ledger.accounting
      && s.ledger.cash + s.ledger.base * s.ledger.averageEntry == c.initialBalance + s.ledger.realized - s.fees.Total()
      && (s.ledger.base != 0.0 <==> s.ledger.averageEntry > 0.0)
  {
    ReachableInvariant(c, states, k);
    LedgerPart(c.params, c.initialBalance, states[k]);
    Ledger.BalancedMeans(states[k].ledger, c.initialBalance, states[k].fees.Total());
  }

  lemma LedgerPart(p: Params, initial: real, s: State)
    requires Inv(p, initial, s)
    ensures Ledger.Balanced(s.ledger, initial, s.fees.Total()) && LedgerOk(s.book.orders, s.fills, s.ledger, s.fees)
  {
    assert Holds(OfLedger, p, initial, s);
  }

  /** `out` is what the case reports at the end of its history. */
  ghost predicate Reports(c: Case, states: seq<State>, out: Output) {
    && ValidCase(c) && History(c, states) && |states| == ProcessedBars(c) + 1
    && Report(c, states[ProcessedBars(c)], ProcessedBars(c)) == Ok(out)
  }

  /** Whatever `RunCase` returns is the report of a history. */
  lemma {:induction false} RunCaseReports(c: Case) returns (states: seq<State>)
    requires RunCase(c).Ok?
    ensures Reports(c, states, RunCase(c).value)
  {
    states := RunHistory(c, ProcessedBars(c));
  }

  /** The case has names, its numbers have their signs, each bar starts and ends after all bars before it, and each
      intent has its bar. */
  ghost predicate InOrder(c: Case) {
    && !AllWhitespace(c.id) && !AllWhitespace(c.symbol)
    && c.initialBalance >= 0.0 && c.params.minQuantity >= 0.0
    && c.params.quantityStep > 0.0 && c.params.tickSize > 0.0
    && |c.candles| > 0
    && (forall i, j | 0 <= i < j < |c.candles| ::
          c.candles[i].start < c.candles[j].start && c.candles[i].end < c.candles[j].end)
    && forall n | 0 <= n < |c.intents| :: c.intents[n].barIndex < |c.candles|
  }

  lemma {:induction false} OrderedApart(candles: seq<Candle>, i: nat, j: nat)
    requires StrictlyOrdered(candles) && i < j < |candles|
    ensures candles[i].start < candles[j].start && candles[i].end < candles[j].end
    decreases j
  {
    if i < j - 1 {
      OrderedApart(candles, i, j - 1);
    }
  }

  /** Exactly such cases are valid. */
  lemma ValidCaseIs(c: Case)
    ensures ValidCase(c) <==> InOrder(c)
  {
    TrimBlank(c.id);
    TrimBlank(c.symbol);
    hide Trim, AllWhitespace;
    if ValidCase(c) {
      forall i, j | 0 <= i < j < |c.candles|
        ensures c.candles[i].start < c.candles[j].start && c.candles[i].end < c.candles[j].end
      {
        OrderedApart(c.candles, i, j);
      }
    }
  }

  /** A run succeeds exactly when its case is valid, its bars are processed and its indicators exist: all periods are
      positive, and the closes fit if there is a period. */
  lemma RunCaseSucceeds(c: Case)
    ensures RunCase(c).Ok? <==>
      && InOrder(c) && Run(c, ProcessedBars(c)).Ok?
      && (c.periods == [] || Indicators.Averageable(Closes(c.candles[..ProcessedBars(c)])))
      && forall i | 0 <= i < |c.periods| :: c.periods[i] > 0
  {
    ValidCaseIs(c);
    hide Run, ValidCase, InOrder, Summary, Indicators.Averageable, Closes;
    Indicators.IndicatorsExist(Closes(c.candles[..ProcessedBars(c)]), c.periods);
  }

  /** The closes of the first bars. */
  ghost predicate IsCloses(c: Case, bars: nat, closes: seq<real>) {
    |closes| == bars <= |c.candles| && forall k | 0 <= k < bars :: closes[k] == c.candles[k].close
  }

  /** The reported drawdowns are those of the reported equity: each point against its running peak, the last and the
      greatest of them; the indicators are the two averages of every period over the closes of the processed bars. */
  lemma {:induction false} ReportedMetrics(c: Case, states: seq<State>, out: Output)
    requires Reports(c, states, out)
    ensures Drawdown.Measures(out.equity, out.drawdown.curve) && |out.drawdown.curve| == |out.equity|
    ensures Drawdown.IsMaximum(out.equity, |out.equity|, out.drawdown.maximum)
    ensures out.equity != [] ==> out.drawdown.current == Drawdown.DrawdownAt(out.equity, |out.equity| - 1)
    ensures |out.indicators| == 2 * |c.periods|
    ensures out.processedBars <= |c.candles|
    ensures forall closes: seq<real>, i | IsCloses(c, out.processedBars, closes) && 0 <= i < |c.periods| ::
      Indicators.PairAt(out.indicators, closes, c.periods, i)
  {
    forall closes: seq<real> | IsCloses(c, out.processedBars, closes)
      ensures closes == Closes(c.candles[..out.processedBars])
    {
    }
    assert ProcessedBars(c) < |states| && out.processedBars == ProcessedBars(c);
    Drawdown.MetricsAre(out.equity);
    Indicators.IndicatorsExist(Closes(c.candles[..ProcessedBars(c)]), c.periods);
    hide History, Closes, FinalizeAll, Indicators.PairAt, Drawdown.Measures, Drawdown.IsMaximum, Drawdown.DrawdownAt;
  }

  lemma RevaluedPosition(cash: real, base: real, average: real, close: real, value: real)
    requires cash + base * average == value
    ensures Valuation(cash, base, close) == value + base * (close - average)
    ensures base == 0.0 ==> Valuation(cash, base, close) == value
  {
  }

  /** The initial balance, plus realized profit, plus the open position against its cost, minus fees. */
  predicate EquityAddsUp(out: Output, initial: real, average: real, close: real) {
    out.finalEquity == initial + out.realized + out.basePosition * (close - average) - (out.brokerFees + out.marketFees)
  }

  lemma ReportedMoney(c: Case, s: State, processed: nat, out: Output)
    requires processed <= |c.candles| && Report(c, s, processed) == Ok(out)
    requires Ledger.Balanced(s.ledger, c.initialBalance, s.fees.Total())
    ensures EquityAddsUp(out, c.initialBalance, s.ledger.averageEntry, LastClose(c, out.processedBars))
  {
    hide Valuation, FinalizeAll, LastClose;
    Ledger.BalancedMeans(s.ledger, c.initialBalance, s.fees.Total());
    RevaluedPosition(s.ledger.cash, s.ledger.base, s.ledger.averageEntry, LastClose(c, processed),
                     c.initialBalance + s.ledger.realized - s.fees.Total());
  }

  lemma {:induction false} ReportsHistory(c: Case, states: seq<State>, out: Output)
    requires Reports(c, states, out)
    ensures History(c, states) && |states| == ProcessedBars(c) + 1
  {
    hide History;
  }

  lemma LastCloseIs(c: Case, processed: nat)
    requires 0 < processed <= |c.candles|
    ensures LastClose(c, processed) == c.candles[processed - 1].close
  {
  }

  lemma ReportedWorth(c: Case, s: State, processed: nat, out: Output, close: real)
    requires processed <= |c.candles| && Report(c, s, processed) == Ok(out) && close == LastClose(c, processed)
    ensures out.cash == s.ledger.cash && out.basePosition == s.ledger.base
    ensures out.finalEquity == out.cash + out.basePosition * close
  {
    hide FinalizeAll, LastClose;
  }

  lemma {:induction false} NothingReported(c: Case, states: seq<State>, out: Output)
    requires Reports(c, states, out) && ProcessedBars(c) == 0
    ensures out.cash == c.initialBalance && out.basePosition == 0.0 && out.fills == [] && out.orders == []
    ensures out.finalEquity == out.cash
  {
    hide History, LastClose;
    InitialState(c, states);
    ReportedWorth(c, states[0], 0, out, LastClose(c, 0));
  }

  lemma {:induction false} InitialState(c: Case, states: seq<State>)
    requires History(c, states)
    ensures |states| > 0 && states[0] == Initial(c.initialBalance)
  {
    hide Leads;
  }

  lemma {:induction false} LastEquity(c: Case, states: seq<State>, out: Output)
    requires Reports(c, states, out) && ProcessedBars(c) > 0
    ensures var close := c.candles[ProcessedBars(c) - 1].close;
      && out.finalEquity == out.cash + out.basePosition * close
      && EquityAddsUp(out, c.initialBalance, states[ProcessedBars(c)].ledger.averageEntry, close)
  {
    hide *;
    ReportsHistory(c, states, out);
    ReachableInvariant(c, states, ProcessedBars(c));
    var s := states[ProcessedBars(c)];
    LedgerPart(c.params, c.initialBalance, s);
    ReportsThis(c, states, out);
    ReportedMoney(c, s, ProcessedBars(c), out);
    LastCloseIs(c, ProcessedBars(c));
    ReportedOutcome(c, states, out);
    ReportedWorth(c, s, ProcessedBars(c), out, c.candles[ProcessedBars(c) - 1].close);
  }

  /** The reported equity is cash and the position at the close of the last processed bar, and comes to the initial
      balance, plus profit, plus what the open position gained on its cost, minus fees. Where no bar is processed it is
      the initial balance. */
  lemma {:induction false} FinalEquity(c: Case, states: seq<State>, out: Output)
    requires Reports(c, states, out)
    ensures out.processedBars == ProcessedBars(c)
    ensures if out.processedBars == 0 then out.finalEquity == out.cash == c.initialBalance && out.basePosition == 0.0
            else
              var close := c.candles[out.processedBars - 1].close;
              && out.finalEquity == out.cash + out.basePosition * close
              && EquityAddsUp(out, c.initialBalance, states[ProcessedBars(c)].ledger.averageEntry, close)
  {
    hide *;
    ReportedOutcome(c, states, out);
    if ProcessedBars(c) == 0 {
      NothingReported(c, states, out);
    } else {
      LastEquity(c, states, out);
    }
  }

  lemma {:induction false} ReportsThis(c: Case, states: seq<State>, out: Output)
    requires Reports(c, states, out)
    ensures ProcessedBars(c) < |states| && Report(c, states[ProcessedBars(c)], ProcessedBars(c)) == Ok(out)
  {
    hide History, Report;
  }

  /** All bars are processed, or those before the bar at which the run is cancelled; only the former completes it. */
  lemma {:induction false} ReportedOutcome(c: Case, states: seq<State>, out: Output)
    requires Reports(c, states, out)
    ensures out.processedBars == ProcessedBars(c)
    ensures match c.cancelBeforeBar
      case None => out.processedBars == |c.candles|
      case Some(bar) => out.processedBars == if bar < |c.candles| then bar else |c.candles|
    ensures out.completed <==> out.processedBars == |c.candles|
  {
    hide History, FinalizeAll, LastClose, Valuation;
  }

  lemma {:induction false} FinalizeAllCounts(b: Book, from: nat)
    requires from <= |b.orders| && CountersOk(b)
    requires forall i | 0 <= i < |b.orders| :: b.orders[i].closingQuantity >= 0.0
    requires forall i | 0 <= i < |b.orders| :: b.orders[i].closingFinalized ==> b.orders[i].closingQuantity > 0.0
    requires forall i | 0 <= i < from :: b.orders[i].closingFinalized <==> b.orders[i].closingQuantity > 0.0
    ensures var r := FinalizeAll(b, from);
      && CountersOk(r) && |r.orders| == |b.orders|
      && (forall i | 0 <= i < |b.orders| ::
        r.orders[i] == b.orders[i].(closingFinalized := r.orders[i].closingFinalized))
      && (forall i | 0 <= i < |b.orders| :: r.orders[i].closingFinalized <==> r.orders[i].closingQuantity > 0.0)
    decreases |b.orders| - from
  {
    if from == |b.orders| {
    } else {
      FinalizeCounts(b, from);
      FinalizeAllCounts(Finalize(b, from), from + 1);
    }
  }

  function Closing(o: Order): real { if o.closingQuantity > 0.0 then 1.0 else 0.0 }

  function Winning(o: Order): real { if o.closingQuantity > 0.0 && o.closingPnl > 0.0 then 1.0 else 0.0 }

  /** What a state says about the orders reported of it. */
  ghost predicate OrdersOf(s: State, out: Output) {
    && |out.orders| == |s.book.orders|
    && (forall i | 0 <= i < |out.orders| ::
         && OrderOk(s.book.orders[i], i)
         && out.orders[i] == s.book.orders[i].(closingFinalized := s.book.orders[i].closingQuantity > 0.0))
    && out.trades as real == Sum(Counted, out.orders) && out.wins as real == Sum(Won, out.orders)
  }

  lemma SummaryOrders(c: Case, s: State, processed: nat, indicators: seq<Indicators.Indicator>)
    requires BookOk(s.book)
    ensures OrdersOf(s, Summary(c, s, processed, indicators))
  {
    hide ParentsOk, Sum, Drawdown.MetricsOf, Valuation;
    forall i | 0 <= i < |s.book.orders|
      ensures OrderOk(s.book.orders[i], i) && s.book.orders[i].closingQuantity >= 0.0
      ensures s.book.orders[i].closingFinalized ==> s.book.orders[i].closingQuantity > 0.0
    {
      assert OrderOk(s.book.orders[i], i);
    }
    FinalizeAllCounts(s.book, 0);
    FinalizedCounts(FinalizeAll(s.book, 0));
  }

  lemma FinalizedCounts(b: Book)
    requires CountersOk(b)
    ensures b.trades as real == Sum(Counted, b.orders) && b.wins as real == Sum(Won, b.orders)
  {
    hide Sum;
  }

  /** The report is the summary of the last state of the history, which satisfies the invariant. */
  lemma {:induction false} ReportsLast(c: Case, states: seq<State>, out: Output)
        returns (indicators: seq<Indicators.Indicator>)
    requires Reports(c, states, out)
    ensures ProcessedBars(c) < |states| && AllParts(c.params, c.initialBalance, states[ProcessedBars(c)])
    ensures out == Summary(c, states[ProcessedBars(c)], ProcessedBars(c), indicators)
  {
    hide History, Summary, AllParts;
    ReachableParts(c, states, ProcessedBars(c));
    indicators := out.indicators;
    SummaryIndicators(c, states[ProcessedBars(c)], ProcessedBars(c), out);
  }

  lemma SummaryIndicators(c: Case, s: State, processed: nat, out: Output)
    requires processed <= |c.candles| && Report(c, s, processed) == Ok(out)
    ensures out == Summary(c, s, processed, out.indicators)
  {
    hide FinalizeAll, Drawdown.MetricsOf, Valuation, Indicators.IndicatorsOf;
  }

  lemma PartsMean(p: Params, initial: real, s: State)
    requires AllParts(p, initial, s)
    ensures BookOk(s.book) && TotalsOk(s.book.orders, s.fills) && FillsOk(p, s.book.orders, s.fills)
    ensures ClosingsOk(s.book.orders, s.fills)
    ensures Ledger.Balanced(s.ledger, initial, s.fees.Total()) && LedgerOk(s.book.orders, s.fills, s.ledger, s.fees)
    ensures FeesOk(p.rules, s.book.orders, s.fees, s.fills)
  {
    hide BookOk, TotalsOk, ClosingsOk, FillsOk, Ledger.Balanced, LedgerOk, FeesOk, IdsOk;
  }

  lemma SummaryFields(c: Case, s: State, processed: nat, indicators: seq<Indicators.Indicator>)
    ensures var out := Summary(c, s, processed, indicators);
      && out.fills == s.fills && out.basePosition == s.ledger.base && out.realized == s.ledger.realized
      && out.brokerFees + out.marketFees == s.fees.Total() && out.breakdown == s.fees.breakdown
  {
    hide FinalizeAll, Drawdown.MetricsOf, Valuation;
  }

  lemma OrdersOfConserved(s: State, out: Output)
    requires OrdersOf(s, out) && out.fills == s.fills && TotalsOk(s.book.orders, s.fills)
    requires ClosingsOk(s.book.orders, s.fills)
    ensures forall i | 0 <= i < |out.orders| :: OrderConserved(out.orders[i], out.fills)
  {
    hide Sum, ClosedBy;
    forall i | 0 <= i < |out.orders| ensures OrderConserved(out.orders[i], out.fills) {
      assert OrderOk(s.book.orders[i], i) && OrderTotalsOk(s.book.orders[i], s.fills);
      assert OrderClosingOk(s.book.orders[i], s.fills);
    }
  }

  /** The order has filled the quantity and the notional of its own fills, at most its quantity, and has closed what
      they closed at the profit they realized; unless cancelled it is filled or open to its quantity and stamped with
      the time of its last fill. */
  ghost predicate OrderConserved(o: Order, fills: seq<Fill>) {
    && o.filled == Sum(QuantityFor(o.orderId), fills) && o.filledNotional == Sum(QuoteFor(o.orderId), fills)
    && o.closingQuantity == ClosedBy(o.orderId, fills) && o.closingPnl == Sum(ProfitFor(o.orderId), fills)
    && 0.0 <= o.filled <= o.quantity
    && (o.status != Cancelled ==> o.filled + o.remaining == o.quantity && o.filledAt == LastTime(o.orderId, fills))
    && (o.filled > 0.0 ==> o.averagePrice == o.filledNotional / o.filled)
  }

  /** Each order is the sum of its fills, and is filled, open or cancelled to its quantity. */
  lemma {:induction false} OrdersConserved(c: Case, states: seq<State>, out: Output)
    requires Reports(c, states, out)
    ensures forall i | 0 <= i < |out.orders| :: OrderConserved(out.orders[i], out.fills)
  {
    hide *;
    var indicators := ReportsLast(c, states, out);
    var s := states[ProcessedBars(c)];
    PartsMean(c.params, c.initialBalance, s);
    SummaryOrders(c, s, ProcessedBars(c), indicators);
    SummaryFields(c, s, ProcessedBars(c), indicators);
    OrdersOfConserved(s, out);
  }

  lemma SameClosing(s: State, out: Output)
    requires OrdersOf(s, out)
    ensures Sum(ClosingPnl, out.orders) == Sum(ClosingPnl, s.book.orders)
  {
    hide Sum, OrderOk;
    SumPointwise(ClosingPnl, s.book.orders, out.orders);
  }

  lemma LedgerSums(s: State)
    requires LedgerOk(s.book.orders, s.fills, s.ledger, s.fees)
    ensures Sum(SignedQuantity, s.fills) == s.ledger.base
    ensures Sum(FillProfit, s.fills) == s.ledger.realized == Sum(ClosingPnl, s.book.orders)
    ensures Sum(FillFee, s.fills) == s.fees.Total()
    ensures Sum(FillBroker, s.fills) == s.fees.brokerTotal && Sum(FillMarket, s.fills) == s.fees.marketTotal
  {
  }

  lemma FeeSums(rules: seq<Fees.FeeRule>, s: State)
    requires FeesOk(rules, s.book.orders, s.fees, s.fills)
    ensures s.fees.Total() == MapSum(Fees.AmountOf, s.fees.breakdown) == MapSum(Fees.ChargedOf, s.fees.accumulators)
  {
    hide OrderFeesOk, Fees.Balanced;
    Fees.BalancedTotals(s.fees, Fees.NO_FEES);
  }

  /** Position, profit and fees agree however they are counted: by fill, by order, by fee line, by accumulator or in
      total. */
  lemma {:induction false} MoneyConserved(c: Case, states: seq<State>, out: Output)
    requires Reports(c, states, out)
    ensures Sum(SignedQuantity, out.fills) == out.basePosition
    ensures Sum(FillProfit, out.fills) == out.realized == Sum(ClosingPnl, out.orders)
    ensures Sum(FillFee, out.fills) == out.brokerFees + out.marketFees == MapSum(Fees.AmountOf, out.breakdown)
    ensures out.brokerFees + out.marketFees == MapSum(Fees.ChargedOf, states[ProcessedBars(c)].fees.accumulators)
  {
    hide *;
    var indicators := ReportsLast(c, states, out);
    var s := states[ProcessedBars(c)];
    PartsMean(c.params, c.initialBalance, s);
    SummaryOrders(c, s, ProcessedBars(c), indicators);
    SummaryFields(c, s, ProcessedBars(c), indicators);
    LedgerSums(s);
    FeeSums(c.params.rules, s);
    SameClosing(s, out);
  }

  lemma FeesSplit(rules: seq<Fees.FeeRule>, s: State, kind: string -> Fees.FeeGroup)
    requires FeesOk(rules, s.book.orders, s.fees, s.fills) && FeeGroups.ReadsAs(rules, kind)
    ensures FeeGroups.Split(kind, s.fees, Fees.NO_FEES)
  {
    hide OrderFeesOk, Fees.Balanced, FeeGroups.Split, FeeGroups.ReadsAs;
  }

  lemma SplitTotals(kind: string -> Fees.FeeGroup, fees: Fees.FeeState)
    requires FeeGroups.Split(kind, fees, Fees.NO_FEES)
    ensures fees.brokerTotal == MapSum(Fees.AmountOf, FeeGroups.LinesOf(kind, Fees.Broker, fees.breakdown))
    ensures fees.brokerTotal == FeeGroups.ChargedIn(kind, Fees.Broker, fees)
    ensures fees.marketTotal == MapSum(Fees.AmountOf, FeeGroups.LinesOf(kind, Fees.Market, fees.breakdown))
    ensures fees.marketTotal == FeeGroups.ChargedIn(kind, Fees.Market, fees)
  {
    hide FeeGroups.LinesOf, FeeGroups.ChargedIn;
  }

  lemma SummaryFees(c: Case, s: State, processed: nat, indicators: seq<Indicators.Indicator>)
    ensures var out := Summary(c, s, processed, indicators);
      && out.fills == s.fills && out.breakdown == s.fees.breakdown
      && out.brokerFees == s.fees.brokerTotal && out.marketFees == s.fees.marketTotal
  {
    hide FinalizeAll, Drawdown.MetricsOf, Valuation;
  }

  /** In every reachable state what brokers and what markets charge are booked apart: each total is the sum of its own
      lines, of its own accumulators and of its part of the fills. */
  lemma {:induction false} FeesBookedApart(c: Case, states: seq<State>, k: nat, kind: string -> Fees.FeeGroup)
    requires History(c, states) && k < |states| && FeeGroups.ReadsAs(c.params.rules, kind)
    ensures var fees, fills := states[k].fees, states[k].fills;
      && fees.brokerTotal == MapSum(Fees.AmountOf, FeeGroups.LinesOf(kind, Fees.Broker, fees.breakdown))
      && fees.brokerTotal == FeeGroups.ChargedIn(kind, Fees.Broker, fees) == Sum(FillBroker, fills)
      && fees.marketTotal == MapSum(Fees.AmountOf, FeeGroups.LinesOf(kind, Fees.Market, fees.breakdown))
      && fees.marketTotal == FeeGroups.ChargedIn(kind, Fees.Market, fees) == Sum(FillMarket, fills)
  {
    hide *;
    ReachableParts(c, states, k);
    PartsMean(c.params, c.initialBalance, states[k]);
    LedgerSums(states[k]);
    FeesSplit(c.params.rules, states[k], kind);
    SplitTotals(kind, states[k].fees);
  }

  /** So are the reported broker fees and market fees. */
  lemma {:induction false} ReportedFees(c: Case, states: seq<State>, out: Output, kind: string -> Fees.FeeGroup)
    requires Reports(c, states, out) && FeeGroups.ReadsAs(c.params.rules, kind)
    ensures out.brokerFees == MapSum(Fees.AmountOf, FeeGroups.LinesOf(kind, Fees.Broker, out.breakdown))
    ensures out.marketFees == MapSum(Fees.AmountOf, FeeGroups.LinesOf(kind, Fees.Market, out.breakdown))
    ensures out.brokerFees == Sum(FillBroker, out.fills) && out.marketFees == Sum(FillMarket, out.fills)
  {
    hide *;
    var indicators := ReportsLast(c, states, out);
    ReportsHistory(c, states, out);
    FeesBookedApart(c, states, ProcessedBars(c), kind);
    SummaryFees(c, states[ProcessedBars(c)], ProcessedBars(c), indicators);
  }

  lemma ClosingCounted(s: State, out: Output)
    requires OrdersOf(s, out)
    ensures out.trades as real == Sum(Closing, out.orders) && out.wins as real == Sum(Winning, out.orders)
  {
    hide Sum, OrderOk;
    SameSum(Counted, Closing, out.orders);
    SameSum(Won, Winning, out.orders);
  }

  /** Each order that closed a position counts once as a trade, and as a win when it closed at a profit. */
  lemma {:induction false} TradesCounted(c: Case, states: seq<State>, out: Output)
    requires Reports(c, states, out)
    ensures out.trades as real == Sum(Closing, out.orders) && out.wins as real == Sum(Winning, out.orders)
  {
    hide *;
    var indicators := ReportsLast(c, states, out);
    var s := states[ProcessedBars(c)];
    PartsMean(c.params, c.initialBalance, s);
    SummaryOrders(c, s, ProcessedBars(c), indicators);
    ClosingCounted(s, out);
  }

  lemma RateIs(rate: real, wins: real, trades: real)
    requires trades > 0.0 && 0.0 <= wins <= trades && rate == wins / trades
    ensures rate * trades == wins && 0.0 <= rate <= 1.0
  {
    if rate > 1.0 {
      ProductGrows(1.0, rate, trades);
    }
    if rate < 0.0 {
      ProductGrows(rate, 0.0, trades);
    }
  }

  lemma {:induction false} FewerWins(orders: seq<Order>)
    ensures 0.0 <= Sum(Winning, orders) <= Sum(Closing, orders)
  {
    if orders == [] {
    } else {
      FewerWins(orders[..|orders| - 1]);
    }
  }

  lemma SummaryRate(c: Case, s: State, processed: nat, indicators: seq<Indicators.Indicator>)
    ensures var out := Summary(c, s, processed, indicators);
      out.winRate == if out.trades == 0 then 0.0 else out.wins as real / out.trades as real
  {
    hide FinalizeAll, Drawdown.MetricsOf, Valuation;
  }

  /** The reported win rate is the share of the orders with a profit among those that closed a position. */
  lemma {:induction false} WinRateCounted(c: Case, states: seq<State>, out: Output)
    requires Reports(c, states, out)
    ensures 0.0 <= out.winRate <= 1.0
    ensures if Sum(Closing, out.orders) == 0.0 then out.winRate == 0.0
            else out.winRate * Sum(Closing, out.orders) == Sum(Winning, out.orders)
  {
    hide *;
    var indicators := ReportsLast(c, states, out);
    var s := states[ProcessedBars(c)];
    TradesCounted(c, states, out);
    SummaryRate(c, s, ProcessedBars(c), indicators);
    FewerWins(out.orders);
    if out.trades > 0 {
      RateIs(out.winRate, out.wins as real, out.trades as real);
    }
  }

  lemma {:induction false} SameSum<T>(f: T -> real, g: T -> real, s: seq<T>)
    requires forall i :: 0 <= i < |s| ==> f(s[i]) == g(s[i])
    ensures Sum(f, s) == Sum(g, s)
  {
    if s == [] {
    } else {
      SameSum(f, g, s[..|s| - 1]);
    }
  }

  /** What the order has been charged on the line of the rule. */
  ghost predicate ChargedOnLine(rules: seq<Fees.FeeRule>, rule: Fees.FeeRule, o: Order, last: FeeLines.Trade,
        charged: real)
  {
    if o.filled == 0.0 then charged == 0.0
    else
      && charged == FeeLines.LineCharge(rules, Fees.LineOf(rule), o.side, FilledTrade(o), last)
      && (FeeLines.Regular(rules, rule, o.side) ==>
            FeeLines.LineFee(rules, rule, o.side, FilledTrade(o)) == Ok(charged))
  }

  /** However its fills were split, an order has been charged on a linear line for its aggregate and its last fill, and
      on a regular one for its aggregate alone. */
  lemma {:induction false} OrderFeesInvariant(c: Case, states: seq<State>, k: nat, i: nat, rule: Fees.FeeRule)
    requires History(c, states) && k < |states| && i < |states[k].book.orders|
    requires rule in c.params.rules && OnLinearLine(c.params.rules, rule, states[k].book.orders[i])
    ensures var o := states[k].book.orders[i];
      ChargedOnLine(c.params.rules, rule, o, LastTrade(o.orderId, states[k].fills),
        Fees.AccumulatorAt(states[k].fees, Fees.KeyOf(rule, o.orderId)).charged)
  {
    hide *;
    ReachableParts(c, states, k);
    PartsMean(c.params, c.initialBalance, states[k]);
    OrderFeesHold(c.params.rules, states[k], i, rule);
  }

  lemma OrderFeesHold(rules: seq<Fees.FeeRule>, s: State, i: nat, rule: Fees.FeeRule)
    requires BookOk(s.book) && FeesOk(rules, s.book.orders, s.fees, s.fills) && i < |s.book.orders|
    requires rule in rules && OnLinearLine(rules, rule, s.book.orders[i])
    ensures var o := s.book.orders[i];
      ChargedOnLine(rules, rule, o, LastTrade(o.orderId, s.fills),
        Fees.AccumulatorAt(s.fees, Fees.KeyOf(rule, o.orderId)).charged)
  {
    hide ParentsOk, CountersOk, Fees.Balanced, LineFeeOk, Fees.AccumulatorAt, OnLinearLine, ChargedOnLine, LastTrade;
    var o := s.book.orders[i];
    assert OrderFeesOk(rules, o, s.fees, LastTrade(o.orderId, s.fills)) && OrderOk(o, i);
    LineCharged(rules, rule, o, s.fees, LastTrade(o.orderId, s.fills));
  }

  lemma LineCharged(rules: seq<Fees.FeeRule>, rule: Fees.FeeRule, o: Order, fees: Fees.FeeState, last: FeeLines.Trade)
    requires OnLinearLine(rules, rule, o) && LineFeeOk(rules, rule, o, fees, last)
    requires (o.filled == 0.0 && o.filledNotional == 0.0) || (o.filled > 0.0 && o.filledNotional > 0.0)
    ensures ChargedOnLine(rules, rule, o, last, Fees.AccumulatorAt(fees, Fees.KeyOf(rule, o.orderId)).charged)
  {
    hide Fees.AccumulatorAt, FeeLines.LinearLine, FeeLines.LineRounds, FeeLines.LineCharge, FeeLines.LineFee;
    hide FeeLines.Regular, FeeLines.MayEnd;
    if o.filled != 0.0 && FeeLines.Regular(rules, rule, o.side) {
      FeeLines.RegularFee(rules, rule, o.side, FilledTrade(o), last);
    }
  }

  // ---- fills -----------------------------------------------------------------------------

  /** The fills added between two states. */
  function NewFills(a: State, b: State): seq<Fill>
    requires a.fills <= b.fills
  {
    b.fills[|a.fills|..]
  }

  lemma PositiveFills(p: Params, orders: seq<Order>, all: seq<Fill>, from: nat)
    requires FillsOk(p, orders, all) && from <= |all|
    ensures from < |all| ==> Sum(FillQuantity, all[from..]) > 0.0
  {
    hide FillOk, Sum;
    var fills := all[from..];
    forall n | 0 <= n < |fills| ensures FillQuantity(fills[n]) > 0.0 {
      assert FillAtOk(p, orders, all, from + n);
      FillPositive(p, orders, all, from + n);
    }
    if fills != [] {
      PositiveSum(FillQuantity, fills);
    }
  }

  lemma FillPositive(p: Params, orders: seq<Order>, all: seq<Fill>, n: nat)
    requires n < |all| && FillAtOk(p, orders, all, n)
    ensures all[n].quantity > 0.0
  {
    hide Sum, RespectsPrices, RespectsReduceOnly, IsMultiple;
  }

  lemma BudgetBound(p: Params, candle: Candle, before: State, after: State)
    requires TradesOn(p, candle, StartBar(before, candle), after) && FillsOk(p, after.book.orders, after.fills)
    ensures before.fills <= after.fills
    ensures var fills := NewFills(before, after);
      && after.budget + Sum(FillQuantity, fills) == candle.volume * 0.1
      && (fills != [] ==> 0.0 < Sum(FillQuantity, fills) <= candle.volume * 0.1)
  {
    hide FillsOk, OnBar;
    var fills := NewFills(before, after);
    SumConcat(FillQuantity, before.fills, fills);
    assert after.fills == before.fills + fills;
    PositiveFills(p, after.book.orders, after.fills, |before.fills|);
  }

  lemma StepTrades(p: Params, initial: real, candle: Candle, a: State, b: State)
    requires Step(p, initial, candle, a, b)
    ensures TradesOn(p, candle, a, b)
  {
    hide Inv, Grows, TradesOn;
  }

  /** What trades within one bar, at its open and at its close together, is at most a tenth of its volume, and the rest
      of that tenth is left. */
  lemma {:induction false} LiquidityBound(c: Case, states: seq<State>, k: nat)
    requires History(c, states) && k + 1 < |states|
    ensures k < |c.candles| && states[k].fills <= states[k + 1].fills
    ensures var fills := NewFills(states[k], states[k + 1]);
      && states[k + 1].budget + Sum(FillQuantity, fills) == c.candles[k].volume * 0.1
      && (fills != [] ==> 0.0 < Sum(FillQuantity, fills) <= c.candles[k].volume * 0.1)
  {
    hide *;
    HistoryLeads(c, states, k);
    BarOf(c, states, k);
    StepTrades(c.params, c.initialBalance, c.candles[k], StartBar(states[k], c.candles[k]), states[k + 1]);
    ReachableParts(c, states, k + 1);
    PartsMean(c.params, c.initialBalance, states[k + 1]);
    BudgetBound(c.params, c.candles[k], states[k], states[k + 1]);
  }

  lemma {:induction false} PositiveSum<T>(f: T -> real, s: seq<T>)
    requires s != [] && forall i :: 0 <= i < |s| ==> f(s[i]) > 0.0
    ensures Sum(f, s) > 0.0
  {
    if |s| == 1 {
    } else {
      PositiveSum(f, s[..|s| - 1]);
    }
  }

  /** A reduce-only fill brings the position towards zero and never past it. */
  lemma {:induction false} ReduceOnlyNeverFlips(c: Case, states: seq<State>, k: nat, n: nat)
    requires History(c, states) && k < |states| && n < |states[k].fills|
    ensures var s := states[k]; var f := s.fills[n];
      var i, before, after := IndexOf(f.orderId), Sum(SignedQuantity, s.fills[..n]),
        Sum(SignedQuantity, s.fills[..n + 1]);
      0 <= i < |s.book.orders| && (s.book.orders[i].reduceOnly ==>
        if f.side == Sell then 0.0 <= after < before else before < after <= 0.0)
  {
    hide *;
    ReachableParts(c, states, k);
    PartsMean(c.params, c.initialBalance, states[k]);
    ReduceOnlyFill(c.params, states[k].book.orders, states[k].fills, n);
  }

  lemma ReduceOnlyFill(p: Params, orders: seq<Order>, fills: seq<Fill>, n: nat)
    requires FillsOk(p, orders, fills) && n < |fills|
    ensures var f := fills[n];
      var i, before, after := IndexOf(f.orderId), Sum(SignedQuantity, fills[..n]), Sum(SignedQuantity, fills[..n + 1]);
      0 <= i < |orders| && (orders[i].reduceOnly ==>
        if f.side == Sell then 0.0 <= after < before else before < after <= 0.0)
  {
    assert FillAtOk(p, orders, fills, n);
    hide IsMultiple, RespectsPrices;
    assert fills[..n + 1] == fills[..n] + [fills[n]];
    SumAppend(SignedQuantity, fills[..n], fills[n]);
  }

  // ---- orders ----------------------------------------------------------------------------

  /** In every reachable state an order that has traded has a Filled parent, and no child of a Cancelled order is
      open. */
  lemma {:induction false} Hierarchy(c: Case, states: seq<State>, k: nat, child: nat, parent: nat)
    requires History(c, states) && k < |states|
    requires child < |states[k].book.orders| && parent < |states[k].book.orders|
    requires ChildOf(states[k].book.orders, child, parent)
    ensures var orders := states[k].book.orders;
      && (orders[child].filled > 0.0 ==> orders[parent].status == Filled)
      && (orders[parent].status == Cancelled ==> orders[child].status == Cancelled && orders[child].filled == 0.0)
  {
    hide *;
    ReachableParts(c, states, k);
    PartsMean(c.params, c.initialBalance, states[k]);
    BookHierarchy(states[k].book, child, parent);
  }

  lemma BookHierarchy(b: Book, child: nat, parent: nat)
    requires BookOk(b) && child < |b.orders| && parent < |b.orders| && ChildOf(b.orders, child, parent)
    ensures b.orders[child].filled > 0.0 ==> b.orders[parent].status == Filled
    ensures b.orders[parent].status == Cancelled ==>
      b.orders[child].status == Cancelled && b.orders[child].filled == 0.0
  {
    hide CountersOk;
    assert OrderOk(b.orders[parent], parent) && OrderOk(b.orders[child], child) && ParentOk(b.orders, child);
  }

  /** Filled and Cancelled are absorbing, terms never change and fills never shrink. */
  lemma {:induction false} ClosedOrdersStay(c: Case, states: seq<State>, from: nat, k: nat, i: nat)
    requires History(c, states) && from <= k < |states| && i < |states[from].book.orders|
    ensures i < |states[k].book.orders|
    ensures var a, b := states[from].book.orders[i], states[k].book.orders[i];
      && SameTerms(a, b) && a.filled <= b.filled
      && (a.status.Closed() ==>
        b.status == a.status && b.filled == a.filled && b.filledNotional == a.filledNotional && b.remaining == 0.0)
  {
    HistoryGrows(c, states, from, k);
    ReachableParts(c, states, from);
    assert OrderOk(states[from].book.orders[i], i);
    assert Evolves(states[from].book.orders[i], states[k].book.orders[i]);
  }

  /** Of the members of an exclusive group at most one has traded. */
  lemma {:induction false} ExclusiveOne(c: Case, states: seq<State>, k: nat, n: nat, group: string)
    requires History(c, states) && k < |states| && OcoExclusive(states[k].book.orders, n, group)
    ensures n <= |states[k].book.orders|
    ensures forall i, j | 0 <= i < j < n ::
      var a, b := states[k].book.orders[i], states[k].book.orders[j];
      a.ocoGroup == group && b.ocoGroup == group ==> a.filled == 0.0 || b.filled == 0.0
  {
    ReachableParts(c, states, k);
    hide History;
    var orders := states[k].book.orders;
    forall i, j | 0 <= i < j < n && orders[i].ocoGroup == group && orders[j].ocoGroup == group
      ensures orders[i].filled == 0.0 || orders[j].filled == 0.0
    {
      assert OrderOk(orders[i], i);
    }
  }

  /** Members of an OCO group that are exclusive after some bar stay so: at most one of them ever trades. */
  lemma {:induction false} OcoAtMostOne(c: Case, states: seq<State>, from: nat, k: nat, n: nat, group: string)
    requires History(c, states) && from <= k < |states| && group != ""
    requires OcoExclusive(states[from].book.orders, n, group)
    ensures n <= |states[k].book.orders|
    ensures forall i, j | 0 <= i < j < n ::
      var a, b := states[k].book.orders[i], states[k].book.orders[j];
      a.ocoGroup == group && b.ocoGroup == group ==> a.filled == 0.0 || b.filled == 0.0
  {
    HistoryGrows(c, states, from, k);
    assert OcoExclusive(states[k].book.orders, n, group);
    ExclusiveOne(c, states, k, n, group);
  }

  // ---- the queue -------------------------------------------------------------------------

  predicate Between(from: nat, i: nat, until: nat) {
    from <= i < until
  }

  ghost function Range(from: nat, until: nat): set<nat> {
    set i: nat | i < until && Between(from, i, until)
  }

  /** Every order stands exactly once in the matching queue. */
  ghost predicate Queue(s: State) {
    multiset(s.matching) == multiset(Range(0, |s.book.orders|))
  }

  /** `ByPriority` is the range `from..until`, by priority and, within a priority, in order. */
  lemma ByPrioritySorts(orders: seq<Order>, from: nat, until: nat)
    requires from <= until <= |orders|
    ensures var bag: multiset<nat> := multiset(ByPriority(orders, from, until));
      bag == multiset(Range(from, until))
    ensures PrioritySorted(orders, ByPriority(orders, from, until))
  {
    var bag: multiset<nat> := multiset(ByPriority(orders, from, until));
    var range: multiset<nat> := multiset(Range(from, until));
    forall i: nat ensures bag[i] == range[i] {
      WithPriorityCounts(orders, from, until, 0, i);
      WithPriorityCounts(orders, from, until, 1, i);
      WithPriorityCounts(orders, from, until, 2, i);
    }
    var q0, q1, q2 := WithPriority(orders, from, until, 0), WithPriority(orders, from, until, 1),
      WithPriority(orders, from, until, 2);
    WithPrioritySorts(orders, from, until, 0);
    WithPrioritySorts(orders, from, until, 1);
    WithPrioritySorts(orders, from, until, 2);
    SortedConcat(orders, q0, q1);
    SortedConcat(orders, q0 + q1, q2);
  }

  /** Orders under no parent come first, then stop-market orders, then the rest; alike orders in their order. */
  predicate Precedes(orders: seq<Order>, i: nat, j: nat)
    requires i < |orders| && j < |orders|
  {
    var a, b := orders[i], orders[j];
    if a.parentId == 0 || b.parentId == 0 then a.parentId == 0 && (b.parentId != 0 || i < j)
    else if a.orderType.StopMarket? || b.orderType.StopMarket? then
      a.orderType.StopMarket? && (!b.orderType.StopMarket? || i < j)
    else i < j
  }

  ghost predicate PrioritySorted(orders: seq<Order>, queue: seq<nat>) {
    Indices(queue, |orders|) && forall a, b | 0 <= a < b < |queue| :: Precedes(orders, queue[a], queue[b])
  }

  lemma SortedConcat(orders: seq<Order>, q: seq<nat>, r: seq<nat>)
    requires PrioritySorted(orders, q) && PrioritySorted(orders, r)
    requires forall a, b | 0 <= a < |q| && 0 <= b < |r| :: AtomicPriority(orders[q[a]]) < AtomicPriority(orders[r[b]])
    ensures PrioritySorted(orders, q + r)
  {
  }

  /** The indices of one priority, from `from` on, in increasing order. */
  ghost predicate Level(orders: seq<Order>, queue: seq<nat>, from: nat, priority: nat) {
    && PrioritySorted(orders, queue)
    && forall a | 0 <= a < |queue| :: from <= queue[a] && AtomicPriority(orders[queue[a]]) == priority
  }

  lemma LevelPrepend(orders: seq<Order>, queue: seq<nat>, from: nat, priority: nat)
    requires from < |orders| && Level(orders, queue, from + 1, priority) && AtomicPriority(orders[from]) == priority
    ensures Level(orders, [from] + queue, from, priority)
  {
    var all := [from] + queue;
    forall a, b | 0 <= a < b < |all| ensures Precedes(orders, all[a], all[b]) {
      assert all[b] == queue[b - 1];
    }
  }

  lemma {:induction false} WithPrioritySorts(orders: seq<Order>, from: nat, until: nat, priority: nat)
    requires from <= until <= |orders|
    ensures Level(orders, WithPriority(orders, from, until, priority), from, priority)
    decreases until - from
  {
    if from == until {
    } else {
      WithPrioritySorts(orders, from + 1, until, priority);
      if AtomicPriority(orders[from]) == priority {
        LevelPrepend(orders, WithPriority(orders, from + 1, until, priority), from, priority);
      }
    }
  }

  lemma {:induction false} WithPriorityCounts(orders: seq<Order>, from: nat, until: nat, priority: nat, i: nat)
    requires from <= until <= |orders|
    ensures var bag: multiset<nat> := multiset(WithPriority(orders, from, until, priority));
      bag[i] == if from <= i < until && AtomicPriority(orders[i]) == priority then 1 else 0
    decreases until - from
  {
    if from == until {
    } else {
      WithPriorityCounts(orders, from + 1, until, priority, i);
    }
  }

  lemma QueueGrows(s: State, r: State, more: seq<nat>)
    requires Queue(s) && |s.book.orders| <= |r.book.orders| && r.matching == s.matching + more
    requires multiset(more) == multiset(Range(|s.book.orders|, |r.book.orders|))
    ensures Queue(r)
  {
    var a, b := Range(0, |s.book.orders|), Range(|s.book.orders|, |r.book.orders|);
    assert Range(0, |r.book.orders|) == a + b && a !! b;
  }

  lemma AddOrderQueue(s: State, intent: Intent)
    requires Queue(s) && AddOrder(s, intent, false).Ok?
    ensures Queue(AddOrder(s, intent, false).value)
  {
    hide ValidateSubmit, NewOrder;
    var added := AddOrder(s, intent, false).value;
    assert Range(|s.book.orders|, |added.book.orders|) == {|s.book.orders|};
    QueueGrows(s, added, [|s.book.orders|]);
  }

  lemma SameQueue(s: State, r: State)
    requires Queue(s) && r.matching == s.matching && |r.book.orders| == |s.book.orders|
    ensures Queue(r)
  {
  }

  lemma SubmitOneQueue(p: Params, s: State, intent: Intent)
    requires Indexed(s) && Queue(s)
    ensures SubmitOne(p, s, intent).Ok? ==> Queue(SubmitOne(p, s, intent).value)
  {
    hide AddOrder, TryFill, Queue, Indexed;
    var added, r := AddOrder(s, intent, false), SubmitOne(p, s, intent);
    if added.Ok? {
      AddOrderQueue(s, intent);
      if r.Ok? {
        SameQueue(added.value, r.value);
      }
    }
  }

  lemma {:induction false} AddOrdersQueue(s: State, group: seq<Intent>)
    requires Indexed(s)
    ensures AddOrders(s, group).Ok? ==> AddOrders(s, group).value.matching == s.matching
    decreases |group|
  {
    if group != [] && AddOrder(s, group[0], true).Ok? {
      AddOrdersQueue(AddOrder(s, group[0], true).value, group[1..]);
    }
  }

  lemma SubmitAtomicQueue(p: Params, s: State, groupId: string, group: seq<Intent>)
    requires Indexed(s) && Queue(s)
    ensures SubmitAtomic(p, s, groupId, group).Ok? ==> Queue(SubmitAtomic(p, s, groupId, group).value)
  {
    if SubmitAtomic(p, s, groupId, group).Ok? {
      AddOrdersQueue(s, group);
      var placed := PlaceGroup(s, group).value;
      assert placed.matching == s.matching;
      ByPrioritySorts(placed.book.orders, |s.book.orders|, |placed.book.orders|);
      var queue := ByPriority(placed.book.orders, |s.book.orders|, |placed.book.orders|);
      QueueGrows(s, Queued(placed, queue), queue);
      assert SubmitAtomic(p, s, groupId, group) == ReleaseGroup(p, placed, |s.book.orders|);
    }
  }

  lemma {:induction false} ApplyIntentsQueue(p: Params, s: State, intents: seq<Intent>, from: nat)
    requires Indexed(s) && Queue(s) && from <= |intents|
    ensures ApplyIntents(p, s, intents, from).Ok? ==> Queue(ApplyIntents(p, s, intents, from).value)
    decreases |intents| - from
  {
    if from == |intents| {
    } else {
      var intent := intents[from];
      SubmitOneQueue(p, s, intent);
      SubmitAtomicQueue(p, s.(groups := s.groups + {intent.atomicGroup}), intent.atomicGroup,
        InGroup(intents, intent.atomicGroup));
      var next := ApplyIntent(p, s, intents, intent);
      if next.Ok? {
        ApplyIntentsQueue(p, next.value, intents, from + 1);
      }
    }
  }

  lemma BarQueue(p: Params, s: State, candle: Candle, intents: seq<Intent>)
    requires Indexed(s) && Queue(s)
    ensures Bar(p, s, candle, intents).Ok? ==> Queue(Bar(p, s, candle, intents).value)
  {
    var consumed := ConsumeBar(p, s, candle);
    if consumed.Ok? {
      ConsumeBarQueue(p, s, candle);
      ApplyIntentsQueue(p, consumed.value, intents, 0);
    }
  }

  lemma ConsumeBarQueue(p: Params, s: State, candle: Candle)
    requires Indexed(s) && Queue(s)
    ensures ConsumeBar(p, s, candle).Ok? ==> Queue(ConsumeBar(p, s, candle).value)
  {
  }

  /** After every bar each order stands exactly once in the queue that the next bar is matched against. */
  lemma {:induction false} QueuedOnce(c: Case, states: seq<State>, k: nat)
    requires History(c, states) && k < |states|
    ensures Queue(states[k])
    decreases k
  {
    if k == 0 {
      assert Range(0, 0) == {};
    } else {
      QueuedOnce(c, states, k - 1);
      assert Leads(c, states, k - 1);
      BarQueue(c.params, states[k - 1], c.candles[k - 1], IntentsAt(c.intents, k - 1));
    }
  }

  // ---- non-anticipation ------------------------------------------------------------------

  /** The intents due before bar `bars`, in their order. */
  function IntentsBefore(intents: seq<Intent>, bars: nat): seq<Intent> {
    if intents == [] then []
    else if intents[0].barIndex < bars then [intents[0]] + IntentsBefore(intents[1..], bars)
    else IntentsBefore(intents[1..], bars)
  }

  lemma {:induction false} IntentsAtBefore(intents: seq<Intent>, bar: nat, bars: nat)
    requires bar < bars
    ensures IntentsAt(IntentsBefore(intents, bars), bar) == IntentsAt(intents, bar)
    decreases |intents|
  {
    if intents == [] {
    } else {
      IntentsAtBefore(intents[1..], bar, bars);
      if intents[0].barIndex < bars {
        assert ([intents[0]] + IntentsBefore(intents[1..], bars))[1..] == IntentsBefore(intents[1..], bars);
      }
    }
  }

  /** Two cases that cannot be told apart before bar `bars`. */
  ghost predicate AgreeBefore(a: Case, b: Case, bars: nat) {
    && a.params == b.params && a.initialBalance == b.initialBalance
    && bars <= |a.candles| && bars <= |b.candles| && a.candles[..bars] == b.candles[..bars]
    && IntentsBefore(a.intents, bars) == IntentsBefore(b.intents, bars)
  }

  /** No bar looks ahead: cases that agree on the first bars have the same histories over them. */
  lemma {:induction false} NonAnticipation(a: Case, b: Case, bars: nat, states: seq<State>)
    requires AgreeBefore(a, b, bars) && |states| <= bars + 1 && History(a, states)
    ensures History(b, states)
  {
    forall k: nat | k + 1 < |states| ensures Leads(b, states, k) {
      assert Leads(a, states, k);
      IntentsAtBefore(a.intents, k, bars);
      IntentsAtBefore(b.intents, k, bars);
      assert a.candles[k] == a.candles[..bars][k] == b.candles[..bars][k] == b.candles[k];
    }
  }

  function Truncated(c: Case, bars: nat): Case
    requires bars <= |c.candles|
  {
    c.(cancelBeforeBar := None, candles := c.candles[..bars], intents := IntentsBefore(c.intents, bars))
  }

  lemma {:induction false} IntentsBeforeTwice(intents: seq<Intent>, bars: nat)
    ensures IntentsBefore(IntentsBefore(intents, bars), bars) == IntentsBefore(intents, bars)
    ensures forall intent <- IntentsBefore(intents, bars) :: intent.barIndex < bars
    decreases |intents|
  {
    if intents == [] {
    } else {
      IntentsBeforeTwice(intents[1..], bars);
      if intents[0].barIndex < bars {
        assert ([intents[0]] + IntentsBefore(intents[1..], bars))[1..] == IntentsBefore(intents[1..], bars);
      }
    }
  }

  lemma TruncatedAgrees(c: Case, bars: nat)
    requires ValidCase(c) && 0 < bars <= |c.candles|
    ensures ValidCase(Truncated(c, bars)) && AgreeBefore(c, Truncated(c, bars), bars)
  {
    var t := Truncated(c, bars);
    IntentsBeforeTwice(c.intents, bars);
    assert t.candles[..bars] == t.candles == c.candles[..bars];
  }

  lemma ReportTruncated(c: Case, bars: nat, s: State)
    requires 0 < bars < |c.candles|
    ensures var whole, cut := Report(c, s, bars), Report(Truncated(c, bars), s, bars);
      && (whole.Ok? <==> cut.Ok?)
      && (whole.Ok? ==> cut.value == whole.value.(completed := true) && whole.value == cut.value.(completed := false))
  {
    hide FinalizeAll, Closes;
    assert LastClose(c, bars) == LastClose(Truncated(c, bars), bars);
    assert Truncated(c, bars).candles[..bars] == c.candles[..bars];
  }

  lemma {:induction false} CancelledGivesTruncated(c: Case, bars: nat, states: seq<State>, out: Output)
    requires c.cancelBeforeBar == Some(bars) && 0 < bars < |c.candles| && Reports(c, states, out)
    ensures Reports(Truncated(c, bars), states, out.(completed := true)) && !out.completed
  {
    hide Bar, Report;
    TruncatedAgrees(c, bars);
    NonAnticipation(c, Truncated(c, bars), bars, states);
    ReportTruncated(c, bars, states[bars]);
  }

  lemma {:induction false} TruncatedGivesCancelled(c: Case, bars: nat, states: seq<State>, out: Output)
    requires c.cancelBeforeBar == Some(bars) && 0 < bars < |c.candles| && ValidCase(c)
    requires Reports(Truncated(c, bars), states, out)
    ensures Reports(c, states, out.(completed := false))
  {
    hide Bar, Report;
    TruncatedAgrees(c, bars);
    NonAnticipation(Truncated(c, bars), c, bars, states);
    ReportTruncated(c, bars, states[bars]);
  }

  lemma {:induction false} ReportsRun(c: Case, states: seq<State>, out: Output)
    requires Reports(c, states, out)
    ensures RunCase(c) == Ok(out)
  {
    hide Bar;
    HistoryRuns(c, states, ProcessedBars(c));
  }

  /** Cancelling a run before a bar reports exactly what the case cut off at that bar reports, but for the status. */
  lemma CancelledIsTruncated(c: Case, bars: nat)
    requires ValidCase(c) && c.cancelBeforeBar == Some(bars) && 0 < bars < |c.candles|
    ensures RunCase(c).Ok? <==> RunCase(Truncated(c, bars)).Ok?
    ensures RunCase(c).Ok? ==> RunCase(c).value == RunCase(Truncated(c, bars)).value.(completed := false)
  {
    if RunCase(c).Ok? {
      var states := RunCaseReports(c);
      CancelledGivesTruncated(c, bars, states, RunCase(c).value);
      ReportsRun(Truncated(c, bars), states, RunCase(c).value.(completed := true));
    }
    if RunCase(Truncated(c, bars)).Ok? {
      var states := RunCaseReports(Truncated(c, bars));
      TruncatedGivesCancelled(c, bars, states, RunCase(Truncated(c, bars)).value);
      ReportsRun(c, states, RunCase(Truncated(c, bars)).value.(completed := false));
    }
  }
}
