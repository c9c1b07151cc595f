/** Of what a run warns, and exactly when. */
module Warnings {
  import opened Kernel
  import opened Matching
  import opened Orders
  import opened Backtest
  import opened Invariants
  import opened Filling
  import opened Progress
  import opened Runs
  import opened Trading
  import Drawdown

  // ---- one attempt -----------------------------------------------------------------------

  /** The order is open under no parent or a filled one, and there is liquidity left. */
  predicate Ready(s: State, i: nat) {
    && i < |s.book.orders|
    && var o := s.book.orders[i];
       && o.remaining > 0.0 && s.budget > 0.0
       && (o.parentId != 0 ==>
             exists parent :: parent in s.book.orders && parent.orderId == o.parentId && parent.status == Filled)
  }

  /** The largest multiple of the quantity step that is allowed. */
  ghost predicate Largest(p: Params, allowed: real, quantity: real) {
    IsMultiple(quantity, p.quantityStep) && quantity <= allowed < quantity + p.quantityStep
  }

  /** An offered order may trade something, but its largest multiple of the step is nothing, or is under the minimum. */
  ghost predicate TooLittle(p: Params, s: State, o: Order, warning: Warning) {
    && (o.reduceOnly ==> Reducible(s.ledger.base, o.side) > 0.0)
    && match warning
       case LiquidityStep => Allowed(s, o) < p.quantityStep
       case LiquidityMin =>
         p.minQuantity > 0.0 && exists quantity :: 0.0 < quantity < p.minQuantity && Largest(p, Allowed(s, o), quantity)
       case _ => false
  }

  /** An attempt gives rise to this warning. */
  ghost predicate Warns(p: Params, s: State, i: nat, candle: Candle, mode: MatchMode, warning: Warning) {
    match warning
    case ZeroVolume => false
    case UnsupportedType(text) => Ready(s, i) && s.book.orders[i].orderType == OtherType(text)
    case _ => exists price :: Offers(p, s, i, candle, mode, price) && TooLittle(p, s, s.book.orders[i], warning)
  }

  predicate NoRepeats(warnings: seq<Warning>) {
    forall m, n | 0 <= m < n < |warnings| :: warnings[m] != warnings[n]
  }

  /** `b` has the warnings of `a`, and then at most this one more. */
  predicate AtMost(a: seq<Warning>, b: seq<Warning>, warning: Warning) {
    b == a || (warning !in a && b == a + [warning])
  }

  lemma ApplyFillQuiet(p: Params, s: State, i: nat, quantity: real, price: real, at: int)
    requires Knows(s, i)
    ensures var r := ApplyFill(p, s, i, quantity, price, at); r.Ok? ==> r.value.warnings == s.warnings
  {
    hide SettleBook, UpdateFilledOrder, AddClosing, MakeFill, Worth;
  }

  lemma MatchWarns(p: Params, s: State, i: nat, candle: Candle, mode: MatchMode, m: Matched)
    requires Knows(s, i) && MatchPrice(p, s, i, candle, mode) == Ok(m)
    ensures var o := s.book.orders[i];
      m.state.warnings == if o.orderType.OtherType? then WarnOnce(s, UnsupportedType(o.orderType.text)).warnings
        else s.warnings
  {
    hide ApplySlippage, LimitPrice, StopMarketPrice, WarnOnce;
  }

  /** What executing at a price warns of. */
  lemma ExecuteWarns(p: Params, s: State, i: nat, price: real, at: int, r: State)
    requires Knows(s, i) && s.book.orders[i].remaining > 0.0 && s.budget > 0.0 && p.quantityStep > 0.0
    requires Execute(p, s, i, price, at) == Ok(r)
    ensures var o := s.book.orders[i];
      if TooLittle(p, s, o, LiquidityStep) then r.warnings == WarnOnce(s, LiquidityStep).warnings
      else if TooLittle(p, s, o, LiquidityMin) then r.warnings == WarnOnce(s, LiquidityMin).warnings
      else r.warnings == s.warnings
    ensures !(TooLittle(p, s, s.book.orders[i], LiquidityStep) && TooLittle(p, s, s.book.orders[i], LiquidityMin))
  {
    hide IsMultiple, Tradable, ApplyFill, CancelOrder, WarnOnce, Allowed, Reducible;
    var o := s.book.orders[i];
    AllowedIs(s, o);
    if Tradable(s, o).Some? {
      var quantity := TruncateToIncrement(Allowed(s, o), p.quantityStep).value;
      forall other | Largest(p, Allowed(s, o), other) ensures other == quantity {
        LargestOnce(p, Allowed(s, o), other, quantity);
      }
      assert Largest(p, Allowed(s, o), quantity);
      NothingAllowed(p, Allowed(s, o), quantity);
      ApplyFillQuiet(p, s, i, quantity, price, at);
      assert TooLittle(p, s, o, LiquidityStep) <==> quantity <= 0.0;
      assert TooLittle(p, s, o, LiquidityMin) <==> p.minQuantity > 0.0 && 0.0 < quantity < p.minQuantity;
      assert quantity > 0.0 && !(p.minQuantity > 0.0 && quantity < p.minQuantity) ==> r.warnings == s.warnings;
    } else {
      assert r == CancelAt(s, i, Some(at));
    }
  }

  lemma LargestOnce(p: Params, allowed: real, a: real, b: real)
    requires p.quantityStep > 0.0 && Largest(p, allowed, a) && Largest(p, allowed, b)
    ensures a == b
  {
    hide IsMultiple;
    if a < b {
      MultiplesApart(a, b, p.quantityStep);
    } else if b < a {
      MultiplesApart(b, a, p.quantityStep);
    }
  }

  /** Nothing is left of a quantity exactly when it is less than one step. */
  lemma NothingAllowed(p: Params, allowed: real, quantity: real)
    requires p.quantityStep > 0.0 && allowed >= 0.0 && Largest(p, allowed, quantity)
    ensures allowed < p.quantityStep <==> quantity <= 0.0
  {
    assert Units(0, p.quantityStep) == 0.0;
    assert IsMultiple(0.0, p.quantityStep);
    hide IsMultiple;
    if 0.0 < quantity {
      MultiplesApart(0.0, quantity, p.quantityStep);
    } else if quantity < 0.0 {
      MultiplesApart(quantity, 0.0, p.quantityStep);
    }
  }

  lemma OfferWarns(p: Params, s: State, i: nat, candle: Candle, mode: MatchMode, price: real, warning: Warning)
    requires Offers(p, s, i, candle, mode, price) && (warning == LiquidityStep || warning == LiquidityMin)
    ensures Warns(p, s, i, candle, mode, warning) <==> TooLittle(p, s, s.book.orders[i], warning)
    ensures Ready(s, i) && !s.book.orders[i].orderType.OtherType?
  {
    hide TooLittle;
  }

  /** A positive price matched to an order that is ready is offered to it. */
  lemma MatchedOffered(p: Params, s: State, i: nat, candle: Candle, mode: MatchMode, m: Matched)
    requires Ready(s, i) && MatchPrice(p, s, i, candle, mode) == Ok(m) && m.price.Some? && m.price.value > 0.0
    ensures Offers(p, s, i, candle, mode, m.price.value)
  {
    MatchPriceOutcome(p, s, i, candle, mode, m);
    hide MatchPrice, PriceOn;
  }

  /** An attempt that is offered no price moves nothing, or stops at matching. */
  lemma NotOffered(p: Params, s: State, i: nat, candle: Candle, mode: MatchMode, r: State)
    requires Knows(s, i) && TryFill(p, s, i, candle, mode) == Ok(r)
    requires forall price :: !Offers(p, s, i, candle, mode, price)
    ensures if Ready(s, i) then exists m :: MatchPrice(p, s, i, candle, mode) == Ok(m) && r == m.state else r == s
  {
    hide MatchPrice, Execute, Offers;
    if Ready(s, i) {
      var m := MatchPrice(p, s, i, candle, mode).value;
      if m.price.Some? && m.price.value > 0.0 {
        MatchedOffered(p, s, i, candle, mode, m);
      }
    }
  }

  /** What an attempt warns of: of an order type it does not know when the order is ready to be matched, and of too
      little liquidity when an offered order may trade less than one step, or at least one step but less than the
      minimum; of nothing else, and of the same only once. */
  lemma WarnsExactly(p: Params, s: State, i: nat, candle: Candle, mode: MatchMode, r: State)
    requires Knows(s, i) && TryFill(p, s, i, candle, mode) == Ok(r) && p.quantityStep > 0.0
    ensures exists warning :: AtMost(s.warnings, r.warnings, warning)
    ensures forall warning :: warning in r.warnings <==> warning in s.warnings || Warns(p, s, i, candle, mode, warning)
  {
    hide TryFill, Offers, TooLittle, Execute;
    if price :| Offers(p, s, i, candle, mode, price) {
      OfferedMayTrade(p, s, i, candle, mode, price);
      OfferWarns(p, s, i, candle, mode, price, LiquidityStep);
      OfferWarns(p, s, i, candle, mode, price, LiquidityMin);
      ExecuteWarns(p, s, i, price, EventTime(candle, mode), r);
      WarnedOnce(s, LiquidityStep);
      WarnedOnce(s, LiquidityMin);
      assert AtMost(s.warnings, r.warnings, LiquidityStep) || AtMost(s.warnings, r.warnings, LiquidityMin);
    } else {
      NotOffered(p, s, i, candle, mode, r);
      if Ready(s, i) {
        var m :| MatchPrice(p, s, i, candle, mode) == Ok(m) && r == m.state;
        MatchWarns(p, s, i, candle, mode, m);
        hide MatchPrice;
        if s.book.orders[i].orderType.OtherType? {
          WarnedOnce(s, UnsupportedType(s.book.orders[i].orderType.text));
        }
      }
      assert AtMost(s.warnings, r.warnings, ZeroVolume) || Ready(s, i);
    }
  }

  lemma WarnedOnce(s: State, warning: Warning)
    ensures AtMost(s.warnings, WarnOnce(s, warning).warnings, warning)
    ensures forall other :: other in WarnOnce(s, warning).warnings <==> other in s.warnings || other == warning
  {
  }

  /** Of the orders of a queue tried in turn, exactly those that warn leave their warnings. */
  lemma {:induction false} TriedWarns(p: Params, states: seq<State>, queue: seq<nat>, candle: Candle, mode: MatchMode,
        warning: Warning)
    requires Tried(p, states, queue, candle, mode) && p.quantityStep > 0.0
    ensures warning in states[|states| - 1].warnings <==>
      warning in states[0].warnings
      || exists n: nat :: n + 1 < |states| && n < |queue| && Warns(p, states[n], queue[n], candle, mode, warning)
    decreases |states|
  {
    hide TryFill, Warns;
    var last := |states| - 1;
    if last > 0 {
      var earlier := states[..last];
      forall n | 0 <= n < |earlier| - 1 ensures TriedAt(p, earlier, queue, candle, mode, n) {
        assert TriedAt(p, states, queue, candle, mode, n);
      }
      TriedWarns(p, earlier, queue, candle, mode, warning);
      assert TriedAt(p, states, queue, candle, mode, last - 1);
      WarnsExactly(p, states[last - 1], queue[last - 1], candle, mode, states[last]);
    }
  }

  // ---- a bar and a run -------------------------------------------------------------------

  /** The warnings of `a` stay, none comes twice, and none about the volume is added. */
  ghost predicate Quiet(a: State, b: State) {
    && a.warnings <= b.warnings && (NoRepeats(a.warnings) ==> NoRepeats(b.warnings))
    && (ZeroVolume in b.warnings ==> ZeroVolume in a.warnings)
  }

  lemma QuietOnce(s: State, r: State, warning: Warning)
    requires r.warnings == s.warnings || r.warnings == WarnOnce(s, warning).warnings
    requires warning != ZeroVolume
    ensures Quiet(s, r)
  {
  }

  lemma QuietTransitive(a: State, b: State, c: State)
    requires Quiet(a, b) && Quiet(b, c)
    ensures Quiet(a, c)
  {
  }

  lemma TryQuiet(p: Params, s: State, i: nat, candle: Candle, mode: MatchMode, r: State)
    requires Knows(s, i) && TryFill(p, s, i, candle, mode) == Ok(r)
    ensures Quiet(s, r)
  {
    hide Quiet, MatchPrice, Execute, TruncateToIncrement;
    QuietOnce(s, s, LiquidityStep);
    TryFillOutcome(p, s, i, candle, mode);
    hide TryFill;
    var m := MatchPrice(p, s, i, candle, mode);
    if m.Ok? {
      MatchWarns(p, s, i, candle, mode, m.value);
      var o := s.book.orders[i];
      QuietOnce(s, m.value.state, if o.orderType.OtherType? then UnsupportedType(o.orderType.text) else LiquidityStep);
      if m.value.price.Some? {
        ExecuteQuiet(p, s, i, m.value.price.value, EventTime(candle, mode));
      }
    }
  }

  lemma ExecuteQuiet(p: Params, s: State, i: nat, price: real, at: int)
    requires Knows(s, i)
    ensures var r := Execute(p, s, i, price, at); r.Ok? ==> Quiet(s, r.value)
  {
    hide Quiet, Tradable, TruncateToIncrement, ApplyFill, WarnOnce, CancelOrder;
    var r := Execute(p, s, i, price, at);
    var wanted := Tradable(s, s.book.orders[i]);
    if r.Ok? {
      if wanted.Some? {
        ApplyFillQuiet(p, s, i, TruncateToIncrement(wanted.value, p.quantityStep).value, price, at);
      }
      QuietOnce(s, r.value, if r.value.warnings == WarnOnce(s, LiquidityMin).warnings then LiquidityMin
        else LiquidityStep);
    }
  }

  lemma {:induction false} TriedQuiet(p: Params, states: seq<State>, queue: seq<nat>, candle: Candle, mode: MatchMode)
    requires Tried(p, states, queue, candle, mode)
    ensures Quiet(states[0], states[|states| - 1])
    decreases |states|
  {
    hide TryFill;
    var last := |states| - 1;
    if last == 0 {
      QuietOnce(states[0], states[0], LiquidityStep);
    } else {
      var earlier := states[..last];
      forall n | 0 <= n < |earlier| - 1 ensures TriedAt(p, earlier, queue, candle, mode, n) {
        assert TriedAt(p, states, queue, candle, mode, n);
      }
      TriedQuiet(p, earlier, queue, candle, mode);
      assert TriedAt(p, states, queue, candle, mode, last - 1);
      TryQuiet(p, states[last - 1], queue[last - 1], candle, mode, states[last]);
      QuietTransitive(states[0], states[last - 1], states[last]);
    }
  }

  lemma SameQuiet(a: State, b: State)
    requires b.warnings == a.warnings
    ensures Quiet(a, b)
  {
  }

  lemma SingleQuiet(p: Params, s: State, intent: Intent, r: State)
    requires Indexed(s) && SubmitOne(p, s, intent) == Ok(r)
    ensures Quiet(s, r)
  {
    hide TryFill, Quiet, ValidateSubmit, NewOrder;
    var added := AddOrder(s, intent, false).value;
    SameQuiet(s, added);
    hide AddOrder;
    if p.onClose {
      TryQuiet(p, added, |s.book.orders|, s.bar.value, ClosePoint, r);
      QuietTransitive(s, added, r);
    }
  }

  lemma {:induction false} AddOrdersQuiet(s: State, group: seq<Intent>)
    requires Indexed(s) && AddOrders(s, group).Ok?
    ensures AddOrders(s, group).value.warnings == s.warnings
    decreases |group|
  {
    hide ValidateSubmit, NewOrder;
    if group == [] {
    } else {
      AddOrdersQuiet(AddOrder(s, group[0], true).value, group[1..]);
    }
  }

  lemma {:induction false} LinkQuiet(s: State, group: seq<Intent>, index: nat)
    requires index + |group| <= |s.book.orders| && Link(s, group, index).Ok?
    ensures Link(s, group, index).value.warnings == s.warnings
    decreases |group|
  {
    if group == [] {
    } else {
      LinkQuiet(LinkOne(s, group[0], index).value, group[1..], index + 1);
    }
  }

  lemma ReleaseQuiet(p: Params, placed: State, first: nat, r: State)
    requires Indexed(placed) && first <= |placed.book.orders| && ReleaseGroup(p, placed, first) == Ok(r)
    ensures Quiet(placed, r)
  {
    hide ByPriority, FillEach, Quiet, TryFill;
    var queue := ByPriority(placed.book.orders, first, |placed.book.orders|);
    SameQuiet(placed, Queued(placed, queue));
    if p.onClose {
      var states := EachTried(p, Queued(placed, queue), queue, placed.bar.value, r);
      TriedQuiet(p, states, queue, placed.bar.value, ClosePoint);
      QuietTransitive(placed, Queued(placed, queue), r);
    }
  }

  lemma GroupQuiet(p: Params, s: State, groupId: string, group: seq<Intent>, r: State)
    requires Indexed(s) && SubmitAtomic(p, s, groupId, group) == Ok(r)
    ensures Quiet(s, r)
  {
    hide AddOrders, Link, ReleaseGroup, Quiet, ParentsLocal;
    AddOrdersQuiet(s, group);
    LinkQuiet(AddOrders(s, group).value, group, |s.book.orders|);
    var placed := PlaceGroup(s, group).value;
    SameQuiet(s, placed);
    ReleaseQuiet(p, placed, |s.book.orders|, r);
    QuietTransitive(s, placed, r);
  }

  lemma IntentQuiet(p: Params, s: State, due: seq<Intent>, intent: Intent, r: State)
    requires Indexed(s) && ApplyIntent(p, s, due, intent) == Ok(r)
    ensures Quiet(s, r)
  {
    hide SubmitOne, SubmitAtomic, FindTarget, CancelOrder, Quiet;
    if intent.action == Cancel || (intent.atomicGroup != "" && intent.atomicGroup in s.groups) {
      SameQuiet(s, r);
    } else if intent.atomicGroup == "" {
      SingleQuiet(p, s, intent, r);
    } else {
      var marked := s.(groups := s.groups + {intent.atomicGroup});
      SameQuiet(s, marked);
      GroupQuiet(p, marked, intent.atomicGroup, InGroup(due, intent.atomicGroup), r);
      QuietTransitive(s, marked, r);
    }
  }

  lemma {:induction false} IntentsQuiet(p: Params, s: State, due: seq<Intent>, from: nat, r: State)
    requires Indexed(s) && from <= |due| && ApplyIntents(p, s, due, from) == Ok(r)
    ensures Quiet(s, r)
    decreases |due| - from
  {
    hide ApplyIntent, Quiet;
    if from == |due| {
      SameQuiet(s, r);
    } else {
      var next := ApplyIntent(p, s, due, due[from]).value;
      IntentQuiet(p, s, due, due[from], next);
      IntentsQuiet(p, next, due, from + 1, r);
      QuietTransitive(s, next, r);
    }
  }

  /** The bar has no volume and finds an order open. */
  predicate NoVolume(s: State, candle: Candle) {
    candle.volume <= 0.0 && exists i :: 0 <= i < |s.book.orders| && s.book.orders[i].remaining > 0.0
  }

  lemma PendingIs(orders: seq<Order>)
    ensures HasPending(orders) <==> exists i :: 0 <= i < |orders| && orders[i].remaining > 0.0
  {
    if HasPending(orders) {
      var o :| o in orders && o.IsOpen();
      var i :| 0 <= i < |orders| && orders[i] == o;
    }
    if i :| 0 <= i < |orders| && orders[i].remaining > 0.0 {
      assert orders[i] in orders && orders[i].IsOpen();
    }
  }

  /** The warnings of `a` stay and none comes twice; that of a bar without volume is there if it was, or if `volume`. */
  ghost predicate Heard(a: State, b: State, volume: bool) {
    && a.warnings <= b.warnings && (NoRepeats(a.warnings) ==> NoRepeats(b.warnings))
    && (ZeroVolume in b.warnings <==> ZeroVolume in a.warnings || volume)
  }

  lemma ConsumeHeard(p: Params, s: State, candle: Candle, r: State)
    requires Indexed(s) && ConsumeBar(p, s, candle) == Ok(r)
    ensures Heard(s, r, NoVolume(s, candle))
  {
    hide MatchAll, HasPending, TryFill;
    PendingIs(s.book.orders);
    var started := StartBar(s, candle);
    if NoVolume(s, candle) {
      WarnedOnce(started, ZeroVolume);
    } else {
      var matched := MatchAll(p, started, started.matching, candle).value;
      var states := AllTried(p, started, started.matching, candle, matched);
      TriedQuiet(p, states, started.matching, candle, FullBar);
    }
  }

  lemma BarHeard(p: Params, s: State, candle: Candle, due: seq<Intent>, r: State)
    requires Indexed(s) && Bar(p, s, candle, due) == Ok(r)
    ensures Heard(s, r, NoVolume(s, candle))
  {
    hide ConsumeBar, ApplyIntents, NoVolume, NoRepeats;
    var consumed := ConsumeBar(p, s, candle).value;
    ConsumeHeard(p, s, candle, consumed);
    IntentsQuiet(p, consumed, due, 0, r);
  }

  /** In every run the warnings only grow and never repeat, and one tells of a bar without volume exactly once such a
      bar has found an order open. */
  lemma {:induction false} RunWarns(c: Case, states: seq<State>, k: nat)
    requires History(c, states) && k < |states|
    ensures NoRepeats(states[k].warnings)
    ensures k + 1 < |states| ==> states[k].warnings <= states[k + 1].warnings
    ensures ZeroVolume in states[k].warnings <==>
      exists j: nat :: j < k && j < |c.candles| && NoVolume(states[j], c.candles[j])
    decreases k
  {
    hide Bar, IntentsAt, Indexed, NoVolume;
    if k + 1 < |states| {
      HistoryLeads(c, states, k);
      BarHeard(c.params, states[k], c.candles[k], IntentsAt(c.intents, k), states[k + 1]);
    }
    if k > 0 {
      RunWarns(c, states, k - 1);
      HistoryLeads(c, states, k - 1);
      BarHeard(c.params, states[k - 1], c.candles[k - 1], IntentsAt(c.intents, k - 1), states[k]);
    }
  }

  /** So it is with the warnings that are reported. */
  lemma {:induction false} ReportedWarnings(c: Case, states: seq<State>, out: Output)
    requires Reports(c, states, out)
    ensures NoRepeats(out.warnings)
    ensures ZeroVolume in out.warnings <==>
      exists j: nat :: j < out.processedBars && j < |c.candles| && j < |states| && NoVolume(states[j], c.candles[j])
  {
    hide *;
    ReportsHistory(c, states, out);
    ReportedOutcome(c, states, out);
    RunWarns(c, states, ProcessedBars(c));
    ReportsState(c, states, out);
  }

  lemma {:induction false} ReportsState(c: Case, states: seq<State>, out: Output)
    requires Reports(c, states, out)
    ensures |states| == ProcessedBars(c) + 1 && out.warnings == states[ProcessedBars(c)].warnings
  {
    hide History, ValidCase, FinalizeAll, Drawdown.MetricsOf, Valuation;
  }
}
