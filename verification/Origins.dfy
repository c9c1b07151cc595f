/** Orders come from intents: each order of a run carries the terms of one intent, and no intent that is due is lost. */
module Origins {
  import opened Kernel
  import opened Matching
  import opened Orders
  import opened Backtest
  import opened Invariants
  import opened Steps
  import opened Progress
  import opened Runs
  import Drawdown
  import Ledger

  /** The order carries the terms of the intent. */
  predicate FromIntent(o: Order, intent: Intent) {
    && intent.action == Submit && o.clientId == intent.id && intent.side == Some(o.side)
      && o.orderType == intent.orderType
    && o.quantity == intent.quantity && o.limitPrice == intent.limitPrice && o.stopPrice == intent.stopPrice
    && o.reduceOnly == intent.reduceOnly && o.ocoGroup == intent.ocoGroup
  }

  /** The order was submitted at the end of the bar of the intent. */
  predicate SubmittedOn(o: Order, intent: Intent, candles: seq<Candle>) {
    intent.barIndex < |candles| && o.submittedAt == Some(candles[intent.barIndex].end)
  }

  ghost predicate Sourced(o: Order, c: Case) {
    exists intent :: intent in c.intents && FromIntent(o, intent) && SubmittedOn(o, intent, c.candles)
  }

  ghost predicate AllSourced(orders: seq<Order>, c: Case) {
    forall i | 0 <= i < |orders| :: Sourced(orders[i], c)
  }

  /** The intent is one of the case, due on this bar. */
  predicate DueOn(c: Case, candle: Candle, intent: Intent) {
    intent in c.intents && intent.barIndex < |c.candles| && c.candles[intent.barIndex] == candle
  }

  lemma TermsSourced(a: seq<Order>, b: seq<Order>, c: Case)
    requires |a| == |b| && AllSourced(a, c) && forall i | 0 <= i < |a| :: SameTerms(a[i], b[i])
    ensures AllSourced(b, c)
  {
    forall i | 0 <= i < |b| ensures Sourced(b[i], c) {
      assert SameTerms(a[i], b[i]) && Sourced(a[i], c);
      var intent :| intent in c.intents && FromIntent(a[i], intent) && SubmittedOn(a[i], intent, c.candles);
      assert FromIntent(b[i], intent) && SubmittedOn(b[i], intent, c.candles);
    }
  }

  lemma StepSourced(p: Params, initial: real, candle: Candle, a: State, b: State, c: Case)
    requires Step(p, initial, candle, a, b) && |a.book.orders| == |b.book.orders| && AllSourced(a.book.orders, c)
    ensures AllSourced(b.book.orders, c)
  {
    hide Sourced, Inv, TradesOn, OcoKept;
    forall i | 0 <= i < |a.book.orders| ensures SameTerms(a.book.orders[i], b.book.orders[i]) {
      assert Evolves(a.book.orders[i], b.book.orders[i]);
    }
    TermsSourced(a.book.orders, b.book.orders, c);
  }

  lemma AddOrderSourced(candle: Candle, s: State, intent: Intent, defer: bool, c: Case)
    requires AllSourced(s.book.orders, c) && DueOn(c, candle, intent) && s.bar == Some(candle)
    requires AddOrder(s, intent, defer).Ok?
    ensures AllSourced(AddOrder(s, intent, defer).value.book.orders, c)
  {
    var orders := AddOrder(s, intent, defer).value.book.orders;
    hide Trim;
    var o := NewOrder(s, intent, intent.side.value);
    assert FromIntent(o, intent) && SubmittedOn(o, intent, c.candles);
    hide FromIntent, SubmittedOn, ValidateSubmit;
    forall i | 0 <= i < |orders| ensures Sourced(orders[i], c) {
      assert i < |s.book.orders| ==> Sourced(s.book.orders[i], c);
    }
  }

  lemma {:induction false} AddOrdersSourced(candle: Candle, s: State, group: seq<Intent>, c: Case)
    requires Indexed(s) && AllSourced(s.book.orders, c) && (forall intent <- group :: DueOn(c, candle, intent))
    requires s.bar == Some(candle)
    requires AddOrders(s, group).Ok?
    ensures AllSourced(AddOrders(s, group).value.book.orders, c)
    decreases |group|
  {
    hide AllSourced, AddOrder, Indexed;
    if group == [] {
    } else {
      AddOrderSourced(candle, s, group[0], true, c);
      AddOrdersSourced(candle, AddOrder(s, group[0], true).value, group[1..], c);
    }
  }

  lemma {:induction false} LinkKeepsTerms(s: State, group: seq<Intent>, index: nat)
    requires index + |group| <= |s.book.orders| && Link(s, group, index).Ok?
    ensures forall k | 0 <= k < |s.book.orders| ::
      SameTerms(s.book.orders[k], Link(s, group, index).value.book.orders[k])
    decreases |group|
  {
    if group == [] {
    } else {
      LinkKeepsTerms(LinkOne(s, group[0], index).value, group[1..], index + 1);
    }
  }

  lemma SubmitOneSourced(p: Params, initial: real, candle: Candle, s: State, intent: Intent, c: Case)
    requires Inv(p, initial, s) && Indexed(s) && s.bar == Some(candle) && AllSourced(s.book.orders, c)
    requires DueOn(c, candle, intent) && SubmitOne(p, s, intent).Ok?
    ensures AllSourced(SubmitOne(p, s, intent).value.book.orders, c)
  {
    hide AllSourced, AddOrder, TryFill, Inv, Step;
    AddOrderSourced(candle, s, intent, false, c);
    AddOrderStep(p, initial, candle, s, intent, false);
    var added := AddOrder(s, intent, false).value;
    if p.onClose {
      StepInv(p, initial, candle, s, added);
      TryFillStep(p, initial, added, |s.book.orders|, candle, ClosePoint);
      StepSourced(p, initial, candle, added, SubmitOne(p, s, intent).value, c);
    }
  }

  /** What no submission and no cancellation moves. */
  predicate SameHistory(a: State, b: State) {
    b.groups == a.groups && b.equity == a.equity
  }

  lemma ReleaseShape(p: Params, placed: State, first: nat)
    requires Indexed(placed) && first <= |placed.book.orders| && ReleaseGroup(p, placed, first).Ok?
    ensures var r := ReleaseGroup(p, placed, first).value;
      |r.book.orders| == |placed.book.orders| && r.ids == placed.ids && SameHistory(placed, r)
  {
  }

  lemma ReleaseSourced(p: Params, initial: real, candle: Candle, placed: State, first: nat, c: Case)
    requires Inv(p, initial, placed) && Indexed(placed) && first <= |placed.book.orders| && placed.bar == Some(candle)
    requires AllSourced(placed.book.orders, c) && ReleaseGroup(p, placed, first).Ok?
    ensures AllSourced(ReleaseGroup(p, placed, first).value.book.orders, c)
  {
    ReleaseGroupStep(p, initial, candle, placed, first);
    ReleaseShape(p, placed, first);
    hide AllSourced, Inv, Step, ReleaseGroup;
    StepSourced(p, initial, candle, placed, ReleaseGroup(p, placed, first).value, c);
  }

  lemma PlacedSourced(candle: Candle, s: State, group: seq<Intent>, c: Case, placed: State)
    requires Indexed(s) && AllSourced(s.book.orders, c) && (forall intent <- group :: DueOn(c, candle, intent))
    requires s.bar == Some(candle)
    requires PlaceGroup(s, group) == Ok(placed)
    ensures AllSourced(placed.book.orders, c)
  {
    var added := AddOrders(s, group).value;
    AddOrdersSourced(candle, s, group, c);
    LinkKeepsTerms(added, group, |s.book.orders|);
    hide AllSourced, AddOrders, Link;
    TermsSourced(added.book.orders, placed.book.orders, c);
  }

  lemma SubmitAtomicSourced(p: Params, initial: real, candle: Candle, s: State, groupId: string, group: seq<Intent>,
        c: Case)
    requires Inv(p, initial, s) && Indexed(s) && s.bar == Some(candle) && AllSourced(s.book.orders, c)
    requires (forall intent <- group :: DueOn(c, candle, intent)) && SubmitAtomic(p, s, groupId, group).Ok?
    ensures AllSourced(SubmitAtomic(p, s, groupId, group).value.book.orders, c)
  {
    hide AllSourced, Inv, Step, ReleaseGroup;
    var placed := PlaceGroupStep(p, initial, candle, s, group);
    PlacedSourced(candle, s, group, c, placed);
    StepInv(p, initial, candle, s, placed);
    ReleaseSourced(p, initial, candle, placed, |s.book.orders|, c);
  }

  lemma {:induction false} InGroupIn(intents: seq<Intent>, groupId: string)
    ensures forall intent :: intent in InGroup(intents, groupId) <==> intent in intents && intent.atomicGroup == groupId
    decreases |intents|
  {
    if intents == [] {
    } else {
      InGroupIn(intents[1..], groupId);
      assert intents == [intents[0]] + intents[1..];
    }
  }

  lemma {:induction false} IntentsAtIn(intents: seq<Intent>, bar: nat)
    ensures forall intent :: intent in IntentsAt(intents, bar) <==> intent in intents && intent.barIndex == bar
    decreases |intents|
  {
    if intents == [] {
    } else {
      IntentsAtIn(intents[1..], bar);
      assert intents == [intents[0]] + intents[1..];
    }
  }

  lemma ApplyIntentSourced(p: Params, initial: real, candle: Candle, s: State, due: seq<Intent>, intent: Intent,
        c: Case)
    requires Inv(p, initial, s) && Indexed(s) && s.bar == Some(candle) && AllSourced(s.book.orders, c)
    requires (forall other <- due :: DueOn(c, candle, other)) && intent in due && ApplyIntent(p, s, due, intent).Ok?
    ensures AllSourced(ApplyIntent(p, s, due, intent).value.book.orders, c)
  {
    hide AllSourced, Inv, Step, SubmitOne, SubmitAtomic, CancelTarget;
    if intent.action == Cancel {
      CancelTargetStep(p, initial, candle, s, intent.targetId);
      StepSourced(p, initial, candle, s, CancelTarget(s, intent.targetId), c);
    } else if intent.atomicGroup == "" {
      SubmitOneSourced(p, initial, candle, s, intent, c);
    } else if intent.atomicGroup !in s.groups {
      var marked := s.(groups := s.groups + {intent.atomicGroup});
      SideStep(p, initial, candle, s, marked);
      StepInv(p, initial, candle, s, marked);
      InGroupIn(due, intent.atomicGroup);
      SubmitAtomicSourced(p, initial, candle, marked, intent.atomicGroup, InGroup(due, intent.atomicGroup), c);
    }
  }

  lemma {:induction false} ApplyIntentsSourced(p: Params, initial: real, candle: Candle, s: State, due: seq<Intent>,
        from: nat, c: Case)
    requires Inv(p, initial, s) && Indexed(s) && s.bar == Some(candle) && from <= |due|
    requires AllSourced(s.book.orders, c)
    requires (forall other <- due :: DueOn(c, candle, other)) && ApplyIntents(p, s, due, from).Ok?
    ensures AllSourced(ApplyIntents(p, s, due, from).value.book.orders, c)
    decreases |due| - from
  {
    hide AllSourced, Inv, Step, ApplyIntent;
    if from == |due| {
    } else {
      ApplyIntentSourced(p, initial, candle, s, due, due[from], c);
      ApplyIntentStep(p, initial, candle, s, due, due[from]);
      var next := ApplyIntent(p, s, due, due[from]).value;
      StepInv(p, initial, candle, s, next);
      ApplyIntentsSourced(p, initial, candle, next, due, from + 1, c);
    }
  }

  lemma BarSourced(p: Params, initial: real, s: State, candle: Candle, due: seq<Intent>, c: Case)
    requires Inv(p, initial, s) && Indexed(s) && AllSourced(s.book.orders, c)
    requires (forall other <- due :: DueOn(c, candle, other)) && Bar(p, s, candle, due).Ok?
    ensures AllSourced(Bar(p, s, candle, due).value.book.orders, c)
  {
    hide AllSourced, Inv, Step, ConsumeBar, ApplyIntents;
    var consumed := ConsumeBar(p, s, candle).value;
    ConsumeBarStep(p, initial, s, candle);
    StepSourced(p, initial, candle, StartBar(s, candle), consumed, c);
    StepInv(p, initial, candle, StartBar(s, candle), consumed);
    ApplyIntentsSourced(p, initial, candle, consumed, due, 0, c);
  }

  /** In every reachable state each order carries the terms of an intent of the case, and was submitted at the end of
      the bar of that intent. */
  lemma {:induction false} OrdersFromIntents(c: Case, states: seq<State>, k: nat)
    requires History(c, states) && k < |states|
    ensures AllSourced(states[k].book.orders, c)
    decreases k
  {
    hide Bar, Inv, Sourced;
    if k == 0 {
      assert states[0].book.orders == [];
    } else {
      OrdersFromIntents(c, states, k - 1);
      ReachableInvariant(c, states, k - 1);
      assert Leads(c, states, k - 1);
      IntentsAtIn(c.intents, k - 1);
      BarSourced(c.params, c.initialBalance, states[k - 1], c.candles[k - 1], IntentsAt(c.intents, k - 1), c);
    }
  }

  // ---- no intent is lost -----------------------------------------------------------------

  /** Known ids stay known. */
  ghost predicate IdsGrow(a: State, b: State) {
    forall id <- a.ids :: id in b.ids
  }

  lemma AddOrderIds(s: State, intent: Intent, defer: bool)
    requires AddOrder(s, intent, defer).Ok?
    ensures var r := AddOrder(s, intent, defer).value; IdsGrow(s, r) && SameHistory(s, r) && intent.id in r.ids
  {
    hide ValidateSubmit;
  }

  lemma {:induction false} AddOrdersIds(s: State, group: seq<Intent>)
    requires Indexed(s) && AddOrders(s, group).Ok?
    ensures IdsGrow(s, AddOrders(s, group).value) && SameHistory(s, AddOrders(s, group).value)
    ensures forall intent <- group :: intent.id in AddOrders(s, group).value.ids
    decreases |group|
  {
    hide ValidateSubmit, NewOrder, Indexed;
    if group == [] {
    } else {
      var next := AddOrder(s, group[0], true).value;
      AddOrderIds(s, group[0], true);
      AddOrdersIds(next, group[1..]);
      hide AddOrder;
      assert forall intent <- group :: intent == group[0] || intent in group[1..];
    }
  }

  lemma SubmitAtomicIds(p: Params, s: State, groupId: string, group: seq<Intent>)
    requires Indexed(s) && SubmitAtomic(p, s, groupId, group).Ok?
    ensures var r := SubmitAtomic(p, s, groupId, group).value;
      IdsGrow(s, r) && SameHistory(s, r) && forall intent <- group :: intent.id in r.ids
  {
    AddOrdersIds(s, group);
    ReleaseShape(p, PlaceGroup(s, group).value, |s.book.orders|);
    hide AddOrders, Link, ReleaseGroup, ParentsLocal;
  }

  lemma SubmitOneIds(p: Params, s: State, intent: Intent)
    requires Indexed(s) && SubmitOne(p, s, intent).Ok?
    ensures var r := SubmitOne(p, s, intent).value; IdsGrow(s, r) && SameHistory(s, r) && intent.id in r.ids
  {
    AddOrderIds(s, intent, false);
    hide AddOrder, TryFill;
  }

  /** Of the intents due, those of a group submitted since the groups in `entered` all have their orders. */
  ghost predicate GroupsEntered(entered: set<string>, s: State, due: seq<Intent>) {
    forall intent <- due | intent.atomicGroup in s.groups && intent.atomicGroup !in entered :: intent.id in s.ids
  }

  ghost predicate Taken(entered: set<string>, s: State, intent: Intent) {
    intent.action == Cancel || intent.id in s.ids || (intent.atomicGroup != "" && intent.atomicGroup in entered)
  }

  lemma ApplyIntentTakes(p: Params, s: State, due: seq<Intent>, intent: Intent, entered: set<string>)
    requires Indexed(s) && intent in due && ApplyIntent(p, s, due, intent).Ok? && GroupsEntered(entered, s, due)
    requires "" !in s.groups && entered <= s.groups
    ensures var r := ApplyIntent(p, s, due, intent).value;
      && IdsGrow(s, r) && GroupsEntered(entered, r, due) && Taken(entered, r, intent) && "" !in r.groups
        && entered <= r.groups
      && r.equity == s.equity
  {
    hide SubmitOne, SubmitAtomic, CancelTarget;
    if intent.action == Cancel {
    } else if intent.atomicGroup == "" {
      SubmitOneIds(p, s, intent);
    } else if intent.atomicGroup !in s.groups {
      InGroupIn(due, intent.atomicGroup);
      SubmitAtomicIds(p, s.(groups := s.groups + {intent.atomicGroup}), intent.atomicGroup,
        InGroup(due, intent.atomicGroup));
    }
  }

  lemma {:induction false} ApplyIntentsTake(p: Params, s: State, due: seq<Intent>, from: nat, entered: set<string>)
    requires Indexed(s) && from <= |due| && ApplyIntents(p, s, due, from).Ok? && GroupsEntered(entered, s, due)
    requires "" !in s.groups && entered <= s.groups
    requires forall k | 0 <= k < from :: Taken(entered, s, due[k])
    ensures var r := ApplyIntents(p, s, due, from).value;
      "" !in r.groups && r.equity == s.equity && forall k | 0 <= k < |due| :: Taken(entered, r, due[k])
    decreases |due| - from
  {
    hide ApplyIntent, Indexed;
    if from == |due| {
    } else {
      ApplyIntentTakes(p, s, due, due[from], entered);
      ApplyIntentsTake(p, ApplyIntent(p, s, due, due[from]).value, due, from + 1, entered);
    }
  }

  lemma {:induction false} NoEmptyGroup(c: Case, states: seq<State>, k: nat)
    requires History(c, states) && k < |states|
    ensures "" !in states[k].groups
    decreases k
  {
    hide Bar;
    if k == 0 {
    } else {
      NoEmptyGroup(c, states, k - 1);
      assert Leads(c, states, k - 1);
      BarTakes(c.params, states[k - 1], c.candles[k - 1], IntentsAt(c.intents, k - 1));
    }
  }

  lemma BarTakes(p: Params, s: State, candle: Candle, due: seq<Intent>)
    requires Indexed(s) && "" !in s.groups && Bar(p, s, candle, due).Ok?
    ensures var r := Bar(p, s, candle, due).value;
      "" !in r.groups && forall k | 0 <= k < |due| :: Taken(s.groups, r, due[k])
    ensures ConsumeBar(p, s, candle).Ok? && Bar(p, s, candle, due).value.equity == ConsumeBar(p, s, candle).value.equity
  {
    ConsumeBarGroups(p, s, candle);
    hide ConsumeBar, ApplyIntents, Indexed;
    ApplyIntentsTake(p, ConsumeBar(p, s, candle).value, due, 0, s.groups);
  }

  lemma ConsumeBarGroups(p: Params, s: State, candle: Candle)
    requires Indexed(s) && ConsumeBar(p, s, candle).Ok?
    ensures var r := ConsumeBar(p, s, candle).value;
      && r.groups == s.groups
      && r.equity == s.equity + [Drawdown.EquityPoint(candle.end,
        Valuation(r.ledger.cash, r.ledger.base, candle.close))]
  {
    hide MatchAll, HasPending;
  }

  lemma TakenMeans(entered: set<string>, s: State, intent: Intent)
    requires Taken(entered, s, intent) && intent.action != Cancel
    ensures intent.id in s.ids || (intent.atomicGroup != "" && intent.atomicGroup in entered)
  {
  }

  /** No intent that is due is lost: a bar leaves every intent to submit with its order, unless its atomic group had
      already been submitted on an earlier bar. */
  lemma {:induction false} NoIntentLost(c: Case, states: seq<State>, k: nat, intent: Intent)
    requires History(c, states) && k + 1 < |states| && intent in c.intents && intent.barIndex == k
    requires intent.action != Cancel
    ensures intent.id in states[k + 1].ids || (intent.atomicGroup != "" && intent.atomicGroup in states[k].groups)
  {
    hide Bar, ConsumeBar, IntentsAt, Taken;
    NoEmptyGroup(c, states, k);
    assert Leads(c, states, k);
    IntentsAtIn(c.intents, k);
    var due := IntentsAt(c.intents, k);
    BarTakes(c.params, states[k], c.candles[k], due);
    var n :| 0 <= n < |due| && due[n] == intent;
    TakenMeans(states[k].groups, states[k + 1], due[n]);
  }

  /** What came in, plus what was realized, plus the open position against its cost, less the fees. */
  function MarketValue(initial: real, s: State, price: real): real {
    initial + s.ledger.realized + s.ledger.base * (price - s.ledger.averageEntry) - s.fees.Total()
  }

  /** Cash and position at a price, in terms of what came in, what was realized, the open profit and the fees. */
  lemma MarkedToMarket(p: Params, initial: real, s: State, price: real)
    requires Inv(p, initial, s)
    ensures Valuation(s.ledger.cash, s.ledger.base, price) == MarketValue(initial, s, price)
  {
    hide Inv, LedgerOk;
    LedgerPart(p, initial, s);
    hide Ledger.Balanced;
    var value, gain := initial + s.ledger.realized - s.fees.Total(), s.ledger.base * (price - s.ledger.averageEntry);
    Ledger.BalancedMeans(s.ledger, initial, s.fees.Total());
    RevaluedPosition(s.ledger.cash, s.ledger.base, s.ledger.averageEntry, price, value);
    assert Valuation(s.ledger.cash, s.ledger.base, price) == value + gain;
  }

  /** Each bar adds one point to the equity curve, after it has been matched and before its intents: the
      market value of the account at the close. */
  lemma {:induction false} EquityPerBar(c: Case, states: seq<State>, k: nat)
    requires History(c, states) && k + 1 < |states| && Indexed(states[k])
    ensures var consumed := ConsumeBar(c.params, states[k], c.candles[k]);
      consumed.Ok? && states[k + 1].equity == states[k].equity
        + [Drawdown.EquityPoint(c.candles[k].end, MarketValue(c.initialBalance, consumed.value, c.candles[k].close))]
  {
    hide Bar;
    var candle := c.candles[k];
    NoEmptyGroup(c, states, k);
    ReachableInvariant(c, states, k);
    assert Leads(c, states, k);
    BarTakes(c.params, states[k], candle, IntentsAt(c.intents, k));
    ConsumeBarGroups(c.params, states[k], candle);
    ConsumeBarStep(c.params, c.initialBalance, states[k], candle);
    hide ConsumeBar, IntentsAt, Inv, Step;
    var s := ConsumeBar(c.params, states[k], candle).value;
    StepInv(c.params, c.initialBalance, candle, StartBar(states[k], candle), s);
    MarkedToMarket(c.params, c.initialBalance, s, candle.close);
    hide Valuation, MarketValue;
  }

  lemma {:induction false} EquityTimes(c: Case, states: seq<State>, k: nat)
    requires History(c, states) && k < |states|
    ensures |states[k].equity| == k && forall j | 0 <= j < k :: states[k].equity[j].time == c.candles[j].end
    decreases k
  {
    hide Bar, ConsumeBar, IntentsAt, MarketValue;
    if k == 0 {
    } else {
      EquityTimes(c, states, k - 1);
      HistoryLeads(c, states, k - 1);
      EquityPerBar(c, states, k - 1);
    }
  }

  /** The reported curve has one point for each processed bar, at the end of the bar. */
  lemma {:induction false} ReportedEquity(c: Case, states: seq<State>, out: Output)
    requires Reports(c, states, out)
    ensures |states| == out.processedBars + 1 && out.equity == states[out.processedBars].equity
    ensures |out.equity| == out.processedBars <= |c.candles|
    ensures forall j | 0 <= j < out.processedBars :: out.equity[j].time == c.candles[j].end
  {
    hide History, ValidCase, FinalizeAll, Drawdown.MetricsOf, Valuation;
    EquityTimes(c, states, ProcessedBars(c));
  }
}
