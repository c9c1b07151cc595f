/** The states within a bar, between one intent and the next, and the OCO groups that are formed there. */
module WithinBar {
  import opened Kernel
  import opened Matching
  import opened Orders
  import opened Backtest
  import opened Invariants
  import opened Progress
  import opened Runs

  /** The state once a bar has been consumed and the first `m` of its intents applied. */
  function After(p: Params, s: State, candle: Candle, intents: seq<Intent>, m: nat): (r: Result<State>)
    requires Indexed(s) && m <= |intents|
    ensures r.Ok? ==> Indexed(r.value) && r.value.bar == Some(candle)
  {
    if m == 0 then ConsumeBar(p, s, candle)
    else
      var before :- After(p, s, candle, intents, m - 1);
      ApplyIntent(p, before, intents, intents[m - 1])
  }

  lemma ApplyIntentsNext(p: Params, s: State, intents: seq<Intent>, m: nat)
    requires Indexed(s) && m < |intents|
    ensures var next := ApplyIntent(p, s, intents, intents[m]);
      ApplyIntents(p, s, intents, m) == if next.Ok? then ApplyIntents(p, next.value, intents, m + 1) else next
  {
    hide ApplyIntent;
  }

  /** The rest of the bar follows from any state within it. */
  lemma {:induction false} AfterRest(p: Params, s: State, candle: Candle, intents: seq<Intent>, m: nat)
    requires Indexed(s) && m <= |intents|
    ensures var mid := After(p, s, candle, intents, m);
      Bar(p, s, candle, intents) == if mid.Ok? then ApplyIntents(p, mid.value, intents, m) else mid
    decreases m
  {
    hide ConsumeBar, ApplyIntent, ApplyIntents;
    if m == 0 {
    } else {
      AfterRest(p, s, candle, intents, m - 1);
      var before := After(p, s, candle, intents, m - 1);
      if before.Ok? {
        ApplyIntentsNext(p, before.value, intents, m - 1);
      }
    }
  }

  lemma {:induction false} AfterStep(p: Params, initial: real, s: State, candle: Candle, intents: seq<Intent>, m: nat,
        mid: State)
    requires Inv(p, initial, s) && Indexed(s) && m <= |intents| && After(p, s, candle, intents, m) == Ok(mid)
    ensures Inv(p, initial, mid)
    decreases m
  {
    hide Inv, ConsumeBar, ApplyIntent, Grows, TradesOn;
    if m == 0 {
      ConsumeBarStep(p, initial, s, candle);
    } else {
      var before := After(p, s, candle, intents, m - 1).value;
      AfterStep(p, initial, s, candle, intents, m - 1, before);
      ApplyIntentStep(p, initial, candle, before, intents, intents[m - 1]);
    }
  }

  /** `mid` is the state within bar `k` of the case, after its first `m` intents. */
  ghost predicate Within(c: Case, states: seq<State>, k: nat, m: nat, mid: State) {
    && History(c, states) && k + 1 < |states| && m <= |IntentsAt(c.intents, k)| && k < |c.candles| && Indexed(states[k])
    && After(c.params, states[k], c.candles[k], IntentsAt(c.intents, k), m) == Ok(mid)
  }

  /** Every history passes through every state within each of its bars. */
  lemma {:induction false} SomeWithin(c: Case, states: seq<State>, k: nat, m: nat) returns (mid: State)
    requires History(c, states) && k + 1 < |states| && m <= |IntentsAt(c.intents, k)|
    ensures Within(c, states, k, m, mid)
  {
    HistoryLeads(c, states, k);
    hide Bar, After, IntentsAt, History;
    AfterRest(c.params, states[k], c.candles[k], IntentsAt(c.intents, k), m);
    mid := After(c.params, states[k], c.candles[k], IntentsAt(c.intents, k), m).value;
  }

  lemma {:induction false} WithinInv(c: Case, states: seq<State>, k: nat, m: nat, mid: State)
    requires Within(c, states, k, m, mid)
    ensures Inv(c.params, c.initialBalance, mid) && Indexed(mid) && mid.bar == Some(c.candles[k])
    ensures ApplyIntents(c.params, mid, IntentsAt(c.intents, k), m) == Ok(states[k + 1])
  {
    HistoryLeads(c, states, k);
    hide Inv, Bar, IntentsAt, History, ApplyIntents;
    ReachableInvariant(c, states, k);
    AfterRest(c.params, states[k], c.candles[k], IntentsAt(c.intents, k), m);
    AfterStep(c.params, c.initialBalance, states[k], c.candles[k], IntentsAt(c.intents, k), m, mid);
  }

  // ---- one-cancels-other groups ----------------------------------------------------------

  /** No member of the group has traded. */
  ghost predicate Untraded(orders: seq<Order>, group: string) {
    forall k | 0 <= k < |orders| :: orders[k].ocoGroup == group ==> orders[k].filled == 0.0
  }

  /** Before any member of a group has traded, the group is exclusive. */
  lemma UntradedIsExclusive(orders: seq<Order>, group: string)
    requires Untraded(orders, group)
    ensures OcoExclusive(orders, |orders|, group)
  {
  }

  lemma StepOco(p: Params, initial: real, candle: Candle, a: State, b: State, n: nat, group: string)
    requires Step(p, initial, candle, a, b) && group != "" && OcoExclusive(a.book.orders, n, group)
    ensures OcoExclusive(b.book.orders, n, group)
  {
    hide Inv, OrdersEvolve, TradesOn, OcoExclusive;
  }

  lemma AddOrderUntraded(s: State, intent: Intent, defer: bool, group: string)
    requires Untraded(s.book.orders, group) && AddOrder(s, intent, defer).Ok?
    ensures Untraded(AddOrder(s, intent, defer).value.book.orders, group)
  {
    hide ValidateSubmit;
  }

  lemma {:induction false} AddOrdersUntraded(s: State, intents: seq<Intent>, group: string)
    requires Indexed(s) && Untraded(s.book.orders, group) && AddOrders(s, intents).Ok?
    ensures Untraded(AddOrders(s, intents).value.book.orders, group)
    decreases |intents|
  {
    hide Untraded, AddOrder, Indexed;
    if intents == [] {
    } else {
      AddOrderUntraded(s, intents[0], true, group);
      AddOrdersUntraded(AddOrder(s, intents[0], true).value, intents[1..], group);
    }
  }

  lemma LinkOneUntraded(s: State, intent: Intent, index: nat, group: string)
    requires Knows(s, index) && Untraded(s.book.orders, group) && LinkOne(s, intent, index).Ok?
    ensures Untraded(LinkOne(s, intent, index).value.book.orders, group)
  {
  }

  lemma {:induction false} LinkUntraded(s: State, intents: seq<Intent>, index: nat, group: string)
    requires index + |intents| <= |s.book.orders| && Untraded(s.book.orders, group) && Link(s, intents, index).Ok?
    ensures Untraded(Link(s, intents, index).value.book.orders, group)
    decreases |intents|
  {
    hide Untraded, LinkOne;
    if intents == [] {
    } else {
      LinkOneUntraded(s, intents[0], index, group);
      LinkUntraded(LinkOne(s, intents[0], index).value, intents[1..], index + 1, group);
    }
  }

  lemma ReleaseCount(p: Params, placed: State, first: nat)
    requires Indexed(placed) && first <= |placed.book.orders| && ReleaseGroup(p, placed, first).Ok?
    ensures |ReleaseGroup(p, placed, first).value.book.orders| == |placed.book.orders|
  {
  }

  /** Of the orders present once an atomic group has been submitted, at most one member of an OCO group trades, even if
      some trade at once, provided none had traded before. */
  lemma SubmitAtomicExclusive(p: Params, initial: real, candle: Candle, s: State, id: string, intents: seq<Intent>,
        group: string)
    requires Inv(p, initial, s) && Indexed(s) && s.bar == Some(candle) && group != ""
    requires Untraded(s.book.orders, group) && SubmitAtomic(p, s, id, intents).Ok?
    ensures var r := SubmitAtomic(p, s, id, intents).value; OcoExclusive(r.book.orders, |r.book.orders|, group)
  {
    var r := SubmitAtomic(p, s, id, intents).value;
    var first := |s.book.orders|;
    hide Inv, Untraded, OcoExclusive, Step, Indexed, AddOrders, Link, ReleaseGroup;
    AddOrdersUntraded(s, intents, group);
    LinkUntraded(AddOrders(s, intents).value, intents, first, group);
    var placed := PlaceGroupStep(p, initial, candle, s, intents);
    StepKeeps(p, initial, candle, s, placed);
    UntradedIsExclusive(placed.book.orders, group);
    ReleaseGroupStep(p, initial, candle, placed, first);
    ReleaseCount(p, placed, first);
    StepOco(p, initial, candle, placed, r, |placed.book.orders|, group);
  }

  lemma StepKeeps(p: Params, initial: real, candle: Candle, a: State, b: State)
    requires Step(p, initial, candle, a, b)
    ensures Inv(p, initial, b)
  {
    hide Inv, Grows, TradesOn;
  }

  /** The same of an order submitted by itself. */
  lemma SubmitOneExclusive(p: Params, initial: real, candle: Candle, s: State, intent: Intent, group: string)
    requires Inv(p, initial, s) && Indexed(s) && s.bar == Some(candle) && group != ""
    requires Untraded(s.book.orders, group) && SubmitOne(p, s, intent).Ok?
    ensures var r := SubmitOne(p, s, intent).value; OcoExclusive(r.book.orders, |r.book.orders|, group)
  {
    var added, r := AddOrder(s, intent, false).value, SubmitOne(p, s, intent).value;
    hide Inv, Untraded, OcoExclusive, Step, AddOrder, TryFill;
    AddOrderUntraded(s, intent, false, group);
    UntradedIsExclusive(added.book.orders, group);
    AddOrderStep(p, initial, candle, s, intent, false);
    StepKeeps(p, initial, candle, s, added);
    if p.onClose {
      TryFillStep(p, initial, added, |s.book.orders|, candle, ClosePoint);
      StepOco(p, initial, candle, added, r, |added.book.orders|, group);
    }
  }

  lemma ApplyIntentExclusive(p: Params, initial: real, candle: Candle, s: State, intents: seq<Intent>, intent: Intent,
        group: string)
    requires Inv(p, initial, s) && Indexed(s) && s.bar == Some(candle) && group != ""
    requires Untraded(s.book.orders, group) && ApplyIntent(p, s, intents, intent).Ok?
    ensures var r := ApplyIntent(p, s, intents, intent).value; OcoExclusive(r.book.orders, |r.book.orders|, group)
  {
    hide Inv, OcoExclusive, Step, SubmitOne, SubmitAtomic, CancelTarget;
    if intent.action == Cancel {
      UntradedIsExclusive(s.book.orders, group);
      CancelTargetStep(p, initial, candle, s, intent.targetId);
      StepOco(p, initial, candle, s, CancelTarget(s, intent.targetId), |s.book.orders|, group);
    } else if intent.atomicGroup == "" {
      SubmitOneExclusive(p, initial, candle, s, intent, group);
    } else if intent.atomicGroup in s.groups {
      UntradedIsExclusive(s.book.orders, group);
    } else {
      var marked := s.(groups := s.groups + {intent.atomicGroup});
      SideStep(p, initial, candle, s, marked);
      StepKeeps(p, initial, candle, s, marked);
      SubmitAtomicExclusive(p, initial, candle, marked, intent.atomicGroup, InGroup(intents, intent.atomicGroup),
        group);
    }
  }

  lemma GrowsOco(a: State, b: State, n: nat, group: string)
    requires Grows(a, b) && group != "" && OcoExclusive(a.book.orders, n, group)
    ensures OcoExclusive(b.book.orders, n, group)
  {
    hide OrdersEvolve, OcoExclusive;
  }

  lemma RestExclusive(p: Params, initial: real, candle: Candle, s: State, r: State, intents: seq<Intent>, m: nat,
        n: nat, group: string)
    requires Inv(p, initial, s) && Indexed(s) && s.bar == Some(candle) && m <= |intents|
    requires ApplyIntents(p, s, intents, m) == Ok(r) && group != "" && OcoExclusive(s.book.orders, n, group)
    ensures OcoExclusive(r.book.orders, n, group)
  {
    hide *;
    ApplyIntentsStep(p, initial, candle, s, intents, m);
    StepOco(p, initial, candle, s, r, n, group);
  }

  lemma {:induction false} WithinSizes(c: Case, states: seq<State>, k: nat, m: nat, mid: State)
    requires Within(c, states, k, m, mid)
    ensures History(c, states) && k + 1 < |states| && k < |c.candles| && m <= |IntentsAt(c.intents, k)|
  {
    hide History, After, IntentsAt;
  }

  /** What is exclusive within a bar stays so to the end of the run. */
  lemma {:induction false} OcoFromWithin(c: Case, states: seq<State>, k: nat, m: nat, mid: State, n: nat, until: nat,
        group: string)
    requires Within(c, states, k, m, mid) && group != "" && OcoExclusive(mid.book.orders, n, group)
    requires k < until < |states|
    ensures OcoExclusive(states[until].book.orders, n, group)
  {
    hide *;
    WithinSizes(c, states, k, m, mid);
    WithinInv(c, states, k, m, mid);
    RestExclusive(c.params, c.initialBalance, c.candles[k], mid, states[k + 1], IntentsAt(c.intents, k), m, n, group);
    HistoryGrows(c, states, k + 1, until);
    GrowsOco(states[k + 1], states[until], n, group);
  }

  /** Of the members of an OCO group that are present once the first of them may trade, at most one ever trades: if none
      has traded before an intent, then among all orders present after it at most one member does, to the end of the
      run, however the members were submitted. */
  lemma {:induction false} OcoGroup(c: Case, states: seq<State>, k: nat, m: nat, before: State, after: State,
        until: nat, group: string)
    requires Within(c, states, k, m, before) && m < |IntentsAt(c.intents, k)| && Within(c, states, k, m + 1, after)
    requires group != "" && Untraded(before.book.orders, group) && k < until < |states|
    ensures |after.book.orders| <= |states[until].book.orders|
    ensures forall i, j | 0 <= i < j < |after.book.orders| ::
      var a, b := states[until].book.orders[i], states[until].book.orders[j];
      a.ocoGroup == group && b.ocoGroup == group ==> a.filled == 0.0 || b.filled == 0.0
  {
    WithinInv(c, states, k, m, before);
    WithinNext(c, states, k, m, before, after);
    ApplyIntentExclusive(c.params, c.initialBalance, c.candles[k], before, IntentsAt(c.intents, k),
      IntentsAt(c.intents, k)[m], group);
    OcoFromWithin(c, states, k, m + 1, after, |after.book.orders|, until, group);
    hide Inv, History, ApplyIntents, ApplyIntent, After, IntentsAt;
    ExclusiveOne(c, states, until, |after.book.orders|, group);
  }

  lemma WithinNext(c: Case, states: seq<State>, k: nat, m: nat, before: State, after: State)
    requires Within(c, states, k, m, before) && m < |IntentsAt(c.intents, k)| && Within(c, states, k, m + 1, after)
    ensures Indexed(before) && ApplyIntent(c.params, before, IntentsAt(c.intents, k), IntentsAt(c.intents, k)[m])
      == Ok(after)
  {
    hide History, ConsumeBar, ApplyIntent, IntentsAt;
  }
}
