/** What the intents of a run bring about: cancellations that are obeyed and links that are made. */
module Commands {
  import opened Kernel
  import opened Matching
  import opened Orders
  import opened Backtest
  import opened Invariants
  import opened Progress
  import opened Runs
  import opened Causes

  // ---- order ids in digits ---------------------------------------------------------------

  function Digit(n: nat): char
    requires n < 10
  {
    '0' + n as char
  }

  /** The usual decimal notation of a number. */
  function Decimal(n: nat): string {
    if n < 10 then [Digit(n)] else Decimal(n / 10) + [Digit(n % 10)]
  }

  lemma {:induction false} DecimalIs(n: nat)
    ensures Decimal(n) != "" && (forall c <- Decimal(n) :: IsDigit(c)) && DecimalValue(Decimal(n)) == n
    decreases n
  {
    var last := Digit(n % 10);
    assert IsDigit(last) && last as int - '0' as int == n % 10;
    if n < 10 {
      assert Decimal(n) == [last] && [last][..0] == "";
    } else {
      DecimalIs(n / 10);
      assert Decimal(n)[..|Decimal(n)| - 1] == Decimal(n / 10);
    }
  }

  /** Every order id of 64 bits is understood in its decimal notation. */
  lemma DecimalParsed(n: nat)
    requires n <= U64_MAX
    ensures ParseOrderId(Decimal(n)) == Some(n)
  {
    DecimalIs(n);
    hide Decimal, DecimalValue;
  }

  // ---- cancel intents --------------------------------------------------------------------

  /** The text names the order: it is its client id, or else no client id at all and its order id in digits. */
  predicate Addresses(s: State, target: string, i: nat) {
    && i < |s.book.orders|
    && if exists o :: o in s.book.orders && o.clientId == target then s.book.orders[i].clientId == target
       else ParseOrderId(target) == Some(s.book.orders[i].orderId)
  }

  lemma FoundById(s: State, target: string)
    requires IdsOk(s.book.orders, s.ids)
    ensures target in s.ids <==> exists o :: o in s.book.orders && o.clientId == target
    ensures target in s.ids ==> Knows(s, s.ids[target]) && s.book.orders[s.ids[target]].clientId == target
  {
    if o :| o in s.book.orders && o.clientId == target {
      var i :| 0 <= i < |s.book.orders| && s.book.orders[i] == o;
    }
  }

  /** A cancel intent finds the order that its text names. */
  lemma FindTargetIs(p: Params, initial: real, s: State, target: string, i: nat)
    requires Inv(p, initial, s)
    ensures FindTarget(s, target) == Some(i) <==> Addresses(s, target, i)
  {
    hide Inv, ParseOrderId, PositionOf, OrderOk, ParentsOk, CountersOk;
    InvParts(p, initial, s);
    FoundById(s, target);
    if target in s.ids {
      if i < |s.book.orders| && s.book.orders[i].clientId == target {
        assert s.ids[target] == i;
      }
    } else if ParseOrderId(target).Some? {
      PositionFound(s.book.orders, ParseOrderId(target).value, 0);
      if Addresses(s, target, i) && PositionOf(s.book.orders, ParseOrderId(target).value, 0).Some? {
        OneId(s.book.orders, i, PositionOf(s.book.orders, ParseOrderId(target).value, 0).value);
      }
    }
  }

  lemma OneId(orders: seq<Order>, i: nat, j: nat)
    requires OrdersOk(orders) && i < |orders| && j < |orders| && orders[i].orderId == orders[j].orderId
    ensures i == j
  {
    assert OrderOk(orders[i], i) && OrderOk(orders[j], j);
  }

  /** A cancel intent closes the order it names and exactly the open orders reached from it through open orders; if it
      names none it changes nothing. */
  lemma CancelIntentCloses(p: Params, initial: real, s: State, due: seq<Intent>, intent: Intent, i: nat, j: nat)
    requires Inv(p, initial, s) && Indexed(s) && intent.action == Cancel
    ensures (forall k :: !Addresses(s, intent.targetId, k)) ==> ApplyIntent(p, s, due, intent) == Ok(s)
    ensures Addresses(s, intent.targetId, i) ==>
      var r := ApplyIntent(p, s, due, intent);
      && r.Ok? && |r.value.book.orders| == |s.book.orders| && r.value.fills == s.fills
      && !r.value.book.orders[i].IsOpen()
      && (j < |s.book.orders| ==>
          && (r.value.book.orders[j] != s.book.orders[j] <==> OpenDescends(s.book.orders, i, j))
          && (r.value.book.orders[j] != s.book.orders[j] ==>
              && s.book.orders[j].IsOpen() && r.value.book.orders[j].status == Cancelled
              && r.value.book.orders[j].filled == s.book.orders[j].filled
              && r.value.book.orders[j].filledAt == BarEnd(s)))
  {
    hide Inv, FindTarget, CancelOrder, OnlyCancels, OpenDescends, Addresses, Indexed;
    FindTargetIs(p, initial, s, intent.targetId, i);
    if FindTarget(s, intent.targetId).Some? {
      FindTargetIs(p, initial, s, intent.targetId, FindTarget(s, intent.targetId).value);
    }
    if Addresses(s, intent.targetId, i) {
      AddressedKnown(s, intent.targetId, i);
      CancelOrderCloses(s.book, i, BarEnd(s));
      if j < |s.book.orders| {
        CancelOrderExactly(s.book, i, BarEnd(s), j);
      }
    }
  }

  lemma AddressedKnown(s: State, target: string, i: nat)
    requires Addresses(s, target, i)
    ensures Knows(s, i)
  {
  }

  lemma ClosedLater(a: seq<Order>, b: seq<Order>, i: nat)
    requires OrdersEvolve(a, b) && OrdersOk(a) && i < |a| && !a[i].IsOpen()
    ensures i < |b| && !b[i].IsOpen()
  {
    assert Evolves(a[i], b[i]) && OrderOk(a[i], i);
  }

  lemma InvOrders(p: Params, initial: real, s: State)
    requires Inv(p, initial, s)
    ensures OrdersOk(s.book.orders)
  {
    assert Holds(OfBook, p, initial, s);
    hide Inv, OrderOk, ParentsOk, CountersOk;
  }

  lemma AddressedLater(a: State, b: State, target: string, i: nat)
    requires i < |a.book.orders| && a.book.orders[i].clientId == target
    requires OrdersEvolve(a.book.orders, b.book.orders)
    ensures Addresses(b, target, i)
  {
    hide Evolves, ParseOrderId;
    SameOrder(a.book.orders, b.book.orders, i);
    assert b.book.orders[i] in b.book.orders;
  }

  /** After the intents of a bar, an order that one of them cancels by its client id is closed. */
  lemma {:induction false} IntentsObeyed(p: Params, initial: real, candle: Candle, a: State, s: State, due: seq<Intent>,
        from: nat, m: nat, i: nat, r: State)
    requires Inv(p, initial, s) && Indexed(s) && s.bar == Some(candle) && from <= m < |due|
    requires due[m].action == Cancel && i < |a.book.orders| && a.book.orders[i].clientId == due[m].targetId
    requires OrdersEvolve(a.book.orders, s.book.orders) && ApplyIntents(p, s, due, from) == Ok(r)
    ensures i < |r.book.orders| && !r.book.orders[i].IsOpen()
    decreases |due| - from
  {
    hide Inv, ApplyIntent, Step, OrdersEvolve, Addresses, OrdersOk;
    var next := ApplyIntent(p, s, due, due[from]).value;
    ApplyIntentStep(p, initial, candle, s, due, due[from]);
    StepGrows(p, initial, candle, s, next);
    EvolveTransitive(a.book.orders, s.book.orders, next.book.orders);
    if from == m {
      AddressedLater(a, s, due[m].targetId, i);
      CancelIntentCloses(p, initial, s, due, due[m], i, i);
      ApplyIntentsStep(p, initial, candle, next, due, from + 1);
      StepGrows(p, initial, candle, next, r);
      InvOrders(p, initial, next);
      ClosedLater(next.book.orders, r.book.orders, i);
    } else {
      IntentsObeyed(p, initial, candle, a, next, due, from + 1, m, i, r);
    }
  }

  lemma BarObeys(p: Params, initial: real, s: State, candle: Candle, due: seq<Intent>, m: nat, i: nat, r: State)
    requires Inv(p, initial, s) && Indexed(s) && Bar(p, s, candle, due) == Ok(r) && m < |due|
    requires due[m].action == Cancel && i < |s.book.orders| && s.book.orders[i].clientId == due[m].targetId
    ensures i < |r.book.orders| && !r.book.orders[i].IsOpen()
  {
    hide Inv, ConsumeBar, ApplyIntents, Step, OrdersEvolve, Grows;
    var started, consumed := StartBar(s, candle), ConsumeBar(p, s, candle).value;
    ConsumeBarStep(p, initial, s, candle);
    StepGrows(p, initial, candle, started, consumed);
    IntentsObeyed(p, initial, candle, s, consumed, due, 0, m, i, r);
  }

  /** In every run a cancel intent for an order from before its bar leaves that order closed, for good. */
  lemma {:induction false} CancelObeyed(c: Case, states: seq<State>, k: nat, m: nat, i: nat, later: nat)
    requires History(c, states) && k + 1 <= later < |states|
    requires m < |IntentsAt(c.intents, k)| && i < |states[k].book.orders|
    requires IntentsAt(c.intents, k)[m].action == Cancel
    requires IntentsAt(c.intents, k)[m].targetId == states[k].book.orders[i].clientId
    ensures i < |states[later].book.orders| && !states[later].book.orders[i].IsOpen()
  {
    hide *;
    HistoryLeads(c, states, k);
    ReachableInvariant(c, states, k);
    Causes.LeadsMeans(c, states, k);
    BarObeys(c.params, c.initialBalance, states[k], c.candles[k], IntentsAt(c.intents, k), m, i, states[k + 1]);
    HistoryGrows(c, states, k + 1, later);
    GrowsMeans(states[k + 1], states[later]);
    ReachableInvariant(c, states, k + 1);
    InvOrders(c.params, c.initialBalance, states[k + 1]);
    ClosedLater(states[k + 1].book.orders, states[later].book.orders, i);
  }

  // ---- links -----------------------------------------------------------------------------

  /** Order `first + n` hangs under the order of the group that its intent names, or under none. */
  ghost predicate LinkedAs(orders: seq<Order>, group: seq<Intent>, first: nat, n: nat)
    requires n < |group| && first + |group| <= |orders|
  {
    var o := orders[first + n];
    if group[n].parentId == "" then o.parentId == 0
    else exists m :: 0 <= m < |group| && group[m].id == group[n].parentId && o.parentId == orders[first + m].orderId
  }

  /** The orders of the group stand from `first` on under their client ids, the first `done` of them linked and the
      others not yet. */
  ghost predicate Linking(s: State, group: seq<Intent>, first: nat, done: nat) {
    && first + |group| == |s.book.orders| && done <= |group| && OrdersOk(s.book.orders) && IdsOk(s.book.orders, s.ids)
    && (forall n | 0 <= n < |group| :: s.book.orders[first + n].clientId == group[n].id)
    && (forall n | 0 <= n < done :: LinkedAs(s.book.orders, group, first, n))
    && (forall i | first + done <= i < |s.book.orders| :: s.book.orders[i].parentId == 0)
  }

  lemma IdIndex(s: State, group: seq<Intent>, first: nat, done: nat, m: nat)
    requires Linking(s, group, first, done) && m < |group|
    ensures group[m].id in s.ids && s.ids[group[m].id] == first + m
  {
    hide LinkedAs, OrderOk;
    assert s.book.orders[first + m].clientId == group[m].id;
  }

  /** Linking one order leaves client ids, order ids and the other links alone. */
  lemma LinkOneIs(s: State, intent: Intent, index: nat)
    requires Knows(s, index) && LinkOne(s, intent, index).Ok?
    ensures var r := LinkOne(s, intent, index).value;
      && r.ids == s.ids && |r.book.orders| == |s.book.orders|
      && (forall i | 0 <= i < |s.book.orders| ::
            && r.book.orders[i] == s.book.orders[i].(parentId := r.book.orders[i].parentId,
              hasChildren := r.book.orders[i].hasChildren)
            && (i != index ==> r.book.orders[i].parentId == s.book.orders[i].parentId))
      && (intent.parentId == "" ==> r == s)
      && (intent.parentId != "" ==>
            && intent.parentId in s.ids && Knows(s, s.ids[intent.parentId])
            && r.book.orders[index].parentId == s.book.orders[s.ids[intent.parentId]].orderId)
  {
  }

  lemma LinkedKept(a: seq<Order>, b: seq<Order>, group: seq<Intent>, first: nat, n: nat)
    requires n < |group| && first + |group| <= |a| == |b| && LinkedAs(a, group, first, n)
    requires b[first + n].parentId == a[first + n].parentId
    requires forall i | 0 <= i < |a| :: b[i].orderId == a[i].orderId
    ensures LinkedAs(b, group, first, n)
  {
    if group[n].parentId != "" {
      var m :| 0 <= m < |group| && group[m].id == group[n].parentId && a[first + n].parentId == a[first + m].orderId;
      assert b[first + n].parentId == b[first + m].orderId;
    }
  }

  lemma KeptOk(a: seq<Order>, b: seq<Order>, ids: map<string, nat>)
    requires |a| == |b| && OrdersOk(a) && IdsOk(a, ids)
    requires forall i | 0 <= i < |a| :: b[i] == a[i].(parentId := b[i].parentId, hasChildren := b[i].hasChildren)
    ensures OrdersOk(b) && IdsOk(b, ids)
  {
    forall i | 0 <= i < |b| ensures OrderOk(b[i], i) {
      assert OrderOk(a[i], i);
    }
  }

  lemma LinkNext(s: State, group: seq<Intent>, first: nat, done: nat, r: State)
    requires Linking(s, group, first, done) && done < |group| && ParentsLocal(group)
    requires LinkOne(s, group[done], first + done) == Ok(r)
    ensures Linking(r, group, first, done + 1)
  {
    hide LinkOne, OrdersOk, IdsOk, LinkedAs;
    LinkOneIs(s, group[done], first + done);
    KeptOk(s.book.orders, r.book.orders, s.ids);
    forall n | 0 <= n < done ensures LinkedAs(r.book.orders, group, first, n) {
      LinkedKept(s.book.orders, r.book.orders, group, first, n);
    }
    LinkMade(s, group, first, done, r);
  }

  lemma LinkMade(s: State, group: seq<Intent>, first: nat, done: nat, r: State)
    requires Linking(s, group, first, done) && done < |group| && ParentsLocal(group)
    requires LinkOne(s, group[done], first + done) == Ok(r) && |r.book.orders| == |s.book.orders|
    ensures LinkedAs(r.book.orders, group, first, done)
  {
    hide LinkOne, OrdersOk, IdsOk;
    LinkOneIs(s, group[done], first + done);
    if group[done].parentId != "" {
      assert group[done] in group;
      var parent :| parent in group && parent.id == group[done].parentId;
      var m :| 0 <= m < |group| && group[m] == parent;
      IdIndex(s, group, first, done, m);
      assert r.book.orders[first + m].orderId == s.book.orders[first + m].orderId;
      assert group[m].id == group[done].parentId;
      assert r.book.orders[first + done].parentId == r.book.orders[first + m].orderId;
    }
  }

  lemma {:induction false} LinkLinks(s: State, group: seq<Intent>, first: nat, done: nat, r: State)
    requires Linking(s, group, first, done) && ParentsLocal(group) && done <= |group|
    requires first + done + |group[done..]| <= |s.book.orders| && Link(s, group[done..], first + done) == Ok(r)
    ensures Linking(r, group, first, |group|)
    decreases |group| - done
  {
    hide LinkOne, Linking, ParentsLocal;
    if done < |group| {
      var next := LinkOne(s, group[done], first + done).value;
      LinkNext(s, group, first, done, next);
      assert group[done..][0] == group[done] && group[done..][1..] == group[done + 1..];
      LinkLinks(next, group, first, done + 1, r);
    }
  }

  lemma {:induction false} NoLinksYet(s: State, group: seq<Intent>)
    requires Indexed(s) && AddOrders(s, group).Ok?
    ensures var r := AddOrders(s, group).value;
      forall i | |s.book.orders| <= i < |r.book.orders| :: r.book.orders[i].parentId == 0
    ensures s.book.orders <= AddOrders(s, group).value.book.orders
    decreases |group|
  {
    if group == [] {
    } else {
      var next := AddOrder(s, group[0], true).value;
      AddOrderShape(s, group[0], true);
      AddedUnlinked(s, group[0], true);
      hide AddOrder;
      NoLinksYet(next, group[1..]);
    }
  }

  lemma AddedUnlinked(s: State, intent: Intent, defer: bool)
    requires AddOrder(s, intent, defer).Ok?
    ensures var r := AddOrder(s, intent, defer).value;
      |r.book.orders| == |s.book.orders| + 1 && r.book.orders[|s.book.orders|].parentId == 0
  {
    hide ValidateSubmit;
  }

  lemma InvIds(p: Params, initial: real, s: State)
    requires Inv(p, initial, s)
    ensures OrdersOk(s.book.orders) && IdsOk(s.book.orders, s.ids)
  {
    assert Holds(OfBook, p, initial, s) && Holds(OfIds, p, initial, s);
    hide Inv, OrderOk, ParentsOk, CountersOk;
  }

  /** A placed group is linked as its intents ask. */
  lemma PlaceGroupLinks(p: Params, initial: real, candle: Candle, s: State, group: seq<Intent>, r: State)
    requires Inv(p, initial, s) && Indexed(s) && ParentsLocal(group) && PlaceGroup(s, group) == Ok(r)
    ensures Linking(r, group, |s.book.orders|, |group|)
  {
    hide Inv, AddOrders, Link, ParentsLocal, Step, OrdersOk, IdsOk;
    var added := AddOrders(s, group).value;
    AddOrdersStep(p, initial, candle, s, group);
    StepGrows(p, initial, candle, s, added);
    InvIds(p, initial, added);
    AddOrdersShape(s, group);
    NoLinksYet(s, group);
    StartLinking(added, group, |s.book.orders|);
    assert group[0..] == group;
    LinkLinks(added, group, |s.book.orders|, 0, r);
  }

  lemma StartLinking(s: State, group: seq<Intent>, first: nat)
    requires Appended(s.book.orders, group, first) && OrdersOk(s.book.orders) && IdsOk(s.book.orders, s.ids)
    requires forall i | first <= i < |s.book.orders| :: s.book.orders[i].parentId == 0
    ensures Linking(s, group, first, 0)
  {
    hide OrderOk;
    forall n | 0 <= n < |group| ensures s.book.orders[first + n].clientId == group[n].id {
      assert s.book.orders[first + n].clientId == group[(first + n) - first].id;
    }
  }

  /** After an atomic submission each order of the group hangs under the order of the group whose client id its intent
      names, and under none if it names none; and an order submitted alone hangs under none. */
  lemma GroupLinked(p: Params, initial: real, candle: Candle, s: State, groupId: string, group: seq<Intent>, r: State,
        n: nat)
    requires Inv(p, initial, s) && Indexed(s) && s.bar == Some(candle) && SubmitAtomic(p, s, groupId, group) == Ok(r)
    requires n < |group|
    ensures |r.book.orders| == |s.book.orders| + |group|
    ensures r.book.orders[|s.book.orders| + n].clientId == group[n].id
    ensures LinkedAs(r.book.orders, group, |s.book.orders|, n)
  {
    hide Inv, PlaceGroup, ReleaseGroup, ParentsLocal, Step, Explained, LinkedAs;
    PlacedAdded(s, group);
    var placed := PlaceGroupStep(p, initial, candle, s, group);
    PlaceGroupLinks(p, initial, candle, s, group, placed);
    StepGrows(p, initial, candle, s, placed);
    ReleaseExplained([], p, initial, candle, placed, |s.book.orders|, r);
    ReleasedSize(p, placed, |s.book.orders|, r);
    LinkedReleased(placed, r, group, |s.book.orders|, n);
  }

  lemma ReleasedSize(p: Params, placed: State, first: nat, r: State)
    requires Indexed(placed) && first <= |placed.book.orders| && ReleaseGroup(p, placed, first) == Ok(r)
    ensures |r.book.orders| == |placed.book.orders|
  {
    hide FillEach, ByPriority;
  }

  lemma LinkedReleased(placed: State, r: State, group: seq<Intent>, first: nat, n: nat)
    requires Linking(placed, group, first, |group|) && n < |group| && Explained([], placed, r)
    requires |r.book.orders| == |placed.book.orders|
    ensures first + |group| == |r.book.orders| && r.book.orders[first + n].clientId == group[n].id
    ensures LinkedAs(r.book.orders, group, first, n)
  {
    hide Cause, OrdersOk, IdsOk, LinkedAs, Evolves;
    var a, b := placed.book.orders, r.book.orders;
    forall i | 0 <= i < |a| ensures b[i].orderId == a[i].orderId && b[i].clientId == a[i].clientId {
      SameOrder(a, b, i);
    }
    LinkedKept(a, b, group, first, n);
  }

  lemma SingleUnlinked(p: Params, initial: real, candle: Candle, s: State, intent: Intent, r: State)
    requires Inv(p, initial, s) && Indexed(s) && s.bar == Some(candle) && SubmitOne(p, s, intent) == Ok(r)
    ensures |r.book.orders| == |s.book.orders| + 1 && r.book.orders[|s.book.orders|].parentId == 0
  {
    hide Inv, AddOrder, TryFill, Explained, Step;
    var added := AddOrder(s, intent, false).value;
    AddedUnlinked(s, intent, false);
    if p.onClose {
      AddOrderStep(p, initial, candle, s, intent, false);
      StepGrows(p, initial, candle, s, added);
      TryFillExplained([], p, initial, added, |s.book.orders|, candle, ClosePoint, r);
      ExplainedMeans([], added, r, 0);
    }
  }
}
