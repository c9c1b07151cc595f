/** Which intents and which fee rules make a case fail: the orders that the intents call for are known beforehand. */
module Admission {
  import opened Kernel
  import opened Matching
  import opened Orders
  import opened Backtest
  import opened Invariants
  import opened Progress
  import opened Runs
  import Fees
  import Indicators
  import Ledger

  // ---- the orders that intents call for --------------------------------------------------

  /** The intent is the first of its group, and enters all of it. */
  predicate Opens(groups: set<string>, intent: Intent) {
    intent.action != Cancel && intent.atomicGroup != "" && intent.atomicGroup !in groups
  }

  /** The intents that become orders when one of the intents of a bar is applied. */
  function Placing(groups: set<string>, intents: seq<Intent>, intent: Intent): seq<Intent> {
    if Opens(groups, intent) then InGroup(intents, intent.atomicGroup)
    else if intent.action != Cancel && intent.atomicGroup == "" then [intent]
    else []
  }

  function Joined(groups: set<string>, intent: Intent): set<string> {
    if Opens(groups, intent) then groups + {intent.atomicGroup} else groups
  }

  function JoinedUpTo(groups: set<string>, intents: seq<Intent>, n: nat): set<string>
    requires n <= |intents|
  {
    if n == 0 then groups else Joined(JoinedUpTo(groups, intents, n - 1), intents[n - 1])
  }

  /** The intents that become orders when the first `n` intents of a bar are applied. */
  function PlacedUpTo(groups: set<string>, intents: seq<Intent>, n: nat): seq<Intent>
    requires n <= |intents|
  {
    if n == 0 then []
    else
      PlacedUpTo(groups, intents, n - 1) + Placing(JoinedUpTo(groups, intents, n - 1), intents, intents[n - 1])
  }

  /** The groups entered before a bar. */
  function GroupsBefore(c: Case, bar: nat): set<string> {
    if bar == 0 then {}
    else
      var due := IntentsAt(c.intents, bar - 1);
      JoinedUpTo(GroupsBefore(c, bar - 1), due, |due|)
  }

  /** The intents that become orders before a bar, in the order of their orders. */
  function PlacedBefore(c: Case, bar: nat): seq<Intent> {
    if bar == 0 then []
    else
      var due := IntentsAt(c.intents, bar - 1);
      PlacedBefore(c, bar - 1) + PlacedUpTo(GroupsBefore(c, bar - 1), due, |due|)
  }

  predicate GroupFine(group: seq<Intent>) {
    |group| >= 2 && ParentsLocal(group)
  }

  /** The group that the intent opens, if it opens one, is fine. */
  predicate OpensFine(groups: set<string>, intents: seq<Intent>, intent: Intent) {
    Opens(groups, intent) ==> GroupFine(InGroup(intents, intent.atomicGroup))
  }

  /** Every group that opens in the bar has two members or more, and all parents are members. */
  predicate GroupsFine(groups: set<string>, intents: seq<Intent>) {
    forall intent <- intents :: OpensFine(groups, intents, intent)
  }

  /** The intent asks for an order that can be placed: it submits, has an id and a side, a positive quantity, and the
      positive prices that its type trades by. */
  predicate Placeable(intent: Intent) {
    && intent.action == Submit && !AllWhitespace(intent.id) && intent.side.Some? && intent.quantity > 0.0
    && (intent.orderType in {LimitOrder, LimitMaker, StopLimit} ==> intent.limitPrice > 0.0)
    && (intent.orderType in {StopMarket, StopLimit} ==> intent.stopPrice > 0.0)
  }

  /** Exactly such intents are accepted, each with its own side; an intent that is not is refused for what is wrong. */
  lemma ValidatedExactly(intent: Intent)
    ensures ValidateSubmit(intent).Ok? <==> Placeable(intent)
    ensures ValidateSubmit(intent).Ok? ==> intent.side == Some(ValidateSubmit(intent).value)
    ensures ValidateSubmit(intent).Err? ==>
      ValidateSubmit(intent).error
      == if intent.action != Submit then UnsupportedAction
         else if AllWhitespace(intent.id) || intent.quantity <= 0.0 then MissingIdOrQuantity
         else if intent.side.None? then UnsupportedSide
         else MissingPrice
  {
    TrimBlank(intent.id);
    hide Trim, AllWhitespace;
  }

  predicate AllValid(placed: seq<Intent>) {
    forall i | 0 <= i < |placed| :: Placeable(placed[i])
  }

  predicate DistinctIds(placed: seq<Intent>) {
    forall i, j | 0 <= i < j < |placed| :: placed[i].id != placed[j].id
  }

  /** What a case asks for is in order before a bar: valid orders under ids of their own, in groups that hold
      together. */
  predicate Admitted(c: Case, bar: nat) {
    && AllValid(PlacedBefore(c, bar)) && DistinctIds(PlacedBefore(c, bar))
    && forall k: nat | k < bar :: GroupsFine(GroupsBefore(c, k), IntentsAt(c.intents, k))
  }

  /** Quantities can be cut to their step, and every fee rule is supported. */
  predicate Sane(p: Params) {
    p.quantityStep > 0.0 && forall rule <- p.rules :: Fees.Supported(rule)
  }

  // ---- matching never fails --------------------------------------------------------------

  lemma MatchPriceOk(p: Params, s: State, i: nat, candle: Candle, mode: MatchMode)
    requires Knows(s, i)
    ensures MatchPrice(p, s, i, candle, mode).Ok?
  {
    hide StopMarketPrice, LimitPrice, TruncateToIncrement;
  }

  lemma ApplyFillOk(p: Params, initial: real, s: State, i: nat, quantity: real, price: real, at: int)
    requires Sane(p) && Inv(p, initial, s) && Knows(s, i) && quantity > 0.0
    ensures ApplyFill(p, s, i, quantity, price, at).Ok?
  {
    var o := s.book.orders[i];
    assert Holds(OfBook, p, initial, s);
    assert OrderOk(o, i);
    hide Fees.ApplyTrade, Ledger.ApplyFill, Ledger.PayFees, SettleBook, Worth, Inv, Fees.Supported;
    Fees.TradeAccepted(s.fees, p.rules, o.orderId, o.side, Worth(price, quantity), quantity);
  }

  lemma ExecuteOk(p: Params, initial: real, s: State, i: nat, price: real, at: int)
    requires Sane(p) && Inv(p, initial, s) && Knows(s, i)
    ensures Execute(p, s, i, price, at).Ok?
  {
    hide Sane, Inv, ApplyFill, TruncateToIncrement, Tradable;
    var wanted := Tradable(s, s.book.orders[i]);
    if wanted.Some? {
      StepPositive(p);
      var quantity := TruncateToIncrement(wanted.value, p.quantityStep);
      if quantity.Ok? && quantity.value > 0.0 {
        ApplyFillOk(p, initial, s, i, quantity.value, price, at);
      }
    }
  }

  lemma StepPositive(p: Params)
    requires Sane(p)
    ensures p.quantityStep > 0.0
  {
  }

  lemma TryFillOk(p: Params, initial: real, s: State, i: nat, candle: Candle, mode: MatchMode)
    requires Sane(p) && Inv(p, initial, s) && Knows(s, i)
    ensures TryFill(p, s, i, candle, mode).Ok?
  {
    hide Sane, Inv, MatchPrice, Execute, ParentFilled, Step;
    MatchPriceOk(p, s, i, candle, mode);
    var m := MatchPrice(p, s, i, candle, mode).value;
    MatchPriceStep(p, initial, s, i, candle, mode, m);
    StepInv(p, initial, candle, s, m.state);
    MatchPriceKnows(p, s, i, candle, mode);
    if m.price.Some? {
      ExecuteOk(p, initial, m.state, i, m.price.value, EventTime(candle, mode));
    }
  }

  lemma MatchPriceKnows(p: Params, s: State, i: nat, candle: Candle, mode: MatchMode)
    requires Knows(s, i) && MatchPrice(p, s, i, candle, mode).Ok?
    ensures Knows(MatchPrice(p, s, i, candle, mode).value.state, i)
  {
    hide StopMarketPrice, LimitPrice, ApplySlippage;
  }

  lemma {:induction false} MatchAllOk(p: Params, initial: real, s: State, queue: seq<nat>, candle: Candle)
    requires Sane(p) && Inv(p, initial, s) && Indices(queue, |s.book.orders|)
    ensures MatchAll(p, s, queue, candle).Ok?
    decreases |queue|
  {
    hide Sane, Inv, TryFill, Step;
    if queue == [] {
    } else {
      TryFillOk(p, initial, s, queue[0], candle, FullBar);
      TryFillStep(p, initial, s, queue[0], candle, FullBar);
      var next := TryFill(p, s, queue[0], candle, FullBar).value;
      StepInv(p, initial, candle, s, next);
      if next.budget > 0.0 {
        MatchAllOk(p, initial, next, queue[1..], candle);
      }
    }
  }

  lemma {:induction false} FillEachOk(p: Params, initial: real, s: State, queue: seq<nat>, candle: Candle)
    requires Sane(p) && Inv(p, initial, s) && Indices(queue, |s.book.orders|)
    ensures FillEach(p, s, queue, candle).Ok?
    decreases |queue|
  {
    hide Sane, Inv, TryFill, Step;
    if queue == [] {
    } else {
      TryFillOk(p, initial, s, queue[0], candle, ClosePoint);
      TryFillStep(p, initial, s, queue[0], candle, ClosePoint);
      var next := TryFill(p, s, queue[0], candle, ClosePoint).value;
      StepInv(p, initial, candle, s, next);
      FillEachOk(p, initial, next, queue[1..], candle);
    }
  }

  // ---- the orders of a state -------------------------------------------------------------

  /** The orders of the state are those of the placed intents, one for each and in their order. */
  ghost predicate Mirrors(s: State, placed: seq<Intent>) {
    && |s.book.orders| == |placed|
    && (forall i | 0 <= i < |placed| :: placed[i].id in s.ids && s.ids[placed[i].id] == i)
    && (forall id <- s.ids :: s.ids[id] < |placed| && placed[s.ids[id]].id == id)
  }

  lemma MirrorsShape(a: State, b: State, placed: seq<Intent>)
    requires Mirrors(a, placed) && SameShape(a, b)
    ensures Mirrors(b, placed) && b.groups == a.groups
  {
  }

  lemma MirrorsDistinct(s: State, placed: seq<Intent>)
    requires Mirrors(s, placed)
    ensures DistinctIds(placed)
  {
  }

  lemma AddOrderPlaces(s: State, intent: Intent, defer: bool, placed: seq<Intent>)
    requires Mirrors(s, placed)
    ensures AddOrder(s, intent, defer).Ok? <==> Placeable(intent) && DistinctIds(placed + [intent])
    ensures AddOrder(s, intent, defer).Ok? ==>
      var r := AddOrder(s, intent, defer).value; Mirrors(r, placed + [intent]) && r.groups == s.groups
  {
    ValidatedExactly(intent);
    hide ValidateSubmit, Placeable;
    var all := placed + [intent];
    MirrorsDistinct(s, placed);
    if intent.id in s.ids {
      assert all[s.ids[intent.id]].id == all[|placed|].id;
    } else {
      assert forall i | 0 <= i < |placed| :: all[i] == placed[i] && placed[i].id in s.ids;
    }
  }

  lemma ValidParts(a: seq<Intent>, b: seq<Intent>)
    ensures AllValid(a + b) <==> AllValid(a) && AllValid(b)
    ensures DistinctIds(a + b) ==> DistinctIds(a) && DistinctIds(b)
  {
    hide Placeable;
    var all := a + b;
    assert forall i | 0 <= i < |a| :: all[i] == a[i];
    assert forall i | 0 <= i < |b| :: all[|a| + i] == b[i];
  }

  lemma ValidOne(intent: Intent)
    ensures AllValid([intent]) <==> Placeable(intent)
  {
    hide Placeable;
    assert [intent][0] == intent;
  }

  lemma {:induction false} AddOrdersPlaces(s: State, group: seq<Intent>, placed: seq<Intent>)
    requires Indexed(s) && Mirrors(s, placed)
    ensures AddOrders(s, group).Ok? <==> AllValid(group) && DistinctIds(placed + group)
    ensures AddOrders(s, group).Ok? ==>
      var r := AddOrders(s, group).value; Mirrors(r, placed + group) && r.groups == s.groups
    decreases |group|
  {
    hide Placeable, AddOrder, Mirrors, AllValid, DistinctIds;
    if group == [] {
      assert placed + group == placed;
      MirrorsDistinct(s, placed);
      NothingInvalid(group);
    } else {
      var first, rest := [group[0]], group[1..];
      assert group == first + rest && placed + group == placed + first + rest;
      AddOrderPlaces(s, group[0], true, placed);
      ValidOne(group[0]);
      ValidParts(first, rest);
      ValidParts(placed + first, rest);
      var next := AddOrder(s, group[0], true);
      if next.Ok? {
        AddOrdersPlaces(next.value, rest, placed + first);
      }
    }
  }

  lemma NothingInvalid(placed: seq<Intent>)
    requires placed == []
    ensures AllValid(placed)
  {
  }

  // ---- one intent ------------------------------------------------------------------------

  /** What the outcome of entering `more` after `placed` says. */
  ghost predicate Enters(p: Params, s: State, placed: seq<Intent>, more: seq<Intent>, fine: bool, r: Result<State>) {
    && (r.Ok? ==> fine && AllValid(more) && Mirrors(r.value, placed + more))
    && (Sane(p) && fine && AllValid(more) && DistinctIds(placed + more) ==> r.Ok?)
  }

  lemma SubmitOnePlaces(p: Params, initial: real, candle: Candle, s: State, intent: Intent, placed: seq<Intent>)
    requires Inv(p, initial, s) && Indexed(s) && s.bar == Some(candle) && Mirrors(s, placed)
    ensures var r := SubmitOne(p, s, intent);
      Enters(p, s, placed, [intent], true, r) && (r.Ok? ==> r.value.groups == s.groups)
  {
    hide Sane, Inv, AddOrder, Mirrors, TryFill, AllValid, DistinctIds, Step, Placeable;
    var r, added := SubmitOne(p, s, intent), AddOrder(s, intent, false);
    AddOrderPlaces(s, intent, false, placed);
    ValidOne(intent);
    if added.Ok? && p.onClose {
      AddOrderStep(p, initial, candle, s, intent, false);
      StepInv(p, initial, candle, s, added.value);
      if Sane(p) {
        TryFillOk(p, initial, added.value, |s.book.orders|, candle, ClosePoint);
      }
      if r.Ok? {
        MirrorsShape(added.value, r.value, placed + [intent]);
      }
    }
  }

  lemma PlaceGroupPlaces(p: Params, initial: real, candle: Candle, s: State, group: seq<Intent>, placed: seq<Intent>)
    requires Inv(p, initial, s) && Indexed(s) && Mirrors(s, placed) && ParentsLocal(group)
    ensures var r := PlaceGroup(s, group);
      && (r.Ok? <==> AllValid(group) && DistinctIds(placed + group))
      && (r.Ok? ==> Mirrors(r.value, placed + group) && r.value.groups == s.groups && Inv(p, initial, r.value))
  {
    hide Inv, AddOrders, Mirrors, Link, AllValid, DistinctIds, Step, ParentsLocal;
    AddOrdersPlaces(s, group, placed);
    var added := AddOrders(s, group);
    if added.Ok? {
      var r := PlaceGroupStep(p, initial, candle, s, group);
      StepInv(p, initial, candle, s, r);
      MirrorsShape(added.value, r, placed + group);
    }
  }

  lemma ReleaseGroupPlaces(p: Params, initial: real, candle: Candle, placed: State, first: nat, intents: seq<Intent>)
    requires Inv(p, initial, placed) && Indexed(placed) && first <= |placed.book.orders| && placed.bar == Some(candle)
    requires Mirrors(placed, intents)
    ensures var r := ReleaseGroup(p, placed, first);
      && (Sane(p) ==> r.Ok?)
      && (r.Ok? ==> Mirrors(r.value, intents) && r.value.groups == placed.groups)
  {
    hide Sane, Inv, FillEach, ByPriority, Step;
    var queue := ByPriority(placed.book.orders, first, |placed.book.orders|);
    var queued, r := Queued(placed, queue), ReleaseGroup(p, placed, first);
    assert Mirrors(queued, intents);
    hide Mirrors;
    if p.onClose {
      SideStep(p, initial, candle, placed, queued);
      StepInv(p, initial, candle, placed, queued);
      if Sane(p) {
        FillEachOk(p, initial, queued, queue, candle);
      }
      if r.Ok? {
        MirrorsShape(queued, r.value, intents);
      }
    }
  }

  lemma SubmitAtomicPlaces(p: Params, initial: real, candle: Candle, s: State, groupId: string, group: seq<Intent>,
        placed: seq<Intent>)
    requires Inv(p, initial, s) && Indexed(s) && s.bar == Some(candle) && Mirrors(s, placed) && groupId != ""
    ensures var r := SubmitAtomic(p, s, groupId, group);
      Enters(p, s, placed, group, GroupFine(group), r) && (r.Ok? ==> r.value.groups == s.groups)
  {
    hide Sane, Inv, PlaceGroup, ReleaseGroup, Mirrors, AllValid, DistinctIds, ParentsLocal;
    if GroupFine(group) {
      PlaceGroupPlaces(p, initial, candle, s, group, placed);
      var entered := PlaceGroup(s, group);
      if entered.Ok? {
        ReleaseGroupPlaces(p, initial, candle, entered.value, |s.book.orders|, placed + group);
      }
    }
  }

  /** What applying one intent enters, and when it can be. */
  lemma ApplyIntentPlaces(p: Params, initial: real, candle: Candle, s: State, intents: seq<Intent>, intent: Intent,
        placed: seq<Intent>)
    requires Inv(p, initial, s) && Indexed(s) && s.bar == Some(candle) && Mirrors(s, placed)
    ensures var r := ApplyIntent(p, s, intents, intent);
      && Enters(p, s, placed, Placing(s.groups, intents, intent), OpensFine(s.groups, intents, intent), r)
      && (r.Ok? ==> r.value.groups == Joined(s.groups, intent))
  {
    hide Sane, Inv, SubmitAtomic, SubmitOne, CancelTarget, AllValid, DistinctIds, GroupFine, InGroup;
    assert placed + [] == placed;
    if Opens(s.groups, intent) {
      var marked := s.(groups := s.groups + {intent.atomicGroup});
      SideStep(p, initial, candle, s, marked);
      StepInv(p, initial, candle, s, marked);
      assert Mirrors(marked, placed);
      hide Mirrors;
      SubmitAtomicPlaces(p, initial, candle, marked, intent.atomicGroup, InGroup(intents, intent.atomicGroup), placed);
    } else if intent.action != Cancel && intent.atomicGroup == "" {
      hide Mirrors;
      SubmitOnePlaces(p, initial, candle, s, intent, placed);
    } else {
      NothingInvalid([]);
      if intent.action == Cancel {
        MirrorsShape(s, CancelTarget(s, intent.targetId), placed);
      }
    }
  }

  // ---- one bar ---------------------------------------------------------------------------

  /** The groups that opened among the first `n` intents are fine. */
  ghost predicate FineUpTo(groups: set<string>, intents: seq<Intent>, n: nat)
    requires n <= |intents|
  {
    forall k | 0 <= k < n :: OpensFine(JoinedUpTo(groups, intents, k), intents, intents[k])
  }

  /** What the first `n` intents of a bar ask for is in order after what has been placed. */
  ghost predicate AllFine(groups: set<string>, intents: seq<Intent>, n: nat, placed: seq<Intent>)
    requires n <= |intents|
  {
    var more := PlacedUpTo(groups, intents, n);
    FineUpTo(groups, intents, n) && AllValid(more) && DistinctIds(placed + more)
  }

  lemma {:induction false} JoinedMore(groups: set<string>, intents: seq<Intent>, n: nat)
    requires n <= |intents|
    ensures groups <= JoinedUpTo(groups, intents, n)
    decreases n
  {
    if n == 0 {
    } else {
      JoinedMore(groups, intents, n - 1);
    }
  }

  /** The group of an intent that opens one has been opened by the first of its members. */
  lemma {:induction false} FirstOpens(groups: set<string>, intents: seq<Intent>, n: nat, groupId: string)
        returns (k: nat)
    requires n <= |intents| && groupId in JoinedUpTo(groups, intents, n) && groupId !in groups
    ensures k < n && Opens(JoinedUpTo(groups, intents, k), intents[k]) && intents[k].atomicGroup == groupId
    decreases n
  {
    if groupId in JoinedUpTo(groups, intents, n - 1) {
      k := FirstOpens(groups, intents, n - 1, groupId);
    } else {
      k := n - 1;
    }
  }

  lemma FineMeans(groups: set<string>, intents: seq<Intent>)
    ensures FineUpTo(groups, intents, |intents|) <==> GroupsFine(groups, intents)
  {
    hide GroupFine, InGroup;
    if FineUpTo(groups, intents, |intents|) {
      forall intent <- intents ensures OpensFine(groups, intents, intent) {
        if Opens(groups, intent) {
          var j :| 0 <= j < |intents| && intents[j] == intent;
          assert OpensFine(JoinedUpTo(groups, intents, j), intents, intents[j]);
          if !Opens(JoinedUpTo(groups, intents, j), intent) {
            var k := FirstOpens(groups, intents, j, intent.atomicGroup);
            assert OpensFine(JoinedUpTo(groups, intents, k), intents, intents[k]);
          }
        }
      }
    }
    if GroupsFine(groups, intents) {
      forall k | 0 <= k < |intents| ensures OpensFine(JoinedUpTo(groups, intents, k), intents, intents[k]) {
        JoinedMore(groups, intents, k);
        assert intents[k] in intents && OpensFine(groups, intents, intents[k]);
      }
    }
  }

  /** The state after the first `n` intents of a bar. */
  ghost predicate Entered(p: Params, initial: real, candle: Candle, s: State, groups: set<string>, intents: seq<Intent>,
        n: nat, placed: seq<Intent>)
    requires n <= |intents|
  {
    && Inv(p, initial, s) && Indexed(s) && s.bar == Some(candle)
    && s.groups == JoinedUpTo(groups, intents, n) && Mirrors(s, placed + PlacedUpTo(groups, intents, n))
    && FineUpTo(groups, intents, n) && AllValid(PlacedUpTo(groups, intents, n))
  }

  lemma EnteredMeans(p: Params, initial: real, candle: Candle, s: State, groups: set<string>, intents: seq<Intent>,
        n: nat, placed: seq<Intent>)
    requires n <= |intents| && Entered(p, initial, candle, s, groups, intents, n, placed)
    ensures Inv(p, initial, s) && Indexed(s) && s.bar == Some(candle)
    ensures s.groups == JoinedUpTo(groups, intents, n) && Mirrors(s, placed + PlacedUpTo(groups, intents, n))
  {
    hide Inv, Mirrors, FineUpTo, AllValid;
  }

  lemma FineNext(groups: set<string>, intents: seq<Intent>, n: nat, placed: seq<Intent>)
    requires n < |intents|
    ensures var so, more := placed + PlacedUpTo(groups, intents, n),
        Placing(JoinedUpTo(groups, intents, n), intents, intents[n]);
      && placed + PlacedUpTo(groups, intents, n + 1) == so + more
      && (FineUpTo(groups, intents, n + 1) <==>
          FineUpTo(groups, intents, n) && OpensFine(JoinedUpTo(groups, intents, n), intents, intents[n]))
      && (AllValid(PlacedUpTo(groups, intents, n + 1)) <==>
          AllValid(PlacedUpTo(groups, intents, n)) && AllValid(more))
  {
    hide AllValid, GroupFine, InGroup, Opens, Placing;
    var so, more := PlacedUpTo(groups, intents, n), Placing(JoinedUpTo(groups, intents, n), intents, intents[n]);
    assert PlacedUpTo(groups, intents, n + 1) == so + more;
    assert placed + PlacedUpTo(groups, intents, n + 1) == (placed + so) + more;
    ValidParts(so, more);
  }

  lemma EnteredNext(p: Params, initial: real, candle: Candle, s: State, r: State, groups: set<string>,
        intents: seq<Intent>, n: nat, placed: seq<Intent>)
    requires n < |intents| && Entered(p, initial, candle, s, groups, intents, n, placed)
    requires Inv(p, initial, r) && Indexed(r) && r.bar == Some(candle) && r.groups == Joined(s.groups, intents[n])
    requires Mirrors(r, placed + PlacedUpTo(groups, intents, n + 1))
    requires FineUpTo(groups, intents, n + 1) && AllValid(PlacedUpTo(groups, intents, n + 1))
    ensures Entered(p, initial, candle, r, groups, intents, n + 1, placed)
  {
    hide Inv, Mirrors, FineUpTo, AllValid, Joined, PlacedUpTo;
  }

  lemma EntersMeans(p: Params, s: State, placed: seq<Intent>, more: seq<Intent>, fine: bool, r: Result<State>)
    requires Enters(p, s, placed, more, fine, r)
    ensures r.Ok? ==> fine && AllValid(more) && Mirrors(r.value, placed + more)
    ensures Sane(p) && fine && AllValid(more) && DistinctIds(placed + more) ==> r.Ok?
  {
    hide Sane, AllValid, DistinctIds, Mirrors;
  }

  lemma IntentEnters(p: Params, initial: real, candle: Candle, s: State, groups: set<string>, intents: seq<Intent>,
        n: nat, placed: seq<Intent>)
    requires n < |intents| && Entered(p, initial, candle, s, groups, intents, n, placed)
    ensures Indexed(s)
    ensures var r := ApplyIntent(p, s, intents, intents[n]);
      && (r.Ok? ==> Entered(p, initial, candle, r.value, groups, intents, n + 1, placed))
      && (Sane(p) && AllFine(groups, intents, n + 1, placed) ==> r.Ok?)
  {
    hide *;
    EnteredMeans(p, initial, candle, s, groups, intents, n, placed);
    var so, more := placed + PlacedUpTo(groups, intents, n), Placing(s.groups, intents, intents[n]);
    ApplyIntentPlaces(p, initial, candle, s, intents, intents[n], so);
    ApplyIntentStep(p, initial, candle, s, intents, intents[n]);
    FineNext(groups, intents, n, placed);
    var r := ApplyIntent(p, s, intents, intents[n]);
    EntersMeans(p, s, so, more, OpensFine(s.groups, intents, intents[n]), r);
    AllFineMeans(groups, intents, n + 1, placed);
    if r.Ok? {
      EnteredFine(p, initial, candle, s, groups, intents, n, placed);
      StepInv(p, initial, candle, s, r.value);
      EnteredNext(p, initial, candle, s, r.value, groups, intents, n, placed);
    }
  }

  lemma EnteredFine(p: Params, initial: real, candle: Candle, s: State, groups: set<string>, intents: seq<Intent>,
        n: nat, placed: seq<Intent>)
    requires n <= |intents| && Entered(p, initial, candle, s, groups, intents, n, placed)
    ensures FineUpTo(groups, intents, n) && AllValid(PlacedUpTo(groups, intents, n))
  {
    hide Inv, Mirrors, FineUpTo, AllValid, PlacedUpTo;
  }

  lemma AllFineMeans(groups: set<string>, intents: seq<Intent>, n: nat, placed: seq<Intent>)
    requires n <= |intents|
    ensures AllFine(groups, intents, n, placed) <==>
      && FineUpTo(groups, intents, n) && AllValid(PlacedUpTo(groups, intents, n))
      && DistinctIds(placed + PlacedUpTo(groups, intents, n))
  {
    hide FineUpTo, AllValid, DistinctIds, PlacedUpTo;
  }

  lemma UpToLess(groups: set<string>, intents: seq<Intent>, n: nat, placed: seq<Intent>)
    requires n < |intents|
    ensures AllFine(groups, intents, n + 1, placed) ==> AllFine(groups, intents, n, placed)
  {
    hide *;
    FineNext(groups, intents, n, placed);
    AllFineMeans(groups, intents, n, placed);
    AllFineMeans(groups, intents, n + 1, placed);
    ValidParts(placed + PlacedUpTo(groups, intents, n), Placing(JoinedUpTo(groups, intents, n), intents, intents[n]));
  }

  /** The state after `n` intents of a bar, entered from the first one on. */
  lemma {:induction false} IntentsEnter(p: Params, initial: real, candle: Candle, s: State, groups: set<string>,
        intents: seq<Intent>, n: nat, placed: seq<Intent>)
    requires n <= |intents| && Entered(p, initial, candle, s, groups, intents, n, placed)
    ensures var r := ApplyIntents(p, s, intents, n);
      && (r.Ok? ==> Entered(p, initial, candle, r.value, groups, intents, |intents|, placed))
      && (Sane(p) && AllFine(groups, intents, |intents|, placed) ==> r.Ok?)
    decreases |intents| - n
  {
    hide *;
    EnteredIndexed(p, initial, candle, s, groups, intents, n, placed);
    ApplyIntentsUnfold(p, s, intents, n);
    if n < |intents| {
      IntentEnters(p, initial, candle, s, groups, intents, n, placed);
      AllLess(groups, intents, n + 1, |intents|, placed);
      var next := ApplyIntent(p, s, intents, intents[n]);
      if next.Ok? {
        IntentsEnter(p, initial, candle, next.value, groups, intents, n + 1, placed);
      }
    }
  }

  lemma EnteredIndexed(p: Params, initial: real, candle: Candle, s: State, groups: set<string>, intents: seq<Intent>,
        n: nat, placed: seq<Intent>)
    requires n <= |intents| && Entered(p, initial, candle, s, groups, intents, n, placed)
    ensures Indexed(s)
  {
  }

  lemma ApplyIntentsUnfold(p: Params, s: State, intents: seq<Intent>, n: nat)
    requires Indexed(s) && n <= |intents|
    ensures n == |intents| ==> ApplyIntents(p, s, intents, n) == Ok(s)
    ensures n < |intents| ==>
      var next := ApplyIntent(p, s, intents, intents[n]);
      ApplyIntents(p, s, intents, n) == if next.Ok? then ApplyIntents(p, next.value, intents, n + 1) else next
  {
    hide ApplyIntent;
  }

  lemma {:induction false} AllLess(groups: set<string>, intents: seq<Intent>, n: nat, until: nat, placed: seq<Intent>)
    requires n <= until <= |intents|
    ensures AllFine(groups, intents, until, placed) ==> AllFine(groups, intents, n, placed)
    decreases until
  {
    hide *;
    if n < until {
      UpToLess(groups, intents, until - 1, placed);
      AllLess(groups, intents, n, until - 1, placed);
    }
  }

  // ---- every bar -------------------------------------------------------------------------

  lemma MirrorsSame(a: State, b: State, placed: seq<Intent>)
    requires Mirrors(a, placed) && b.ids == a.ids && |b.book.orders| == |a.book.orders|
    ensures Mirrors(b, placed)
  {
  }

  lemma ConsumeBarKeeps(p: Params, s: State, candle: Candle)
    requires Indexed(s) && ConsumeBar(p, s, candle).Ok?
    ensures var r := ConsumeBar(p, s, candle).value;
      r.ids == s.ids && |r.book.orders| == |s.book.orders| && r.groups == s.groups
  {
    hide MatchAll, HasPending, Valuation;
  }

  lemma ConsumeBarOk(p: Params, initial: real, s: State, candle: Candle)
    requires Sane(p) && Inv(p, initial, s) && Indexed(s)
    ensures ConsumeBar(p, s, candle).Ok?
  {
    hide Sane, Inv, MatchAll, HasPending, Valuation, Grows;
    StartBarKeeps(p, initial, s, candle);
    MatchAllOk(p, initial, StartBar(s, candle), StartBar(s, candle).matching, candle);
  }

  /** Matching a bar enters nothing, and fails for no intent. */
  lemma ConsumeBarPlaces(p: Params, initial: real, s: State, candle: Candle, placed: seq<Intent>)
    requires Inv(p, initial, s) && Indexed(s) && Mirrors(s, placed)
    ensures var r := ConsumeBar(p, s, candle);
      && (Sane(p) ==> r.Ok?)
      && (r.Ok? ==> Mirrors(r.value, placed) && r.value.groups == s.groups && Inv(p, initial, r.value))
  {
    hide *;
    if Sane(p) {
      ConsumeBarOk(p, initial, s, candle);
    }
    var r := ConsumeBar(p, s, candle);
    if r.Ok? {
      ConsumeBarStep(p, initial, s, candle);
      StepInv(p, initial, candle, StartBar(s, candle), r.value);
      ConsumeBarKeeps(p, s, candle);
      MirrorsSame(s, r.value, placed);
    }
  }

  /** The state after the first bars of a case. */
  ghost predicate AfterBars(c: Case, bars: nat, s: State) {
    && Inv(c.params, c.initialBalance, s) && Indexed(s) && s.groups == GroupsBefore(c, bars)
    && Mirrors(s, PlacedBefore(c, bars)) && Admitted(c, bars)
  }

  lemma AdmittedNext(c: Case, bars: nat)
    ensures var groups, due := GroupsBefore(c, bars), IntentsAt(c.intents, bars);
      var more := PlacedUpTo(groups, due, |due|);
      && GroupsBefore(c, bars + 1) == JoinedUpTo(groups, due, |due|)
      && PlacedBefore(c, bars + 1) == PlacedBefore(c, bars) + more
      && (Admitted(c, bars + 1) <==> Admitted(c, bars) && AllFine(groups, due, |due|, PlacedBefore(c, bars)))
  {
    var groups, due := GroupsBefore(c, bars), IntentsAt(c.intents, bars);
    hide AllValid, DistinctIds, GroupsFine, FineUpTo, IntentsAt, PlacedUpTo, JoinedUpTo;
    ValidParts(PlacedBefore(c, bars), PlacedUpTo(groups, due, |due|));
    FineMeans(groups, due);
  }

  lemma NothingEntered(p: Params, initial: real, candle: Candle, s: State, groups: set<string>, intents: seq<Intent>,
        placed: seq<Intent>)
    requires Inv(p, initial, s) && Indexed(s) && s.bar == Some(candle) && s.groups == groups && Mirrors(s, placed)
    ensures Entered(p, initial, candle, s, groups, intents, 0, placed)
  {
    assert placed + [] == placed;
    NothingInvalid([]);
    hide Inv, Mirrors, AllValid;
  }

  lemma BarEntered(c: Case, bars: nat, s: State, r: State)
    requires bars < |c.candles| && AfterBars(c, bars, s)
    requires var groups, due := GroupsBefore(c, bars), IntentsAt(c.intents, bars);
      Entered(c.params, c.initialBalance, c.candles[bars], r, groups, due, |due|, PlacedBefore(c, bars))
    ensures AfterBars(c, bars + 1, r)
  {
    AdmittedNext(c, bars);
    hide Inv, AllValid, DistinctIds, FineUpTo, IntentsAt, PlacedUpTo, JoinedUpTo, GroupsBefore, PlacedBefore, Admitted;
    MirrorsDistinct(r, PlacedBefore(c, bars + 1));
    hide Mirrors;
  }

  lemma AfterBarsMeans(c: Case, bars: nat, s: State)
    requires AfterBars(c, bars, s)
    ensures Inv(c.params, c.initialBalance, s) && Indexed(s) && s.groups == GroupsBefore(c, bars)
    ensures Mirrors(s, PlacedBefore(c, bars)) && Admitted(c, bars)
  {
    hide Inv, Mirrors, Admitted;
  }

  lemma BarUnfolds(p: Params, s: State, candle: Candle, intents: seq<Intent>)
    requires Indexed(s)
    ensures var consumed := ConsumeBar(p, s, candle);
      Bar(p, s, candle, intents) == if consumed.Ok? then ApplyIntents(p, consumed.value, intents, 0) else consumed
  {
    hide ConsumeBar, ApplyIntents;
  }

  lemma BarPlaces(c: Case, bars: nat, s: State)
    requires bars < |c.candles| && AfterBars(c, bars, s)
    ensures Indexed(s)
    ensures var r := Bar(c.params, s, c.candles[bars], IntentsAt(c.intents, bars));
      && (r.Ok? ==> AfterBars(c, bars + 1, r.value))
      && (Sane(c.params) && Admitted(c, bars + 1) ==> r.Ok?)
  {
    hide *;
    var due, candle, placed := IntentsAt(c.intents, bars), c.candles[bars], PlacedBefore(c, bars);
    AfterBarsMeans(c, bars, s);
    BarUnfolds(c.params, s, candle, due);
    ConsumeBarPlaces(c.params, c.initialBalance, s, candle, placed);
    AdmittedNext(c, bars);
    var consumed := ConsumeBar(c.params, s, candle);
    if consumed.Ok? {
      NothingEntered(c.params, c.initialBalance, candle, consumed.value, s.groups, due, placed);
      IntentsEnter(c.params, c.initialBalance, candle, consumed.value, s.groups, due, 0, placed);
      var r := ApplyIntents(c.params, consumed.value, due, 0);
      if r.Ok? {
        BarEntered(c, bars, s, r.value);
      }
    }
  }

  lemma StartsAdmitted(c: Case)
    ensures AfterBars(c, 0, Initial(c.initialBalance))
  {
    InitialInv(c.params, c.initialBalance, Initial(c.initialBalance));
    hide Inv;
  }

  /** The bars of a case are processed only if what the case asks for is in order, and then its orders are the placed
      intents; with supported fee rules they are processed exactly then. */
  lemma {:induction false} RunAdmits(c: Case, bars: nat)
    requires bars <= |c.candles|
    ensures Run(c, bars).Ok? ==> Admitted(c, bars) && Mirrors(Run(c, bars).value, PlacedBefore(c, bars))
    ensures Sane(c.params) && Admitted(c, bars) ==> Run(c, bars).Ok?
  {
    hide *;
    RunAfter(c, bars);
    if Run(c, bars).Ok? {
      AfterBarsMeans(c, bars, Run(c, bars).value);
    }
  }

  lemma {:induction false} RunAfter(c: Case, bars: nat)
    requires bars <= |c.candles|
    ensures Run(c, bars).Ok? ==> AfterBars(c, bars, Run(c, bars).value)
    ensures Sane(c.params) && Admitted(c, bars) ==> Run(c, bars).Ok?
    decreases bars
  {
    hide *;
    if bars == 0 {
      RunStart(c, bars);
      StartsAdmitted(c);
    } else {
      RunAfter(c, bars - 1);
      RunUnfold(c, bars - 1);
      AdmittedNext(c, bars - 1);
      if Run(c, bars - 1).Ok? {
        BarPlaces(c, bars - 1, Run(c, bars - 1).value);
      }
    }
  }

  lemma ValidSteps(c: Case)
    requires InOrder(c)
    ensures c.params.quantityStep > 0.0
  {
  }

  /** A case succeeds only if it is valid, what it asks for is in order and its indicators exist; with supported fee
      rules it succeeds exactly then. */
  lemma CaseSucceeds(c: Case)
    ensures var indicators :=
        && (c.periods == [] || Indicators.Averageable(Closes(c.candles[..ProcessedBars(c)])))
        && forall i | 0 <= i < |c.periods| :: c.periods[i] > 0;
      && (RunCase(c).Ok? ==> InOrder(c) && Admitted(c, ProcessedBars(c)) && indicators)
      && ((forall rule <- c.params.rules :: Fees.Supported(rule)) ==>
          (RunCase(c).Ok? <==> InOrder(c) && Admitted(c, ProcessedBars(c)) && indicators))
  {
    RunAdmits(c, ProcessedBars(c));
    RunCaseSucceeds(c);
    hide Run, RunCase, InOrder, Admitted, Closes, Indicators.Averageable, Fees.Supported, Mirrors, PlacedBefore;
    if InOrder(c) {
      ValidSteps(c);
    }
  }
}
