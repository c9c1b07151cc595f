/** When an attempt to match an order trades, and exactly how much. */
module Trading {
  import opened Kernel
  import opened Matching
  import opened Orders
  import opened Backtest
  import opened Invariants
  import opened Filling
  import opened Progress
  import opened Causes

  /** The order is open under no parent or a filled one, there is liquidity left, and the bar offers it this positive
      price. */
  predicate Offers(p: Params, s: State, i: nat, candle: Candle, mode: MatchMode, price: real) {
    && i < |s.book.orders|
    && var o := s.book.orders[i];
       && o.remaining > 0.0 && s.budget > 0.0 && price > 0.0
       && (o.parentId != 0 ==>
             exists parent :: parent in s.book.orders && parent.orderId == o.parentId && parent.status == Filled)
       && PriceOn(p, o, candle, mode, price)
       && (o.orderType.StopLimit? ==> o.stopTriggered)
  }

  /** How much of a position an order of this side would reduce. */
  function Reducible(position: real, side: Side): (r: real)
    ensures r >= 0.0
  {
    Max(0.0, if side == Sell then position else -position)
  }

  /** The most that the order may trade now. */
  function Allowed(s: State, o: Order): real {
    var most := Min(o.remaining, s.budget);
    if o.reduceOnly then Min(most, Reducible(s.ledger.base, o.side)) else most
  }

  /** The largest multiple of the quantity step that is allowed; it is positive and not under the minimum. */
  ghost predicate Trades(p: Params, allowed: real, quantity: real) {
    && IsMultiple(quantity, p.quantityStep) && quantity <= allowed < quantity + p.quantityStep
    && quantity > 0.0 && (p.minQuantity > 0.0 ==> quantity >= p.minQuantity)
  }

  lemma TradesOnce(p: Params, allowed: real, a: real, b: real)
    requires p.quantityStep > 0.0 && Trades(p, allowed, a)
    requires IsMultiple(b, p.quantityStep) && b <= allowed < b + p.quantityStep
    ensures a == b
  {
    hide IsMultiple;
    if a < b {
      MultiplesApart(a, b, p.quantityStep);
    } else if b < a {
      MultiplesApart(b, a, p.quantityStep);
    }
  }

  lemma AllowedIs(s: State, o: Order)
    requires o.remaining > 0.0 && s.budget > 0.0
    ensures Allowed(s, o) >= 0.0
    ensures Tradable(s, o) == if o.reduceOnly && Reducible(s.ledger.base, o.side) == 0.0 then None
      else Some(Allowed(s, o))
    ensures Tradable(s, o).None? ==> Allowed(s, o) == 0.0
  {
  }

  /** The attempt has traded this quantity at this price. */
  ghost predicate Traded(s: State, r: State, o: Order, price: real, quantity: real) {
    && |r.fills| == |s.fills| + 1 && s.fills <= r.fills && r.budget == s.budget - quantity
    && var f := r.fills[|s.fills|]; f.orderId == o.orderId && f.price == price && f.quantity == quantity
  }

  /** What executing at a price comes to. */
  lemma ExecuteExactly(p: Params, initial: real, s: State, i: nat, candle: Candle, mode: MatchMode, price: real,
        r: State)
    requires Inv(p, initial, s) && Knows(s, i) && MayTrade(s.book.orders, i) && s.budget > 0.0
    requires price > 0.0 && PriceOk(p, s.book.orders[i], candle, mode, price) && p.quantityStep > 0.0
    requires Execute(p, s, i, price, EventTime(candle, mode)) == Ok(r)
    ensures var o := s.book.orders[i];
      && (forall quantity | Trades(p, Allowed(s, o), quantity) :: Traded(s, r, o, price, quantity))
      && (r.fills != s.fills ==> exists quantity :: Trades(p, Allowed(s, o), quantity))
      && (o.reduceOnly && Reducible(s.ledger.base, o.side) == 0.0 ==> !r.book.orders[i].IsOpen())
  {
    hide Inv, PriceOk, IsMultiple, Tradable, ApplyFill, CancelOrder, WarnOnce, Step, Allowed, Grows;
    var o, at := s.book.orders[i], EventTime(candle, mode);
    assert o.remaining > 0.0;
    AllowedIs(s, o);
    var wanted := Tradable(s, o);
    if wanted.None? {
      CancelOrderCloses(s.book, i, Some(at));
      assert r.fills == s.fills && forall quantity :: !Trades(p, Allowed(s, o), quantity);
    } else {
      var quantity := TruncateToIncrement(wanted.value, p.quantityStep).value;
      forall other | Trades(p, Allowed(s, o), other) ensures other == quantity {
        TradesOnce(p, Allowed(s, o), other, quantity);
      }
      if quantity <= 0.0 {
        WarnSame(s, LiquidityStep);
      } else if p.minQuantity > 0.0 && quantity < p.minQuantity {
        WarnSame(s, LiquidityMin);
      } else {
        TradableFillable(p, s, i, candle, mode, price, quantity);
        ApplyFillKeeps(p, initial, s, i, quantity, price, at);
        GrowsMeans(s, ApplyFill(p, s, i, quantity, price, at).value);
        assert Trades(p, Allowed(s, o), quantity);
      }
    }
  }

  /** A price offered to an order that may be matched is the one that matching finds. */
  lemma OfferMatched(p: Params, s: State, i: nat, candle: Candle, mode: MatchMode, price: real)
    requires Offers(p, s, i, candle, mode, price)
    ensures MatchPrice(p, s, i, candle, mode) == Ok(Matched(Some(price), s))
  {
    hide ApplySlippage, LimitPrice, StopMarketPrice;
  }

  lemma OfferedMayTrade(p: Params, s: State, i: nat, candle: Candle, mode: MatchMode, price: real)
    requires Offers(p, s, i, candle, mode, price)
    ensures Knows(s, i) && MayTrade(s.book.orders, i) && s.budget > 0.0 && price > 0.0
    ensures TryFill(p, s, i, candle, mode) == Execute(p, s, i, price, EventTime(candle, mode))
  {
    OfferMatched(p, s, i, candle, mode, price);
    hide MatchPrice, Execute, PriceOn;
  }

  lemma OfferedOk(p: Params, s: State, i: nat, candle: Candle, mode: MatchMode, price: real)
    requires Offers(p, s, i, candle, mode, price)
    ensures PriceOk(p, s.book.orders[i], candle, mode, price)
  {
    hide ApplySlippage;
  }

  lemma MatchedSame(p: Params, s: State, i: nat, candle: Candle, mode: MatchMode, m: Matched)
    requires Knows(s, i) && MatchPrice(p, s, i, candle, mode) == Ok(m)
    ensures m.state.fills == s.fills
  {
    hide ApplySlippage, LimitPrice, StopMarketPrice;
  }

  /** An attempt that trades was offered a price. */
  lemma TradedOffered(p: Params, s: State, i: nat, candle: Candle, mode: MatchMode, r: State) returns (price: real)
    requires Knows(s, i) && TryFill(p, s, i, candle, mode) == Ok(r) && r.fills != s.fills
    ensures Offers(p, s, i, candle, mode, price)
  {
    hide TryFill, Execute, MatchPrice, PriceOn;
    TryFillOutcome(p, s, i, candle, mode);
    var m := MatchPrice(p, s, i, candle, mode).value;
    MatchedSame(p, s, i, candle, mode, m);
    price := m.price.value;
  }

  /** An attempt trades exactly when an open order under no parent or a filled one is offered a positive price, there is
      liquidity, and the largest multiple of the step that remaining quantity, liquidity and reducible position allow is
      positive and not under the minimum; it then trades that quantity at that price. An order that could only reduce is
      closed when there is nothing to reduce. */
  lemma TradesExactly(p: Params, initial: real, s: State, i: nat, candle: Candle, mode: MatchMode, r: State)
    requires Inv(p, initial, s) && Knows(s, i) && TryFill(p, s, i, candle, mode) == Ok(r) && p.quantityStep > 0.0
    ensures var o := s.book.orders[i];
      && (forall price, quantity | Offers(p, s, i, candle, mode, price) && Trades(p, Allowed(s, o), quantity) ::
            Traded(s, r, o, price, quantity))
      && (r.fills != s.fills ==>
            exists price, quantity :: Offers(p, s, i, candle, mode, price) && Trades(p, Allowed(s, o), quantity))
    ensures forall price | Offers(p, s, i, candle, mode, price) && s.book.orders[i].reduceOnly ::
      Reducible(s.ledger.base, s.book.orders[i].side) == 0.0 ==> !r.book.orders[i].IsOpen()
  {
    hide Inv, TryFill, Offers, Trades, Traded, Allowed, Reducible;
    var o := s.book.orders[i];
    TrySize(p, s, i, candle, mode, r);
    if r.fills != s.fills {
      var price := TradedOffered(p, s, i, candle, mode, r);
      OfferTrades(p, initial, s, i, candle, mode, r, price);
      var quantity :| Trades(p, Allowed(s, o), quantity);
      assert Offers(p, s, i, candle, mode, price) && Trades(p, Allowed(s, o), quantity);
    }
    forall price | Offers(p, s, i, candle, mode, price)
      ensures forall quantity | Trades(p, Allowed(s, o), quantity) :: Traded(s, r, o, price, quantity)
      ensures o.reduceOnly && Reducible(s.ledger.base, o.side) == 0.0 ==> !r.book.orders[i].IsOpen()
    {
      OfferTrades(p, initial, s, i, candle, mode, r, price);
    }
  }

  lemma OfferTrades(p: Params, initial: real, s: State, i: nat, candle: Candle, mode: MatchMode, r: State, price: real)
    requires Inv(p, initial, s) && Knows(s, i) && TryFill(p, s, i, candle, mode) == Ok(r) && p.quantityStep > 0.0
    requires Offers(p, s, i, candle, mode, price)
    ensures |r.book.orders| == |s.book.orders|
    ensures var o := s.book.orders[i];
      && (forall quantity | Trades(p, Allowed(s, o), quantity) :: Traded(s, r, o, price, quantity))
      && (r.fills != s.fills ==> exists quantity :: Trades(p, Allowed(s, o), quantity))
      && (o.reduceOnly && Reducible(s.ledger.base, o.side) == 0.0 ==> !r.book.orders[i].IsOpen())
  {
    hide *;
    OfferedMayTrade(p, s, i, candle, mode, price);
    OfferedOk(p, s, i, candle, mode, price);
    ExecuteExactly(p, initial, s, i, candle, mode, price, r);
    TrySize(p, s, i, candle, mode, r);
  }

  lemma TrySize(p: Params, s: State, i: nat, candle: Candle, mode: MatchMode, r: State)
    requires Knows(s, i) && TryFill(p, s, i, candle, mode) == Ok(r)
    ensures |r.book.orders| == |s.book.orders|
  {
    hide Execute, MatchPrice;
  }

  // ---- one after the other ---------------------------------------------------------------

  /** The orders of the queue are tried one after the other in this mode; `states[n]` is the state before try `n`. */
  ghost predicate Tried(p: Params, states: seq<State>, queue: seq<nat>, candle: Candle, mode: MatchMode) {
    && 0 < |states| <= |queue| + 1
    && forall n | 0 <= n < |states| - 1 :: TriedAt(p, states, queue, candle, mode, n)
  }

  ghost predicate TriedAt(p: Params, states: seq<State>, queue: seq<nat>, candle: Candle, mode: MatchMode, n: nat)
    requires n + 1 < |states| && n < |queue|
  {
    Knows(states[n], queue[n]) && TryFill(p, states[n], queue[n], candle, mode) == Ok(states[n + 1])
  }

  lemma {:induction false} TriedMore(p: Params, s: State, states: seq<State>, queue: seq<nat>, candle: Candle,
        mode: MatchMode)
    requires queue != [] && Knows(s, queue[0]) && Tried(p, states, queue[1..], candle, mode)
    requires TryFill(p, s, queue[0], candle, mode) == Ok(states[0])
    ensures Tried(p, [s] + states, queue, candle, mode)
  {
    hide TryFill;
    var all := [s] + states;
    forall n | 0 <= n < |all| - 1 ensures TriedAt(p, all, queue, candle, mode, n) {
      if n > 0 {
        assert TriedAt(p, states, queue[1..], candle, mode, n - 1);
        assert all[n] == states[n - 1] && all[n + 1] == states[n] && queue[n] == queue[1..][n - 1];
      }
    }
  }

  /** Against a bar every queued order is tried in turn, until the liquidity is used up. */
  lemma {:induction false} AllTried(p: Params, s: State, queue: seq<nat>, candle: Candle, r: State)
        returns (states: seq<State>)
    requires Indices(queue, |s.book.orders|) && MatchAll(p, s, queue, candle) == Ok(r)
    ensures Tried(p, states, queue, candle, FullBar) && states[0] == s && states[|states| - 1] == r
    ensures |states| == |queue| + 1 || r.budget <= 0.0
    ensures forall n | 0 < n < |states| - 1 :: states[n].budget > 0.0
    decreases |queue|
  {
    hide TryFill;
    if queue == [] {
      states := [s];
    } else {
      var next := TryFill(p, s, queue[0], candle, FullBar).value;
      if next.budget <= 0.0 {
        states := [s, next];
        assert TriedAt(p, states, queue, candle, FullBar, 0);
      } else {
        var rest := AllTried(p, next, queue[1..], candle, r);
        TriedMore(p, s, rest, queue, candle, FullBar);
        states := [s] + rest;
      }
    }
  }

  /** At the close every order of a group is tried, by priority. */
  lemma {:induction false} EachTried(p: Params, s: State, queue: seq<nat>, candle: Candle, r: State)
        returns (states: seq<State>)
    requires Indices(queue, |s.book.orders|) && FillEach(p, s, queue, candle) == Ok(r)
    ensures Tried(p, states, queue, candle, ClosePoint) && |states| == |queue| + 1
    ensures states[0] == s && states[|queue|] == r
    decreases |queue|
  {
    hide TryFill;
    if queue == [] {
      states := [s];
    } else {
      var next := TryFill(p, s, queue[0], candle, ClosePoint).value;
      var rest := EachTried(p, next, queue[1..], candle, r);
      TriedMore(p, s, rest, queue, candle, ClosePoint);
      states := [s] + rest;
    }
  }
}
