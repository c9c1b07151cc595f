/** Order records with parent and OCO links, their cancellation and the count of closing trades. */
module Orders {
  import opened Kernel

  datatype Status = New | PartiallyFilled | Filled | Cancelled {
    predicate Closed() { Filled? || Cancelled? }
  }

  datatype OrderType = MarketOrder | LimitOrder | LimitMaker | StopMarket | StopLimit | OtherType(text: string)

  const INITIAL_ORDER_ID: nat := 1_100_000_000

  datatype Order = Order(
    orderId: nat, clientId: string, side: Side, orderType: OrderType,
    quantity: real, limitPrice: real, stopPrice: real, reduceOnly: bool,
    parentId: nat, ocoGroup: string, hasChildren: bool, stopTriggered: bool,
    remaining: real, filled: real, filledNotional: real, averagePrice: real,
    status: Status, submittedAt: Option<int>, filledAt: Option<int>,
    closingQuantity: real, closingPnl: real, closingFinalized: bool)
  {
    predicate IsOpen() { remaining > 0.0 }
  }

  /** The orders and the two trade counters that closing an order moves. */
  datatype Book = Book(orders: seq<Order>, trades: nat, wins: nat)

  const EMPTY_BOOK := Book([], 0, 0)

  ghost function OpenSet(orders: seq<Order>): set<nat> {
    set i: nat | i < |orders| && orders[i].IsOpen()
  }

  /** Count a closing order once, the first time it is closed or the run ends. */
  function Finalize(b: Book, i: nat): (r: Book)
    requires i < |b.orders|
    ensures |r.orders| == |b.orders|
  {
    var o := b.orders[i];
    if o.closingFinalized || o.closingQuantity <= 0.0 then b
    else Book(b.orders[i := o.(closingFinalized := true)], b.trades + 1, b.wins + if o.closingPnl > 0.0 then 1 else 0)
  }

  /** The indices, in order, of the open orders that hang under `parentId`. */
  function Dependents(orders: seq<Order>, parentId: nat, from: nat): (r: seq<nat>)
    requires from <= |orders|
    ensures Indices(r, |orders|)
    ensures forall k: nat :: k in r <==> from <= k < |orders| && orders[k].parentId == parentId && orders[k].IsOpen()
    decreases |orders| - from
  {
    if from == |orders| then []
    else if orders[from].parentId == parentId && orders[from].IsOpen() then
      [from] + Dependents(orders, parentId, from + 1)
    else Dependents(orders, parentId, from + 1)
  }

  /** The indices, in order, of the other open orders of an OCO group. */
  function Siblings(orders: seq<Order>, filled: nat, group: string, from: nat): (r: seq<nat>)
    requires from <= |orders|
    ensures Indices(r, |orders|)
    ensures forall k: nat :: k in r <==>
      from <= k < |orders| && k != filled && orders[k].ocoGroup == group && orders[k].IsOpen()
    decreases |orders| - from
  {
    if from == |orders| then []
    else if from != filled && orders[from].ocoGroup == group && orders[from].IsOpen() then
      [from] + Siblings(orders, filled, group, from + 1)
    else Siblings(orders, filled, group, from + 1)
  }

  predicate Indices(indices: seq<nat>, count: nat) {
    forall n | 0 <= n < |indices| :: indices[n] < count
  }

  function MarkCancelled(o: Order, at: Option<int>): Order {
    o.(remaining := 0.0, status := Cancelled, filledAt := at)
  }

  function MarkFinalized(o: Order): Order {
    if o.closingQuantity <= 0.0 then o else o.(closingFinalized := true)
  }

  /** Every order of `a` is unchanged in `b`, or was open and has been cancelled and counted. */
  ghost predicate OnlyCancels(a: seq<Order>, b: seq<Order>, at: Option<int>) {
    && |b| == |a|
    && forall i | 0 <= i < |a| :: b[i] == a[i] || (a[i].IsOpen() && b[i] == MarkFinalized(MarkCancelled(a[i], at)))
  }

  lemma OnlyCancelsCloses(a: seq<Order>, b: seq<Order>, at: Option<int>)
    requires OnlyCancels(a, b, at)
    ensures OpenSet(b) <= OpenSet(a)
  {
    assert forall i | 0 <= i < |a| :: b[i].IsOpen() ==> b[i] == a[i];
  }

  lemma OnlyCancelsTransitive(a: seq<Order>, b: seq<Order>, c: seq<Order>, at: Option<int>)
    requires OnlyCancels(a, b, at) && OnlyCancels(b, c, at)
    ensures OnlyCancels(a, c, at)
  {
    forall i | 0 <= i < |a|
      ensures c[i] == a[i] || (a[i].IsOpen() && c[i] == MarkFinalized(MarkCancelled(a[i], at)))
    {
      assert b[i] == a[i] || (a[i].IsOpen() && b[i] == MarkFinalized(MarkCancelled(a[i], at)));
      assert c[i] == b[i] || (b[i].IsOpen() && c[i] == MarkFinalized(MarkCancelled(b[i], at)));
    }
  }

  /** Close one open order, without looking at its children. */
  function CloseOne(b: Book, i: nat, at: Option<int>): (r: Book)
    requires i < |b.orders| && b.orders[i].IsOpen()
    ensures OnlyCancels(b.orders, r.orders, at) && !r.orders[i].IsOpen()
    ensures OpenSet(r.orders) < OpenSet(b.orders)
  {
    var r := Finalize(b.(orders := b.orders[i := MarkCancelled(b.orders[i], at)]), i);
    assert r.orders[i] == MarkFinalized(MarkCancelled(b.orders[i], at));
    OnlyCancelsCloses(b.orders, r.orders, at);
    assert i in OpenSet(b.orders) && i !in OpenSet(r.orders);
    r
  }

  /** Cancel an order and, recursively, its open children. It ends on any parent links, cyclic ones included:
      each call that does anything closes an open order. */
  function CancelOrder(b: Book, i: nat, at: Option<int>): (r: Book)
    requires i < |b.orders|
    ensures OnlyCancels(b.orders, r.orders, at)
    decreases OpenSet(b.orders), 0
  {
    if !b.orders[i].IsOpen() then b
    else
      var closed := CloseOne(b, i, at);
      var r := CancelAll(closed, Dependents(closed.orders, b.orders[i].orderId, 0), at);
      OnlyCancelsTransitive(b.orders, closed.orders, r.orders, at);
      r
  }

  function CancelAll(b: Book, targets: seq<nat>, at: Option<int>): (r: Book)
    requires Indices(targets, |b.orders|)
    ensures OnlyCancels(b.orders, r.orders, at)
    decreases OpenSet(b.orders), 1 + |targets|
  {
    if targets == [] then b
    else
      var first := CancelOrder(b, targets[0], at);
      OnlyCancelsCloses(b.orders, first.orders, at);
      assert OpenSet(first.orders) < OpenSet(b.orders) || OpenSet(first.orders) == OpenSet(b.orders);
      var r := CancelAll(first, targets[1..], at);
      OnlyCancelsTransitive(b.orders, first.orders, r.orders, at);
      r
  }

  // ---- what a cancellation closes --------------------------------------------------------

  /** `k` hangs directly under `j`. */
  ghost predicate ChildOf(orders: seq<Order>, k: nat, j: nat)
    requires k < |orders| && j < |orders|
  {
    orders[k].parentId == orders[j].orderId
  }

  /** A chain of parent links from `path[0]` down to its last element. */
  ghost predicate Descent(orders: seq<Order>, path: seq<nat>) {
    && path != []
    && Indices(path, |orders|)
    && forall n | 0 < n < |path| :: ChildOf(orders, path[n], path[n - 1])
  }

  ghost predicate Descends(orders: seq<Order>, i: nat, j: nat) {
    exists path :: Descent(orders, path) && path[0] == i && path[|path| - 1] == j
  }

  ghost predicate OpenDescent(orders: seq<Order>, path: seq<nat>) {
    Descent(orders, path) && forall n | 0 <= n < |path| :: orders[path[n]].IsOpen()
  }

  ghost predicate OpenDescends(orders: seq<Order>, i: nat, j: nat) {
    exists path :: OpenDescent(orders, path) && path[0] == i && path[|path| - 1] == j
  }

  /** Every order closed between `a` and `b` has no open child left. */
  ghost predicate ChildrenClosed(a: seq<Order>, b: seq<Order>)
    requires |a| == |b|
  {
    forall j, k | 0 <= j < |a| && 0 <= k < |a| && b[j] != a[j] && ChildOf(b, k, j) :: !b[k].IsOpen()
  }

  lemma ChildrenClosedTransitive(a: seq<Order>, b: seq<Order>, c: seq<Order>, at: Option<int>)
    requires OnlyCancels(a, b, at) && OnlyCancels(b, c, at) && ChildrenClosed(a, b) && ChildrenClosed(b, c)
    ensures ChildrenClosed(a, c)
  {
    forall j, k | 0 <= j < |a| && 0 <= k < |a| && c[j] != a[j] && ChildOf(c, k, j)
      ensures !c[k].IsOpen()
    {
      assert b[k] == a[k] || b[k] == MarkFinalized(MarkCancelled(a[k], at));
      assert b[j] == a[j] || b[j] == MarkFinalized(MarkCancelled(a[j], at));
      assert c[k] == b[k] || c[k] == MarkFinalized(MarkCancelled(b[k], at));
      assert c[j] == b[j] || c[j] == MarkFinalized(MarkCancelled(b[j], at));
      if b[j] != a[j] {
        assert ChildOf(b, k, j);
      }
    }
  }

  lemma {:induction false} CancelOrderCloses(b: Book, i: nat, at: Option<int>)
    requires i < |b.orders|
    ensures var r := CancelOrder(b, i, at);
      !r.orders[i].IsOpen() && ChildrenClosed(b.orders, r.orders)
    decreases OpenSet(b.orders), 0
  {
    hide CancelAll;
    if b.orders[i].IsOpen() {
      var closed := CloseOne(b, i, at);
      var targets := Dependents(closed.orders, b.orders[i].orderId, 0);
      CancelAllCloses(closed, targets, at);
      var r := CancelAll(closed, targets, at);
      forall j, k | 0 <= j < |b.orders| && 0 <= k < |b.orders| && r.orders[j] != b.orders[j] && ChildOf(r.orders, k, j)
        ensures !r.orders[k].IsOpen()
      {
        if j == i && closed.orders[k].IsOpen() {
          assert closed.orders[k].parentId == r.orders[k].parentId;
          assert k in targets;
        } else if j != i {
          assert closed.orders[j] == b.orders[j];
        }
      }
    }
  }

  lemma {:induction false} CancelAllCloses(b: Book, targets: seq<nat>, at: Option<int>)
    requires Indices(targets, |b.orders|)
    ensures var r := CancelAll(b, targets, at);
      (forall n | 0 <= n < |targets| :: !r.orders[targets[n]].IsOpen()) && ChildrenClosed(b.orders, r.orders)
    decreases OpenSet(b.orders), 1 + |targets|
  {
    if targets == [] {
    } else {
      var first := CancelOrder(b, targets[0], at);
      OnlyCancelsCloses(b.orders, first.orders, at);
      assert OpenSet(first.orders) < OpenSet(b.orders) || OpenSet(first.orders) == OpenSet(b.orders);
      CancelOrderCloses(b, targets[0], at);
      CancelAllCloses(first, targets[1..], at);
      ChildrenClosedTransitive(b.orders, first.orders, CancelAll(first, targets[1..], at).orders, at);
    }
  }

  /** An open descent in a later book was one in the earlier book: links never move and closed orders stay closed. */
  lemma OpenDescentEarlier(a: seq<Order>, b: seq<Order>, at: Option<int>, path: seq<nat>)
    requires OnlyCancels(a, b, at) && OpenDescent(b, path)
    ensures OpenDescent(a, path)
  {
    forall n | 0 <= n < |path| ensures a[path[n]] == b[path[n]] {
      assert b[path[n]].IsOpen();
    }
    forall n | 0 < n < |path| ensures ChildOf(a, path[n], path[n - 1]) {
      assert ChildOf(b, path[n], path[n - 1]);
      assert a[path[n]] == b[path[n]] && a[path[n - 1]] == b[path[n - 1]];
    }
  }

  lemma ExtendDescent(orders: seq<Order>, i: nat, path: seq<nat>)
    requires i < |orders| && orders[i].IsOpen() && OpenDescent(orders, path) && ChildOf(orders, path[0], i)
    ensures OpenDescent(orders, [i] + path)
  {
    var whole := [i] + path;
    assert forall n | 0 < n < |whole| :: whole[n] == path[n - 1];
    forall n | 0 < n < |whole| ensures ChildOf(orders, whole[n], whole[n - 1]) {
      if n > 1 {
        assert ChildOf(orders, path[n - 1], path[n - 2]);
      }
    }
  }

  /** Nothing is closed but the target and the orders reached from it through open orders. */
  lemma {:induction false} CancelOrderOnly(b: Book, i: nat, at: Option<int>, j: nat) returns (path: seq<nat>)
    requires i < |b.orders| && j < |b.orders| && CancelOrder(b, i, at).orders[j] != b.orders[j]
    ensures OpenDescent(b.orders, path) && path[0] == i && path[|path| - 1] == j
    decreases OpenSet(b.orders), 0
  {
    if i == j {
      path := [i];
    } else {
      var closed := CloseOne(b, i, at);
      var targets := Dependents(closed.orders, b.orders[i].orderId, 0);
      assert closed.orders[j] == b.orders[j];
      var rest := CancelAllOnly(closed, targets, at, j);
      OpenDescentEarlier(b.orders, closed.orders, at, rest);
      assert closed.orders[rest[0]].IsOpen();
      ExtendDescent(b.orders, i, rest);
      path := [i] + rest;
    }
  }

  lemma {:induction false} CancelAllOnly(b: Book, targets: seq<nat>, at: Option<int>, j: nat) returns (path: seq<nat>)
    requires Indices(targets, |b.orders|)
    requires j < |b.orders| && CancelAll(b, targets, at).orders[j] != b.orders[j]
    ensures OpenDescent(b.orders, path) && path[0] in targets && path[|path| - 1] == j
    decreases OpenSet(b.orders), 1 + |targets|
  {
    var first := CancelOrder(b, targets[0], at);
    OnlyCancelsCloses(b.orders, first.orders, at);
    assert OpenSet(first.orders) < OpenSet(b.orders) || OpenSet(first.orders) == OpenSet(b.orders);
    if first.orders[j] != b.orders[j] {
      path := CancelOrderOnly(b, targets[0], at, j);
    } else {
      path := CancelAllOnly(first, targets[1..], at, j);
      OpenDescentEarlier(b.orders, first.orders, at, path);
    }
  }

  /** What is reached from the target through open orders is closed. */
  lemma ClosedBelow(b: Book, r: Book, k: nat, j: nat, at: Option<int>)
    requires OnlyCancels(b.orders, r.orders, at) && ChildrenClosed(b.orders, r.orders) && k < |b.orders|
    requires j < |b.orders|
    requires ChildOf(b.orders, k, j) && b.orders[j].IsOpen() && !r.orders[j].IsOpen()
    ensures !r.orders[k].IsOpen()
  {
    assert r.orders[j] != b.orders[j];
    assert ChildOf(r.orders, k, j);
  }

  lemma {:induction false} OpenDescentCloses(b: Book, at: Option<int>, path: seq<nat>)
    requires OpenDescent(b.orders, path)
    ensures !CancelOrder(b, path[0], at).orders[path[|path| - 1]].IsOpen()
    decreases |path|
  {
    hide CancelOrder, OnlyCancels, ChildrenClosed;
    CancelOrderCloses(b, path[0], at);
    var n := |path| - 1;
    if n == 0 {
    } else {
      assert OpenDescent(b.orders, path[..n]);
      OpenDescentCloses(b, at, path[..n]);
      assert b.orders[path[n - 1]].IsOpen() && ChildOf(b.orders, path[n], path[n - 1]);
      ClosedBelow(b, CancelOrder(b, path[0], at), path[n], path[n - 1], at);
    }
  }

  /** A cancellation closes exactly the open orders reached from its target through open orders. */
  lemma CancelOrderExactly(b: Book, i: nat, at: Option<int>, j: nat)
    requires i < |b.orders| && j < |b.orders|
    ensures CancelOrder(b, i, at).orders[j] != b.orders[j] <==> OpenDescends(b.orders, i, j)
    ensures CancelOrder(b, i, at).orders[j] != b.orders[j] ==>
      && b.orders[j].IsOpen() && CancelOrder(b, i, at).orders[j].status == Cancelled
      && CancelOrder(b, i, at).orders[j].filled == b.orders[j].filled
      && CancelOrder(b, i, at).orders[j].filledAt == at
  {
    if CancelOrder(b, i, at).orders[j] != b.orders[j] {
      var path := CancelOrderOnly(b, i, at, j);
    }
    if OpenDescends(b.orders, i, j) {
      var path :| OpenDescent(b.orders, path) && path[0] == i && path[|path| - 1] == j;
      OpenDescentCloses(b, at, path);
      assert b.orders[path[|path| - 1]].IsOpen();
    }
  }

  // ---- what every order keeps ------------------------------------------------------------

  /** The status tells how much is filled and how much is left; a closing order is counted when it is closed. */
  ghost predicate OrderOk(o: Order, i: nat) {
    && o.orderId == INITIAL_ORDER_ID + 1 + i
    && o.quantity > 0.0 && o.filled >= 0.0 && o.remaining >= 0.0
    && (match o.status
        case New => o.filled == 0.0 && o.remaining == o.quantity
        case PartiallyFilled => o.filled > 0.0 && o.remaining > 0.0 && o.filled + o.remaining == o.quantity
        case Filled => o.remaining == 0.0 && o.filled == o.quantity
        case Cancelled => o.remaining == 0.0 && o.filled < o.quantity)
    && (o.filled == 0.0 ==> o.filledNotional == 0.0)
    && (o.filled > 0.0 ==> o.filledNotional > 0.0 && o.averagePrice == o.filledNotional / o.filled)
    && 0.0 <= o.closingQuantity <= o.filled
    && (o.closingQuantity == 0.0 ==> o.closingPnl == 0.0)
    && (o.closingFinalized <==> o.status.Closed() && o.closingQuantity > 0.0)
  }

  ghost predicate OrdersOk(orders: seq<Order>) {
    forall i | 0 <= i < |orders| :: OrderOk(orders[i], i)
  }

  function IndexOf(orderId: nat): int {
    orderId - INITIAL_ORDER_ID - 1
  }

  /** The hierarchy at one order: its parent exists, is Filled once the order trades, and is not Cancelled while it is
      open. */
  ghost predicate ParentOk(orders: seq<Order>, k: nat)
    requires k < |orders|
  {
    var o, j := orders[k], IndexOf(orders[k].parentId);
    o.parentId != 0 ==>
      && 0 <= j < |orders|
      && (o.filled > 0.0 ==> orders[j].status == Filled)
      && (o.IsOpen() ==> orders[j].status != Cancelled)
  }

  ghost predicate ParentsOk(orders: seq<Order>) {
    forall k | 0 <= k < |orders| :: ParentOk(orders, k)
  }

  function Counted(o: Order): real { if o.closingFinalized then 1.0 else 0.0 }

  function Won(o: Order): real { if o.closingFinalized && o.closingPnl > 0.0 then 1.0 else 0.0 }

  function ClosingPnl(o: Order): real { o.closingPnl }

  /** The counters say how many orders have been counted, and how many of these made a profit. */
  ghost predicate CountersOk(b: Book) {
    b.trades as real == Sum(Counted, b.orders) && b.wins as real == Sum(Won, b.orders)
  }

  ghost predicate BookOk(b: Book) {
    OrdersOk(b.orders) && ParentsOk(b.orders) && CountersOk(b)
  }

  lemma FinalizeCounts(b: Book, i: nat)
    requires i < |b.orders| && CountersOk(b)
    ensures CountersOk(Finalize(b, i))
  {
    var o := b.orders[i].(closingFinalized := true);
    SumUpdate(Counted, b.orders, i, o);
    SumUpdate(Won, b.orders, i, o);
  }

  lemma {:induction false} CancelOrderCounts(b: Book, i: nat, at: Option<int>)
    requires i < |b.orders| && CountersOk(b)
    ensures CountersOk(CancelOrder(b, i, at))
    decreases OpenSet(b.orders), 0
  {
    if b.orders[i].IsOpen() {
      var marked := b.(orders := b.orders[i := MarkCancelled(b.orders[i], at)]);
      SumUpdate(Counted, b.orders, i, marked.orders[i]);
      SumUpdate(Won, b.orders, i, marked.orders[i]);
      FinalizeCounts(marked, i);
      var closed := CloseOne(b, i, at);
      CancelAllCounts(closed, Dependents(closed.orders, b.orders[i].orderId, 0), at);
    }
  }

  lemma {:induction false} CancelAllCounts(b: Book, targets: seq<nat>, at: Option<int>)
    requires Indices(targets, |b.orders|) && CountersOk(b)
    ensures CountersOk(CancelAll(b, targets, at))
    decreases OpenSet(b.orders), 1 + |targets|
  {
    if targets == [] {
    } else {
      CancelOrderCounts(b, targets[0], at);
      var first := CancelOrder(b, targets[0], at);
      OnlyCancelsCloses(b.orders, first.orders, at);
      assert OpenSet(first.orders) < OpenSet(b.orders) || OpenSet(first.orders) == OpenSet(b.orders);
      CancelAllCounts(first, targets[1..], at);
    }
  }

  lemma OnlyCancelsKeeps(a: seq<Order>, b: seq<Order>, at: Option<int>)
    requires OnlyCancels(a, b, at) && ChildrenClosed(a, b) && OrdersOk(a) && ParentsOk(a)
    ensures OrdersOk(b) && ParentsOk(b) && Sum(ClosingPnl, b) == Sum(ClosingPnl, a)
  {
    forall i | 0 <= i < |b| ensures OrderOk(b[i], i) && b[i].closingPnl == a[i].closingPnl {
      assert OrderOk(a[i], i);
    }
    SumPointwise(ClosingPnl, a, b);
    forall k | 0 <= k < |b| ensures ParentOk(b, k) {
      assert ParentOk(a, k) && OrderOk(a[k], k);
      var j := IndexOf(b[k].parentId);
      if b[k].parentId != 0 {
        assert OrderOk(a[j], j);
        if b[j] != a[j] {
          assert ChildOf(b, k, j);
        }
      }
    }
  }

  /** Cancelling keeps every order and the whole hierarchy in order, and moves no profit. */
  lemma CancelOrderKeeps(b: Book, i: nat, at: Option<int>)
    requires i < |b.orders| && BookOk(b)
    ensures var r := CancelOrder(b, i, at);
      BookOk(r) && OnlyCancels(b.orders, r.orders, at) && Sum(ClosingPnl, r.orders) == Sum(ClosingPnl, b.orders)
  {
    CancelOrderCloses(b, i, at);
    CancelOrderCounts(b, i, at);
    OnlyCancelsKeeps(b.orders, CancelOrder(b, i, at).orders, at);
  }

  lemma CancelAllKeeps(b: Book, targets: seq<nat>, at: Option<int>)
    requires Indices(targets, |b.orders|) && BookOk(b)
    ensures var r := CancelAll(b, targets, at);
      && BookOk(r) && OnlyCancels(b.orders, r.orders, at) && Sum(ClosingPnl, r.orders) == Sum(ClosingPnl, b.orders)
      && forall n | 0 <= n < |targets| :: !r.orders[targets[n]].IsOpen()
  {
    CancelAllCloses(b, targets, at);
    CancelAllCounts(b, targets, at);
    OnlyCancelsKeeps(b.orders, CancelAll(b, targets, at).orders, at);
  }

  /** Every child of a Cancelled order is Cancelled, without ever having traded. */
  lemma ChildOfCancelled(orders: seq<Order>, k: nat, j: nat)
    requires OrdersOk(orders) && ParentsOk(orders) && k < |orders| && j < |orders|
    requires ChildOf(orders, k, j) && orders[j].status == Cancelled
    ensures orders[k].status == Cancelled && orders[k].filled == 0.0
  {
    assert OrderOk(orders[j], j) && OrderOk(orders[k], k) && ParentOk(orders, k);
  }

  lemma {:induction false} DescentCancelled(b: Book, at: Option<int>, path: seq<nat>)
    requires BookOk(b) && Descent(b.orders, path) && b.orders[path[0]].IsOpen()
    ensures CancelOrder(b, path[0], at).orders[path[|path| - 1]].status == Cancelled
    decreases |path|
  {
    hide CancelOrder;
    var r := CancelOrder(b, path[0], at).orders;
    CancelOrderKeeps(b, path[0], at);
    CancelOrderCloses(b, path[0], at);
    var n := |path| - 1;
    if n == 0 {
    } else {
      assert Descent(b.orders, path[..n]);
      DescentCancelled(b, at, path[..n]);
      assert ChildOf(b.orders, path[n], path[n - 1]);
      assert ChildOf(r, path[n], path[n - 1]);
      ChildOfCancelled(r, path[n], path[n - 1]);
    }
  }

  /** In a well-formed book a cancelled target leaves none of its descendants open: all of them are Cancelled. */
  lemma CancelOrderClosesDescendants(b: Book, i: nat, j: nat, at: Option<int>)
    requires BookOk(b) && i < |b.orders| && b.orders[i].IsOpen() && Descends(b.orders, i, j)
    ensures j < |b.orders| && CancelOrder(b, i, at).orders[j].status == Cancelled
  {
    hide BookOk, CancelOrder;
    var path :| Descent(b.orders, path) && path[0] == i && path[|path| - 1] == j;
    DescentCancelled(b, at, path);
  }
}
