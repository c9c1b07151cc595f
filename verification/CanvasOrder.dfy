/** The topological order of a compiled canvas: the first in lexicographic order, or a cycle. */
module CanvasOrder {
  import opened Kernel
  import opened Graphs
  import opened Names
  import opened Canvas

  // ---- orders and cycles -----------------------------------------------------------------

  /** Every node once, and every arc forward. */
  ghost predicate Topological(c: Compiler, order: seq<string>) {
    && Lists(order, c.nodes.Keys)
    && forall i, j | 0 <= i < |order| && 0 <= j < |order| && Arc(c.outEdges, order[i], order[j]) :: i < j
  }

  /** `a` is `b`, or has the smaller name where they first differ. */
  ghost predicate NotAfter(a: seq<string>, b: seq<string>) {
    a == b || exists k | 0 <= k < |a| && k < |b| :: a[..k] == b[..k] && Before(a[k], b[k])
  }

  lemma ArcEnds(c: Compiler, a: string, b: string)
    requires Indexed(c) && Arc(c.outEdges, a, b)
    ensures a in c.nodes && b in c.nodes
  {
    assert b in Elements(c.outEdges[a]);
  }

  /** A graph with a topological order has no cycle. */
  lemma TopologicalAcyclic(c: Compiler, order: seq<string>)
    requires Indexed(c) && Topological(c, order)
    ensures !HasCycle(c.outEdges)
  {
    ListsElements(order, c.nodes.Keys);
    var rank := v => if v in order then Place(order, v) else 0;
    forall a, b | Arc(c.outEdges, a, b) ensures rank(a) < rank(b) {
      ArcEnds(c, a, b);
      assert Arc(c.outEdges, order[Place(order, a)], order[Place(order, b)]);
    }
    RankedAcyclic(c.outEdges, rank);
  }

  // ---- the greedy order ------------------------------------------------------------------

  /** A node that is not done, all of whose predecessors are. */
  ghost predicate IsReady(c: Compiler, done: set<string>, v: string) {
    v in c.nodes && v !in done && forall u <- c.nodes :: Arc(c.outEdges, u, v) ==> u in done
  }

  /** Each node is the first of those that are ready when it is taken. */
  ghost predicate GreedyAt(c: Compiler, order: seq<string>, k: nat)
    requires k < |order|
  {
    && IsReady(c, Elements(order[..k]), order[k])
    && forall v | IsReady(c, Elements(order[..k]), v) :: AtMost(order[k], v)
  }

  ghost predicate Greedy(c: Compiler, order: seq<string>) {
    forall k | 0 <= k < |order| :: GreedyAt(c, order, k)
  }

  lemma GreedyMore(c: Compiler, order: seq<string>, v: string)
    requires Greedy(c, order) && IsReady(c, Elements(order), v)
    requires forall w | IsReady(c, Elements(order), w) :: AtMost(v, w)
    ensures Greedy(c, order + [v])
  {
    var more := order + [v];
    forall k | 0 <= k < |more| ensures GreedyAt(c, more, k) {
      if k < |order| {
        assert more[..k] == order[..k] && GreedyAt(c, order, k);
      } else {
        assert more[..k] == order;
      }
    }
  }

  lemma GreedyTopological(c: Compiler, order: seq<string>)
    requires Indexed(c) && Greedy(c, order) && Lists(order, c.nodes.Keys)
    ensures Topological(c, order)
  {
    ListsElements(order, c.nodes.Keys);
    forall i, j | 0 <= i < |order| && 0 <= j < |order| && Arc(c.outEdges, order[i], order[j]) ensures i < j {
      assert GreedyAt(c, order, j);
      ArcEnds(c, order[i], order[j]);
      assert order[i] in order[..j];
    }
  }

  /** The next node of any topological order is ready. */
  lemma NextIsReady(c: Compiler, other: seq<string>, k: nat)
    requires Indexed(c) && Topological(c, other) && k < |other|
    ensures IsReady(c, Elements(other[..k]), other[k])
  {
    ListsElements(other, c.nodes.Keys);
    assert other[k] in c.nodes;
    forall u <- c.nodes | Arc(c.outEdges, u, other[k]) ensures u in Elements(other[..k]) {
      assert u in other;
      var i :| 0 <= i < |other| && other[i] == u;
      assert Arc(c.outEdges, other[i], other[k]);
      assert other[..k][i] == u;
    }
  }

  lemma {:induction false} FirstDifference(a: seq<string>, b: seq<string>, from: nat) returns (k: nat)
    requires |a| == |b| && from <= |a| && a[..from] == b[..from]
    ensures a == b || (k < |a| && a[..k] == b[..k] && a[k] != b[k])
    decreases |a| - from
  {
    if from == |a| {
      assert a == a[..from] && b == b[..from];
      k := from;
    } else if a[from] == b[from] {
      assert a[..from + 1] == a[..from] + [a[from]] && b[..from + 1] == b[..from] + [b[from]];
      k := FirstDifference(a, b, from + 1);
    } else {
      k := from;
    }
  }

  /** No topological order comes before the greedy one. */
  lemma GreedyIsFirst(c: Compiler, order: seq<string>, other: seq<string>)
    requires Indexed(c) && Greedy(c, order) && Lists(order, c.nodes.Keys) && Topological(c, other)
    ensures NotAfter(order, other)
  {
    if order != other {
      ListsElements(order, c.nodes.Keys);
      ListsElements(other, c.nodes.Keys);
      assert order[..0] == other[..0];
      var k := FirstDifference(order, other, 0);
      NextIsReady(c, other, k);
      assert GreedyAt(c, order, k);
    }
  }

  // ---- degrees ---------------------------------------------------------------------------

  /** The sources of arcs into `v` that lie in `from`. */
  ghost function Sources(c: Compiler, v: string, from: set<string>): set<string> {
    set u | u in from && Arc(c.outEdges, u, v)
  }

  ghost predicate DegreesOf(c: Compiler, degree: map<string, nat>, from: set<string>) {
    degree.Keys == c.nodes.Keys && forall v <- c.nodes :: degree[v] == |Sources(c, v, from)|
  }

  lemma SourcesMore(c: Compiler, v: string, from: set<string>, u: string)
    requires u !in from
    ensures |Sources(c, v, from + {u})| == |Sources(c, v, from)| + if Arc(c.outEdges, u, v) then 1 else 0
  {
    var more := Sources(c, v, from + {u});
    if Arc(c.outEdges, u, v) {
      assert more == Sources(c, v, from) + {u};
    } else {
      assert more == Sources(c, v, from);
    }
  }

  /** The degrees with respect to `from`, one more at each node of `some`. */
  ghost predicate Raised(c: Compiler, degree: map<string, nat>, from: set<string>, some: set<string>) {
    degree.Keys == c.nodes.Keys && forall v <- c.nodes ::
      degree[v] == |Sources(c, v, from)| + if v in some then 1 else 0
  }

  /** The degrees with respect to `from`, one less at each node of `some`. */
  ghost predicate Lowered(c: Compiler, degree: map<string, nat>, from: set<string>, some: set<string>) {
    degree.Keys == c.nodes.Keys && forall v <- c.nodes ::
      degree[v] == |Sources(c, v, from)| - if v in some then 1 else 0
  }

  lemma RaisedAll(c: Compiler, degree: map<string, nat>, from: set<string>, u: string)
    requires u in c.outEdges && u !in from && Raised(c, degree, from, Elements(c.outEdges[u]))
    ensures DegreesOf(c, degree, from + {u})
  {
    forall v <- c.nodes ensures degree[v] == |Sources(c, v, from + {u})| {
      SourcesMore(c, v, from, u);
    }
  }

  lemma LoweredAll(c: Compiler, degree: map<string, nat>, from: set<string>, u: string)
    requires u in c.outEdges && u in from && Lowered(c, degree, from, Elements(c.outEdges[u]))
    ensures DegreesOf(c, degree, from - {u})
  {
    forall v <- c.nodes ensures degree[v] == |Sources(c, v, from - {u})| {
      SourcesMore(c, v, from - {u}, u);
      assert from - {u} + {u} == from;
    }
  }

  lemma RaiseOne(c: Compiler, degree: map<string, nat>, from: set<string>, some: set<string>, v: string)
    requires Raised(c, degree, from, some) && v in c.nodes && v !in some
    ensures Raised(c, degree[v := degree[v] + 1], from, some + {v})
  {
    hide Sources;
  }

  lemma LowerOne(c: Compiler, degree: map<string, nat>, from: set<string>, some: set<string>, u: string, v: string)
    requires Lowered(c, degree, from, some) && v in c.nodes && v !in some && u in from && Arc(c.outEdges, u, v)
    ensures degree[v] > 0 && Lowered(c, degree[v := degree[v] - 1], from, some + {v})
  {
    assert u in Sources(c, v, from);
    hide Sources;
  }

  lemma OutTargets(c: Compiler, source: string)
    requires Indexed(c) && source in c.nodes
    ensures source in c.outEdges && Distinct(c.outEdges[source]) && Elements(c.outEdges[source]) <= c.nodes.Keys
    ensures forall v :: Arc(c.outEdges, source, v) <==> v in Elements(c.outEdges[source])
  {
  }

  lemma NextElement(s: seq<string>, elements: set<string>, n: nat)
    requires Lists(s, elements) && n < |s|
    ensures s[n] in elements && s[n] !in Elements(s[..n]) && Elements(s[..n + 1]) == Elements(s[..n]) + {s[n]}
  {
    ListsElements(s, elements);
  }

  /** Raise the degree of each target of `source`. */
  method CountTargets(c: Compiler, degree: map<string, nat>, source: string, ghost from: set<string>)
        returns (raised: map<string, nat>)
    requires Indexed(c) && source in c.nodes && source !in from && DegreesOf(c, degree, from)
    ensures DegreesOf(c, raised, from + {source})
  {
    OutTargets(c, source);
    hide Indexed, Arc, Sources, Distinct, Lists;
    var targets := c.outEdges[source];
    assert Lists(targets, Elements(targets)) by {
      ListsOf(targets);
    }
    raised := degree;
    for n := 0 to |targets|
      invariant Raised(c, raised, from, Elements(targets[..n]))
    {
      NextElement(targets, Elements(targets), n);
      RaiseOne(c, raised, from, Elements(targets[..n]), targets[n]);
      raised := raised[targets[n] := raised[targets[n]] + 1];
    }
    assert targets[..|targets|] == targets;
    RaisedAll(c, raised, from, source);
  }

  lemma ListsOf(s: seq<string>)
    requires Distinct(s)
    ensures Lists(s, Elements(s))
  {
  }

  lemma ZeroDegrees(c: Compiler, degree: map<string, nat>)
    requires degree.Keys == c.nodes.Keys && forall v <- degree :: degree[v] == 0
    ensures DegreesOf(c, degree, {})
  {
    assert forall v :: Sources(c, v, {}) == {};
  }

  method CountDegrees(c: Compiler) returns (degree: map<string, nat>)
    requires Indexed(c)
    ensures DegreesOf(c, degree, c.nodes.Keys)
  {
    hide Indexed, DegreesOf, Lists;
    var ids := InOrder(c.nodes.Keys);
    assert Lists(ids, c.nodes.Keys) by {
      ListsInOrder(c.nodes.Keys);
    }
    degree := map[];
    for n := 0 to |ids|
      invariant degree.Keys == Elements(ids[..n]) && forall v <- degree :: degree[v] == 0
    {
      NextElement(ids, c.nodes.Keys, n);
      degree := degree[ids[n] := 0];
    }
    AllElements(ids, c.nodes.Keys);
    ZeroDegrees(c, degree);
    assert Elements(ids[..0]) == {};
    for n := 0 to |ids|
      invariant DegreesOf(c, degree, Elements(ids[..n]))
    {
      NextElement(ids, c.nodes.Keys, n);
      degree := CountTargets(c, degree, ids[n], Elements(ids[..n]));
    }
  }

  // ---- Kahn's algorithm ------------------------------------------------------------------

  /** The nodes of `rest` of degree zero. */
  ghost function Zero(degree: map<string, nat>, rest: set<string>): set<string> {
    set v | v in rest && v in degree && degree[v] == 0
  }

  /** What is done has no predecessor that is not. */
  ghost predicate Closed(c: Compiler, rest: set<string>) {
    forall u, v | u in rest && v in c.nodes && Arc(c.outEdges, u, v) :: v in rest
  }

  lemma ZeroIsReady(c: Compiler, degree: map<string, nat>, done: set<string>, v: string)
    requires done <= c.nodes.Keys && DegreesOf(c, degree, c.nodes.Keys - done)
    ensures v in Zero(degree, c.nodes.Keys - done) <==> IsReady(c, done, v)
  {
    var rest := c.nodes.Keys - done;
    if v in rest {
      assert degree[v] == 0 <==> Sources(c, v, rest) == {};
      if Sources(c, v, rest) != {} {
        var u :| u in Sources(c, v, rest);
        assert u in c.nodes && Arc(c.outEdges, u, v) && u !in done;
      }
      if !IsReady(c, done, v) {
        var u :| u in c.nodes && Arc(c.outEdges, u, v) && u !in done;
        assert u in Sources(c, v, rest);
      }
    }
  }

  /** A node whose degree has just dropped to zero joins the nodes of degree zero; no other does. */
  lemma ZeroDrops(degree: map<string, nat>, rest: set<string>, v: string)
    requires v in degree && degree[v] > 0 && v in rest
    ensures var lowered := degree[v := degree[v] - 1];
      Zero(lowered, rest) == if degree[v] == 1 then Zero(degree, rest) + {v} else Zero(degree, rest)
    ensures v !in Zero(degree, rest)
  {
  }

  lemma QueueOne(queue: seq<string>, zero: set<string>, v: string)
    requires Lists(queue, zero) && v !in zero
    ensures Sorted(Sort(queue + [v])) && Lists(Sort(queue + [v]), zero + {v})
  {
    ListsAppend(queue, zero, v);
  }

  lemma SortedTargets(s: seq<string>)
    requires Distinct(s)
    ensures Lists(Sort(s), Elements(s))
  {
  }

  /** Lower the degree of one target of `current`, and queue it when it becomes ready. The degree is never zero
      before. */
  method LowerTarget(c: Compiler, degree: map<string, nat>, queue: seq<string>, target: string,
                     ghost rest: set<string>, ghost current: string, ghost some: set<string>)
    returns (lowered: map<string, nat>, longer: seq<string>)
    requires Lowered(c, degree, rest, some) && target in c.nodes && target !in some
    requires current in rest && Arc(c.outEdges, current, target) && target in rest - {current}
    requires Sorted(queue) && Lists(queue, Zero(degree, rest - {current}))
    ensures Lowered(c, lowered, rest, some + {target})
    ensures Sorted(longer) && Lists(longer, Zero(lowered, rest - {current}))
  {
    hide Arc, Sources, Lists, Sort, Sorted, Zero;
    LowerOne(c, degree, rest, some, current, target);
    ZeroDrops(degree, rest - {current}, target);
    hide Lowered;
    lowered, longer := degree[target := degree[target] - 1], queue;
    if lowered[target] == 0 {
      QueueOne(queue, Zero(degree, rest - {current}), target);
      longer := Sort(queue + [target]);
    }
  }

  /** Lower the degree of each target of the node just taken. */
  method Release(c: Compiler, degree: map<string, nat>, ready: seq<string>, current: string, ghost rest: set<string>)
    returns (lowered: map<string, nat>, queue: seq<string>)
    requires Indexed(c) && rest <= c.nodes.Keys && current in rest && Closed(c, rest)
    requires !Arc(c.outEdges, current, current)
    requires DegreesOf(c, degree, rest) && Sorted(ready) && Lists(ready, Zero(degree, rest - {current}))
    ensures DegreesOf(c, lowered, rest - {current}) && Sorted(queue) && Lists(queue, Zero(lowered, rest - {current}))
  {
    OutTargets(c, current);
    var targets := Sort(c.outEdges[current]);
    SortedTargets(c.outEdges[current]);
    ghost var all := Elements(c.outEdges[current]);
    lowered, queue := degree, ready;
    assert Lowered(c, lowered, rest, {});
    hide Indexed, Arc, Sources, Distinct, Lists, Sort, Sorted, Zero, DegreesOf, Lowered;
    assert Elements(targets[..0]) == {};
    for n := 0 to |targets|
      invariant Lowered(c, lowered, rest, Elements(targets[..n]))
      invariant Sorted(queue) && Lists(queue, Zero(lowered, rest - {current}))
    {
      NextElement(targets, all, n);
      lowered, queue := LowerTarget(c, lowered, queue, targets[n], rest, current, Elements(targets[..n]));
    }
    AllElements(targets, all);
    LoweredAll(c, lowered, rest, current);
  }

  lemma AllElements(s: seq<string>, elements: set<string>)
    requires Lists(s, elements)
    ensures Elements(s[..|s|]) == elements
  {
    ListsElements(s, elements);
    assert s[..|s|] == s;
  }

  /** What the loop keeps: the order so far is greedy, and the queue holds the nodes that are ready. */
  ghost predicate Underway(c: Compiler, degree: map<string, nat>, ready: seq<string>, order: seq<string>) {
    var done := Elements(order);
    && done <= c.nodes.Keys && Lists(order, done) && Greedy(c, order) && Closed(c, c.nodes.Keys - done)
    && DegreesOf(c, degree, c.nodes.Keys - done) && Sorted(ready) && Lists(ready, Zero(degree, c.nodes.Keys - done))
  }

  lemma Head(c: Compiler, degree: map<string, nat>, ready: seq<string>, order: seq<string>)
    requires Indexed(c) && Underway(c, degree, ready, order) && ready != []
    ensures IsReady(c, Elements(order), ready[0]) && Greedy(c, order + [ready[0]])
  {
    var done := Elements(order);
    ListsElements(ready, Zero(degree, c.nodes.Keys - done));
    ZeroIsReady(c, degree, done, ready[0]);
    forall w | IsReady(c, done, w) ensures AtMost(ready[0], w) {
      ZeroIsReady(c, degree, done, w);
      assert w in ready;
    }
    GreedyMore(c, order, ready[0]);
  }

  lemma Taken(c: Compiler, degree: map<string, nat>, ready: seq<string>, order: seq<string>)
    requires Indexed(c) && Underway(c, degree, ready, order) && ready != []
    ensures var rest, current := c.nodes.Keys - Elements(order), ready[0];
      && current in rest && !Arc(c.outEdges, current, current)
      && Sorted(ready[1..]) && Lists(ready[1..], Zero(degree, rest - {current}))
      && Closed(c, rest - {current})
      && Elements(order + [current]) == Elements(order) + {current}
        && Lists(order + [current], Elements(order) + {current})
      && c.nodes.Keys - (Elements(order) + {current}) == rest - {current}
  {
    var done, current := Elements(order), ready[0];
    var rest := c.nodes.Keys - done;
    Head(c, degree, ready, order);
    ListsTail(ready, Zero(degree, rest));
    assert Zero(degree, rest) - {current} == Zero(degree, rest - {current});
    ListsAppend(order, done, current);
    forall u, v | u in rest - {current} && v in c.nodes && Arc(c.outEdges, u, v) ensures v in rest - {current} {
      assert u in c.nodes && u !in done;
    }
    assert !Arc(c.outEdges, current, current) by {
      assert current in c.nodes && current !in done;
    }
  }

  /** Where nothing is ready every node left waits for another one left. */
  lemma StuckNode(c: Compiler, degree: map<string, nat>, done: set<string>, v: string)
    requires done <= c.nodes.Keys && DegreesOf(c, degree, c.nodes.Keys - done)
    requires Zero(degree, c.nodes.Keys - done) == {}
    requires v in c.nodes && v !in done
    ensures HasSource(c.outEdges, c.nodes.Keys - done, v)
  {
    ZeroIsReady(c, degree, done, v);
    hide DegreesOf, Arc;
    assert v !in Zero(degree, c.nodes.Keys - done);
    var u :| u in c.nodes && Arc(c.outEdges, u, v) && u !in done;
    assert u in c.nodes.Keys - done;
  }

  lemma TakeMissing(a: set<string>, b: set<string>) returns (x: string)
    requires a < b
    ensures x in b && x !in a
  {
    x :| x in b && x !in a;
  }

  lemma StuckCycle(c: Compiler, degree: map<string, nat>, done: set<string>)
    requires done < c.nodes.Keys && DegreesOf(c, degree, c.nodes.Keys - done) && Zero(degree, c.nodes.Keys - done) == {}
    ensures HasCycle(c.outEdges)
  {
    hide DegreesOf, HasCycle, HasSource, Zero;
    var rest := c.nodes.Keys - done;
    forall v <- rest ensures HasSource(c.outEdges, rest, v) {
      StuckNode(c, degree, done, v);
    }
    var v := TakeMissing(done, c.nodes.Keys);
    BackwardWalk(c.outEdges, rest, [v]);
  }

  lemma Finished(c: Compiler, degree: map<string, nat>, order: seq<string>)
    requires Underway(c, degree, [], order)
    ensures |order| == |c.nodes| ==> Lists(order, c.nodes.Keys)
    ensures |order| != |c.nodes| ==> HasCycle(c.outEdges)
  {
    var done := Elements(order);
    ListsElements(order, done);
    assert |c.nodes| == |c.nodes.Keys|;
    if done != c.nodes.Keys {
      SubsetSmaller(done, c.nodes.Keys);
      NothingReady(Zero(degree, c.nodes.Keys - done));
      StuckCycle(c, degree, done);
    }
  }

  lemma NothingReady(zero: set<string>)
    requires Lists([], zero)
    ensures zero == {}
  {
    ListsElements([], zero);
    assert |zero| == 0;
  }

  lemma Started(c: Compiler, degree: map<string, nat>, ready: seq<string>)
    requires DegreesOf(c, degree, c.nodes.Keys) && Sorted(ready) && Lists(ready, Zero(degree, c.nodes.Keys))
    ensures Underway(c, degree, ready, [])
  {
    assert Elements<string>([]) == {};
    assert c.nodes.Keys - {} == c.nodes.Keys;
  }

  method ReadyNodes(c: Compiler, degree: map<string, nat>) returns (ready: seq<string>)
    requires degree.Keys == c.nodes.Keys
    ensures Sorted(ready) && Lists(ready, Zero(degree, c.nodes.Keys))
  {
    ready := Sort(InOrder(set id | id in degree && degree[id] == 0));
    assert Zero(degree, c.nodes.Keys) == set id | id in degree && degree[id] == 0;
  }

  /** The first of all topological orders, or the report of a cycle, exactly when there is one. */
  method TopologicalOrder(c: Compiler) returns (r: Outcome<seq<string>, CanvasError>)
    requires Indexed(c)
    ensures r.Success? <==> !HasCycle(c.outEdges)
    ensures r.Failure? ==> r.error == Cycle
    ensures r.Success? ==> Topological(c, r.value) && forall other | Topological(c, other) :: NotAfter(r.value, other)
  {
    hide OutDistinct, InDistinct, Inverse;
    var degree := CountDegrees(c);
    var ready := ReadyNodes(c, degree);
    var order: seq<string> := [];
    Started(c, degree, ready);
    hide DegreesOf, Lists, Sorted, Zero, Closed, Greedy, HasCycle, Topological, NotAfter, SameKeys;
    while ready != []
      invariant Underway(c, degree, ready, order)
      decreases c.nodes.Keys - Elements(order)
    {
      var current := ready[0];
      ghost var rest := c.nodes.Keys - Elements(order);
      Head(c, degree, ready, order);
      Taken(c, degree, ready, order);
      degree, ready := Release(c, degree, ready[1..], current, rest);
      order := order + [current];
    }
    Finished(c, degree, order);
    if |order| != |c.nodes| {
      return Failure(Cycle);
    }
    GreedyTopological(c, order);
    TopologicalAcyclic(c, order);
    forall other | Topological(c, other) ensures NotAfter(order, other) {
      GreedyIsFirst(c, order, other);
    }
    return Success(order);
  }
}
