/** Which agents of a compiled canvas can be reached, and when a canvas compiles. */
module CanvasReach {
  import opened Kernel
  import opened Graphs
  import opened Names
  import opened Canvas
  import opened CanvasOrder

  predicate IsRoot(c: Compiler, v: string) {
    v in c.types && (c.types[v] == Trigger || c.types[v] == Start)
  }

  predicate IsAgent(c: Compiler, v: string) {
    v in c.types && c.types[v] == Agent
  }

  /** A directed path runs from a trigger or start node to `v`. */
  ghost predicate Reachable(c: Compiler, v: string) {
    exists path :: Walk(c.outEdges, path) && IsRoot(c, path[0]) && path[|path| - 1] == v
  }

  lemma RootReachable(c: Compiler, v: string)
    requires IsRoot(c, v)
    ensures Reachable(c, v)
  {
    assert Walk(c.outEdges, [v]) && [v][0] == v;
  }

  lemma ReachableNext(c: Compiler, u: string, v: string)
    requires Reachable(c, u) && Arc(c.outEdges, u, v)
    ensures Reachable(c, v)
  {
    var path :| Walk(c.outEdges, path) && IsRoot(c, path[0]) && path[|path| - 1] == u;
    WalkAppend(c.outEdges, path, v);
    var longer := path + [v];
    hide Arc, Walk;
    assert Walk(c.outEdges, longer) && longer[0] == path[0] && longer[|longer| - 1] == v;
  }

  /** A set holding the roots and closed under arcs holds every reachable node. */
  lemma {:induction false} ClosedHolds(c: Compiler, seen: set<string>, path: seq<string>)
    requires (forall v | IsRoot(c, v) :: v in seen) && (forall u, v | u in seen && Arc(c.outEdges, u, v) :: v in seen)
    requires Walk(c.outEdges, path) && IsRoot(c, path[0])
    ensures path[|path| - 1] in seen
    decreases |path|
  {
    var n := |path| - 1;
    if n == 0 {
    } else {
      WalkPrefix(c.outEdges, path, n);
      ClosedHolds(c, seen, path[..n]);
      assert Arc(c.outEdges, path[n - 1], path[n]);
    }
  }

  /** Whatever has been seen is reachable; what follows from it has been seen, unless it is still queued. */
  ghost predicate Searching(c: Compiler, seen: set<string>, queue: seq<string>) {
    && seen <= c.nodes.Keys
    && (forall v <- seen :: Reachable(c, v))
    && (forall v <- queue :: v in seen)
    && (forall v | IsRoot(c, v) :: v in seen)
    && (forall u, v | u in seen && u !in queue && Arc(c.outEdges, u, v) :: v in seen)
  }

  lemma SearchDone(c: Compiler, seen: set<string>)
    requires Searching(c, seen, [])
    ensures forall v :: v in seen <==> Reachable(c, v)
  {
    forall v | Reachable(c, v) ensures v in seen {
      var path :| Walk(c.outEdges, path) && IsRoot(c, path[0]) && path[|path| - 1] == v;
      ClosedHolds(c, seen, path);
    }
  }

  /** `current` is being expanded: `some` of its targets have been looked at. */
  ghost predicate Expanding(c: Compiler, seen: set<string>, queue: seq<string>, current: string, some: set<string>) {
    && seen <= c.nodes.Keys && current in seen && some <= seen
    && (forall v <- seen :: Reachable(c, v))
    && (forall v <- queue :: v in seen)
    && (forall v | IsRoot(c, v) :: v in seen)
    && (forall u, v | u in seen && u !in queue && u != current && Arc(c.outEdges, u, v) :: v in seen)
  }

  lemma Expand(c: Compiler, seen: set<string>, queue: seq<string>, current: string, some: set<string>, v: string)
    requires Expanding(c, seen, queue, current, some) && Arc(c.outEdges, current, v) && v in c.nodes
    ensures Expanding(c, seen + {v}, if v in seen then queue else queue + [v], current, some + {v})
  {
    ReachableNext(c, current, v);
    hide Reachable, IsRoot, Arc;
  }

  lemma Expanded(c: Compiler, seen: set<string>, queue: seq<string>, current: string)
    requires Indexed(c) && current in c.nodes && Expanding(c, seen, queue, current, Elements(c.outEdges[current]))
    ensures Searching(c, seen, queue)
  {
    OutTargets(c, current);
    hide Indexed, Reachable, IsRoot;
  }

  /** The roots, each seen and queued. */
  method Roots(c: Compiler) returns (seen: set<string>, queue: seq<string>)
    requires Indexed(c)
    ensures Searching(c, seen, queue)
  {
    hide Indexed, Searching, InOrder, Lists;
    var ids := InOrder(c.types.Keys);
    ListsInOrder(c.types.Keys);
    seen, queue := {}, [];
    for n := 0 to |ids|
      invariant seen == Elements(queue) && forall v :: v in seen <==> v in Elements(ids[..n]) && IsRoot(c, v)
    {
      NextElement(ids, c.types.Keys, n);
      if c.types[ids[n]] == Trigger || c.types[ids[n]] == Start {
        assert Elements(queue + [ids[n]]) == Elements(queue) + {ids[n]};
        seen, queue := seen + {ids[n]}, queue + [ids[n]];
      }
    }
    AllElements(ids, c.types.Keys);
    RootsSearching(c, seen, queue);
  }

  lemma RootsSearching(c: Compiler, seen: set<string>, queue: seq<string>)
    requires Indexed(c) && seen == Elements(queue) && forall v :: v in seen <==> IsRoot(c, v)
    ensures Searching(c, seen, queue)
  {
    assert c.types.Keys == c.nodes.Keys;
    hide Indexed, Arc, Reachable;
    forall v <- seen ensures Reachable(c, v) {
      RootReachable(c, v);
    }
    assert forall v <- seen :: v in c.types.Keys;
  }

  lemma TakeLast(c: Compiler, seen: set<string>, queue: seq<string>)
    requires Searching(c, seen, queue) && queue != []
    ensures var n := |queue| - 1; Expanding(c, seen, queue[..n], queue[n], {})
  {
    hide Reachable, IsRoot, Arc;
    assert queue == queue[..|queue| - 1] + [queue[|queue| - 1]];
  }

  /** Look at one target; queue it if it had not been seen. */
  method Look(c: Compiler, seen: set<string>, queue: seq<string>, v: string, ghost current: string,
        ghost some: set<string>)
    returns (more: set<string>, longer: seq<string>)
    requires Expanding(c, seen, queue, current, some) && Arc(c.outEdges, current, v) && v in c.nodes
    ensures Expanding(c, more, longer, current, some + {v})
    ensures seen <= more && |longer| - |queue| == |more| - |seen|
  {
    hide Arc, Expanding;
    Expand(c, seen, queue, current, some, v);
    more, longer := seen, queue;
    if v in seen {
      assert seen + {v} == seen;
    } else {
      more, longer := seen + {v}, queue + [v];
    }
  }

  /** Look at each target of the node just taken. */
  method ExpandAll(c: Compiler, seen: set<string>, queue: seq<string>, current: string)
        returns (more: set<string>, longer: seq<string>)
    requires Indexed(c) && current in c.nodes && Expanding(c, seen, queue, current, {})
    ensures Searching(c, more, longer)
    ensures seen <= more && |longer| - |queue| == |more| - |seen|
  {
    OutTargets(c, current);
    var targets := c.outEdges[current];
    ghost var all := Elements(targets);
    ListsOf(targets);
    hide Arc, Indexed, Distinct, Expanding, Lists;
    more, longer := seen, queue;
    assert Elements(targets[..0]) == {};
    for n := 0 to |targets|
      invariant Expanding(c, more, longer, current, Elements(targets[..n]))
      invariant seen <= more && |longer| - |queue| == |more| - |seen|
    {
      NextElement(targets, all, n);
      more, longer := Look(c, more, longer, targets[n], current, Elements(targets[..n]));
    }
    AllElements(targets, all);
    Expanded(c, more, longer, current);
  }

  /** The nodes that can be reached. */
  method Search(c: Compiler) returns (seen: set<string>)
    requires Indexed(c)
    ensures forall v :: v in seen <==> Reachable(c, v)
  {
    var queue: seq<string>;
    seen, queue := Roots(c);
    while queue != []
      invariant Searching(c, seen, queue)
      decreases |c.nodes.Keys - seen|, |queue|
    {
      var n := |queue| - 1;
      TakeLast(c, seen, queue);
      ghost var before := seen;
      var current := queue[n];
      InNodes(c, seen, queue[..n], current, {});
      hide Indexed, Expanding, Reachable;
      queue := queue[..n];
      seen, queue := ExpandAll(c, seen, queue, current);
      InNodesToo(c, seen, queue);
      hide Searching;
      Shrinks(c.nodes.Keys, before, seen);
    }
    SearchDone(c, seen);
  }

  lemma InNodes(c: Compiler, seen: set<string>, queue: seq<string>, current: string, some: set<string>)
    requires Expanding(c, seen, queue, current, some)
    ensures seen <= c.nodes.Keys && current in c.nodes
  {
  }

  lemma InNodesToo(c: Compiler, seen: set<string>, queue: seq<string>)
    requires Searching(c, seen, queue)
    ensures seen <= c.nodes.Keys
  {
  }

  lemma Shrinks(all: set<string>, before: set<string>, after: set<string>)
    requires before <= after <= all
    ensures |before| <= |after|
    ensures if before == after then |all - after| == |all - before| else |all - after| < |all - before|
    ensures |after| - |before| == |all - before| - |all - after|
  {
    assert all == before + (all - before) && all == after + (all - after);
    assert |all| == |before| + |all - before| && |all| == |after| + |all - after|;
    if before != after {
      SubsetSmaller(before, after);
    }
  }

  // ---- compiling -------------------------------------------------------------------------

  ghost predicate AgentAmong(c: Compiler, order: seq<string>, n: nat)
    requires n <= |order|
  {
    exists k | 0 <= k < n :: IsAgent(c, order[k])
  }

  ghost predicate ReachableAmong(c: Compiler, order: seq<string>, n: nat)
    requires n <= |order|
  {
    forall k | 0 <= k < n && IsAgent(c, order[k]) :: Reachable(c, order[k])
  }

  ghost predicate HasAgent(c: Compiler) {
    exists v :: IsAgent(c, v)
  }

  ghost predicate AgentsReachable(c: Compiler) {
    forall v | IsAgent(c, v) :: Reachable(c, v)
  }

  /** The node at `k` is the first agent of the order that cannot be reached. */
  ghost predicate FirstUnreachable(c: Compiler, order: seq<string>, k: nat) {
    k < |order| && IsAgent(c, order[k]) && !Reachable(c, order[k]) && ReachableAmong(c, order, k)
  }

  /** The agents of the order are checked one by one; the first that cannot be reached is reported. */
  method ValidateReachability(c: Compiler, order: seq<string>) returns (r: Outcome<(), CanvasError>)
    requires Indexed(c)
    ensures r.Success? <==> AgentAmong(c, order, |order|) && ReachableAmong(c, order, |order|)
    ensures r.Failure? ==>
      || (r.error == NoExecutableNodes && !AgentAmong(c, order, |order|))
      || exists k: nat :: FirstUnreachable(c, order, k) && r.error == UnreachableAgentNode(order[k])
  {
    var seen := Search(c);
    hide Reachable, Indexed;
    var hasAgent := false;
    for k := 0 to |order|
      invariant hasAgent <==> AgentAmong(c, order, k)
      invariant ReachableAmong(c, order, k)
    {
      if order[k] in c.types && c.types[order[k]] == Agent {
        hasAgent := true;
        assert IsAgent(c, order[k]);
        if order[k] !in seen {
          assert FirstUnreachable(c, order, k);
          return Failure(UnreachableAgentNode(order[k]));
        }
      }
    }
    if !hasAgent {
      return Failure(NoExecutableNodes);
    }
    return Success(());
  }

  /** The first of the topological orders. */
  ghost predicate IsFirst(c: Compiler, order: seq<string>) {
    Topological(c, order) && forall other | Topological(c, other) :: NotAfter(order, other)
  }

  /** What a canvas without cycle compiles to: its first topological order, or the error of its agents. */
  ghost predicate Compiled(c: Compiler, order: seq<string>, r: Outcome<seq<string>, CanvasError>) {
    && IsFirst(c, order)
    && if !HasAgent(c) then r == Failure(NoExecutableNodes)
       else if AgentsReachable(c) then r == Success(order)
       else exists k: nat :: FirstUnreachable(c, order, k) && r == Failure(UnreachableAgentNode(order[k]))
  }

  /** A canvas compiles exactly when it has no cycle, has an agent, and every agent can be reached from a trigger or
      start node; it compiles to the first of its topological orders. Otherwise the cycle is reported, or that there is
      no agent, or the first agent of that order that cannot be reached. */
  method Compile(c: Compiler) returns (r: Outcome<seq<string>, CanvasError>)
    requires Indexed(c)
    ensures r.Success? <==> !HasCycle(c.outEdges) && HasAgent(c) && AgentsReachable(c)
    ensures if HasCycle(c.outEdges) then r == Failure(Cycle) else exists order :: Compiled(c, order, r)
  {
    r := TopologicalOrder(c);
    if r.Failure? {
      return;
    }
    var order := r.value;
    OrderHoldsAgents(c, order);
    assert IsFirst(c, order);
    var checked := ValidateReachability(c, order);
    hide Reachable, Indexed, IsFirst, FirstUnreachable, HasCycle;
    FirstUnreachableMeans(c, order);
    if checked.Failure? {
      r := Failure(checked.error);
    }
    assert Compiled(c, order, r);
  }

  lemma FirstUnreachableMeans(c: Compiler, order: seq<string>)
    ensures forall k: nat | FirstUnreachable(c, order, k) :: HasAgent(c) && !AgentsReachable(c)
  {
    hide Reachable;
  }

  lemma OrderHoldsAgents(c: Compiler, order: seq<string>)
    requires Indexed(c) && Lists(order, c.nodes.Keys)
    ensures AgentAmong(c, order, |order|) <==> HasAgent(c)
    ensures ReachableAmong(c, order, |order|) <==> AgentsReachable(c)
  {
    ListsElements(order, c.nodes.Keys);
    assert c.types.Keys == c.nodes.Keys;
    hide Reachable, Indexed;
    forall v | IsAgent(c, v) ensures exists k :: 0 <= k < |order| && order[k] == v {
      assert v in c.types.Keys && v in order;
    }
  }
}
