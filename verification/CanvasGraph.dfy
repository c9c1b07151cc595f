/** What compiling a canvas means for its nodes and edges: both steps of the compiler together. */
module CanvasGraph {
  import opened Kernel
  import opened Graphs
  import opened Names
  import opened Canvas
  import opened CanvasOrder
  import opened CanvasReach

  ghost predicate Edged(edges: seq<Edge>, a: string, b: string) {
    Drawn(edges, |edges|, a, b)
  }

  /** A path along the edges. */
  ghost predicate Path(edges: seq<Edge>, path: seq<string>) {
    path != [] && forall i | 0 < i < |path| :: Edged(edges, path[i - 1], path[i])
  }

  ghost predicate Cyclic(edges: seq<Edge>) {
    exists path :: Path(edges, path) && |path| > 1 && path[0] == path[|path| - 1]
  }

  /** A node with this id has the type of this kind. */
  ghost predicate OfKind(nodes: seq<Node>, id: string, kind: Kind) {
    exists k | 0 <= k < |nodes| :: Trim(nodes[k].id) == id && Spells(KindText(nodes[k]), Word(kind))
  }

  /** A path runs from a trigger or start node to the node. */
  ghost predicate Reached(nodes: seq<Node>, edges: seq<Edge>, id: string) {
    exists path :: Path(edges, path) && path[|path| - 1] == id
      && (OfKind(nodes, path[0], Trigger) || OfKind(nodes, path[0], Start))
  }

  ghost predicate Agents(nodes: seq<Node>) {
    exists id :: OfKind(nodes, id, Agent)
  }

  ghost predicate AllReached(nodes: seq<Node>, edges: seq<Edge>) {
    forall id | OfKind(nodes, id, Agent) :: Reached(nodes, edges, id)
  }

  ghost function Ids(nodes: seq<Node>): set<string> {
    set k | 0 <= k < |nodes| :: Trim(nodes[k].id)
  }

  /** Every node once, and every edge forward. */
  ghost predicate Orders(nodes: seq<Node>, edges: seq<Edge>, order: seq<string>) {
    && Lists(order, Ids(nodes))
    && forall i, j | 0 <= i < |order| && 0 <= j < |order| && Edged(edges, order[i], order[j]) :: i < j
  }

  ghost predicate FirstOrder(nodes: seq<Node>, edges: seq<Edge>, order: seq<string>) {
    Orders(nodes, edges, order) && forall other | Orders(nodes, edges, other) :: NotAfter(order, other)
  }

  /** The node at `k` is the first agent of the order that is not reached. */
  ghost predicate FirstUnreached(nodes: seq<Node>, edges: seq<Edge>, order: seq<string>, k: nat) {
    && k < |order| && OfKind(nodes, order[k], Agent) && !Reached(nodes, edges, order[k])
    && forall j | 0 <= j < k && OfKind(nodes, order[j], Agent) :: Reached(nodes, edges, order[j])
  }

  /** What a graph without cycle compiles to. */
  ghost predicate Result(nodes: seq<Node>, edges: seq<Edge>, order: seq<string>, r: Outcome<seq<string>, CanvasError>) {
    && FirstOrder(nodes, edges, order)
    && if !Agents(nodes) then r == Failure(NoExecutableNodes)
       else if AllReached(nodes, edges) then r == Success(order)
       else exists k: nat :: FirstUnreached(nodes, edges, order, k) && r == Failure(UnreachableAgentNode(order[k]))
  }

  // ---- the compiler and the graph --------------------------------------------------------

  lemma SameArcs(nodes: seq<Node>, edges: seq<Edge>, c: Compiler)
    requires Compiles(nodes, edges, c)
    ensures forall a, b :: Arc(c.outEdges, a, b) <==> Edged(edges, a, b)
  {
    hide Drawn, Indexed, NodesRead;
  }

  lemma SameWalks(nodes: seq<Node>, edges: seq<Edge>, c: Compiler)
    requires Compiles(nodes, edges, c)
    ensures forall path :: Walk(c.outEdges, path) <==> Path(edges, path)
    ensures HasCycle(c.outEdges) <==> Cyclic(edges)
  {
    SameArcs(nodes, edges, c);
    hide Arc, Edged, Compiles;
    assert forall path :: Walk(c.outEdges, path) <==> Path(edges, path);
  }

  lemma SameKind(nodes: seq<Node>, edges: seq<Edge>, c: Compiler, id: string, kind: Kind)
    requires Compiles(nodes, edges, c)
    ensures id in c.nodes <==> id in Ids(nodes)
    ensures id in c.types && c.types[id] == kind <==> OfKind(nodes, id, kind)
  {
    forall node ensures KindOf(node) == Some(kind) <==> Spells(KindText(node), Word(kind)) {
      KindIs(node, kind);
    }
    hide Trim, KindOf, KindText, Spells, Word, ArcsDrawn, OutDistinct, InDistinct, Inverse;
    assert nodes[..|nodes|] == nodes && c.types.Keys == c.nodes.Keys;
    assert id in c.types <==> id in c.types.Keys;
    if id in c.nodes {
      var j :| 0 <= j < |nodes| && Trim(nodes[j].id) == id;
      assert NodeRead(nodes[j], c);
    }
    if k :| 0 <= k < |nodes| && Trim(nodes[k].id) == id {
      assert NodeRead(nodes[k], c);
    }
    if k :| 0 <= k < |nodes| && Trim(nodes[k].id) == id && Spells(KindText(nodes[k]), Word(kind)) {
      assert NodeRead(nodes[k], c);
    }
  }

  lemma SameIds(nodes: seq<Node>, edges: seq<Edge>, c: Compiler)
    requires Compiles(nodes, edges, c)
    ensures c.nodes.Keys == Ids(nodes)
    ensures forall id :: IsAgent(c, id) <==> OfKind(nodes, id, Agent)
    ensures forall id :: IsRoot(c, id) <==> OfKind(nodes, id, Trigger) || OfKind(nodes, id, Start)
  {
    hide Compiles, Ids, OfKind;
    forall id
      ensures id in c.nodes <==> id in Ids(nodes)
      ensures IsAgent(c, id) <==> OfKind(nodes, id, Agent)
      ensures IsRoot(c, id) <==> OfKind(nodes, id, Trigger) || OfKind(nodes, id, Start)
    {
      SameKind(nodes, edges, c, id, Agent);
      SameKind(nodes, edges, c, id, Trigger);
      SameKind(nodes, edges, c, id, Start);
    }
  }

  lemma SameReached(nodes: seq<Node>, edges: seq<Edge>, c: Compiler)
    requires Compiles(nodes, edges, c)
    ensures forall id :: Reachable(c, id) <==> Reached(nodes, edges, id)
    ensures HasAgent(c) <==> Agents(nodes)
    ensures AgentsReachable(c) <==> AllReached(nodes, edges)
  {
    SameWalks(nodes, edges, c);
    SameIds(nodes, edges, c);
    hide Walk, Path, Compiles, OfKind, IsAgent, IsRoot;
    forall id ensures Reachable(c, id) <==> Reached(nodes, edges, id) {
      ReachedAlong(nodes, edges, c, id);
    }
  }

  lemma ReachedAlong(nodes: seq<Node>, edges: seq<Edge>, c: Compiler, id: string)
    requires forall path :: Walk(c.outEdges, path) <==> Path(edges, path)
    requires forall v :: IsRoot(c, v) <==> OfKind(nodes, v, Trigger) || OfKind(nodes, v, Start)
    ensures Reachable(c, id) <==> Reached(nodes, edges, id)
  {
    hide OfKind, IsRoot, Edged, Arc;
    if Reachable(c, id) {
      var path :| Walk(c.outEdges, path) && IsRoot(c, path[0]) && path[|path| - 1] == id;
      assert Path(edges, path);
    }
    if Reached(nodes, edges, id) {
      var path :| Path(edges, path) && path[|path| - 1] == id
        && (OfKind(nodes, path[0], Trigger) || OfKind(nodes, path[0], Start));
      assert Walk(c.outEdges, path);
    }
  }

  lemma SameOrders(nodes: seq<Node>, edges: seq<Edge>, c: Compiler)
    requires Compiles(nodes, edges, c)
    ensures forall order :: Topological(c, order) <==> Orders(nodes, edges, order)
    ensures forall order :: IsFirst(c, order) <==> FirstOrder(nodes, edges, order)
  {
    SameArcs(nodes, edges, c);
    SameIds(nodes, edges, c);
    hide Arc, Edged, Compiles, OfKind, IsAgent, IsRoot, Lists, NotAfter, Ids;
    assert forall order :: Topological(c, order) <==> Orders(nodes, edges, order);
  }

  lemma SameUnreached(nodes: seq<Node>, edges: seq<Edge>, c: Compiler, order: seq<string>, k: nat)
    requires Compiles(nodes, edges, c)
    ensures FirstUnreachable(c, order, k) <==> FirstUnreached(nodes, edges, order, k)
  {
    SameIds(nodes, edges, c);
    SameReached(nodes, edges, c);
    hide Compiles, OfKind, IsAgent, Reachable, Reached, HasAgent, Agents, AgentsReachable, AllReached, Ids, IsRoot;
  }

  lemma SameResult(nodes: seq<Node>, edges: seq<Edge>, c: Compiler, order: seq<string>,
        r: Outcome<seq<string>, CanvasError>)
    requires Compiles(nodes, edges, c) && Compiled(c, order, r)
    ensures Result(nodes, edges, order, r)
  {
    SameOrders(nodes, edges, c);
    SameReached(nodes, edges, c);
    hide *;
    ResultFrom(nodes, edges, c, order, r);
  }

  lemma ResultFrom(nodes: seq<Node>, edges: seq<Edge>, c: Compiler, order: seq<string>,
        r: Outcome<seq<string>, CanvasError>)
    requires Compiles(nodes, edges, c) && Compiled(c, order, r)
    requires IsFirst(c, order) <==> FirstOrder(nodes, edges, order)
    requires (HasAgent(c) <==> Agents(nodes)) && (AgentsReachable(c) <==> AllReached(nodes, edges))
    ensures Result(nodes, edges, order, r)
  {
    hide Compiles, ReachableAmong, Reachable, FirstUnreached, IsFirst, FirstOrder, HasAgent, Agents, AgentsReachable,
      AllReached;
    if HasAgent(c) && !AgentsReachable(c) {
      var k: nat :| FirstUnreachable(c, order, k) && r == Failure(UnreachableAgentNode(order[k]));
      SameUnreached(nodes, edges, c, order, k);
      assert FirstUnreached(nodes, edges, order, k);
    }
  }

  /** Compiling a graph of nodes and edges reports the first wrong node or edge; of a graph without one it reports a
      cycle, that there is no agent, or the first agent that is not reached; and otherwise it answers the first of the
      orders in which every edge runs forward. */
  method CompileGraph(nodes: seq<Node>, edges: seq<Edge>) returns (r: Outcome<seq<string>, CanvasError>)
    ensures !(NodesFine(nodes, |nodes|) && EdgesFine(nodes, edges, |edges|)) ==>
      r.Failure? && FirstError(nodes, edges, r.error)
    ensures NodesFine(nodes, |nodes|) && EdgesFine(nodes, edges, |edges|) ==>
      if Cyclic(edges) then r == Failure(Cycle) else exists order :: Result(nodes, edges, order, r)
  {
    var built := New(nodes, edges);
    hide Compiles, Compiled, Result, HasCycle, Cyclic, EdgeError, NodeError;
    if built.Failure? {
      return Failure(built.error);
    }
    var c := built.value;
    CompilesIndexed(nodes, edges, c);
    r := Compile(c);
    SameWalks(nodes, edges, c);
    if !Cyclic(edges) {
      ghost var order :| Compiled(c, order, r);
      SameResult(nodes, edges, c, order, r);
    }
  }

  lemma CompilesIndexed(nodes: seq<Node>, edges: seq<Edge>, c: Compiler)
    requires Compiles(nodes, edges, c)
    ensures Indexed(c)
  {
    hide Indexed, NodesRead, ArcsDrawn;
  }
}
