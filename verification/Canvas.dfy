/** The canvas compiler: indices of a graph of nodes, its topological order and its reachability check. */
module Canvas {
  import opened Kernel
  import opened Graphs
  import opened Names

  /** `dataType` is the trimmed text under `type` in the data of the node, when there is one. */
  datatype Node = Node(id: string, nodeType: string, dataType: Option<string>)

  datatype Edge = Edge(id: string, source: string, target: string)

  datatype Kind = Trigger | Start | Agent | Monitor

  datatype CanvasError =
    | EmptyNodeId
    | DuplicateNodeId(id: string)
    | UnsupportedNodeType(id: string, nodeType: string)
    | InvalidEdge(id: string)
    | SelfLoop(id: string)
    | UnknownSource(edge: string, name: string)
    | UnknownTarget(edge: string, name: string)
    | Cycle
    | UnreachableAgentNode(id: string)
    | NoExecutableNodes

  datatype Compiler = Compiler(
    nodes: map<string, Node>, types: map<string, Kind>, outEdges: map<string, seq<string>>,
      inEdges: map<string, seq<string>>)

  function LowerChar(c: char): char {
    if 'A' <= c <= 'Z' then (c as int - 'A' as int + 'a' as int) as char else c
  }

  function Lower(text: string): string {
    if text == "" then "" else [LowerChar(text[0])] + Lower(text[1..])
  }

  function ParseKind(text: string): Option<Kind> {
    if text == "trigger" then Some(Trigger)
    else if text == "start" then Some(Start)
    else if text == "agent" then Some(Agent)
    else if text == "monitor" then Some(Monitor)
    else None
  }

  function KindOf(node: Node): Option<Kind> {
    var text := Lower(Trim(node.nodeType));
    ParseKind(if text == "" && node.dataType.Some? then Lower(node.dataType.value) else text)
  }

  /** The text is the word, which is written in small letters, in letters of either case. */
  predicate Spells(text: string, word: string) {
    && |text| == |word|
    && forall i | 0 <= i < |word| ::
      text[i] == word[i] || ('A' <= text[i] <= 'Z' && text[i] as int + 32 == word[i] as int)
  }

  function Word(kind: Kind): string {
    match kind
    case Trigger => "trigger"
    case Start => "start"
    case Agent => "agent"
    case Monitor => "monitor"
  }

  /** What tells the kind of a node: its type, or the type in its data when it has none. */
  function KindText(node: Node): string {
    if AllWhitespace(node.nodeType) && node.dataType.Some? then node.dataType.value else Trim(node.nodeType)
  }

  lemma {:induction false} LowerIs(text: string)
    ensures |Lower(text)| == |text| && forall i | 0 <= i < |text| :: Lower(text)[i] == LowerChar(text[i])
    decreases |text|
  {
    if text == "" {
    } else {
      LowerIs(text[1..]);
    }
  }

  lemma LowerSpells(text: string, word: string)
    requires forall i | 0 <= i < |word| :: 'a' <= word[i] <= 'z'
    ensures Lower(text) == word <==> Spells(text, word)
  {
    LowerIs(text);
    hide Lower;
    if Spells(text, word) {
      assert forall i | 0 <= i < |word| :: Lower(text)[i] == word[i];
    }
    if Lower(text) == word {
      assert forall i | 0 <= i < |word| :: LowerChar(text[i]) == word[i];
    }
  }

  lemma WordIs(text: string, kind: Kind)
    ensures ParseKind(text) == Some(kind) <==> text == Word(kind)
    ensures forall i | 0 <= i < |Word(kind)| :: 'a' <= Word(kind)[i] <= 'z'
  {
  }

  /** A node is of a kind exactly when its type spells the word for it. */
  lemma KindIs(node: Node, kind: Kind)
    ensures KindOf(node) == Some(kind) <==> Spells(KindText(node), Word(kind))
  {
    hide Trim, Lower, Spells, AllWhitespace, ParseKind, Word;
    TrimBlank(node.nodeType);
    LowerIs(Trim(node.nodeType));
    WordIs(Lower(KindText(node)), kind);
    LowerSpells(KindText(node), Word(kind));
  }

  // ---- indices ---------------------------------------------------------------------------

  /** The first thing wrong with node `k`, given the nodes before it. */
  ghost function NodeError(nodes: seq<Node>, k: nat): Option<CanvasError>
    requires k < |nodes|
  {
    var id := Trim(nodes[k].id);
    if id == "" then Some(EmptyNodeId)
    else if exists j | 0 <= j < k :: Trim(nodes[j].id) == id then Some(DuplicateNodeId(id))
    else if KindOf(nodes[k]).None? then Some(UnsupportedNodeType(id, nodes[k].nodeType))
    else None
  }

  ghost predicate Named(nodes: seq<Node>, id: string) {
    exists j | 0 <= j < |nodes| :: Trim(nodes[j].id) == id
  }

  /** The first thing wrong with an edge between the given nodes. */
  ghost function EdgeError(nodes: seq<Node>, edge: Edge): Option<CanvasError> {
    var source, target := Trim(edge.source), Trim(edge.target);
    if source == "" || target == "" then Some(InvalidEdge(edge.id))
    else if source == target then Some(SelfLoop(edge.id))
    else if !Named(nodes, source) then Some(UnknownSource(edge.id, source))
    else if !Named(nodes, target) then Some(UnknownTarget(edge.id, target))
    else None
  }

  ghost predicate NodesFine(nodes: seq<Node>, n: nat)
    requires n <= |nodes|
  {
    forall k: nat | k < n :: NodeError(nodes, k) == None
  }

  ghost predicate EdgesFine(nodes: seq<Node>, edges: seq<Edge>, n: nat)
    requires n <= |edges|
  {
    forall k: nat | k < n :: EdgeError(nodes, edges[k]) == None
  }

  /** `error` is the first that the nodes, and then the edges, give rise to. */
  ghost predicate FirstError(nodes: seq<Node>, edges: seq<Edge>, error: CanvasError) {
    || (exists k: nat | k < |nodes| :: NodesFine(nodes, k) && NodeError(nodes, k) == Some(error))
    || (NodesFine(nodes, |nodes|)
        && exists k: nat | k < |edges| :: EdgesFine(nodes, edges, k) && EdgeError(nodes, edges[k]) == Some(error))
  }

  /** One of the first `n` edges runs from `a` to `b`. */
  ghost predicate Drawn(edges: seq<Edge>, n: nat, a: string, b: string)
    requires n <= |edges|
  {
    exists k: nat | k < n :: Trim(edges[k].source) == a && Trim(edges[k].target) == b
  }

  ghost predicate Distinct(s: seq<string>) {
    Lists(s, Elements(s))
  }

  ghost predicate SameKeys(c: Compiler) {
    c.types.Keys == c.nodes.Keys && c.outEdges.Keys == c.nodes.Keys && c.inEdges.Keys == c.nodes.Keys
  }

  ghost predicate OutDistinct(c: Compiler) {
    forall a <- c.outEdges :: Distinct(c.outEdges[a]) && Elements(c.outEdges[a]) <= c.nodes.Keys
  }

  ghost predicate InDistinct(c: Compiler) {
    forall b <- c.inEdges :: Distinct(c.inEdges[b])
  }

  ghost predicate Inverse(c: Compiler) {
    forall a, b | b in c.inEdges :: a in c.inEdges[b] <==> Arc(c.outEdges, a, b)
  }

  /** The maps share their keys, hold no edge twice, and are each other's inverse. */
  ghost predicate Indexed(c: Compiler) {
    SameKeys(c) && OutDistinct(c) && InDistinct(c) && Inverse(c)
  }

  /** Node `k` stands under its trimmed id, with its kind. */
  ghost predicate NodeRead(node: Node, c: Compiler) {
    var id := Trim(node.id);
    id in c.nodes && c.nodes[id] == node && id in c.types && Some(c.types[id]) == KindOf(node)
  }

  /** The first `n` nodes and nothing else. */
  ghost predicate NodesRead(nodes: seq<Node>, n: nat, c: Compiler)
    requires n <= |nodes|
  {
    && (forall id <- c.nodes :: Named(nodes[..n], id))
    && (forall k | 0 <= k < n :: NodeRead(nodes[k], c))
  }

  ghost predicate NoArcs(c: Compiler) {
    && SameKeys(c)
    && (forall a <- c.outEdges :: c.outEdges[a] == []) && (forall b <- c.inEdges :: c.inEdges[b] == [])
  }

  lemma NoArcsIndexed(c: Compiler)
    requires NoArcs(c)
    ensures Indexed(c) && forall a, b :: !Arc(c.outEdges, a, b)
  {
    assert Distinct([]);
  }

  lemma NamedBefore(nodes: seq<Node>, n: nat, id: string)
    requires n <= |nodes|
    ensures Named(nodes[..n], id) <==> exists j | 0 <= j < n :: Trim(nodes[j].id) == id
  {
    hide Trim;
    if Named(nodes[..n], id) {
      var j :| 0 <= j < n && Trim(nodes[..n][j].id) == id;
      assert nodes[j] == nodes[..n][j];
    }
    if j :| 0 <= j < n && Trim(nodes[j].id) == id {
      assert nodes[j] == nodes[..n][j];
    }
  }

  function AddNode(c: Compiler, node: Node, kind: Kind): Compiler {
    var id := Trim(node.id);
    Compiler(c.nodes[id := node], c.types[id := kind], c.outEdges[id := []], c.inEdges[id := []])
  }

  lemma NodeKnown(nodes: seq<Node>, n: nat, c: Compiler, id: string)
    requires n <= |nodes| && NodesRead(nodes, n, c)
    ensures id in c.nodes <==> Named(nodes[..n], id)
  {
    hide Trim, KindOf;
    if Named(nodes[..n], id) {
      NamedBefore(nodes, n, id);
      var j :| 0 <= j < n && Trim(nodes[j].id) == id;
      assert NodeRead(nodes[j], c);
    }
  }

  lemma AddNodeRead(nodes: seq<Node>, n: nat, c: Compiler, kind: Kind)
    requires n < |nodes| && NodesRead(nodes, n, c) && Trim(nodes[n].id) !in c.nodes && KindOf(nodes[n]) == Some(kind)
    requires NoArcs(c)
    ensures NodesRead(nodes, n + 1, AddNode(c, nodes[n], kind)) && NoArcs(AddNode(c, nodes[n], kind))
  {
    hide Trim, KindOf, Named;
    var r, id := AddNode(c, nodes[n], kind), Trim(nodes[n].id);
    forall x <- r.nodes ensures Named(nodes[..n + 1], x) {
      NamedBefore(nodes, n, x);
      NamedBefore(nodes, n + 1, x);
    }
    forall k | 0 <= k < n + 1 ensures NodeRead(nodes[k], r) {
      assert k < n ==> NodeRead(nodes[k], c);
    }
  }

  /** Read the nodes. */
  method ReadNodes(nodes: seq<Node>) returns (r: Outcome<Compiler, CanvasError>)
    ensures r.Failure? ==> exists k: nat | k < |nodes| :: NodesFine(nodes, k) && NodeError(nodes, k) == Some(r.error)
    ensures r.Success? ==> NodesFine(nodes, |nodes|) && NodesRead(nodes, |nodes|, r.value) && NoArcs(r.value)
  {
    hide NoArcs, NodesRead, Trim, KindOf;
    var c := Compiler(map[], map[], map[], map[]);
    ReadNothing(nodes, c);
    for n := 0 to |nodes|
      invariant NodesFine(nodes, n) && NodesRead(nodes, n, c) && NoArcs(c)
    {
      var node := nodes[n];
      var id := Trim(node.id);
      NamedBefore(nodes, n, id);
      NodeKnown(nodes, n, c, id);
      if id == "" {
        return Failure(EmptyNodeId);
      }
      if id in c.nodes {
        return Failure(DuplicateNodeId(id));
      }
      var kind := KindOf(node);
      if kind.None? {
        return Failure(UnsupportedNodeType(id, node.nodeType));
      }
      AddNodeRead(nodes, n, c, kind.value);
      c := Compiler(c.nodes[id := node], c.types[id := kind.value], c.outEdges[id := []], c.inEdges[id := []]);
    }
    return Success(c);
  }

  lemma ReadNothing(nodes: seq<Node>, c: Compiler)
    requires c == Compiler(map[], map[], map[], map[])
    ensures NodesRead(nodes, 0, c) && NoArcs(c)
  {
  }

  // ---- arcs ------------------------------------------------------------------------------

  ghost predicate ArcsDrawn(edges: seq<Edge>, n: nat, c: Compiler)
    requires n <= |edges|
  {
    forall a, b :: Arc(c.outEdges, a, b) <==> Drawn(edges, n, a, b)
  }

  /** The compiler of a graph: its arcs are exactly its edges, each held once in each direction. */
  ghost predicate Compiles(nodes: seq<Node>, edges: seq<Edge>, c: Compiler) {
    NodesRead(nodes, |nodes|, c) && Indexed(c) && ArcsDrawn(edges, |edges|, c)
  }

  function AddArc(c: Compiler, a: string, b: string): Compiler
    requires a in c.outEdges && b in c.inEdges
  {
    c.(outEdges := c.outEdges[a := c.outEdges[a] + [b]], inEdges := c.inEdges[b := c.inEdges[b] + [a]])
  }

  lemma DistinctAppend(s: seq<string>, x: string)
    requires Distinct(s) && x !in s
    ensures Distinct(s + [x]) && Elements(s + [x]) == Elements(s) + {x}
  {
    assert Elements(s + [x]) == Elements(s) + {x};
    ListsAppend(s, Elements(s), x);
  }

  lemma AddedArc(c: Compiler, a: string, b: string, x: string, y: string)
    requires a in c.outEdges && b in c.inEdges
    ensures Arc(AddArc(c, a, b).outEdges, x, y) <==> Arc(c.outEdges, x, y) || (x == a && y == b)
  {
  }

  lemma AddArcOut(c: Compiler, a: string, b: string)
    requires OutDistinct(c) && a in c.outEdges && b in c.inEdges && b in c.nodes && b !in c.outEdges[a]
    ensures OutDistinct(AddArc(c, a, b))
  {
    DistinctAppend(c.outEdges[a], b);
    hide Distinct, Elements;
  }

  lemma AddArcIn(c: Compiler, a: string, b: string)
    requires InDistinct(c) && a in c.outEdges && b in c.inEdges && a !in c.inEdges[b]
    ensures InDistinct(AddArc(c, a, b))
  {
    DistinctAppend(c.inEdges[b], a);
    hide Distinct, Elements;
  }

  lemma AddArcInverse(c: Compiler, a: string, b: string)
    requires Inverse(c) && a in c.outEdges && b in c.inEdges
    ensures Inverse(AddArc(c, a, b))
  {
    var r := AddArc(c, a, b);
    forall x, y | y in r.inEdges ensures x in r.inEdges[y] <==> Arc(r.outEdges, x, y) {
      AddedArc(c, a, b, x, y);
      assert x in c.inEdges[y] <==> Arc(c.outEdges, x, y);
      if y == b {
        assert r.inEdges[y] == c.inEdges[y] + [a];
      }
      hide Arc;
    }
  }

  lemma AddArcIndexed(c: Compiler, a: string, b: string)
    requires Indexed(c) && a in c.nodes && b in c.nodes && !Arc(c.outEdges, a, b)
    ensures Indexed(AddArc(c, a, b))
  {
    assert a !in c.inEdges[b];
    hide OutDistinct, InDistinct, Inverse;
    AddArcOut(c, a, b);
    AddArcIn(c, a, b);
    AddArcInverse(c, a, b);
  }

  lemma ArcsDrawnMore(edges: seq<Edge>, n: nat, c: Compiler, r: Compiler)
    requires n < |edges| && ArcsDrawn(edges, n, c)
    requires var a, b := Trim(edges[n].source), Trim(edges[n].target);
      if Arc(c.outEdges, a, b) then r == c else a in c.outEdges && b in c.inEdges && r == AddArc(c, a, b)
    ensures ArcsDrawn(edges, n + 1, r)
  {
    hide Trim;
    var a, b := Trim(edges[n].source), Trim(edges[n].target);
    forall x, y ensures Arc(r.outEdges, x, y) <==> Drawn(edges, n + 1, x, y) {
      if !Arc(c.outEdges, a, b) {
        AddedArc(c, a, b, x, y);
      }
      assert Drawn(edges, n + 1, x, y) <==> Drawn(edges, n, x, y) || (a == x && b == y);
    }
  }

  method New(nodes: seq<Node>, edges: seq<Edge>) returns (r: Outcome<Compiler, CanvasError>)
    ensures r.Failure? ==> FirstError(nodes, edges, r.error)
    ensures r.Success? ==>
      NodesFine(nodes, |nodes|) && EdgesFine(nodes, edges, |edges|) && Compiles(nodes, edges, r.value)
  {
    hide Trim, KindOf, NodeError, NodesRead, OutDistinct, InDistinct, Inverse, ArcsDrawn, Named;
    r := ReadNodes(nodes);
    if r.Failure? {
      return;
    }
    var c := r.value;
    NoArcsIndexed(c);
    NoneDrawn(edges, c);
    assert nodes[..|nodes|] == nodes;
    for n := 0 to |edges|
      invariant EdgesFine(nodes, edges, n) && NodesRead(nodes, |nodes|, c) && Indexed(c) && ArcsDrawn(edges, n, c)
    {
      var edge := edges[n];
      var source, target := Trim(edge.source), Trim(edge.target);
      NodeKnown(nodes, |nodes|, c, source);
      NodeKnown(nodes, |nodes|, c, target);
      if source == "" || target == "" {
        return Failure(InvalidEdge(edge.id));
      }
      if source == target {
        return Failure(SelfLoop(edge.id));
      }
      if source !in c.nodes {
        return Failure(UnknownSource(edge.id, source));
      }
      if target !in c.nodes {
        return Failure(UnknownTarget(edge.id, target));
      }
      ghost var before := c;
      if target !in c.outEdges[source] {
        AddArcIndexed(c, source, target);
        AddArcRead(nodes, c, source, target);
        c := AddArc(c, source, target);
      }
      ArcsDrawnMore(edges, n, before, c);
    }
    return Success(c);
  }

  lemma NoneDrawn(edges: seq<Edge>, c: Compiler)
    requires forall a, b :: !Arc(c.outEdges, a, b)
    ensures ArcsDrawn(edges, 0, c)
  {
  }

  lemma AddArcRead(nodes: seq<Node>, c: Compiler, a: string, b: string)
    requires NodesRead(nodes, |nodes|, c) && a in c.outEdges && b in c.inEdges
    ensures NodesRead(nodes, |nodes|, AddArc(c, a, b))
  {
    hide Trim, KindOf;
    forall k | 0 <= k < |nodes| ensures NodeRead(nodes[k], AddArc(c, a, b)) {
      assert NodeRead(nodes[k], c);
    }
  }
}
