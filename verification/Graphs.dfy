/** Directed graphs given by their outgoing arcs: walks and cycles. */
module Graphs {
  import opened Names

  type Graph = map<string, seq<string>>

  predicate Arc(g: Graph, a: string, b: string) {
    a in g && b in g[a]
  }

  ghost predicate Walk(g: Graph, path: seq<string>) {
    path != [] && forall i | 0 < i < |path| :: Arc(g, path[i - 1], path[i])
  }

  ghost predicate HasCycle(g: Graph) {
    exists path :: Walk(g, path) && |path| > 1 && path[0] == path[|path| - 1]
  }

  lemma {:induction false} WalkClimbs(g: Graph, rank: string -> int, path: seq<string>)
    requires (forall a, b | Arc(g, a, b) :: rank(a) < rank(b)) && Walk(g, path)
    ensures rank(path[0]) + |path| - 1 <= rank(path[|path| - 1])
    decreases |path|
  {
    var n := |path| - 1;
    if n == 0 {
    } else {
      WalkPrefix(g, path, n);
      WalkClimbs(g, rank, path[..n]);
      assert Arc(g, path[n - 1], path[n]);
    }
  }

  /** A graph whose arcs all climb has no cycle. */
  lemma RankedAcyclic(g: Graph, rank: string -> int)
    requires forall a, b | Arc(g, a, b) :: rank(a) < rank(b)
    ensures !HasCycle(g)
  {
    if path :| Walk(g, path) && |path| > 1 && path[0] == path[|path| - 1] {
      WalkClimbs(g, rank, path);
    }
  }

  ghost function Place(order: seq<string>, v: string): (i: nat)
    requires v in order
    ensures i < |order| && order[i] == v
  {
    var i :| 0 <= i < |order| && order[i] == v;
    i
  }

  lemma WalkPrepend(g: Graph, u: string, path: seq<string>)
    requires Walk(g, path) && Arc(g, u, path[0])
    ensures Walk(g, [u] + path)
  {
    var longer := [u] + path;
    forall i | 0 < i < |longer| ensures Arc(g, longer[i - 1], longer[i]) {
      if i > 1 {
        assert Arc(g, path[i - 2], path[i - 1]);
      }
    }
  }

  lemma WalkPrefix(g: Graph, path: seq<string>, n: nat)
    requires Walk(g, path) && 0 < n <= |path|
    ensures Walk(g, path[..n])
  {
    forall i | 0 < i < n ensures Arc(g, path[..n][i - 1], path[..n][i]) {
      assert Arc(g, path[i - 1], path[i]);
    }
  }

  lemma CutCycle(g: Graph, path: seq<string>, n: nat)
    requires Walk(g, path) && 0 < n < |path| && path[n] == path[0]
    ensures HasCycle(g)
  {
    WalkPrefix(g, path, n + 1);
    hide Walk;
    assert Walk(g, path[..n + 1]) && path[..n + 1][0] == path[..n + 1][|path[..n + 1]| - 1];
  }

  ghost predicate HasSource(g: Graph, rest: set<string>, v: string) {
    exists u :: u in rest && Arc(g, u, v)
  }

  lemma TakeSource(g: Graph, rest: set<string>, v: string) returns (u: string)
    requires HasSource(g, rest, v)
    ensures u in rest && Arc(g, u, v)
  {
    u :| u in rest && Arc(g, u, v);
  }

  /** Where every node of a set has a predecessor in the set, walking backwards comes round. */
  lemma {:induction false} BackwardWalk(g: Graph, rest: set<string>, path: seq<string>)
    requires forall v <- rest :: HasSource(g, rest, v)
    requires Walk(g, path) && Elements(path) <= rest
    ensures HasCycle(g)
    decreases |rest - Elements(path)|
  {
    hide Arc, HasSource, HasCycle;
    assert path[0] in Elements(path);
    var u := TakeSource(g, rest, path[0]);
    var longer := [u] + path;
    WalkPrepend(g, u, path);
    if u in path {
      var i :| 0 <= i < |path| && path[i] == u;
      CutCycle(g, longer, i + 1);
    } else {
      MoreElements(rest, path, u);
      BackwardWalk(g, rest, longer);
    }
  }

  lemma WalkAppend(g: Graph, path: seq<string>, v: string)
    requires Walk(g, path) && Arc(g, path[|path| - 1], v)
    ensures Walk(g, path + [v])
  {
    var longer := path + [v];
    forall i | 0 < i < |longer| ensures Arc(g, longer[i - 1], longer[i]) {
      if i < |path| {
        assert Arc(g, path[i - 1], path[i]);
      }
    }
  }

  lemma WalkSuffix(g: Graph, path: seq<string>, n: nat)
    requires Walk(g, path) && n < |path|
    ensures Walk(g, path[n..])
  {
    forall i | 0 < i < |path[n..]| ensures Arc(g, path[n..][i - 1], path[n..][i]) {
      assert Arc(g, path[n + i - 1], path[n + i]);
    }
  }

  /** A walk that can go back to one of its own nodes holds a cycle. */
  lemma ComesRound(g: Graph, path: seq<string>, v: string)
    requires Walk(g, path) && Arc(g, path[|path| - 1], v) && v in path
    ensures HasCycle(g)
  {
    var i :| 0 <= i < |path| && path[i] == v;
    WalkSuffix(g, path, i);
    WalkAppend(g, path[i..], v);
    var cycle := path[i..] + [v];
    hide Walk;
    assert Walk(g, cycle) && cycle[0] == cycle[|cycle| - 1];
  }

  ghost predicate HasTarget(g: Graph, rest: set<string>, v: string) {
    exists u :: u in rest && Arc(g, v, u)
  }

  lemma TakeTarget(g: Graph, rest: set<string>, v: string) returns (u: string)
    requires HasTarget(g, rest, v)
    ensures u in rest && Arc(g, v, u)
  {
    u :| u in rest && Arc(g, v, u);
  }

  /** Where every node of a set has a successor in the set, walking on comes round. */
  lemma {:induction false} ForwardWalk(g: Graph, rest: set<string>, path: seq<string>)
    requires forall v <- rest :: HasTarget(g, rest, v)
    requires Walk(g, path) && Elements(path) <= rest
    ensures HasCycle(g)
    decreases |rest - Elements(path)|
  {
    hide Arc, HasTarget, HasCycle;
    var last := path[|path| - 1];
    assert last in Elements(path);
    var u := TakeTarget(g, rest, last);
    if u in path {
      ComesRound(g, path, u);
    } else {
      WalkAppend(g, path, u);
      assert Elements(path + [u]) == Elements([u] + path);
      MoreElements(rest, path, u);
      ForwardWalk(g, rest, path + [u]);
    }
  }

  lemma MoreElements(rest: set<string>, path: seq<string>, u: string)
    requires Elements(path) <= rest && u in rest && u !in path
    ensures Elements([u] + path) <= rest && |rest - Elements([u] + path)| < |rest - Elements(path)|
  {
    assert Elements([u] + path) == Elements(path) + {u};
    assert u in rest - Elements(path);
    SubsetSmaller(rest - Elements([u] + path), rest - Elements(path));
  }

  lemma SubsetSmaller<T>(a: set<T>, b: set<T>)
    requires a < b
    ensures |a| < |b|
  {
    assert b == a + (b - a);
    assert |b| == |a| + |b - a|;
    assert b - a != {};
  }
}
