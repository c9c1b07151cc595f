/** Tasks with dependencies: a set of tasks is accepted exactly when it has no cycle, and accepted tasks can all be
    done. */
module TaskIndex {
  import opened Kernel
  import opened Graphs
  import opened Names

  datatype Status = Todo | InProgress | Blocked | Done | Cancelled

  datatype Task = Task(id: string, title: string, status: Status, dependsOn: seq<string>, order: int,
    resultSummary: string)

  datatype WorkflowError =
    | EmptyTaskId
    | DuplicateTask(id: string)
    | MissingDependency(task: string, dependency: string)
    | SelfDependency(id: string)
    | Cycle
    | NotReady(id: string)
    | CannotComplete(id: string)

  /** Tasks under their trimmed ids. */
  type Tasks = map<string, Task>

  /** An arc runs from a task to each task it depends on. */
  function Dependencies(m: Tasks): Graph {
    map id | id in m :: m[id].dependsOn
  }

  // ---- indexing --------------------------------------------------------------------------

  ghost function TaskError(tasks: seq<Task>, k: nat): Option<WorkflowError>
    requires k < |tasks|
  {
    var id := Trim(tasks[k].id);
    if id == "" then Some(EmptyTaskId)
    else if exists j | 0 <= j < k :: Trim(tasks[j].id) == id then Some(DuplicateTask(id))
    else None
  }

  ghost predicate TasksFine(tasks: seq<Task>, n: nat)
    requires n <= |tasks|
  {
    forall k: nat | k < n :: TaskError(tasks, k) == None
  }

  /** The first `n` tasks under their trimmed ids. */
  function Index(tasks: seq<Task>, n: nat): Tasks
    requires n <= |tasks|
  {
    if n == 0 then map[] else Index(tasks, n - 1)[Trim(tasks[n - 1].id) := tasks[n - 1]]
  }

  function DependencyError(m: Tasks, id: string, dependency: string): Option<WorkflowError> {
    if dependency == id then Some(SelfDependency(id))
    else if dependency !in m then Some(MissingDependency(id, dependency))
    else None
  }

  ghost predicate DependenciesFine(m: Tasks, id: string, n: nat)
    requires id in m && n <= |m[id].dependsOn|
  {
    forall k: nat | k < n :: DependencyError(m, id, m[id].dependsOn[k]) == None
  }

  ghost predicate TaskFine(m: Tasks, id: string) {
    id in m && DependenciesFine(m, id, |m[id].dependsOn|)
  }

  /** The first wrong dependency, by id and then in the order of the task. */
  ghost predicate FirstDependencyError(m: Tasks, error: WorkflowError) {
    exists id | id in m ::
      && WrongDependency(m, id, error)
      && forall earlier | earlier in m && Before(earlier, id) :: TaskFine(m, earlier)
  }

  /** Every task has a trimmed id of its own for key, and depends only on other tasks of the graph. */
  ghost predicate WellFormed(m: Tasks) {
    (forall id <- m :: id != "" && Trim(m[id].id) == id) && forall id <- m :: TaskFine(m, id)
  }

  ghost predicate Acyclic(m: Tasks) {
    !HasCycle(Dependencies(m))
  }

  lemma {:induction false} IndexKeys(tasks: seq<Task>, n: nat, id: string)
    requires n <= |tasks|
    ensures id in Index(tasks, n) <==> exists j | 0 <= j < n :: Trim(tasks[j].id) == id
    ensures id in Index(tasks, n) ==> Trim(Index(tasks, n)[id].id) == id
    decreases n
  {
    hide Trim;
    if n == 0 {
    } else {
      IndexKeys(tasks, n - 1, id);
    }
  }

  method ReadTasks(tasks: seq<Task>) returns (r: Outcome<Tasks, WorkflowError>)
    ensures r.Failure? ==> exists k: nat | k < |tasks| :: TasksFine(tasks, k) && TaskError(tasks, k) == Some(r.error)
    ensures r.Success? ==> TasksFine(tasks, |tasks|) && r.value == Index(tasks, |tasks|)
  {
    hide Trim;
    var indexed: Tasks := map[];
    for n := 0 to |tasks|
      invariant TasksFine(tasks, n) && indexed == Index(tasks, n)
    {
      var id := Trim(tasks[n].id);
      IndexKeys(tasks, n, id);
      if id == "" {
        return Failure(EmptyTaskId);
      }
      if id in indexed {
        return Failure(DuplicateTask(id));
      }
      indexed := indexed[id := tasks[n]];
    }
    return Success(indexed);
  }

  /** The first wrong dependency of a task. */
  ghost predicate WrongDependency(m: Tasks, id: string, error: WorkflowError)
    requires id in m
  {
    exists k: nat | k < |m[id].dependsOn| ::
      DependencyError(m, id, m[id].dependsOn[k]) == Some(error) && DependenciesFine(m, id, k)
  }

  /** Check the dependencies of one task in their order. */
  method CheckTask(m: Tasks, id: string) returns (r: Outcome<(), WorkflowError>)
    requires id in m
    ensures r.Success? <==> TaskFine(m, id)
    ensures r.Failure? ==> WrongDependency(m, id, r.error)
  {
    var dependsOn := m[id].dependsOn;
    for k := 0 to |dependsOn|
      invariant DependenciesFine(m, id, k)
    {
      if dependsOn[k] == id {
        return Failure(SelfDependency(id));
      }
      if dependsOn[k] !in m {
        return Failure(MissingDependency(id, dependsOn[k]));
      }
    }
    return Success(());
  }

  method CheckDependencies(m: Tasks) returns (r: Outcome<(), WorkflowError>)
    ensures r.Success? <==> forall id <- m :: TaskFine(m, id)
    ensures r.Failure? ==> FirstDependencyError(m, r.error)
  {
    hide *;
    var ids := InOrder(m.Keys);
    ListsInOrder(m.Keys);
    ListsElements(ids, m.Keys);
    for n := 0 to |ids|
      invariant forall j | 0 <= j < n :: TaskFine(m, ids[j])
    {
      assert ids[n] in m.Keys;
      var checked := CheckTask(m, ids[n]);
      if checked.Failure? {
        FirstBad(m, ids, n, checked.error);
        return Failure(checked.error);
      }
    }
    AllFine(m, ids);
    return Success(());
  }

  lemma AllFine(m: Tasks, ids: seq<string>)
    requires (forall id :: id in ids <==> id in m.Keys) && forall j | 0 <= j < |ids| :: TaskFine(m, ids[j])
    ensures forall id <- m :: TaskFine(m, id)
  {
    hide TaskFine;
    forall id <- m ensures TaskFine(m, id) {
      assert id in ids;
    }
  }

  lemma FirstBad(m: Tasks, ids: seq<string>, n: nat, error: WorkflowError)
    requires Sorted(ids) && Lists(ids, m.Keys) && n < |ids| && ids[n] in m && forall j | 0 <= j < n ::
      TaskFine(m, ids[j])
    requires WrongDependency(m, ids[n], error)
    ensures FirstDependencyError(m, error)
  {
    EarlierInOrder(ids, m.Keys, n);
    hide TaskFine, WrongDependency, Lists, Sorted, Before;
  }

  lemma SortedPair(ids: seq<string>, i: nat, j: nat)
    requires Sorted(ids) && i < |ids| && j < |ids|
    ensures i < j ==> AtMost(ids[i], ids[j])
  {
  }

  lemma EarlierInOrder(ids: seq<string>, names: set<string>, n: nat)
    requires Sorted(ids) && Lists(ids, names) && n < |ids|
    ensures forall earlier | earlier in names && Before(earlier, ids[n]) :: exists j :: 0 <= j < n && ids[j] == earlier
  {
    ListsElements(ids, names);
    forall earlier | earlier in names && Before(earlier, ids[n]) ensures exists j :: 0 <= j < n && ids[j] == earlier {
      var j :| 0 <= j < |ids| && ids[j] == earlier;
      Trichotomy(earlier, ids[n]);
      SortedPair(ids, n, j);
    }
  }

  // ---- cycles ----------------------------------------------------------------------------

  /** What depth-first search has finished, each task after all it depends on. */
  ghost predicate Finished(g: Graph, done: seq<string>, visited: set<string>) {
    && Lists(done, visited) && visited <= g.Keys
    && forall i, v | 0 <= i < |done| && Arc(g, done[i], v) :: v in done[..i]
  }

  /** The tasks being visited, each a dependency of the one before; `id` is a dependency of the last. */
  ghost predicate Stacked(g: Graph, stack: seq<string>, visiting: set<string>, id: string) {
    && Elements(stack) == visiting && visiting <= g.Keys
    && (stack == [] || (Walk(g, stack) && Arc(g, stack[|stack| - 1], id)))
  }

  ghost predicate ClosedGraph(g: Graph) {
    forall a, b | Arc(g, a, b) :: b in g
  }

  lemma FinishedMore(g: Graph, done: seq<string>, visited: set<string>, id: string)
    requires Finished(g, done, visited) && id in g && id !in visited && forall v | Arc(g, id, v) :: v in visited
    ensures Finished(g, done + [id], visited + {id})
  {
    var more := done + [id];
    ListsElements(done, visited);
    ListsAppend(done, visited, id);
    forall i, v | 0 <= i < |more| && Arc(g, more[i], v) ensures v in more[..i] {
      assert more[..i] == if i < |done| then done[..i] else done;
    }
  }

  lemma StackedMore(g: Graph, stack: seq<string>, visiting: set<string>, id: string)
    requires Stacked(g, stack, visiting, id) && id in g
    ensures Walk(g, stack + [id]) && Elements(stack + [id]) == visiting + {id}
  {
    if stack != [] {
      WalkAppend(g, stack, id);
    } else {
      assert stack + [id] == [id];
    }
  }

  lemma StackCycle(g: Graph, stack: seq<string>, visiting: set<string>, id: string)
    requires Stacked(g, stack, visiting, id) && id in visiting
    ensures HasCycle(g)
  {
    assert id in Elements(stack);
    ComesRound(g, stack, id);
  }

  /** The later a task was finished, the smaller. */
  ghost function Depth(done: seq<string>, v: string): int {
    if v in done then 0 - Place(done, v) else 1
  }

  lemma FinishedAcyclic(g: Graph, done: seq<string>)
    requires ClosedGraph(g) && Finished(g, done, g.Keys)
    ensures !HasCycle(g)
  {
    ListsElements(done, g.Keys);
    var rank := v => Depth(done, v);
    forall a, b | Arc(g, a, b) ensures rank(a) < rank(b) {
      assert Arc(g, done[Place(done, a)], b);
      assert b in done[..Place(done, a)];
    }
    RankedAcyclic(g, rank);
  }

  /** What a search that meets no cycle leaves. */
  ghost predicate Searched(g: Graph, visiting: set<string>, visited: set<string>, visiting': set<string>,
        visited': set<string>, done: seq<string>) {
    visiting' == visiting && visiting !! visited' && visited <= visited' && Finished(g, done, visited')
  }

  /** Depth-first search from `id`. Meeting a task that is still being visited is a cycle; otherwise `id` and
      everything it depends on have been visited. */
  method Visit(g: Graph, id: string, visiting: set<string>, visited: set<string>, ghost stack: seq<string>,
        ghost done: seq<string>)
    returns (cyclic: bool, visiting': set<string>, visited': set<string>, ghost done': seq<string>)
    requires ClosedGraph(g) && id in g && visiting !! visited
    requires Stacked(g, stack, visiting, id) && Finished(g, done, visited)
    ensures cyclic ==> HasCycle(g)
    ensures !cyclic ==> Searched(g, visiting, visited, visiting', visited', done') && id in visited'
    decreases |g.Keys - visiting|, 0
  {
    hide Lists, HasCycle, ClosedGraph, Finished, Walk, Arc;
    if id in visited {
      return false, visiting, visited, done;
    }
    if id in visiting {
      StackCycle(g, stack, visiting, id);
      return true, visiting, visited, done;
    }
    StackedMore(g, stack, visiting, id);
    SmallerRest(g.Keys, visiting, id);
    cyclic, visiting', visited', done' := VisitDependencies(g, id, visiting + {id}, visited, stack + [id], done);
    if !cyclic {
      FinishedMore(g, done', visited', id);
    }
    visiting' := visiting' - {id};
    visited' := visited' + {id};
    done' := done' + [id];
  }

  /** Visit the dependencies of `id`, up to the first that closes a cycle. */
  method VisitDependencies(g: Graph, id: string, visiting: set<string>, visited: set<string>, ghost stack: seq<string>,
        ghost done: seq<string>)
    returns (cyclic: bool, visiting': set<string>, visited': set<string>, ghost done': seq<string>)
    requires ClosedGraph(g) && id in g && visiting !! visited && Finished(g, done, visited)
    requires Walk(g, stack) && stack[|stack| - 1] == id && Elements(stack) == visiting && visiting <= g.Keys
    ensures cyclic ==> HasCycle(g)
    ensures !cyclic ==> Searched(g, visiting, visited, visiting', visited', done') && forall v | Arc(g, id, v) ::
      v in visited'
    decreases |g.Keys - visiting|, 1
  {
    hide Lists, HasCycle, ClosedGraph, Finished, Walk, Arc;
    var dependsOn := g[id];
    cyclic, visiting', visited', done' := false, visiting, visited, done;
    for k := 0 to |dependsOn|
      invariant Searched(g, visiting, visited, visiting', visited', done')
      invariant forall j | 0 <= j < k :: dependsOn[j] in visited'
    {
      Target(g, id, k);
      assert Stacked(g, stack, visiting', dependsOn[k]);
      cyclic, visiting', visited', done' := Visit(g, dependsOn[k], visiting', visited', stack, done');
      if cyclic {
        return;
      }
    }
    AllTargets(g, id, visited');
  }

  lemma Target(g: Graph, id: string, k: nat)
    requires ClosedGraph(g) && id in g && k < |g[id]|
    ensures Arc(g, id, g[id][k]) && g[id][k] in g
  {
    var next := g[id][k];
    assert next in g[id];
    assert Arc(g, id, next);
  }

  lemma AllTargets(g: Graph, id: string, visited: set<string>)
    requires id in g && forall j | 0 <= j < |g[id]| :: g[id][j] in visited
    ensures forall v | Arc(g, id, v) :: v in visited
  {
  }

  lemma SmallerRest(all: set<string>, visiting: set<string>, id: string)
    requires id in all && id !in visiting
    ensures |all - (visiting + {id})| < |all - visiting|
  {
    assert id in all - visiting;
    SubsetSmaller(all - (visiting + {id}), all - visiting);
  }

  lemma NothingStacked(g: Graph, id: string)
    ensures Stacked(g, [], {}, id)
  {
  }

  lemma NothingFinished(g: Graph)
    ensures Finished(g, [], {})
  {
  }

  /** Whether the tasks depend on each other in a circle. */
  method FindCycle(g: Graph) returns (cyclic: bool)
    requires ClosedGraph(g)
    ensures cyclic <==> HasCycle(g)
  {
    var ids := InOrder(g.Keys);
    ListsInOrder(g.Keys);
    ListsElements(ids, g.Keys);
    NothingFinished(g);
    var visiting: set<string>, visited: set<string> := {}, {};
    ghost var done: seq<string> := [];
    hide HasCycle, ClosedGraph, Walk, InOrder, Lists, Arc;
    for n := 0 to |ids|
      invariant visiting == {} && Finished(g, done, visited)
      invariant forall j | 0 <= j < n :: ids[j] in visited
    {
      assert ids[n] in g.Keys;
      NothingStacked(g, ids[n]);
      hide Stacked, Finished;
      cyclic, visiting, visited, done := Visit(g, ids[n], visiting, visited, [], done);
      if cyclic {
        return true;
      }
    }
    forall id <- g.Keys ensures id in visited {
      assert id in ids;
    }
    assert visited == g.Keys;
    FinishedAcyclic(g, done);
    return false;
  }

  lemma FineClosed(m: Tasks)
    requires forall id <- m :: TaskFine(m, id)
    ensures ClosedGraph(Dependencies(m))
  {
    forall a, b | Arc(Dependencies(m), a, b) ensures b in Dependencies(m) {
      assert TaskFine(m, a);
      var k :| 0 <= k < |m[a].dependsOn| && m[a].dependsOn[k] == b;
      assert DependencyError(m, a, m[a].dependsOn[k]) == None;
    }
  }

  lemma IndexWellFormed(tasks: seq<Task>)
    requires TasksFine(tasks, |tasks|) && var m := Index(tasks, |tasks|); forall id <- m :: TaskFine(m, id)
    ensures WellFormed(Index(tasks, |tasks|))
  {
    hide Trim, TaskFine;
    var m := Index(tasks, |tasks|);
    forall id <- m ensures id != "" && Trim(m[id].id) == id {
      IndexKeys(tasks, |tasks|, id);
      var j :| 0 <= j < |tasks| && Trim(tasks[j].id) == id;
      assert TaskError(tasks, j) == None;
    }
  }

  /** Tasks with distinct ids and known dependencies are accepted exactly when no task depends on itself in the end. */
  method New(tasks: seq<Task>) returns (r: Outcome<Tasks, WorkflowError>)
    ensures r.Success? ==> r.value == Index(tasks, |tasks|) && WellFormed(r.value) && Acyclic(r.value)
    ensures var m := Index(tasks, |tasks|);
      r.Success? <==> TasksFine(tasks, |tasks|) && (forall id <- m :: TaskFine(m, id)) && Acyclic(m)
    ensures r.Failure? ==>
      || (exists k: nat | k < |tasks| :: TasksFine(tasks, k) && TaskError(tasks, k) == Some(r.error))
      || (TasksFine(tasks, |tasks|) && FirstDependencyError(Index(tasks, |tasks|), r.error))
      || (TasksFine(tasks, |tasks|) && !Acyclic(Index(tasks, |tasks|)) && r.error == Cycle)
  {
    hide TaskError, TaskFine, FirstDependencyError, HasCycle, Index, WellFormed;
    r := ReadTasks(tasks);
    if r.Failure? {
      return;
    }
    var indexed := r.value;
    var checked := CheckDependencies(indexed);
    if checked.Failure? {
      return Failure(checked.error);
    }
    FineClosed(indexed);
    IndexWellFormed(tasks);
    var cyclic := FindCycle(Dependencies(indexed));
    if cyclic {
      return Failure(Cycle);
    }
  }
}
