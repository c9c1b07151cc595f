/** Running an accepted task graph: which task is ready, what each operation does, and that everything gets done. */
module TaskRun {
  import opened Kernel
  import opened Graphs
  import opened Names
  import opened TaskIndex

  predicate IsReady(m: Tasks, task: Task) {
    task.status == Todo && forall dependency <- task.dependsOn :: dependency in m && m[dependency].status == Done
  }

  /** By order, and then by id. */
  predicate Earlier(a: Task, b: Task) {
    a.order < b.order || (a.order == b.order && AtMost(a.id, b.id))
  }

  ghost predicate Holds(m: Tasks, task: Task) {
    exists id :: id in m && m[id] == task
  }

  /** The earliest of the tasks that are ready. */
  ghost predicate IsNext(m: Tasks, task: Task) {
    Holds(m, task) && IsReady(m, task) && forall id <- m | IsReady(m, m[id]) :: Earlier(task, m[id])
  }

  function Claim(m: Tasks, id: string): (Tasks, Outcome<Task, WorkflowError>) {
    if id !in m || !IsReady(m, m[id]) then (m, Failure(NotReady(id)))
    else
      var task := m[id].(status := InProgress);
      (m[id := task], Success(task))
  }

  function Complete(m: Tasks, id: string, summary: string): (Tasks, Outcome<Task, WorkflowError>) {
    if id !in m || (m[id].status != Todo && m[id].status != InProgress) then (m, Failure(CannotComplete(id)))
    else
      var task := m[id].(status := Done, resultSummary := Trim(summary));
      (m[id := task], Success(task))
  }

  function Block(m: Tasks, id: string, reason: string): (Tasks, Outcome<Task, WorkflowError>) {
    if id !in m || m[id].status == Done || m[id].status == Cancelled then (m, Failure(CannotComplete(id)))
    else
      var task := m[id].(status := Blocked, resultSummary := Trim(reason));
      (m[id := task], Success(task))
  }

  // ---- tasks in order --------------------------------------------------------------------

  predicate InTaskOrder(tasks: seq<Task>) {
    forall i, j | 0 <= i < j < |tasks| :: Earlier(tasks[i], tasks[j])
  }

  function InsertTask(tasks: seq<Task>, task: Task): (r: seq<Task>)
    requires InTaskOrder(tasks)
    ensures InTaskOrder(r) && multiset(r) == multiset(tasks) + multiset{task}
    decreases |tasks|
  {
    if tasks == [] then [task]
    else
      var n := |tasks| - 1;
      assert tasks == tasks[..n] + [tasks[n]];
      if Earlier(tasks[n], task) then
        InsertTaskLast(tasks, task);
        tasks + [task]
      else
        var head := InsertTask(tasks[..n], task);
        InsertTaskBefore(tasks[..n], tasks[n], task, head);
        head + [tasks[n]]
  }

  lemma EarlierTransitive(a: Task, b: Task, c: Task)
    requires Earlier(a, b) && Earlier(b, c)
    ensures Earlier(a, c)
  {
    if a.order == b.order == c.order {
      AtMostTransitive(a.id, b.id, c.id);
    }
  }

  lemma EarlierTotal(a: Task, b: Task)
    ensures Earlier(a, b) || Earlier(b, a)
  {
    Trichotomy(a.id, b.id);
  }

  lemma InsertTaskLast(tasks: seq<Task>, task: Task)
    requires InTaskOrder(tasks) && tasks != [] && Earlier(tasks[|tasks| - 1], task)
    ensures InTaskOrder(tasks + [task])
  {
    forall i | 0 <= i < |tasks| ensures Earlier(tasks[i], task) {
      if i < |tasks| - 1 {
        EarlierTransitive(tasks[i], tasks[|tasks| - 1], task);
      }
    }
  }

  lemma InsertTaskBefore(tasks: seq<Task>, last: Task, task: Task, head: seq<Task>)
    requires InTaskOrder(tasks + [last]) && !Earlier(last, task)
    requires InTaskOrder(head) && multiset(head) == multiset(tasks) + multiset{task}
    ensures InTaskOrder(head + [last])
  {
    EarlierTotal(last, task);
    hide Earlier;
    forall i | 0 <= i < |head| ensures Earlier(head[i], last) {
      assert head[i] in multiset(head);
      if head[i] != task {
        var k :| 0 <= k < |tasks| && tasks[k] == head[i];
        assert (tasks + [last])[k] == head[i] && (tasks + [last])[|tasks|] == last;
      }
    }
  }

  /** The tasks filed under `ids`, one for each. */
  function TasksOf(m: Tasks, ids: seq<string>): seq<Task>
    requires forall i | 0 <= i < |ids| :: ids[i] in m
    decreases |ids|
  {
    if ids == [] then [] else TasksOf(m, ids[..|ids| - 1]) + [m[ids[|ids| - 1]]]
  }

  lemma TasksOfMore(m: Tasks, ids: seq<string>, n: nat, tasks: seq<Task>, longer: seq<Task>)
    requires n < |ids| && forall i | 0 <= i < |ids| :: ids[i] in m
    requires multiset(tasks) == multiset(TasksOf(m, ids[..n]))
    requires multiset(longer) == multiset(tasks) + multiset{m[ids[n]]}
    ensures multiset(longer) == multiset(TasksOf(m, ids[..n + 1]))
  {
    assert ids[..n + 1][..n] == ids[..n];
  }

  /** The tasks under the first `n` ids. */
  ghost predicate ListedSo(m: Tasks, ids: seq<string>, n: nat, tasks: seq<Task>)
    requires n <= |ids|
  {
    forall task :: task in tasks <==> exists j | 0 <= j < n :: ids[j] in m && m[ids[j]] == task
  }

  lemma ListOneMore(m: Tasks, ids: seq<string>, n: nat, tasks: seq<Task>)
    requires n < |ids| && ids[n] in m && InTaskOrder(tasks) && ListedSo(m, ids, n, tasks)
    ensures ListedSo(m, ids, n + 1, InsertTask(tasks, m[ids[n]]))
  {
    var longer := InsertTask(tasks, m[ids[n]]);
    hide InTaskOrder, Earlier;
    forall task ensures task in longer <==> task in tasks || task == m[ids[n]] {
      assert task in longer <==> task in multiset(longer);
    }
    hide InsertTask;
    forall task ensures task in longer <==> exists j | 0 <= j < n + 1 :: ids[j] in m && m[ids[j]] == task {
      if j :| 0 <= j < n + 1 && ids[j] in m && m[ids[j]] == task {
        assert j < n ==> task in tasks;
      }
    }
  }

  /** `tasks` are the tasks of the first `n` ids, in task order, one for each. */
  ghost predicate Collected(m: Tasks, ids: seq<string>, n: nat, tasks: seq<Task>) {
    && n <= |ids| && (forall i | 0 <= i < |ids| :: ids[i] in m)
    && InTaskOrder(tasks) && ListedSo(m, ids, n, tasks) && multiset(tasks) == multiset(TasksOf(m, ids[..n]))
  }

  lemma CollectNone(m: Tasks, ids: seq<string>)
    requires forall id :: id in ids <==> id in m.Keys
    ensures Collected(m, ids, 0, [])
  {
    assert forall i | 0 <= i < |ids| :: ids[i] in m.Keys;
    assert ids[..0] == [];
  }

  lemma CollectMore(m: Tasks, ids: seq<string>, n: nat, tasks: seq<Task>)
    requires Collected(m, ids, n, tasks) && n < |ids|
    ensures ids[n] in m && Collected(m, ids, n + 1, InsertTask(tasks, m[ids[n]]))
  {
    hide InTaskOrder, ListedSo, TasksOf;
    ListOneMore(m, ids, n, tasks);
    var longer := InsertTask(tasks, m[ids[n]]);
    TasksOfMore(m, ids, n, tasks, longer);
  }

  lemma CollectedOrder(m: Tasks, ids: seq<string>, n: nat, tasks: seq<Task>)
    requires Collected(m, ids, n, tasks)
    ensures InTaskOrder(tasks)
  {
  }

  /** Every task of `m` once, by order and id. */
  ghost predicate ListsTasks(m: Tasks, tasks: seq<Task>) {
    && InTaskOrder(tasks)
    && exists ids: seq<string> :: ListsUnder(m, ids, tasks)
  }

  ghost predicate ListsUnder(m: Tasks, ids: seq<string>, tasks: seq<Task>) {
    && Lists(ids, m.Keys) && (forall i | 0 <= i < |ids| :: ids[i] in m)
    && multiset(tasks) == multiset(TasksOf(m, ids))
  }

  lemma CollectedAll(m: Tasks, ids: seq<string>, tasks: seq<Task>)
    requires Lists(ids, m.Keys) && (forall id :: id in ids <==> id in m.Keys) && Collected(m, ids, |ids|, tasks)
    ensures ListsTasks(m, tasks) && forall task :: task in tasks <==> Holds(m, task)
  {
    hide InTaskOrder, TasksOf, Lists, Holds;
    AllListed(m, ids, tasks);
    assert ids[..|ids|] == ids;
    assert ListsUnder(m, ids, tasks);
  }

  lemma AllListed(m: Tasks, ids: seq<string>, tasks: seq<Task>)
    requires (forall id :: id in ids <==> id in m) && ListedSo(m, ids, |ids|, tasks)
    ensures forall task :: task in tasks <==> Holds(m, task)
  {
    forall task ensures task in tasks <==> Holds(m, task) {
      if id :| id in m && m[id] == task {
        assert id in ids;
      }
    }
  }

  lemma FoundLater(m: Tasks, listed: seq<Task>, n: nat, id: string)
    requires InTaskOrder(listed) && (forall task :: task in listed <==> Holds(m, task)) && n < |listed|
    requires (forall j | 0 <= j < n :: !IsReady(m, listed[j])) && id in m && IsReady(m, m[id])
    ensures Earlier(listed[n], m[id])
  {
    assert Holds(m, m[id]);
    var j :| 0 <= j < |listed| && listed[j] == m[id];
  }

  lemma ChangeKeepsGraph(m: Tasks, id: string, task: Task)
    requires id in m && task.id == m[id].id && task.dependsOn == m[id].dependsOn
    ensures WellFormed(m) ==> WellFormed(m[id := task])
    ensures Acyclic(m) ==> Acyclic(m[id := task])
  {
    var r := m[id := task];
    assert Dependencies(r) == Dependencies(m);
    hide Trim;
    if WellFormed(m) {
      forall x <- m ensures TaskFine(r, x) {
        assert TaskFine(m, x);
      }
    }
  }

  // ---- getting everything done -----------------------------------------------------------

  /** Every task is waiting or done. */
  ghost predicate Open(m: Tasks) {
    forall id <- m :: m[id].status == Todo || m[id].status == Done
  }

  ghost function Waiting(m: Tasks): set<string> {
    set id | id in m && m[id].status == Todo
  }

  /** A waiting task that is not ready depends on another waiting task. */
  lemma NotReadyWaits(m: Tasks, id: string)
    requires WellFormed(m) && Open(m) && id in Waiting(m) && !IsReady(m, m[id])
    ensures HasTarget(Dependencies(m), Waiting(m), id)
  {
    var dependency :| dependency in m[id].dependsOn && !(dependency in m && m[dependency].status == Done);
    var k :| 0 <= k < |m[id].dependsOn| && m[id].dependsOn[k] == dependency;
    assert TaskFine(m, id) && DependencyError(m, id, m[id].dependsOn[k]) == None;
    assert dependency in Waiting(m) && Arc(Dependencies(m), id, dependency);
  }

  ghost predicate NoneReady(m: Tasks) {
    forall id <- m :: !IsReady(m, m[id])
  }

  lemma StuckWaits(m: Tasks, id: string)
    requires WellFormed(m) && Open(m) && NoneReady(m) && id in Waiting(m)
    ensures HasTarget(Dependencies(m), Waiting(m), id)
  {
    hide WellFormed, Open, IsReady, HasTarget;
    NotReadyWaits(m, id);
  }

  /** While a task is waiting, one is ready. */
  lemma SomeReady(m: Tasks)
    requires WellFormed(m) && Acyclic(m) && Open(m) && Waiting(m) != {}
    ensures !NoneReady(m)
  {
    hide WellFormed, Open, NoneReady, HasTarget, HasCycle;
    if NoneReady(m) {
      forall id <- Waiting(m) ensures HasTarget(Dependencies(m), Waiting(m), id) {
        StuckWaits(m, id);
      }
      hide Waiting;
      var id :| id in Waiting(m);
      assert Walk(Dependencies(m), [id]) && Elements([id]) <= Waiting(m);
      ForwardWalk(Dependencies(m), Waiting(m), [id]);
    }
  }

  /** The earliest of a non-empty set of tasks exists. */
  lemma {:induction false} EarliestOf(m: Tasks, ready: set<string>) returns (id: string)
    requires ready != {} && ready <= m.Keys
    ensures id in ready && forall other <- ready :: Earlier(m[id], m[other])
    decreases |ready|
  {
    var first :| first in ready;
    var rest := ready - {first};
    EarlierTotal(m[first], m[first]);
    if rest == {} {
      id := first;
      assert ready == {first};
    } else {
      var least := EarliestOf(m, rest);
      EarlierTotal(m[first], m[least]);
      if Earlier(m[least], m[first]) {
        id := least;
      } else {
        id := first;
        forall other <- rest ensures Earlier(m[first], m[other]) {
          EarlierTransitive(m[first], m[least], m[other]);
        }
      }
      hide Earlier;
      assert forall other <- ready :: other == first || other in rest;
    }
  }

  ghost function ReadyIds(m: Tasks): set<string> {
    set id | id in m && IsReady(m, m[id])
  }

  lemma EarliestIsNext(m: Tasks, id: string)
    requires id in ReadyIds(m) && forall other <- ReadyIds(m) :: Earlier(m[id], m[other])
    ensures id in Waiting(m) && IsNext(m, m[id])
  {
    hide Earlier;
    assert Holds(m, m[id]);
    forall other <- m | IsReady(m, m[other]) ensures Earlier(m[id], m[other]) {
      assert other in ReadyIds(m);
    }
  }

  /** While a task is waiting, there is a next one. */
  lemma SomeNext(m: Tasks) returns (id: string)
    requires WellFormed(m) && Acyclic(m) && Open(m) && Waiting(m) != {}
    ensures id in Waiting(m) && IsNext(m, m[id])
  {
    hide WellFormed, Acyclic, Open, Waiting, IsReady, Earlier, IsNext;
    SomeReady(m);
    var some :| some in m && IsReady(m, m[some]);
    assert some in ReadyIds(m);
    id := EarliestOf(m, ReadyIds(m));
    EarliestIsNext(m, id);
  }

  /** A ready task can be claimed under the id it carries exactly when that id is trimmed: it is filed under the
      trimmed one. */
  lemma ReadyClaimable(m: Tasks, id: string)
    requires WellFormed(m) && id in m && IsReady(m, m[id])
    ensures Claim(m, m[id].id).1.Success? <==> Trim(m[id].id) == m[id].id
  {
    TrimIdempotent(m[id].id);
    hide Trim;
    if m[id].id in m {
      assert Trim(m[m[id].id].id) == m[id].id;
      TrimIdempotent(m[m[id].id].id);
    }
  }

  lemma TrimBlankA()
    ensures Trim(" a") == "a"
  {
    assert TrimStart(" a") == TrimStart("a") == "a";
    assert TrimEnd("a") == "a";
  }

  /** A task whose id carries a blank is reported ready, but cannot be claimed under that id. */
  lemma UntrimmedNotClaimable(m: Tasks, task: Task)
    requires task == Task(" a", "", Todo, [], 0, "") && m == map["a" := task]
    ensures WellFormed(m) && IsNext(m, task) && Claim(m, task.id).1 == Failure(NotReady(" a"))
  {
    TrimBlankA();
    hide Trim, Claim;
    assert m["a"] == task && " a" != "a";
    assert Claim(m, " a").1 == Failure(NotReady(" a")) by {
      NotFiled(m, " a");
    }
  }

  lemma NotFiled(m: Tasks, id: string)
    requires id !in m
    ensures Claim(m, id).1 == Failure(NotReady(id))
  {
    hide IsReady;
  }

  /** Claim a task and complete it. */
  function Round(m: Tasks, id: string, summary: string): Tasks {
    Complete(Claim(m, id).0, id, summary).0
  }

  /** What a change of status keeps. */
  ghost predicate Sound(m: Tasks) {
    WellFormed(m) && Acyclic(m)
  }

  lemma RoundIs(m: Tasks, id: string, summary: string)
    requires id in m && IsReady(m, m[id])
    ensures var task := m[id].(status := InProgress);
      && Claim(m, id).1.Success? && Claim(m, id).0 == m[id := task]
      && Complete(m[id := task], id, summary).1.Success?
      && Round(m, id, summary) == m[id := task][id := task.(status := Done, resultSummary := Trim(summary))]
  {
    hide IsReady, Trim;
  }

  lemma RoundOpens(m: Tasks, id: string, task: Task)
    requires Open(m) && id in m && task.status == Done && task.dependsOn == m[id].dependsOn
    ensures var r := m[id := task];
      Open(r) && Waiting(r) == Waiting(m) - {id} && forall x <- m :: r[x].dependsOn == m[x].dependsOn
  {
  }

  lemma RoundDoes(m: Tasks, id: string, summary: string)
    requires Sound(m) && Open(m) && id in m && IsReady(m, m[id])
    ensures var r := Round(m, id, summary);
      && Sound(r) && Open(r) && r.Keys == m.Keys && id in Waiting(m) && Waiting(r) == Waiting(m) - {id}
      && (forall x <- m :: r[x].dependsOn == m[x].dependsOn)
      && Claim(m, id).1.Success? && Complete(Claim(m, id).0, id, summary).1.Success?
  {
    RoundIs(m, id, summary);
    assert id in Waiting(m);
    hide *;
    var claimed := m[id].(status := InProgress);
    var done := claimed.(status := Done, resultSummary := Trim(summary));
    assert m[id := claimed][id := done] == m[id := done];
    RoundOpens(m, id, done);
    RoundKeepsSound(m, id, done);
  }

  lemma RoundKeepsSound(m: Tasks, id: string, done: Task)
    requires Sound(m) && id in m && done.id == m[id].id && done.dependsOn == m[id].dependsOn
    ensures Sound(m[id := done])
  {
    hide WellFormed, Acyclic;
    ChangeKeepsGraph(m, id, done);
  }

  /** Every waiting task carries the id it is filed under. */
  ghost predicate OwnIds(m: Tasks) {
    forall id <- Waiting(m) :: m[id].id == id
  }

  /** The tasks still carry the ids they carried. */
  ghost predicate SameIds(m: Tasks, last: Tasks) {
    forall id <- m :: id in last && last[id].id == m[id].id
  }

  lemma RoundKeepsIds(m: Tasks, last: Tasks, id: string, summary: string)
    requires SameIds(m, last) && id in last && IsReady(last, last[id])
    ensures SameIds(m, Round(last, id, summary))
  {
    RoundIs(last, id, summary);
    hide Round, IsReady, Claim, Complete, Trim;
  }

  /** The next task can be claimed under the id it carries exactly when it is filed under that id. */
  lemma NextClaimable(m: Tasks, task: Task) returns (id: string)
    requires WellFormed(m) && IsNext(m, task)
    ensures id in m && m[id] == task && IsReady(m, m[id]) && Trim(task.id) == id
    ensures Claim(m, task.id).1.Success? <==> task.id == id
    ensures Claim(m, task.id).1.Failure? ==> Claim(m, task.id).0 == m
  {
    hide IsReady, Earlier, Trim;
    id :| id in m && m[id] == task;
    ReadyClaimable(m, id);
  }

  /** `states[k]` is the graph after `k` rounds, each on some task that was ready. */
  ghost predicate Rounds(states: seq<Tasks>, ids: seq<string>, summaries: seq<string>) {
    && |states| == |ids| + 1 && |summaries| == |ids|
    && forall k | 0 <= k < |ids| :: RoundAt(states, ids, summaries, k)
  }

  ghost predicate RoundAt(states: seq<Tasks>, ids: seq<string>, summaries: seq<string>, k: nat)
    requires k < |ids| == |summaries| && |states| == |ids| + 1
  {
    ids[k] in states[k] && IsReady(states[k], states[k][ids[k]])
      && states[k + 1] == Round(states[k], ids[k], summaries[k])
  }

  /** When the task at `k` is taken, all it depends on is done, now or from the start. */
  ghost predicate DependenciesDone(m: Tasks, ids: seq<string>, k: nat)
    requires k < |ids|
  {
    ids[k] in m && forall dependency <- m[ids[k]].dependsOn ::
      dependency in m && (m[dependency].status == Done || dependency in ids[..k])
  }

  /** Tasks waiting in `m`, each once and after whatever it depends on. */
  ghost predicate InDependencyOrder(m: Tasks, ids: seq<string>) {
    && Lists(ids, Elements(ids)) && Elements(ids) <= Waiting(m)
    && forall k | 0 <= k < |ids| :: DependenciesDone(m, ids, k)
  }

  /** What rounds on the tasks `ids` have made of the graph `m`. */
  ghost predicate Progressed(m: Tasks, last: Tasks, ids: seq<string>) {
    && Sound(last) && Open(last) && last.Keys == m.Keys
    && (forall id <- m :: last[id].dependsOn == m[id].dependsOn)
    && Waiting(last) == Waiting(m) - Elements(ids)
    && InDependencyOrder(m, ids)
  }

  lemma NoProgress(m: Tasks)
    requires Sound(m) && Open(m)
    ensures Progressed(m, m, [])
  {
    hide Sound, Open;
    var none: seq<string> := [];
    assert Elements(none) == {};
  }

  lemma ListsMore(ids: seq<string>, id: string)
    requires Lists(ids, Elements(ids)) && id !in Elements(ids)
    ensures Lists(ids + [id], Elements(ids + [id])) && Elements(ids + [id]) == Elements(ids) + {id}
  {
    assert multiset(Elements(ids) + {id}) == multiset(Elements(ids)) + multiset{id};
  }

  lemma ReadyInOrder(m: Tasks, last: Tasks, ids: seq<string>, id: string)
    requires Progressed(m, last, ids) && Open(m) && id in last && IsReady(last, last[id])
    ensures id in Waiting(m) && id !in Elements(ids) && DependenciesDone(m, ids + [id], |ids|)
  {
    hide Sound, InDependencyOrder;
    assert id in Waiting(last);
    forall dependency <- m[id].dependsOn
      ensures dependency in m && (m[dependency].status == Done || dependency in ids)
    {
      assert dependency in last[id].dependsOn && dependency !in Waiting(last);
      assert dependency in Waiting(m) ==> dependency in Elements(ids);
    }
    assert (ids + [id])[..|ids|] == ids;
  }

  lemma OrderMore(m: Tasks, ids: seq<string>, id: string)
    requires InDependencyOrder(m, ids) && id in Waiting(m) && id !in Elements(ids)
    requires DependenciesDone(m, ids + [id], |ids|)
    ensures InDependencyOrder(m, ids + [id]) && Elements(ids + [id]) == Elements(ids) + {id}
  {
    ListsMore(ids, id);
    forall k | 0 <= k < |ids| ensures DependenciesDone(m, ids + [id], k) {
      assert DependenciesDone(m, ids, k) && (ids + [id])[..k] == ids[..k];
    }
  }

  /** One more round on any task that is ready. */
  lemma MoreProgress(m: Tasks, last: Tasks, ids: seq<string>, id: string, summary: string)
    requires Progressed(m, last, ids) && Open(m) && id in last && IsReady(last, last[id])
    ensures Progressed(m, Round(last, id, summary), ids + [id])
  {
    hide Sound, Open, IsReady, Round, Waiting, DependenciesDone, InDependencyOrder, Claim, Complete;
    hide Elements, Lists;
    RoundDoes(last, id, summary);
    ReadyInOrder(m, last, ids, id);
    OrderMore(m, ids, id);
  }

  lemma {:induction false} RoundsProgress(states: seq<Tasks>, ids: seq<string>, summaries: seq<string>, n: nat)
    requires Rounds(states, ids, summaries) && Sound(states[0]) && Open(states[0]) && n <= |ids|
    ensures Progressed(states[0], states[n], ids[..n])
    decreases n
  {
    hide *;
    RoundsSizes(states, ids, summaries);
    if n == 0 {
      NoProgress(states[0]);
      assert ids[..0] == [];
    } else {
      RoundsProgress(states, ids, summaries, n - 1);
      RoundOf(states, ids, summaries, n - 1);
      RoundAfter(states[0], states[n - 1], states[n], ids, n - 1, summaries[n - 1]);
    }
  }

  lemma RoundsSizes(states: seq<Tasks>, ids: seq<string>, summaries: seq<string>)
    requires Rounds(states, ids, summaries)
    ensures |states| == |ids| + 1 && |summaries| == |ids|
  {
    hide IsReady, Round;
  }

  lemma RoundAfter(m: Tasks, before: Tasks, after: Tasks, ids: seq<string>, k: nat, summary: string)
    requires Open(m) && k < |ids| && Progressed(m, before, ids[..k])
    requires ids[k] in before && IsReady(before, before[ids[k]]) && after == Round(before, ids[k], summary)
    ensures Progressed(m, after, ids[..k + 1])
  {
    hide *;
    MoreProgress(m, before, ids[..k], ids[k], summary);
    assert ids[..k + 1] == ids[..k] + [ids[k]];
  }

  lemma RoundOf(states: seq<Tasks>, ids: seq<string>, summaries: seq<string>, k: nat)
    requires Rounds(states, ids, summaries) && k < |ids|
    ensures ids[k] in states[k] && IsReady(states[k], states[k][ids[k]])
    ensures states[k + 1] == Round(states[k], ids[k], summaries[k])
  {
    hide IsReady, Round;
    assert RoundAt(states, ids, summaries, k);
  }

  lemma ElementsCount(ids: seq<string>, all: set<string>)
    requires Lists(ids, Elements(ids)) && Elements(ids) <= all
    ensures |all - Elements(ids)| == |all| - |ids|
  {
    ListsElements(ids, Elements(ids));
    assert all == (all - Elements(ids)) + Elements(ids);
  }

  lemma NobodyWaiting(m: Tasks)
    requires Open(m) && Waiting(m) == {}
    ensures forall id <- m :: m[id].status == Done
  {
    assert forall id <- m :: id !in Waiting(m);
  }

  lemma SomebodyNext(m: Tasks)
    requires Sound(m) && Open(m) && Waiting(m) != {}
    ensures exists id <- m :: IsNext(m, m[id])
  {
    hide Open, IsNext, WellFormed, Acyclic;
    var id := SomeNext(m);
    assert id in m;
  }

  /** Rounds that leave nobody waiting leave every task done; others leave a next task. */
  lemma WhatIsLeft(m: Tasks, last: Tasks, ids: seq<string>)
    requires Progressed(m, last, ids)
    ensures InDependencyOrder(m, ids) && |Waiting(last)| == |Waiting(m)| - |ids| && last.Keys == m.Keys
    ensures Waiting(last) != {} ==> exists id <- last :: IsNext(last, last[id])
    ensures Waiting(last) == {} ==> Elements(ids) == Waiting(m) && forall id <- last :: last[id].status == Done
  {
    hide IsNext, DependenciesDone, Sound, Open, Waiting, Elements, Lists;
    ElementsCount(ids, Waiting(m));
    if Waiting(last) != {} {
      SomebodyNext(last);
    } else {
      NobodyWaiting(last);
      assert Waiting(m) == Elements(ids);
    }
  }

  /** However the tasks are picked from those that are ready, claiming and completing them over and over takes each
      waiting task once, after all it depends on; it is never stuck while one is waiting, and ends with every task
      done. */
  lemma {:induction false} AllGetDone(states: seq<Tasks>, ids: seq<string>, summaries: seq<string>)
    requires Rounds(states, ids, summaries) && Sound(states[0]) && Open(states[0])
    ensures InDependencyOrder(states[0], ids) && |ids| <= |Waiting(states[0])|
    ensures var last := states[|ids|];
      && last.Keys == states[0].Keys
      && (|ids| < |Waiting(states[0])| ==> exists id <- last :: IsNext(last, last[id]))
      && (|ids| == |Waiting(states[0])| ==>
        Elements(ids) == Waiting(states[0]) && forall id <- last :: last[id].status == Done)
  {
    RoundsProgress(states, ids, summaries, |ids|);
    assert |states| == |ids| + 1 && ids[..|ids|] == ids;
    hide *;
    WhatIsLeft(states[0], states[|ids|], ids);
  }
}
