/** An accepted task graph as an object whose tasks change status in place. */
module TaskGraph {
  import opened Kernel
  import opened Names
  import opened TaskIndex
  import opened TaskRun

  class TaskGraph {
    var tasks: Tasks

    /** What an accepted task set satisfies, and every operation keeps. */
    ghost predicate Valid()
      reads this
    {
      WellFormed(tasks) && Acyclic(tasks)
    }

    constructor (accepted: Tasks)
      requires WellFormed(accepted) && Acyclic(accepted)
      ensures Valid() && tasks == accepted
    {
      tasks := accepted;
    }

    /** All tasks by order and id. */
    method Listed() returns (r: seq<Task>)
      ensures ListsTasks(tasks, r)
      ensures forall task :: task in r <==> Holds(tasks, task)
    {
      hide *;
      var ids := InOrder(tasks.Keys);
      ListsInOrder(tasks.Keys);
      ListsElements(ids, tasks.Keys);
      CollectNone(tasks, ids);
      r := [];
      for n := 0 to |ids|
        invariant Collected(tasks, ids, n, r)
      {
        CollectMore(tasks, ids, n, r);
        CollectedOrder(tasks, ids, n, r);
        r := InsertTask(r, tasks[ids[n]]);
      }
      CollectedAll(tasks, ids, r);
    }

    method ReadyTask() returns (r: Option<Task>)
      ensures r.Some? ==> IsNext(tasks, r.value)
      ensures r.None? <==> forall id <- tasks :: !IsReady(tasks, tasks[id])
    {
      var listed := Listed();
      assert InTaskOrder(listed);
      hide IsReady, Earlier;
      for n := 0 to |listed|
        invariant forall j | 0 <= j < n :: !IsReady(tasks, listed[j])
      {
        if IsReady(tasks, listed[n]) {
          assert listed[n] in listed;
          forall id <- tasks | IsReady(tasks, tasks[id]) ensures Earlier(listed[n], tasks[id]) {
            FoundLater(tasks, listed, n, id);
          }
          return Some(listed[n]);
        }
      }
      forall id <- tasks ensures !IsReady(tasks, tasks[id]) {
        assert Holds(tasks, tasks[id]) && tasks[id] in listed;
      }
      return None;
    }

    method Claim(id: string) returns (r: Outcome<Task, WorkflowError>)
      modifies this
      ensures (tasks, r) == TaskRun.Claim(old(tasks), id)
      ensures old(Valid()) ==> Valid()
    {
      if id !in tasks || !IsReady(tasks, tasks[id]) {
        return Failure(NotReady(id));
      }
      ChangeKeepsGraph(tasks, id, tasks[id].(status := InProgress));
      tasks := tasks[id := tasks[id].(status := InProgress)];
      return Success(tasks[id]);
    }

    method Complete(id: string, summary: string) returns (r: Outcome<Task, WorkflowError>)
      modifies this
      ensures (tasks, r) == TaskRun.Complete(old(tasks), id, summary)
      ensures old(Valid()) ==> Valid()
    {
      if id !in tasks || (tasks[id].status != Todo && tasks[id].status != InProgress) {
        return Failure(CannotComplete(id));
      }
      ChangeKeepsGraph(tasks, id, tasks[id].(status := Done, resultSummary := Trim(summary)));
      tasks := tasks[id := tasks[id].(status := Done, resultSummary := Trim(summary))];
      return Success(tasks[id]);
    }

    method Block(id: string, reason: string) returns (r: Outcome<Task, WorkflowError>)
      modifies this
      ensures (tasks, r) == TaskRun.Block(old(tasks), id, reason)
      ensures old(Valid()) ==> Valid()
    {
      if id !in tasks || tasks[id].status == Done || tasks[id].status == Cancelled {
        return Failure(CannotComplete(id));
      }
      ChangeKeepsGraph(tasks, id, tasks[id].(status := Blocked, resultSummary := Trim(reason)));
      tasks := tasks[id := tasks[id].(status := Blocked, resultSummary := Trim(reason))];
      return Success(tasks[id]);
    }
  }

  lemma NobodyReady(m: Tasks)
    requires Sound(m) && Open(m) && forall id <- m :: !IsReady(m, m[id])
    ensures Waiting(m) == {}
  {
    hide IsReady, WellFormed, Acyclic, Open;
    if Waiting(m) != {} {
      SomeReady(m);
    }
  }

  /** The tasks taken so far carry the ids they are filed under. */
  ghost predicate TakenOwn(m: Tasks, done: seq<string>) {
    forall id <- Elements(done) :: id in m && m[id].id == id
  }

  lemma NothingTaken(m: Tasks)
    ensures TakenOwn(m, []) && SameIds(m, m)
  {
  }

  lemma TakenMore(m: Tasks, last: Tasks, done: seq<string>, id: string)
    requires TakenOwn(m, done) && SameIds(m, last) && last.Keys == m.Keys && id in last && last[id].id == id
    ensures TakenOwn(m, done + [id])
  {
  }

  lemma TakenAll(m: Tasks, done: seq<string>)
    requires TakenOwn(m, done) && Elements(done) == Waiting(m)
    ensures OwnIds(m)
  {
    hide Elements, Waiting;
  }

  lemma StuckOn(m: Tasks, last: Tasks, done: seq<string>, id: string)
    requires Progressed(m, last, done) && SameIds(m, last) && id in last && IsReady(last, last[id]) && last[id].id != id
    ensures !OwnIds(m)
  {
    hide Sound, InDependencyOrder, Elements;
    assert id in Waiting(last);
    assert id in Waiting(m) && last[id].id == m[id].id;
  }

  lemma ProgressedMeans(m: Tasks, last: Tasks, done: seq<string>)
    requires Progressed(m, last, done)
    ensures WellFormed(last) && last.Keys == m.Keys && InDependencyOrder(m, done)
    ensures Waiting(last) == Waiting(m) - Elements(done)
  {
    hide WellFormed, Acyclic, InDependencyOrder, Elements, Waiting;
  }

  /** Claim and complete the next task until there is none, or until the next one cannot be claimed under the id it
      carries. That ends with every task done exactly when all waiting tasks carry the ids they are filed under. */
  method RunAll(graph: TaskGraph, summary: string) returns (done: seq<string>, stuck: Option<Task>)
    requires graph.Valid() && Open(graph.tasks)
    modifies graph
    ensures graph.tasks.Keys == old(graph.tasks.Keys) && InDependencyOrder(old(graph.tasks), done)
    ensures Waiting(graph.tasks) == Waiting(old(graph.tasks)) - Elements(done)
    ensures stuck.None? <==> OwnIds(old(graph.tasks))
    ensures stuck.None? ==>
      Elements(done) == Waiting(old(graph.tasks)) && forall id <- graph.tasks :: graph.tasks[id].status == Done
    ensures stuck.Some? ==> IsNext(graph.tasks, stuck.value) && Trim(stuck.value.id) != stuck.value.id
  {
    ghost var start := graph.tasks;
    assert Sound(start);
    hide *;
    NoProgress(start);
    NothingTaken(start);
    done, stuck := [], None;
    var next := graph.ReadyTask();
    while next.Some?
      invariant Progressed(start, graph.tasks, done) && SameIds(start, graph.tasks) && TakenOwn(start, done)
      invariant next.Some? ==> IsNext(graph.tasks, next.value)
      invariant next.None? ==> forall id <- graph.tasks :: !IsReady(graph.tasks, graph.tasks[id])
      invariant stuck.None?
      decreases |Waiting(graph.tasks)|
    {
      ghost var before := graph.tasks;
      ProgressedMeans(start, before, done);
      ghost var filed := NextClaimable(before, next.value);
      var id := next.value.id;
      var claimed := graph.Claim(id);
      if claimed.Failure? {
        StuckOn(start, before, done, filed);
        stuck := next;
        return;
      }
      MoreProgress(start, before, done, id, summary);
      RoundKeepsIds(start, before, id, summary);
      TakenMore(start, before, done, id);
      FewerWaiting(start, before, done, id, summary);
      RoundUnfolds(before, id, summary);
      var _ := graph.Complete(id, summary);
      done := done + [id];
      next := graph.ReadyTask();
    }
    ProgressedSound(start, graph.tasks, done);
    ProgressedMeans(start, graph.tasks, done);
    NobodyReady(graph.tasks);
    WhatIsLeft(start, graph.tasks, done);
    TakenAll(start, done);
  }

  lemma RoundUnfolds(m: Tasks, id: string, summary: string)
    ensures Round(m, id, summary) == TaskRun.Complete(TaskRun.Claim(m, id).0, id, summary).0
  {
  }

  lemma ProgressedSound(m: Tasks, last: Tasks, ids: seq<string>)
    requires Progressed(m, last, ids)
    ensures Sound(last) && Open(last)
  {
    hide Sound, Open, Waiting, InDependencyOrder;
  }

  lemma FewerWaiting(m: Tasks, last: Tasks, ids: seq<string>, id: string, summary: string)
    requires Progressed(m, last, ids) && id in last && IsReady(last, last[id])
    ensures |Waiting(Round(last, id, summary))| < |Waiting(last)|
  {
    hide *;
    ProgressedSound(m, last, ids);
    RoundDoes(last, id, summary);
    assert Waiting(last) == Waiting(last) - {id} + {id};
  }
}
