/** That the supervisor gets somewhere: whom it refuses, that no thread waits in vain, and that every interleaving
    ends. */
module Quiescence {
  import opened Kernel
  import opened Supervisor

  // ---- whom it refuses -------------------------------------------------------------------

  /** A shutdown has raised the flag. */
  ghost predicate ShuttingDown(s: State) {
    exists j: nat :: j < |s.shutdowns| && s.shutdowns[j] != ShutdownCalled
  }

  lemma StoppingKept(s: State, a: Action)
    requires Enabled(s, a) && (s.stopping <==> ShuttingDown(s))
    ensures After(s, a).stopping <==> ShuttingDown(After(s, a))
  {
    var r := After(s, a);
    if ShuttingDown(s) {
      var j: nat :| j < |s.shutdowns| && s.shutdowns[j] != ShutdownCalled;
      assert r.shutdowns[j] != ShutdownCalled;
    }
    if a.Stop? {
      assert r.shutdowns[a.shutdown] != ShutdownCalled;
    }
  }

  lemma {:induction false} StoppingMeans(states: seq<State>, actions: seq<Action>, k: nat)
    requires Run(states, actions) && k < |states|
    ensures states[k].stopping <==> ShuttingDown(states[k])
    decreases k
  {
    hide After, Enabled, ShuttingDown;
    if k == 0 {
      NotShuttingDown();
    } else {
      StoppingMeans(states, actions, k - 1);
      assert Leads(states, actions, k - 1);
      StoppingKept(states[k - 1], actions[k - 1]);
    }
  }

  lemma NotShuttingDown()
    ensures !ShuttingDown(INITIAL)
  {
  }

  /** A task of the run is not done. */
  ghost predicate Busy(s: State, runId: string) {
    exists t: nat :: t < |s.tasks| && s.tasks[t].runId == runId && !s.tasks[t].Done()
  }

  lemma RefusedStep(s: State, a: Action, i: nat)
    requires Enabled(s, a) && NamesOk(s) && i < |s.spawns| && s.spawns[i].phase != Refused
    requires After(s, a).spawns[i].phase == Refused
    ensures a == StartFails(i) || s.stopping || (a == Reserve(i) && Busy(s, s.spawns[i].runId))
  {
    if a == Reserve(i) {
      var t := s.listed[s.spawns[i].runId];
      assert s.tasks[t].runId == s.spawns[i].runId && !s.tasks[t].Done();
    }
  }

  /** In every interleaving a spawn is refused only when a shutdown is under way, when a continuation of its run is not
      done, or when its thread cannot be started. */
  lemma {:induction false} RefusedForCause(states: seq<State>, actions: seq<Action>, k: nat, i: nat)
    requires Run(states, actions) && k < |actions| && i < |states[k].spawns| && i < |states[k + 1].spawns|
    requires states[k].spawns[i].phase != Refused && states[k + 1].spawns[i].phase == Refused
    ensures actions[k] == StartFails(i) || ShuttingDown(states[k]) || Busy(states[k], states[k].spawns[i].runId)
  {
    Reachable(states, actions, k);
    StoppingMeans(states, actions, k);
    assert Leads(states, actions, k);
    assert NamesOk(states[k]);
    hide Inv, After, Enabled, NamesOk, ShuttingDown, Busy;
    RefusedStep(states[k], actions[k], i);
  }

  // ---- no thread waits in vain -----------------------------------------------------------

  /** Every call has returned and every task is gone. */
  ghost predicate Quiet(s: State) {
    && (forall i: nat | i < |s.spawns| :: s.spawns[i].phase == Spawned || s.spawns[i].phase == Refused)
    && (forall t: nat | t < |s.tasks| :: s.tasks[t].phase == Gone)
    && (forall j: nat | j < |s.shutdowns| :: s.shutdowns[j].Returned?)
  }

  /** A thread can take a step that is no new call. */
  ghost predicate CanMove(s: State) {
    exists a: Action :: Enabled(s, a) && !a.CallSpawn? && !a.CallShutdown?
  }

  lemma HolderMovesOn(s: State)
    requires LockOk(s) && PairsOk(s) && s.lock.Some?
    ensures CanMove(s)
  {
    match s.lock.value
    case BySpawn(i) =>
      assert SpawnLocks(s.spawns[i].phase) && SpawnOk(s, i);
      match s.spawns[i].phase {
        case Locked => assert Enabled(s, CheckAgain(i));
        case Admitting => assert Enabled(s, Reserve(i));
        case Reserved(t) => assert Enabled(s, Enter(i));
        case Entered(_) => assert Enabled(s, Unlock(i));
        case _ => assert false;
      }
    case ByTask(t) =>
      assert s.tasks[t].phase == Unlisting;
      assert Enabled(s, Unlist(t));
    case ByShutdown(j) =>
      assert s.shutdowns[j] == ShutdownLocked;
      assert Enabled(s, Take(j));
  }

  lemma SpawnMovesOn(s: State, i: nat)
    requires LockOk(s) && PairsOk(s) && s.lock.None? && i < |s.spawns|
    requires s.spawns[i].phase != Spawned && s.spawns[i].phase != Refused
    ensures CanMove(s)
  {
    assert SpawnLocks(s.spawns[i].phase) <==> s.lock == Some(BySpawn(i));
    assert SpawnOk(s, i);
    match s.spawns[i].phase
    case Called => assert Enabled(s, CheckStopping(i));
    case Checked => assert Enabled(s, LockBySpawn(i));
    case Starting(t) => assert Enabled(s, Start(i));
    case _ => assert false;
  }

  lemma TaskMovesOn(s: State, t: nat)
    requires LockOk(s) && PairsOk(s) && s.lock.None? && t < |s.tasks| && s.tasks[t].phase != Gone
    ensures CanMove(s)
  {
    assert s.tasks[t].phase == Unlisting <==> s.lock == Some(ByTask(t));
    assert TaskOk(s, t);
    var i := s.tasks[t].spawn;
    assert SpawnLocks(s.spawns[i].phase) <==> s.lock == Some(BySpawn(i));
    match s.tasks[t].phase
    case Running => assert Enabled(s, EndBody(t));
    case Ending => assert Enabled(s, MarkDone(t));
    case MarkedDone => assert Enabled(s, LockByTask(t));
    case Unlisted => assert Enabled(s, Leave(t));
    case Guarded => SpawnMovesOn(s, i);
    case _ => assert false;
  }

  lemma ShutdownMovesOn(s: State, j: nat)
    requires LockOk(s) && s.lock.None? && j < |s.shutdowns| && !s.shutdowns[j].Returned?
    ensures CanMove(s)
  {
    assert s.shutdowns[j] == ShutdownLocked <==> s.lock == Some(ByShutdown(j));
    match s.shutdowns[j]
    case ShutdownCalled => assert Enabled(s, Stop(j));
    case Stopping => assert Enabled(s, LockByShutdown(j));
    case Waiting => assert Enabled(s, if s.count == 0 then Drain(j) else TimeOut(j));
    case _ => assert false;
  }

  /** No deadlock: in every interleaving either every call has returned and every continuation is gone, or some thread
      can move on. */
  lemma {:induction false} NoDeadlock(states: seq<State>, actions: seq<Action>, k: nat)
    requires Run(states, actions) && k < |states|
    ensures Quiet(states[k]) || CanMove(states[k])
  {
    Reachable(states, actions, k);
    var s := states[k];
    assert LockOk(s) && PairsOk(s);
    hide LockOk, PairsOk, CanMove, Enabled, Run, Inv;
    if s.lock.Some? {
      HolderMovesOn(s);
    } else if i: nat :| i < |s.spawns| && s.spawns[i].phase != Spawned && s.spawns[i].phase != Refused {
      SpawnMovesOn(s, i);
    } else if t: nat :| t < |s.tasks| && s.tasks[t].phase != Gone {
      TaskMovesOn(s, t);
    } else if j: nat :| j < |s.shutdowns| && !s.shutdowns[j].Returned? {
      ShutdownMovesOn(s, j);
    }
  }

  // ---- every interleaving ends -----------------------------------------------------------

  /** How many more steps a call of `spawn` can take, those of the task it may still register included. */
  function SpawnWork(spawn: Spawn): real {
    match spawn.phase
    case Called => 14.0
    case Checked => 13.0
    case Locked => 12.0
    case Admitting => 11.0
    case Reserved(_) => 3.0
    case Entered(_) => 2.0
    case Starting(_) => 1.0
    case _ => 0.0
  }

  function TaskWork(task: Task): real {
    match task.phase
    case Listed => 7.0
    case Guarded => 6.0
    case Running => 5.0
    case Ending => 4.0
    case MarkedDone => 3.0
    case Unlisting => 2.0
    case Unlisted => 1.0
    case Gone => 0.0
  }

  function ShutdownWork(phase: ShutdownPhase): real {
    match phase
    case ShutdownCalled => 4.0
    case Stopping => 3.0
    case ShutdownLocked => 2.0
    case Waiting => 1.0
    case Returned(_) => 0.0
  }

  function Work(s: State): real {
    Sum(SpawnWork, s.spawns) + Sum(TaskWork, s.tasks) + Sum(ShutdownWork, s.shutdowns)
  }

  /** What a call brings with it. */
  function Brought(a: Action): real {
    if a.CallSpawn? then 15.0 else if a.CallShutdown? then 5.0 else 0.0
  }

  /** Registering a task costs its spawn what the task brings with it. */
  lemma ReserveWorks(s: State, i: nat)
    requires SpawnAt(s, i, Admitting)
    ensures Work(ReserveRun(s, i)) + 1.0 <= Work(s)
  {
    hide Sum;
    var r := ReserveRun(s, i);
    SumUpdate(SpawnWork, s.spawns, i, r.spawns[i]);
    if |r.tasks| > |s.tasks| {
      SumAppend(TaskWork, s.tasks, r.tasks[|s.tasks|]);
    }
  }

  /** A spawn and its task move on together. */
  lemma PairWorks(s: State, i: nat, t: nat, r: State)
    requires i < |s.spawns| == |r.spawns| && t < |s.tasks| == |r.tasks| && r.shutdowns == s.shutdowns
    requires r.spawns == s.spawns[i := r.spawns[i]] && r.tasks == s.tasks[t := r.tasks[t]]
    requires SpawnWork(r.spawns[i]) + TaskWork(r.tasks[t]) + 1.0 <= SpawnWork(s.spawns[i]) + TaskWork(s.tasks[t])
    ensures Work(r) + 1.0 <= Work(s)
  {
    hide Sum, SpawnWork, TaskWork;
    SumUpdate(SpawnWork, s.spawns, i, r.spawns[i]);
    SumUpdate(TaskWork, s.tasks, t, r.tasks[t]);
  }

  lemma BySpawnWorks(s: State, a: Action)
    requires PairsOk(s) && Enabled(s, a) && (BySpawnOnly(a) || StartsTask(a))
    ensures Work(After(s, a)) + 1.0 <= Work(s) + Brought(a)
  {
    hide Sum, Work;
    var r := After(s, a);
    SpawnTask(s, a);
    hide PairsOk, SpawnOk;
    if a.Reserve? {
      ReserveWorks(s, a.spawn);
    } else if a.CallSpawn? {
      CallWorks(s, r);
    } else if StartsTask(a) {
      PairWorks(s, a.spawn, s.spawns[a.spawn].phase.task, r);
    } else {
      OneSpawnWorks(s, a.spawn, r);
    }
  }

  lemma CallWorks(s: State, r: State)
    requires |r.spawns| == |s.spawns| + 1 && r.spawns == s.spawns + [r.spawns[|s.spawns|]]
    requires r.spawns[|s.spawns|].phase == Called && r.tasks == s.tasks && r.shutdowns == s.shutdowns
    ensures Work(r) == Work(s) + 14.0
  {
    hide Sum;
    SumAppend(SpawnWork, s.spawns, r.spawns[|s.spawns|]);
  }

  lemma OneSpawnWorks(s: State, i: nat, r: State)
    requires i < |s.spawns| == |r.spawns| && r.spawns == s.spawns[i := r.spawns[i]] && r.tasks == s.tasks
    requires r.shutdowns == s.shutdowns && SpawnWork(r.spawns[i]) + 1.0 <= SpawnWork(s.spawns[i])
    ensures Work(r) + 1.0 <= Work(s)
  {
    hide Sum, SpawnWork;
    SumUpdate(SpawnWork, s.spawns, i, r.spawns[i]);
  }

  lemma ByTaskWorks(s: State, a: Action)
    requires Enabled(s, a) && ByTaskOnly(a)
    ensures Work(After(s, a)) + 1.0 <= Work(s)
  {
    hide Sum;
    SumUpdate(TaskWork, s.tasks, a.task, After(s, a).tasks[a.task]);
  }

  lemma ByShutdownWorks(s: State, a: Action)
    requires Enabled(s, a) && ByShutdownOnly(a)
    ensures Work(After(s, a)) + 1.0 <= Work(s) + Brought(a)
  {
    hide Sum;
    if a.CallShutdown? {
      SumAppend(ShutdownWork, s.shutdowns, ShutdownCalled);
    } else {
      SumUpdate(ShutdownWork, s.shutdowns, a.shutdown, After(s, a).shutdowns[a.shutdown]);
    }
  }

  lemma StepWorks(s: State, a: Action)
    requires PairsOk(s) && Enabled(s, a)
    ensures Work(After(s, a)) + 1.0 <= Work(s) + Brought(a)
  {
    hide PairsOk, Enabled, After, Work;
    if BySpawnOnly(a) || StartsTask(a) {
      BySpawnWorks(s, a);
    } else if ByTaskOnly(a) {
      ByTaskWorks(s, a);
    } else {
      ByShutdownWorks(s, a);
    }
  }

  lemma CallsCounted(s: State, a: Action)
    requires Enabled(s, a)
    ensures var r := After(s, a);
      15.0 * |r.spawns| as real + 5.0 * |r.shutdowns| as real
      == 15.0 * |s.spawns| as real + 5.0 * |s.shutdowns| as real + Brought(a)
  {
  }

  lemma WorkPositive(s: State)
    ensures Work(s) >= 0.0
  {
    SumPositive(SpawnWork, s.spawns);
    SumPositive(TaskWork, s.tasks);
    SumPositive(ShutdownWork, s.shutdowns);
  }

  lemma {:induction false} SumPositive<T>(f: T -> real, s: seq<T>)
    requires forall x: T :: f(x) >= 0.0
    ensures Sum(f, s) >= 0.0
  {
    if s == [] {
    } else {
      SumPositive(f, s[..|s| - 1]);
    }
  }

  /** Every interleaving ends: there are at most fifteen steps for each call of `spawn` and five for each call of
      `shutdown`. */
  lemma {:induction false} StepsBounded(states: seq<State>, actions: seq<Action>, k: nat)
    requires Run(states, actions) && k < |states|
    ensures k <= 15 * |states[k].spawns| + 5 * |states[k].shutdowns|
  {
    WorkDone(states, actions, k);
    WorkPositive(states[k]);
    hide Run, Work;
  }

  lemma {:induction false} WorkDone(states: seq<State>, actions: seq<Action>, k: nat)
    requires Run(states, actions) && k < |states|
    ensures k as real + Work(states[k]) <= 15.0 * |states[k].spawns| as real + 5.0 * |states[k].shutdowns| as real
    decreases k
  {
    hide Inv, After, Enabled, PairsOk, Work;
    if k == 0 {
      NoWork();
    } else {
      WorkDone(states, actions, k - 1);
      assert Leads(states, actions, k - 1);
      ReachablePairs(states, actions, k - 1);
      StepWorks(states[k - 1], actions[k - 1]);
      CallsCounted(states[k - 1], actions[k - 1]);
    }
  }

  lemma NoWork()
    ensures Work(INITIAL) == 0.0
  {
  }

  lemma {:induction false} ReachablePairs(states: seq<State>, actions: seq<Action>, k: nat)
    requires Run(states, actions) && k < |states|
    ensures PairsOk(states[k])
  {
    Reachable(states, actions, k);
    hide Run, PairsOk;
  }
}
