/** The continuation supervisor and its completion barrier, as a state machine whose steps are the atomic accesses of
    its threads: loads and stores of flags, acquiring and releasing the task lock, entering and leaving the barrier. */
module Supervisor {
  import opened Kernel

  /** Where a call of `spawn` has got to. From `Locked` to `Entered` it holds the task lock. */
  datatype SpawnPhase =
    | Called | Checked | Locked | Admitting
    | Reserved(task: nat) | Entered(task: nat) | Starting(task: nat)
    | Spawned | Refused

  /** Where a task has got to. From `Guarded` to `Unlisted` it takes part in the barrier. */
  datatype TaskPhase = Listed | Guarded | Running | Ending | MarkedDone | Unlisting | Unlisted | Gone

  /** Where a call of `shutdown` has got to. In `ShutdownLocked` it holds the task lock. */
  datatype ShutdownPhase = ShutdownCalled | Stopping | ShutdownLocked | Waiting | Returned(drained: bool)

  datatype Spawn = Spawn(runId: string, phase: SpawnPhase)

  datatype Task = Task(runId: string, spawn: nat, phase: TaskPhase) {
    /** The flag `done` of the task. */
    predicate Done() {
      phase == MarkedDone || phase == Unlisting || phase == Unlisted || phase == Gone
    }

    /** The barrier guard of the task has been taken and not yet dropped. */
    predicate Guarding() {
      phase != Listed && phase != Gone
    }
  }

  datatype Holder = BySpawn(spawn: nat) | ByTask(task: nat) | ByShutdown(shutdown: nat)

  datatype State = State(
    stopping: bool, lock: Option<Holder>, listed: map<string, nat>, count: nat,
    spawns: seq<Spawn>, tasks: seq<Task>, shutdowns: seq<ShutdownPhase>)

  const INITIAL := State(false, None, map[], 0, [], [], [])

  datatype Action =
    | CallSpawn(runId: string)
    | CheckStopping(spawn: nat) | LockBySpawn(spawn: nat) | CheckAgain(spawn: nat) | Reserve(spawn: nat)
    | Enter(spawn: nat) | Unlock(spawn: nat) | Start(spawn: nat) | StartFails(spawn: nat)
    | EndBody(task: nat) | MarkDone(task: nat) | LockByTask(task: nat) | Unlist(task: nat) | Leave(task: nat)
    | CallShutdown | Stop(shutdown: nat) | LockByShutdown(shutdown: nat) | Take(shutdown: nat)
    | Drain(shutdown: nat) | TimeOut(shutdown: nat)

  predicate SpawnAt(s: State, i: nat, phase: SpawnPhase) {
    i < |s.spawns| && s.spawns[i].phase == phase
  }

  predicate TaskAt(s: State, t: nat, phase: TaskPhase) {
    t < |s.tasks| && s.tasks[t].phase == phase
  }

  predicate ShutdownAt(s: State, j: nat, phase: ShutdownPhase) {
    j < |s.shutdowns| && s.shutdowns[j] == phase
  }

  /** Whether a step can be taken now. */
  predicate Enabled(s: State, a: Action) {
    match a
    case CallSpawn(_) => true
    case CheckStopping(i) => SpawnAt(s, i, Called)
    case LockBySpawn(i) => SpawnAt(s, i, Checked) && s.lock.None?
    case CheckAgain(i) => SpawnAt(s, i, Locked)
    case Reserve(i) => SpawnAt(s, i, Admitting)
    case Enter(i) => i < |s.spawns| && s.spawns[i].phase.Reserved? && s.spawns[i].phase.task < |s.tasks|
    case Unlock(i) => i < |s.spawns| && s.spawns[i].phase.Entered?
    case Start(i) => i < |s.spawns| && s.spawns[i].phase.Starting? && s.spawns[i].phase.task < |s.tasks|
    case StartFails(i) => i < |s.spawns| && s.spawns[i].phase.Starting? && s.spawns[i].phase.task < |s.tasks|
    case EndBody(t) => TaskAt(s, t, Running)
    case MarkDone(t) => TaskAt(s, t, Ending)
    case LockByTask(t) => TaskAt(s, t, MarkedDone) && s.lock.None?
    case Unlist(t) => TaskAt(s, t, Unlisting)
    case Leave(t) => TaskAt(s, t, Unlisted)
    case CallShutdown => true
    case Stop(j) => ShutdownAt(s, j, ShutdownCalled)
    case LockByShutdown(j) => ShutdownAt(s, j, Stopping) && s.lock.None?
    case Take(j) => ShutdownAt(s, j, ShutdownLocked)
    case Drain(j) => ShutdownAt(s, j, Waiting) && s.count == 0
    case TimeOut(j) => ShutdownAt(s, j, Waiting) && s.count > 0
  }

  function SetSpawn(s: State, i: nat, phase: SpawnPhase): State
    requires i < |s.spawns|
  {
    s.(spawns := s.spawns[i := s.spawns[i].(phase := phase)])
  }

  function SetTask(s: State, t: nat, phase: TaskPhase): State
    requires t < |s.tasks|
  {
    s.(tasks := s.tasks[t := s.tasks[t].(phase := phase)])
  }

  function SetShutdown(s: State, j: nat, phase: ShutdownPhase): State
    requires j < |s.shutdowns|
  {
    s.(shutdowns := s.shutdowns[j := phase])
  }

  /** Under the lock: refuse a run whose task is not done, else replace that task by a new one. */
  function ReserveRun(s: State, i: nat): State
    requires i < |s.spawns|
  {
    var runId, t := s.spawns[i].runId, |s.tasks|;
    if runId in s.listed && s.listed[runId] < |s.tasks| && !s.tasks[s.listed[runId]].Done() then
      SetSpawn(s.(lock := None), i, Refused)
    else
      SetSpawn(s.(tasks := s.tasks + [Task(runId, i, Listed)], listed := s.listed[runId := t]), i, Reserved(t))
  }

  /** Under the lock: a task that is over takes itself off the list, unless its run has been given to another. */
  function UnlistTask(s: State, t: nat): State
    requires t < |s.tasks|
  {
    var runId := s.tasks[t].runId;
    var listed := if runId in s.listed && s.listed[runId] == t then s.listed - {runId} else s.listed;
    SetTask(s.(listed := listed, lock := None), t, Unlisted)
  }

  function After(s: State, a: Action): State
    requires Enabled(s, a)
  {
    match a
    case CallSpawn(runId) => s.(spawns := s.spawns + [Spawn(runId, Called)])
    case CheckStopping(i) => SetSpawn(s, i, if s.stopping then Refused else Checked)
    case LockBySpawn(i) => SetSpawn(s.(lock := Some(BySpawn(i))), i, Locked)
    case CheckAgain(i) => if s.stopping then SetSpawn(s.(lock := None), i, Refused) else SetSpawn(s, i, Admitting)
    case Reserve(i) => ReserveRun(s, i)
    case Enter(i) => SetTask(SetSpawn(s.(count := s.count + 1), i, Entered(s.spawns[i].phase.task)),
      s.spawns[i].phase.task, Guarded)
    case Unlock(i) => SetSpawn(s.(lock := None), i, Starting(s.spawns[i].phase.task))
    case Start(i) => SetTask(SetSpawn(s, i, Spawned), s.spawns[i].phase.task, Running)
    case StartFails(i) => SetTask(SetSpawn(s, i, Refused), s.spawns[i].phase.task, Ending)
    case EndBody(t) => SetTask(s, t, Ending)
    case MarkDone(t) => SetTask(s, t, MarkedDone)
    case LockByTask(t) => SetTask(s.(lock := Some(ByTask(t))), t, Unlisting)
    case Unlist(t) => UnlistTask(s, t)
    case Leave(t) => SetTask(s.(count := if s.count > 0 then s.count - 1 else 0), t, Gone)
    case CallShutdown => s.(shutdowns := s.shutdowns + [ShutdownCalled])
    case Stop(j) => SetShutdown(s.(stopping := true), j, Stopping)
    case LockByShutdown(j) => SetShutdown(s.(lock := Some(ByShutdown(j))), j, ShutdownLocked)
    case Take(j) => SetShutdown(s.(listed := map[], lock := None), j, Waiting)
    case Drain(j) => SetShutdown(s, j, Returned(true))
    case TimeOut(j) => SetShutdown(s, j, Returned(false))
  }

  // ---- the invariant ---------------------------------------------------------------------

  predicate SpawnLocks(phase: SpawnPhase) {
    phase == Locked || phase == Admitting || phase.Reserved? || phase.Entered?
  }

  ghost predicate HolderOk(s: State) {
    match s.lock
    case None => true
    case Some(BySpawn(i)) => i < |s.spawns|
    case Some(ByTask(t)) => t < |s.tasks|
    case Some(ByShutdown(j)) => j < |s.shutdowns|
  }

  /** Exactly the holder of the lock is in a section that holds it. */
  ghost predicate LockOk(s: State) {
    && HolderOk(s)
    && (forall i: nat | i < |s.spawns| :: SpawnLocks(s.spawns[i].phase) <==> s.lock == Some(BySpawn(i)))
    && (forall t: nat | t < |s.tasks| :: s.tasks[t].phase == Unlisting <==> s.lock == Some(ByTask(t)))
    && (forall j: nat | j < |s.shutdowns| :: s.shutdowns[j] == ShutdownLocked <==> s.lock == Some(ByShutdown(j)))
  }

  ghost predicate HasTask(s: State, i: nat, t: nat, phase: TaskPhase) {
    t < |s.tasks| && s.tasks[t].phase == phase && s.tasks[t].spawn == i
  }

  /** A spawn and the task it has reserved go together until the task starts. */
  ghost predicate SpawnOk(s: State, i: nat)
    requires i < |s.spawns|
  {
    match s.spawns[i].phase
    case Reserved(t) => HasTask(s, i, t, Listed)
    case Entered(t) => HasTask(s, i, t, Guarded)
    case Starting(t) => HasTask(s, i, t, Guarded)
    case _ => true
  }

  ghost predicate TaskOk(s: State, t: nat)
    requires t < |s.tasks|
  {
    var i := s.tasks[t].spawn;
    && i < |s.spawns|
    && (s.tasks[t].phase == Listed ==> s.spawns[i].phase == Reserved(t))
    && (s.tasks[t].phase == Guarded ==> s.spawns[i].phase == Entered(t) || s.spawns[i].phase == Starting(t))
  }

  ghost predicate PairsOk(s: State) {
    (forall i: nat | i < |s.spawns| :: SpawnOk(s, i)) && forall t: nat | t < |s.tasks| :: TaskOk(s, t)
  }

  /** A shutdown has emptied the list. */
  ghost predicate Taken(s: State) {
    exists j: nat :: j < |s.shutdowns| && (s.shutdowns[j] == Waiting || s.shutdowns[j].Returned?)
  }

  /** Once a shutdown is under way the flag is up; once one has taken the list nothing is admitted. */
  ghost predicate StoppingOk(s: State) {
    && (forall j: nat | j < |s.shutdowns| :: s.shutdowns[j] != ShutdownCalled ==> s.stopping)
    && (Taken(s) ==> forall i: nat | i < |s.spawns| :: !s.spawns[i].phase.Admitting? && !s.spawns[i].phase.Reserved?)
  }

  /** The list names tasks of its runs. */
  ghost predicate NamesOk(s: State) {
    forall runId <- s.listed :: s.listed[runId] < |s.tasks| && s.tasks[s.listed[runId]].runId == runId
  }

  /** The list names tasks of its runs, and until a shutdown takes it, every task that is not done. */
  ghost predicate ListOk(s: State) {
    && NamesOk(s)
    && (!Taken(s) ==> forall t: nat | t < |s.tasks| && !s.tasks[t].Done() ::
      s.tasks[t].runId in s.listed && s.listed[s.tasks[t].runId] == t)
  }

  ghost predicate OnePerRun(s: State) {
    forall t: nat, u: nat | t < |s.tasks| && u < |s.tasks| && !s.tasks[t].Done() && !s.tasks[u].Done() ::
      s.tasks[t].runId == s.tasks[u].runId ==> t == u
  }

  ghost function GuardingTasks(tasks: seq<Task>): set<nat> {
    set t: nat | t < |tasks| && tasks[t].Guarding()
  }

  ghost predicate CountOk(s: State) {
    s.count == |GuardingTasks(s.tasks)|
  }

  ghost predicate Drained(s: State) {
    exists j: nat :: j < |s.shutdowns| && s.shutdowns[j] == Returned(true)
  }

  ghost predicate AllGone(s: State) {
    forall t: nat | t < |s.tasks| :: s.tasks[t].phase == Gone
  }

  /** Once a shutdown has returned drained, every task is gone. */
  ghost predicate DrainedOk(s: State) {
    Drained(s) ==> AllGone(s)
  }

  ghost predicate Inv(s: State) {
    LockOk(s) && PairsOk(s) && StoppingOk(s) && ListOk(s) && OnePerRun(s) && CountOk(s) && DrainedOk(s)
  }

  lemma InitialInv()
    ensures Inv(INITIAL)
  {
    assert GuardingTasks([]) == {};
  }

  // Steps by the thread that takes them. Those that start or register a task move its spawn and the task together.

  predicate StartsTask(a: Action) {
    a.Enter? || a.Start? || a.StartFails?
  }

  predicate BySpawnOnly(a: Action) {
    a.CheckStopping? || a.LockBySpawn? || a.CheckAgain? || a.Reserve? || a.Unlock? || a.CallSpawn?
  }

  predicate ByTaskOnly(a: Action) {
    a.EndBody? || a.MarkDone? || a.LockByTask? || a.Unlist? || a.Leave?
  }

  predicate ByShutdownOnly(a: Action) {
    a.CallShutdown? || a.Stop? || a.LockByShutdown? || a.Take? || a.Drain? || a.TimeOut?
  }

  lemma ShutdownMoves(s: State, a: Action)
    requires Enabled(s, a) && ByShutdownOnly(a)
    ensures After(s, a).spawns == s.spawns && After(s, a).tasks == s.tasks && After(s, a).count == s.count
  {
  }

  lemma TaskMoves(s: State, a: Action)
    requires Enabled(s, a) && ByTaskOnly(a)
    ensures After(s, a).spawns == s.spawns && After(s, a).shutdowns == s.shutdowns && a.task < |s.tasks|
    ensures After(s, a).tasks == s.tasks[a.task := After(s, a).tasks[a.task]]
    ensures var t, u := s.tasks[a.task], After(s, a).tasks[a.task];
      u == t.(phase := u.phase) && t.phase != Listed && t.phase != Guarded && u.phase != Listed && u.phase != Guarded
  {
  }

  /** The task that a spawn is working on. */
  lemma SpawnTask(s: State, a: Action)
    requires PairsOk(s) && Enabled(s, a)
    ensures a.Enter? ==> HasTask(s, a.spawn, s.spawns[a.spawn].phase.task, Listed)
    ensures a.Start? || a.StartFails? ==> HasTask(s, a.spawn, s.spawns[a.spawn].phase.task, Guarded)
  {
    assert a.Enter? || a.Start? || a.StartFails? ==> SpawnOk(s, a.spawn);
  }

  lemma SpawnLockKept(s: State, a: Action, i: nat)
    requires LockOk(s) && Enabled(s, a) && BySpawnOnly(a) && i < |After(s, a).spawns|
    ensures var r := After(s, a); SpawnLocks(r.spawns[i].phase) <==> r.lock == Some(BySpawn(i))
  {
    if i < |s.spawns| {
      assert SpawnLocks(s.spawns[i].phase) <==> s.lock == Some(BySpawn(i));
    }
  }

  lemma StartLockKept(s: State, a: Action, i: nat)
    requires LockOk(s) && Enabled(s, a) && StartsTask(a) && i < |After(s, a).spawns|
    ensures var r := After(s, a); SpawnLocks(r.spawns[i].phase) <==> r.lock == Some(BySpawn(i))
  {
    assert SpawnLocks(s.spawns[i].phase) <==> s.lock == Some(BySpawn(i));
  }

  lemma OtherLockKept(s: State, a: Action, i: nat)
    requires LockOk(s) && Enabled(s, a) && (ByTaskOnly(a) || ByShutdownOnly(a)) && i < |After(s, a).spawns|
    ensures var r := After(s, a); SpawnLocks(r.spawns[i].phase) <==> r.lock == Some(BySpawn(i))
  {
    assert SpawnLocks(s.spawns[i].phase) <==> s.lock == Some(BySpawn(i));
  }

  lemma StepLockSpawn(s: State, a: Action, i: nat)
    requires LockOk(s) && Enabled(s, a) && i < |After(s, a).spawns|
    ensures var r := After(s, a); SpawnLocks(r.spawns[i].phase) <==> r.lock == Some(BySpawn(i))
  {
    hide After, Enabled, LockOk, SpawnLocks;
    if BySpawnOnly(a) {
      SpawnLockKept(s, a, i);
    } else if StartsTask(a) {
      StartLockKept(s, a, i);
    } else {
      OtherLockKept(s, a, i);
    }
  }

  lemma TaskLockKept(s: State, a: Action, t: nat)
    requires LockOk(s) && Enabled(s, a) && ByTaskOnly(a) && t < |After(s, a).tasks|
    ensures var r := After(s, a); r.tasks[t].phase == Unlisting <==> r.lock == Some(ByTask(t))
  {
    assert s.tasks[t].phase == Unlisting <==> s.lock == Some(ByTask(t));
    assert s.tasks[a.task].phase == Unlisting <==> s.lock == Some(ByTask(a.task));
  }

  lemma ByOthersTaskLock(s: State, a: Action, t: nat)
    requires LockOk(s) && Enabled(s, a) && (BySpawnOnly(a) || ByShutdownOnly(a)) && t < |After(s, a).tasks|
    ensures var r := After(s, a); r.tasks[t].phase == Unlisting <==> r.lock == Some(ByTask(t))
  {
    if t < |s.tasks| {
      assert s.tasks[t].phase == Unlisting <==> s.lock == Some(ByTask(t));
    }
  }

  lemma StartTaskLock(s: State, a: Action, t: nat)
    requires LockOk(s) && PairsOk(s) && Enabled(s, a) && StartsTask(a) && t < |After(s, a).tasks|
    ensures var r := After(s, a); r.tasks[t].phase == Unlisting <==> r.lock == Some(ByTask(t))
  {
    SpawnTask(s, a);
    hide PairsOk;
    assert s.tasks[t].phase == Unlisting <==> s.lock == Some(ByTask(t));
  }

  lemma StepLockTask(s: State, a: Action, t: nat)
    requires LockOk(s) && PairsOk(s) && Enabled(s, a) && t < |After(s, a).tasks|
    ensures var r := After(s, a); r.tasks[t].phase == Unlisting <==> r.lock == Some(ByTask(t))
  {
    hide After, Enabled, LockOk, PairsOk;
    if ByTaskOnly(a) {
      TaskLockKept(s, a, t);
    } else if StartsTask(a) {
      StartTaskLock(s, a, t);
    } else {
      ByOthersTaskLock(s, a, t);
    }
  }

  lemma StepLockShutdown(s: State, a: Action, j: nat)
    requires LockOk(s) && Enabled(s, a) && j < |After(s, a).shutdowns|
    ensures var r := After(s, a); r.shutdowns[j] == ShutdownLocked <==> r.lock == Some(ByShutdown(j))
  {
    if j < |s.shutdowns| {
      assert s.shutdowns[j] == ShutdownLocked <==> s.lock == Some(ByShutdown(j));
    }
  }

  lemma StepHolder(s: State, a: Action)
    requires HolderOk(s) && Enabled(s, a)
    ensures HolderOk(After(s, a))
  {
  }

  lemma StepLock(s: State, a: Action)
    requires LockOk(s) && PairsOk(s) && Enabled(s, a)
    ensures LockOk(After(s, a))
  {
    var r := After(s, a);
    StepHolder(s, a);
    hide After, Enabled, PairsOk;
    forall i: nat | i < |r.spawns| ensures SpawnLocks(r.spawns[i].phase) <==> r.lock == Some(BySpawn(i)) {
      StepLockSpawn(s, a, i);
    }
    forall t: nat | t < |r.tasks| ensures r.tasks[t].phase == Unlisting <==> r.lock == Some(ByTask(t)) {
      StepLockTask(s, a, t);
    }
    forall j: nat | j < |r.shutdowns| ensures r.shutdowns[j] == ShutdownLocked <==> r.lock == Some(ByShutdown(j)) {
      StepLockShutdown(s, a, j);
    }
  }

  /** What `SpawnOk` and `TaskOk` look at has not moved. */
  lemma PairsSame(s: State, r: State, i: nat)
    requires i < |s.spawns| == |r.spawns| && SpawnOk(s, i) && r.spawns[i] == s.spawns[i] && |s.tasks| <= |r.tasks|
    requires forall t: nat | t < |s.tasks| && (s.tasks[t].phase == Listed || s.tasks[t].phase == Guarded) ::
      r.tasks[t] == s.tasks[t]
    ensures SpawnOk(r, i)
  {
  }

  lemma SpawnsKeptBySpawn(s: State, a: Action, i: nat)
    requires PairsOk(s) && Enabled(s, a) && BySpawnOnly(a) && i < |After(s, a).spawns|
    ensures SpawnOk(After(s, a), i)
  {
    if i < |s.spawns| {
      assert SpawnOk(s, i);
    }
    hide PairsOk;
  }

  lemma SpawnsKeptByStart(s: State, a: Action, i: nat)
    requires PairsOk(s) && Enabled(s, a) && StartsTask(a) && i < |After(s, a).spawns|
    ensures SpawnOk(After(s, a), i)
  {
    SpawnTask(s, a);
    assert SpawnOk(s, i) && TaskOk(s, s.spawns[a.spawn].phase.task);
    hide PairsOk;
  }

  lemma SpawnsKeptByOthers(s: State, a: Action, i: nat)
    requires PairsOk(s) && Enabled(s, a) && (ByTaskOnly(a) || ByShutdownOnly(a)) && i < |After(s, a).spawns|
    ensures SpawnOk(After(s, a), i)
  {
    if ByTaskOnly(a) {
      TaskMoves(s, a);
    } else {
      ShutdownMoves(s, a);
    }
    assert SpawnOk(s, i);
    hide After, Enabled, PairsOk;
    PairsSame(s, After(s, a), i);
  }

  lemma StepSpawns(s: State, a: Action, i: nat)
    requires PairsOk(s) && Enabled(s, a) && i < |After(s, a).spawns|
    ensures SpawnOk(After(s, a), i)
  {
    hide After, Enabled, PairsOk, SpawnOk;
    if BySpawnOnly(a) {
      SpawnsKeptBySpawn(s, a, i);
    } else if StartsTask(a) {
      SpawnsKeptByStart(s, a, i);
    } else {
      SpawnsKeptByOthers(s, a, i);
    }
  }

  lemma TasksKeptBySpawn(s: State, a: Action, t: nat)
    requires PairsOk(s) && Enabled(s, a) && BySpawnOnly(a) && t < |After(s, a).tasks|
    ensures TaskOk(After(s, a), t)
  {
    if t < |s.tasks| {
      assert TaskOk(s, t);
    }
    hide PairsOk;
  }

  lemma TasksKeptByStart(s: State, a: Action, t: nat)
    requires PairsOk(s) && Enabled(s, a) && StartsTask(a) && t < |After(s, a).tasks|
    ensures TaskOk(After(s, a), t)
  {
    SpawnTask(s, a);
    assert TaskOk(s, t) && SpawnOk(s, a.spawn);
    hide PairsOk;
  }

  lemma TasksKeptByOthers(s: State, a: Action, t: nat)
    requires PairsOk(s) && Enabled(s, a) && (ByTaskOnly(a) || ByShutdownOnly(a)) && t < |After(s, a).tasks|
    ensures TaskOk(After(s, a), t)
  {
    if ByTaskOnly(a) {
      TaskMoves(s, a);
    } else {
      ShutdownMoves(s, a);
    }
    assert TaskOk(s, t);
    hide After, Enabled, PairsOk;
  }

  lemma StepTasks(s: State, a: Action, t: nat)
    requires PairsOk(s) && Enabled(s, a) && t < |After(s, a).tasks|
    ensures TaskOk(After(s, a), t)
  {
    hide After, Enabled, PairsOk, TaskOk;
    if BySpawnOnly(a) {
      TasksKeptBySpawn(s, a, t);
    } else if StartsTask(a) {
      TasksKeptByStart(s, a, t);
    } else {
      TasksKeptByOthers(s, a, t);
    }
  }

  lemma StepPairs(s: State, a: Action)
    requires PairsOk(s) && Enabled(s, a)
    ensures PairsOk(After(s, a))
  {
    var r := After(s, a);
    hide After, Enabled, SpawnOk, TaskOk;
    forall i: nat | i < |r.spawns| ensures SpawnOk(r, i) {
      StepSpawns(s, a, i);
    }
    forall t: nat | t < |r.tasks| ensures TaskOk(r, t) {
      StepTasks(s, a, t);
    }
  }

  predicate HasTaken(phase: ShutdownPhase) {
    phase == Waiting || phase.Returned?
  }

  lemma ShutdownTaken(s: State, a: Action, j: nat)
    requires Enabled(s, a) && j < |After(s, a).shutdowns|
    ensures HasTaken(After(s, a).shutdowns[j]) <==>
      (j < |s.shutdowns| && HasTaken(s.shutdowns[j])) || (a.Take? && a.shutdown == j)
  {
  }

  lemma ShutdownsGrow(s: State, a: Action)
    requires Enabled(s, a)
    ensures |s.shutdowns| <= |After(s, a).shutdowns| && (a.Take? ==> a.shutdown < |s.shutdowns|)
  {
  }

  /** The list is taken by the step `Take`, and stays taken. */
  lemma StepTaken(s: State, a: Action)
    requires Enabled(s, a)
    ensures Taken(After(s, a)) <==> Taken(s) || a.Take?
  {
    hide After, Enabled;
    var r := After(s, a);
    ShutdownsGrow(s, a);
    if Taken(s) {
      var j: nat :| j < |s.shutdowns| && (s.shutdowns[j] == Waiting || s.shutdowns[j].Returned?);
      ShutdownTaken(s, a, j);
    }
    if a.Take? {
      ShutdownTaken(s, a, a.shutdown);
    }
    if Taken(r) && !a.Take? {
      var j: nat :| j < |r.shutdowns| && (r.shutdowns[j] == Waiting || r.shutdowns[j].Returned?);
      ShutdownTaken(s, a, j);
    }
  }

  lemma ShutdownStops(s: State, a: Action, j: nat)
    requires StoppingOk(s) && Enabled(s, a) && j < |After(s, a).shutdowns|
    ensures After(s, a).shutdowns[j] != ShutdownCalled ==> After(s, a).stopping
  {
    hide Taken;
    if j < |s.shutdowns| {
      assert s.shutdowns[j] != ShutdownCalled ==> s.stopping;
    }
  }

  predicate Admitted(phase: SpawnPhase) {
    phase.Admitting? || phase.Reserved?
  }

  /** Nothing is admitted once the flag is up and the list taken. */
  lemma NoneAdmitted(s: State, a: Action, i: nat)
    requires StoppingOk(s) && Enabled(s, a) && Taken(s) && i < |After(s, a).spawns|
    ensures !Admitted(After(s, a).spawns[i].phase)
  {
    TakenStops(s);
    hide Taken;
    if i < |s.spawns| {
      assert !Admitted(s.spawns[i].phase);
    }
  }

  /** A shutdown that takes the list holds the lock, so nobody is admitted then. */
  lemma NoneAdmittedAtTake(s: State, a: Action, i: nat)
    requires LockOk(s) && Enabled(s, a) && a.Take? && i < |After(s, a).spawns|
    ensures !Admitted(After(s, a).spawns[i].phase)
  {
    assert s.shutdowns[a.shutdown] == ShutdownLocked <==> s.lock == Some(ByShutdown(a.shutdown));
    assert SpawnLocks(s.spawns[i].phase) <==> s.lock == Some(BySpawn(i));
  }

  lemma StepStopping(s: State, a: Action)
    requires StoppingOk(s) && LockOk(s) && Enabled(s, a)
    ensures StoppingOk(After(s, a))
  {
    var r := After(s, a);
    StepTaken(s, a);
    hide Taken, After, Enabled, LockOk;
    forall j: nat | j < |r.shutdowns| ensures r.shutdowns[j] != ShutdownCalled ==> r.stopping {
      ShutdownStops(s, a, j);
    }
    if Taken(r) {
      forall i: nat | i < |r.spawns| ensures !Admitted(r.spawns[i].phase) {
        if a.Take? {
          NoneAdmittedAtTake(s, a, i);
        } else {
          NoneAdmitted(s, a, i);
        }
      }
    }
  }

  lemma TakenStops(s: State)
    requires StoppingOk(s) && Taken(s)
    ensures s.stopping
  {
    var j: nat :| j < |s.shutdowns| && (s.shutdowns[j] == Waiting || s.shutdowns[j].Returned?);
    assert s.shutdowns[j] != ShutdownCalled;
  }

  /** What a step does to tasks: it may add one, change the phase of one, and finish one. */
  lemma StepDone(s: State, a: Action, t: nat)
    requires PairsOk(s) && Enabled(s, a) && t < |After(s, a).tasks| && !After(s, a).tasks[t].Done()
    ensures t < |s.tasks| ==> !s.tasks[t].Done() && s.tasks[t].runId == After(s, a).tasks[t].runId
    ensures t >= |s.tasks| ==> t == |s.tasks| && a.Reserve?
    ensures t >= |s.tasks| ==>
      After(s, a).tasks[t].runId == s.spawns[a.spawn].runId && After(s, a).spawns[a.spawn].phase == Reserved(t)
  {
    SpawnTask(s, a);
  }

  lemma ListedByReserve(s: State, a: Action, t: nat)
    requires Enabled(s, a) && a.Reserve? && t < |s.tasks| && !s.tasks[t].Done()
    requires s.tasks[t].runId in s.listed && s.listed[s.tasks[t].runId] == t
    ensures var r := After(s, a);
      r.tasks[t] == s.tasks[t] && r.tasks[t].runId in r.listed && r.listed[r.tasks[t].runId] == t
  {
  }

  lemma ListedByOthers(s: State, a: Action, t: nat)
    requires Enabled(s, a) && !a.Reserve? && !a.Take? && t < |s.tasks| && !s.tasks[t].Done()
    requires s.tasks[t].runId in s.listed && s.listed[s.tasks[t].runId] == t && !After(s, a).tasks[t].Done()
    ensures var r := After(s, a); s.tasks[t].runId in r.listed && r.listed[s.tasks[t].runId] == t
  {
  }

  lemma ListedNew(s: State, a: Action)
    requires Enabled(s, a) && a.Reserve? && |After(s, a).tasks| > |s.tasks|
    ensures var r, t := After(s, a), |s.tasks|; r.tasks[t].runId in r.listed && r.listed[r.tasks[t].runId] == t
  {
  }

  lemma StepListed(s: State, a: Action, t: nat)
    requires ListOk(s) && StoppingOk(s) && PairsOk(s) && Enabled(s, a) && !Taken(After(s, a))
    requires t < |After(s, a).tasks| && !After(s, a).tasks[t].Done()
    ensures var r := After(s, a); r.tasks[t].runId in r.listed && r.listed[r.tasks[t].runId] == t
  {
    StepTaken(s, a);
    StepDone(s, a, t);
    hide Taken, PairsOk, StoppingOk, After, Enabled, NamesOk;
    if t >= |s.tasks| {
      ListedNew(s, a);
    } else if a.Reserve? {
      ListedByReserve(s, a, t);
    } else {
      ListedByOthers(s, a, t);
    }
  }

  lemma NamesKept(s: State, r: State)
    requires NamesOk(s) && |s.tasks| <= |r.tasks| && (forall t: nat | t < |s.tasks| ::
      r.tasks[t].runId == s.tasks[t].runId)
    requires forall runId <- r.listed :: runId in s.listed && r.listed[runId] == s.listed[runId]
    ensures NamesOk(r)
  {
  }

  lemma NamesReserved(s: State, i: nat)
    requires NamesOk(s) && i < |s.spawns|
    ensures NamesOk(ReserveRun(s, i))
  {
  }

  lemma NamesMove(s: State, a: Action)
    requires Enabled(s, a) && !a.Reserve?
    ensures var r := After(s, a);
      && |s.tasks| == |r.tasks| && (forall t: nat | t < |s.tasks| :: r.tasks[t].runId == s.tasks[t].runId)
      && forall runId <- r.listed :: runId in s.listed && r.listed[runId] == s.listed[runId]
  {
  }

  lemma StepNames(s: State, a: Action)
    requires NamesOk(s) && Enabled(s, a)
    ensures NamesOk(After(s, a))
  {
    if a.Reserve? {
      NamesReserved(s, a.spawn);
    } else {
      NamesMove(s, a);
      hide After, Enabled;
      NamesKept(s, After(s, a));
    }
  }

  lemma StepList(s: State, a: Action)
    requires ListOk(s) && StoppingOk(s) && PairsOk(s) && Enabled(s, a)
    ensures ListOk(After(s, a))
  {
    var r := After(s, a);
    StepNames(s, a);
    hide Taken, PairsOk, StoppingOk, After, Enabled;
    if !Taken(r) {
      forall t: nat | t < |r.tasks| && !r.tasks[t].Done()
        ensures r.tasks[t].runId in r.listed && r.listed[r.tasks[t].runId] == t
      {
        StepListed(s, a, t);
      }
    }
  }

  lemma StepOnePerRun(s: State, a: Action)
    requires OnePerRun(s) && ListOk(s) && StoppingOk(s) && LockOk(s) && PairsOk(s) && Enabled(s, a)
    ensures OnePerRun(After(s, a))
  {
    var r := After(s, a);
    forall t: nat, u: nat | t < |r.tasks| && u < |r.tasks| && !r.tasks[t].Done() && !r.tasks[u].Done()
      && r.tasks[t].runId == r.tasks[u].runId
      ensures t == u
    {
      StepDone(s, a, t);
      StepDone(s, a, u);
      if a.Reserve? && (t == |s.tasks| || u == |s.tasks|) {
        assert !Taken(s);
        assert r.spawns[a.spawn].phase.Reserved?;
      }
    }
  }

  lemma OneElement(a: set<nat>, b: set<nat>, t: nat)
    requires a - {t} == b - {t}
    ensures |b| - |a| == (if t in b then 1 else 0) - (if t in a then 1 else 0)
    ensures t in a ==> |a| > 0
  {
    assert a == a - {t} + if t in a then {t} else {};
    assert b == b - {t} + if t in b then {t} else {};
  }

  /** Changing one task moves the number of guarding tasks by what becomes of that one. */
  lemma GuardingOne(a: seq<Task>, t: nat, task: Task)
    requires t < |a|
    ensures |GuardingTasks(a[t := task])| - |GuardingTasks(a)| == (if task.Guarding() then 1
      else 0) - (if a[t].Guarding() then 1 else 0)
    ensures a[t].Guarding() ==> |GuardingTasks(a)| > 0
  {
    OneElement(GuardingTasks(a), GuardingTasks(a[t := task]), t);
  }

  lemma GuardingSame(a: seq<Task>, task: Task)
    requires !task.Guarding()
    ensures GuardingTasks(a + [task]) == GuardingTasks(a)
  {
  }

  lemma CountBySpawn(s: State, a: Action)
    requires CountOk(s) && Enabled(s, a) && BySpawnOnly(a)
    ensures CountOk(After(s, a))
  {
    hide GuardingTasks;
    if a.Reserve? {
      GuardingSame(s.tasks, Task(s.spawns[a.spawn].runId, a.spawn, Listed));
    }
  }

  lemma CountByTask(s: State, a: Action)
    requires CountOk(s) && Enabled(s, a) && ByTaskOnly(a)
    ensures CountOk(After(s, a)) && (a.Leave? ==> s.count > 0)
  {
    hide GuardingTasks;
    GuardingOne(s.tasks, a.task, After(s, a).tasks[a.task]);
  }

  lemma CountByStart(s: State, a: Action)
    requires CountOk(s) && PairsOk(s) && Enabled(s, a) && StartsTask(a)
    ensures CountOk(After(s, a))
  {
    SpawnTask(s, a);
    hide PairsOk, GuardingTasks;
    var t := s.spawns[a.spawn].phase.task;
    GuardingOne(s.tasks, t, After(s, a).tasks[t]);
  }

  lemma StepCount(s: State, a: Action)
    requires CountOk(s) && PairsOk(s) && Enabled(s, a)
    ensures CountOk(After(s, a))
    ensures a.Leave? ==> s.count > 0
  {
    hide After, Enabled, PairsOk, GuardingTasks;
    if BySpawnOnly(a) {
      CountBySpawn(s, a);
    } else if ByTaskOnly(a) {
      CountByTask(s, a);
    } else if StartsTask(a) {
      CountByStart(s, a);
    } else {
      ShutdownMoves(s, a);
    }
  }

  /** Where the list has been taken and nobody takes part in the barrier, every task is gone. */
  lemma NobodyLeft(s: State)
    requires PairsOk(s) && StoppingOk(s) && CountOk(s) && Taken(s) && s.count == 0
    ensures AllGone(s)
  {
    assert GuardingTasks(s.tasks) == {};
    forall t: nat | t < |s.tasks| ensures s.tasks[t].phase == Gone {
      assert TaskOk(s, t) && t !in GuardingTasks(s.tasks);
    }
  }

  lemma DrainedBefore(s: State, a: Action, j: nat)
    requires Enabled(s, a) && !a.Drain? && j < |After(s, a).shutdowns| && After(s, a).shutdowns[j] == Returned(true)
    ensures Drained(s) && Taken(s)
  {
    assert s.shutdowns[j] == Returned(true);
  }

  lemma DrainWaits(s: State, a: Action)
    requires Enabled(s, a) && a.Drain?
    ensures Taken(s) && s.count == 0 && After(s, a).tasks == s.tasks
  {
    assert s.shutdowns[a.shutdown] == Waiting;
  }

  lemma StepDrained(s: State, a: Action)
    requires DrainedOk(s) && PairsOk(s) && StoppingOk(s) && CountOk(s) && Enabled(s, a)
    ensures DrainedOk(After(s, a))
  {
    hide After, Enabled, PairsOk, StoppingOk, CountOk, Taken;
    var r := After(s, a);
    if Drained(r) {
      if a.Drain? {
        DrainWaits(s, a);
        NobodyLeft(s);
      } else {
        var j: nat :| j < |r.shutdowns| && r.shutdowns[j] == Returned(true);
        DrainedBefore(s, a, j);
        GoneStays(s, a);
      }
    }
  }

  /** Once the list is taken, tasks that are gone stay gone, and none is added. */
  lemma GoneStays(s: State, a: Action)
    requires AllGone(s) && PairsOk(s) && StoppingOk(s) && Taken(s) && Enabled(s, a)
    ensures AllGone(After(s, a))
  {
    SpawnTask(s, a);
    NothingAdmitted(s);
    hide StoppingOk, Taken, PairsOk;
  }

  lemma NothingAdmitted(s: State)
    requires StoppingOk(s) && Taken(s)
    ensures forall i: nat :: !Enabled(s, Reserve(i))
  {
    forall i: nat ensures !Enabled(s, Reserve(i)) {
      assert i < |s.spawns| ==> !s.spawns[i].phase.Admitting?;
    }
  }

  lemma StepInv(s: State, a: Action)
    requires Inv(s) && Enabled(s, a)
    ensures Inv(After(s, a))
  {
    StepLock(s, a);
    StepPairs(s, a);
    StepStopping(s, a);
    StepList(s, a);
    StepOnePerRun(s, a);
    StepCount(s, a);
    StepDrained(s, a);
    hide After, Enabled, LockOk, PairsOk, StoppingOk, ListOk, OnePerRun, CountOk, DrainedOk;
  }

  // ---- every interleaving ----------------------------------------------------------------

  ghost predicate Leads(states: seq<State>, actions: seq<Action>, k: nat)
    requires k < |actions| && k + 1 < |states|
  {
    Enabled(states[k], actions[k]) && states[k + 1] == After(states[k], actions[k])
  }

  /** A run of the threads in some order: each step was enabled. */
  ghost predicate Run(states: seq<State>, actions: seq<Action>) {
    && |states| == |actions| + 1 && states[0] == INITIAL
    && forall k: nat {:trigger Leads(states, actions, k)} | k < |actions| :: Leads(states, actions, k)
  }

  lemma {:induction false} Reachable(states: seq<State>, actions: seq<Action>, k: nat)
    requires Run(states, actions) && k < |states|
    ensures Inv(states[k])
    decreases k
  {
    hide Inv, After, Enabled;
    if k == 0 {
      InitialInv();
    } else {
      Reachable(states, actions, k - 1);
      assert Leads(states, actions, k - 1);
      StepInv(states[k - 1], actions[k - 1]);
    }
  }

  /** In every interleaving the barrier counts exactly the tasks whose guard has not been dropped, and leaving it never
      takes the count below zero. */
  lemma {:induction false} BarrierCounts(states: seq<State>, actions: seq<Action>, k: nat)
    requires Run(states, actions) && k < |states|
    ensures states[k].count == |GuardingTasks(states[k].tasks)|
    ensures k < |actions| && actions[k].Leave? ==> states[k].count > 0
  {
    Reachable(states, actions, k);
    if k < |actions| {
      assert Leads(states, actions, k);
      StepCount(states[k], actions[k]);
    }
  }

  /** In every interleaving a run has at most one task that is not done. */
  lemma {:induction false} OneTaskPerRun(states: seq<State>, actions: seq<Action>, k: nat, t: nat, u: nat)
    requires Run(states, actions) && k < |states| && t < |states[k].tasks| && u < |states[k].tasks|
    requires states[k].tasks[t].runId == states[k].tasks[u].runId && !states[k].tasks[t].Done()
    requires !states[k].tasks[u].Done()
    ensures t == u
  {
    Reachable(states, actions, k);
  }

  /** A shutdown that holds the lock misses no task: all that are not gone are in the count it will wait for. */
  lemma {:induction false} ShutdownMissesNone(states: seq<State>, actions: seq<Action>, k: nat, j: nat, t: nat)
    requires Run(states, actions) && k < |states| && ShutdownAt(states[k], j, ShutdownLocked) && t < |states[k].tasks|
    ensures states[k].tasks[t].Guarding() || states[k].tasks[t].phase == Gone
  {
    var s := states[k];
    Reachable(states, actions, k);
    assert TaskOk(s, t);
    assert SpawnLocks(s.spawns[s.tasks[t].spawn].phase) <==> s.lock == Some(BySpawn(s.tasks[t].spawn));
    assert s.shutdowns[j] == ShutdownLocked <==> s.lock == Some(ByShutdown(j));
  }

  /** Once a shutdown has returned with its wait successful no task is running, in any interleaving, and none ever
      runs again. */
  lemma {:induction false} DrainedForever(states: seq<State>, actions: seq<Action>, k: nat, j: nat, later: nat, t: nat)
    requires Run(states, actions) && k <= later < |states| && ShutdownAt(states[k], j, Returned(true))
    requires t < |states[later].tasks|
    ensures states[later].tasks[t].phase == Gone
  {
    StaysDrained(states, actions, k, j, later);
    Reachable(states, actions, later);
    assert states[later].shutdowns[j] == Returned(true);
  }

  lemma {:induction false} StaysDrained(states: seq<State>, actions: seq<Action>, k: nat, j: nat, later: nat)
    requires Run(states, actions) && k <= later < |states| && ShutdownAt(states[k], j, Returned(true))
    ensures ShutdownAt(states[later], j, Returned(true))
    decreases later
  {
    if k == later {
    } else {
      StaysDrained(states, actions, k, j, later - 1);
      assert Leads(states, actions, later - 1);
      ReturnedStays(states[later - 1], actions[later - 1], j);
    }
  }

  lemma ReturnedStays(s: State, a: Action, j: nat)
    requires ShutdownAt(s, j, Returned(true)) && Enabled(s, a)
    ensures ShutdownAt(After(s, a), j, Returned(true))
  {
  }
}
