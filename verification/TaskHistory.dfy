/** What becomes of a task over any sequence of operations by any callers. */
module TaskHistory {
  import opened Kernel
  import opened TaskIndex
  import opened TaskRun

  datatype Call =
    | ClaimCall(id: string)
    | CompleteCall(id: string, summary: string)
    | BlockCall(id: string, reason: string)

  function After(m: Tasks, call: Call): Tasks {
    match call
    case ClaimCall(id) => Claim(m, id).0
    case CompleteCall(id, summary) => Complete(m, id, summary).0
    case BlockCall(id, reason) => Block(m, id, reason).0
  }

  function AnswerTo(m: Tasks, call: Call): Outcome<Task, WorkflowError> {
    match call
    case ClaimCall(id) => Claim(m, id).1
    case CompleteCall(id, summary) => Complete(m, id, summary).1
    case BlockCall(id, reason) => Block(m, id, reason).1
  }

  ghost predicate Leads(calls: seq<Call>, states: seq<Tasks>, k: nat)
    requires k < |calls| && k + 1 < |states|
  {
    states[k + 1] == After(states[k], calls[k])
  }

  /** `states[k]` are the tasks after the first `k` calls. */
  ghost predicate Trace(calls: seq<Call>, states: seq<Tasks>) {
    && |states| == |calls| + 1
    && forall k: nat {:trigger Leads(calls, states, k)} | k < |calls| :: Leads(calls, states, k)
  }

  /** Call `k` is made on the task and is granted. */
  ghost predicate Granted(calls: seq<Call>, states: seq<Tasks>, k: nat, id: string)
    requires k < |calls| && k < |states|
  {
    calls[k].id == id && AnswerTo(states[k], calls[k]).Success?
  }

  /** The task has been claimed, completed or blocked before call `k`. */
  ghost predicate Claimed(calls: seq<Call>, states: seq<Tasks>, k: nat, id: string) {
    exists j: nat :: j < k && j < |calls| && j < |states| && calls[j].ClaimCall? && Granted(calls, states, j, id)
  }

  ghost predicate Completed(calls: seq<Call>, states: seq<Tasks>, k: nat, id: string) {
    exists j: nat :: j < k && j < |calls| && j < |states| && calls[j].CompleteCall? && Granted(calls, states, j, id)
  }

  ghost predicate BlockedOff(calls: seq<Call>, states: seq<Tasks>, k: nat, id: string) {
    exists j: nat :: j < k && j < |calls| && j < |states| && calls[j].BlockCall? && Granted(calls, states, j, id)
  }

  /** What the calls so far have made of a task that started with this status. */
  ghost function StatusAfter(calls: seq<Call>, states: seq<Tasks>, k: nat, id: string, start: Status): Status {
    if Completed(calls, states, k, id) then Done
    else if BlockedOff(calls, states, k, id) then Blocked
    else if Claimed(calls, states, k, id) then InProgress
    else start
  }

  /** The status that a granted call needs. */
  predicate Allows(call: Call, status: Status) {
    match call
    case ClaimCall(_) => status == Todo
    case CompleteCall(_, _) => status == Todo || status == InProgress
    case BlockCall(_, _) => status != Done && status != Cancelled
  }

  function Made(call: Call): Status {
    match call
    case ClaimCall(_) => InProgress
    case CompleteCall(_, _) => Done
    case BlockCall(_, _) => Blocked
  }

  /** A granted call gives its own task its status; nothing else changes. */
  lemma CallOn(m: Tasks, call: Call, id: string)
    requires id in m
    ensures After(m, call).Keys == m.Keys
    ensures call.id == id && AnswerTo(m, call).Success? ==>
      && Allows(call, m[id].status) && After(m, call)[id].status == Made(call)
      && After(m, call)[id] == m[id].(status := Made(call), resultSummary := After(m, call)[id].resultSummary)
    ensures !(call.id == id && AnswerTo(m, call).Success?) ==> After(m, call)[id] == m[id]
  {
    hide Trim;
  }

  lemma CallKeys(m: Tasks, call: Call)
    ensures After(m, call).Keys == m.Keys
  {
    hide Trim, IsReady;
  }

  lemma OneMore(calls: seq<Call>, states: seq<Tasks>, k: nat, id: string)
    requires k < |calls| && k < |states|
    ensures Completed(calls, states, k + 1, id)
      <==> Completed(calls, states, k, id) || (calls[k].CompleteCall? && Granted(calls, states, k, id))
    ensures BlockedOff(calls, states, k + 1, id)
      <==> BlockedOff(calls, states, k, id) || (calls[k].BlockCall? && Granted(calls, states, k, id))
    ensures Claimed(calls, states, k + 1, id)
      <==> Claimed(calls, states, k, id) || (calls[k].ClaimCall? && Granted(calls, states, k, id))
  {
    hide Granted;
  }

  lemma NothingYet(calls: seq<Call>, states: seq<Tasks>, id: string)
    ensures !Completed(calls, states, 0, id) && !BlockedOff(calls, states, 0, id) && !Claimed(calls, states, 0, id)
  {
  }

  /** A task is done exactly when it was or has been completed; else it is blocked when it has been, else in progress
      when it has been claimed, and else as it was. Its other terms never change but for the summary. */
  lemma {:induction false} StatusExactly(calls: seq<Call>, states: seq<Tasks>, k: nat, id: string)
    requires Trace(calls, states) && k < |states|
    ensures states[k].Keys == states[0].Keys
    ensures id in states[0] ==>
      && states[k][id] == states[0][id].(status := states[k][id].status, resultSummary := states[k][id].resultSummary)
      && states[k][id].status == StatusAfter(calls, states, k, id, states[0][id].status)
    decreases k
  {
    hide After, AnswerTo, Completed, BlockedOff, Claimed;
    if k == 0 {
      NothingYet(calls, states, id);
    } else {
      StatusExactly(calls, states, k - 1, id);
      assert Leads(calls, states, k - 1);
      CallKeys(states[k - 1], calls[k - 1]);
      OneMore(calls, states, k - 1, id);
      assert id in states[0] <==> id in states[k - 1];
      if id in states[0] {
        CallOn(states[k - 1], calls[k - 1], id);
      }
    }
  }

  /** What has been granted tells how the task started. */
  lemma {:induction false} StartedSo(calls: seq<Call>, states: seq<Tasks>, k: nat, id: string)
    requires Trace(calls, states) && k < |states| && id in states[0]
    ensures Claimed(calls, states, k, id) ==> states[0][id].status == Todo
    ensures Completed(calls, states, k, id) ==> states[0][id].status == Todo || states[0][id].status == InProgress
    ensures BlockedOff(calls, states, k, id) ==> states[0][id].status != Done && states[0][id].status != Cancelled
    decreases k
  {
    hide After, AnswerTo, Completed, BlockedOff, Claimed;
    if k == 0 {
      NothingYet(calls, states, id);
    } else {
      StartedSo(calls, states, k - 1, id);
      StatusExactly(calls, states, k - 1, id);
      assert id in states[0] <==> id in states[k - 1];
      OneMore(calls, states, k - 1, id);
      CallOn(states[k - 1], calls[k - 1], id);
    }
  }

  // ---- which calls are granted -----------------------------------------------------------

  /** Nobody has claimed, completed or blocked the task. */
  ghost predicate Untouched(calls: seq<Call>, states: seq<Tasks>, k: nat, id: string) {
    !Claimed(calls, states, k, id) && !Completed(calls, states, k, id) && !BlockedOff(calls, states, k, id)
  }

  /** The task was done from the start or has been completed. */
  ghost predicate GotDone(calls: seq<Call>, states: seq<Tasks>, k: nat, id: string)
    requires states != []
  {
    id in states[0] && (states[0][id].status == Done || Completed(calls, states, k, id))
  }

  lemma {:induction false} DoneExactly(calls: seq<Call>, states: seq<Tasks>, k: nat, id: string)
    requires Trace(calls, states) && k < |states|
    ensures GotDone(calls, states, k, id) <==> id in states[k] && states[k][id].status == Done
  {
    hide Completed, BlockedOff, Claimed;
    StatusExactly(calls, states, k, id);
    assert id in states[0] <==> id in states[k];
    if id in states[0] {
      StartedSo(calls, states, k, id);
    }
  }

  /** A task is claimed exactly when it was waiting, nobody has claimed, completed or blocked it, and all that it
      depends on is done: so no two callers ever claim the same task. */
  lemma {:induction false} ClaimExactly(calls: seq<Call>, states: seq<Tasks>, k: nat)
    requires Trace(calls, states) && k < |calls| && calls[k].ClaimCall?
    ensures var id, start := calls[k].id, states[0];
      Granted(calls, states, k, id) <==>
        && id in start && start[id].status == Todo && Untouched(calls, states, k, id)
        && forall other <- start[id].dependsOn :: GotDone(calls, states, k, other)
  {
    hide Completed, BlockedOff, Claimed, Trim, GotDone;
    var id, start := calls[k].id, states[0];
    StatusExactly(calls, states, k, id);
    assert id in start <==> id in states[k];
    if id in start {
      forall other <- start[id].dependsOn
        ensures GotDone(calls, states, k, other) <==> other in states[k] && states[k][other].status == Done
      {
        DoneExactly(calls, states, k, other);
      }
    }
  }

  /** It is completed exactly when it was waiting or in progress and nobody has completed or blocked it. */
  lemma {:induction false} CompleteExactly(calls: seq<Call>, states: seq<Tasks>, k: nat)
    requires Trace(calls, states) && k < |calls| && calls[k].CompleteCall?
    ensures var id, start := calls[k].id, states[0];
      Granted(calls, states, k, id) <==>
        && id in start && (start[id].status == Todo || start[id].status == InProgress)
        && !Completed(calls, states, k, id) && !BlockedOff(calls, states, k, id)
    ensures Granted(calls, states, k, calls[k].id) ==>
      calls[k].id in states[k + 1] && states[k + 1][calls[k].id].resultSummary == Trim(calls[k].summary)
  {
    hide Completed, BlockedOff, Claimed, Trim;
    var id := calls[k].id;
    StatusExactly(calls, states, k, id);
    assert id in states[0] <==> id in states[k];
    assert Leads(calls, states, k);
    if id in states[0] {
      StartedSo(calls, states, k, id);
    }
  }

  /** It is blocked exactly when it was neither done nor cancelled and nobody has completed it. */
  lemma {:induction false} BlockExactly(calls: seq<Call>, states: seq<Tasks>, k: nat)
    requires Trace(calls, states) && k < |calls| && calls[k].BlockCall?
    ensures var id, start := calls[k].id, states[0];
      Granted(calls, states, k, id) <==>
        && id in start && start[id].status != Done && start[id].status != Cancelled
        && !Completed(calls, states, k, id)
    ensures Granted(calls, states, k, calls[k].id) ==>
      calls[k].id in states[k + 1] && states[k + 1][calls[k].id].resultSummary == Trim(calls[k].reason)
  {
    hide Completed, BlockedOff, Claimed, Trim;
    var id := calls[k].id;
    StatusExactly(calls, states, k, id);
    assert id in states[0] <==> id in states[k];
    assert Leads(calls, states, k);
    if id in states[0] {
      StartedSo(calls, states, k, id);
    }
  }
}
