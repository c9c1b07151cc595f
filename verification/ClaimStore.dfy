/** The store of claims: maps updated in place, each method proved to do what `Claims` specifies. */
module ClaimStore {
  import opened Kernel
  import opened Claims

  class ClaimStore {
    var runLeases: map<string, RunLease>
    var toolInvocations: map<Key, Invocation>

    ghost function State(): Checkpoint
      reads this
    {
      Checkpoint(runLeases, toolInvocations)
    }

    constructor ()
      ensures State() == EMPTY
    {
      runLeases, toolInvocations := map[], map[];
    }

    method ClaimRun(runId: string, ownerId: string, now: int, ttl: int) returns (r: Outcome<RunLease, ClaimError>)
      modifies `runLeases
      ensures (State(), r) == Claims.ClaimRun(old(State()), runId, ownerId, now, ttl)
    {
      if Trim(runId) == "" || Trim(ownerId) == "" {
        return Failure(Incomplete);
      }
      if ttl <= 0 {
        return Failure(InvalidTtl);
      }
      var expiresAt := Expiry(now, ttl);
      var lease: RunLease;
      if runId in runLeases {
        lease := runLeases[runId];
        if lease.expiresAt > now && lease.ownerId != ownerId {
          return Failure(RunLeaseHeld);
        }
        if lease.expiresAt <= now {
          lease := lease.(ownerId := ownerId, token := Next(lease.token));
        }
        lease := lease.(heartbeatAt := now, expiresAt := expiresAt);
      } else {
        lease := RunLease(runId, ownerId, 1, now, expiresAt);
      }
      runLeases := runLeases[runId := lease];
      return Success(lease);
    }

    /** Whether a caller holds the run. */
    predicate HoldsRun(runId: string, ownerId: string, token: nat, now: int)
      reads this
      ensures HoldsRun(runId, ownerId, token, now) <==> Holds(State(), runId, ownerId, token, now)
    {
      runId in runLeases && runLeases[runId].ownerId == ownerId && runLeases[runId].token == token
        && runLeases[runId].expiresAt > now
    }

    method HeartbeatRun(lease: RunLease, now: int, ttl: int) returns (r: Outcome<RunLease, ClaimError>)
      modifies `runLeases
      ensures (State(), r) == Claims.HeartbeatRun(old(State()), lease, now, ttl)
    {
      if ttl <= 0 {
        return Failure(InvalidTtl);
      }
      if !HoldsRun(lease.runId, lease.ownerId, lease.token, now) {
        return Failure(RunLeaseLost);
      }
      var renewed := runLeases[lease.runId].(heartbeatAt := now, expiresAt := Expiry(now, ttl));
      runLeases := runLeases[lease.runId := renewed];
      return Success(renewed);
    }

    method ReleaseRun(lease: RunLease, now: int) returns (released: bool)
      modifies `runLeases
      ensures (State(), released) == Claims.ReleaseRun(old(State()), lease, now)
    {
      if lease.runId !in runLeases {
        return false;
      }
      var current := runLeases[lease.runId];
      if current.ownerId != lease.ownerId || current.token != lease.token {
        return false;
      }
      runLeases := runLeases[lease.runId := current.(ownerId := "", token := Next(current.token), heartbeatAt := now,
        expiresAt := now)];
      return true;
    }

    method ClaimTool(request: Request) returns (r: Outcome<Ticket, ClaimError>)
      modifies `toolInvocations
      ensures (State(), r) == Claims.ClaimTool(old(State()), request)
    {
      if ValidRequest(request).Some? {
        return Failure(ValidRequest(request).value);
      }
      if !HoldsRun(request.runId, request.ownerId, request.runLeaseToken, request.now) {
        return Failure(RunLeaseLost);
      }
      var key := request.KeyOf();
      var expiresAt := Expiry(request.now, request.ttl);
      if key !in toolInvocations {
        var invocation := Invocation(request.runId, request.idempotencyKey, request.toolName, Running,
                                     request.ownerId, 1, request.runLeaseToken, request.input, None, expiresAt);
        toolInvocations := toolInvocations[key := invocation];
        return Success(TicketFor(invocation, true, false));
      }
      var invocation := toolInvocations[key];
      if invocation.toolName != request.toolName || invocation.input != request.input {
        return Failure(ToolKeyReused);
      }
      match invocation.status {
        case Completed =>
          return Success(TicketFor(invocation, false, true));
        case Indeterminate =>
          return Failure(ToolOutcomeUnknown);
        case Running =>
          if invocation.expiresAt > request.now {
            return Failure(ToolInvocationInFlight);
          }
          if request.mode == FailClosed {
            toolInvocations := toolInvocations[key := invocation.(status := Indeterminate, expiresAt := request.now)];
            return Failure(ToolOutcomeUnknown);
          }
          invocation := invocation.(ownerId := request.ownerId, token := Next(invocation.token),
                                    runLeaseToken := request.runLeaseToken, expiresAt := expiresAt);
          toolInvocations := toolInvocations[key := invocation];
          return Success(TicketFor(invocation, true, false));
      }
    }

    method CompleteTool(ticket: Ticket, output: Payload, now: int) returns (r: Outcome<(), ClaimError>)
      modifies `toolInvocations
      ensures (State(), r) == Claims.CompleteTool(old(State()), ticket, output, now)
    {
      if !HoldsRun(ticket.runId, ticket.ownerId, ticket.runLeaseToken, now) {
        return Failure(RunLeaseLost);
      }
      var key := ticket.KeyOf();
      if key !in toolInvocations {
        return Failure(ToolInvocationLost);
      }
      var invocation := toolInvocations[key];
      if invocation.ownerId != ticket.ownerId || invocation.token != ticket.token
         || invocation.status != Running || invocation.expiresAt <= now {
        return Failure(ToolInvocationLost);
      }
      toolInvocations := toolInvocations[key := invocation.(status := Completed, output := Some(output),
        expiresAt := now)];
      return Success(());
    }
  }
}
