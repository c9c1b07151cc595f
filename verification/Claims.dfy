/** Durable claims: run leases and idempotent tool invocations, fenced by tokens.
    What the operations promise is proved over every sequence of calls, made by any callers with any leases and
    tickets, kept, late or forged. */
module Claims {
  import opened Kernel

  const I64_MAX: int := 0x7FFF_FFFF_FFFF_FFFF
  const I64_MIN: int := -0x8000_0000_0000_0000

  /** A payload, compared only for equality. */
  type Payload = string

  datatype Mode = FailClosed | ReplaySafe | Keyed

  datatype Status = Running | Completed | Indeterminate

  datatype RunLease = RunLease(runId: string, ownerId: string, token: nat, heartbeatAt: int, expiresAt: int)

  /** The run and the idempotency key of an invocation. */
  type Key = (string, string)

  datatype Invocation = Invocation(
    runId: string, idempotencyKey: string, toolName: string, status: Status, ownerId: string, token: nat,
    runLeaseToken: nat, input: Payload, output: Option<Payload>, expiresAt: int)

  datatype Request = Request(
    runId: string, idempotencyKey: string, toolName: string, ownerId: string, runLeaseToken: nat, input: Payload,
    mode: Mode, now: int, ttl: int)
  {
    function KeyOf(): Key { (runId, idempotencyKey) }
  }

  datatype Ticket = Ticket(
    runId: string, idempotencyKey: string, ownerId: string, token: nat, runLeaseToken: nat,
    execute: bool, replayed: bool, output: Option<Payload>)
  {
    function KeyOf(): Key { (runId, idempotencyKey) }
  }

  datatype ClaimError =
    Incomplete | InvalidTtl | RunLeaseHeld | RunLeaseLost | ToolKeyReused | ToolInvocationInFlight
    | ToolOutcomeUnknown | ToolInvocationLost

  datatype Checkpoint = Checkpoint(runs: map<string, RunLease>, tools: map<Key, Invocation>)

  const EMPTY := Checkpoint(map[], map[])

  /** A token grows by one until it saturates at 64 bits. */
  function Next(token: nat): (r: nat)
    ensures r >= token
    ensures r > token <==> token < U64_MAX
  {
    if token < U64_MAX then token + 1 else token
  }

  function Expiry(now: int, ttl: int): (r: int)
    ensures I64_MIN <= r <= I64_MAX && (I64_MIN <= now + ttl <= I64_MAX ==> r == now + ttl)
    ensures (now + ttl > I64_MAX ==> r == I64_MAX) && (now + ttl < I64_MIN ==> r == I64_MIN)
  {
    if now + ttl > I64_MAX then I64_MAX else if now + ttl < I64_MIN then I64_MIN else now + ttl
  }

  // ---- the operations as functions -------------------------------------------------------

  function ClaimRun(cp: Checkpoint, runId: string, ownerId: string, now: int, ttl: int): (Checkpoint,
        Outcome<RunLease, ClaimError>) {
    if Trim(runId) == "" || Trim(ownerId) == "" then (cp, Failure(Incomplete))
    else if ttl <= 0 then (cp, Failure(InvalidTtl))
    else if runId in cp.runs && cp.runs[runId].expiresAt > now && cp.runs[runId].ownerId != ownerId then
      (cp, Failure(RunLeaseHeld))
    else
      var lease :=
        if runId !in cp.runs then RunLease(runId, ownerId, 1, now, Expiry(now, ttl))
        else if cp.runs[runId].expiresAt > now then cp.runs[runId].(heartbeatAt := now, expiresAt := Expiry(now, ttl))
        else cp.runs[runId].(ownerId := ownerId, token := Next(cp.runs[runId].token), heartbeatAt := now,
          expiresAt := Expiry(now, ttl));
      (cp.(runs := cp.runs[runId := lease]), Success(lease))
  }

  /** The run's lease is this owner's, under this token, and has not expired. */
  predicate Holds(cp: Checkpoint, runId: string, ownerId: string, token: nat, now: int) {
    && runId in cp.runs && cp.runs[runId].ownerId == ownerId && cp.runs[runId].token == token
    && cp.runs[runId].expiresAt > now
  }

  function HeartbeatRun(cp: Checkpoint, lease: RunLease, now: int, ttl: int): (Checkpoint,
        Outcome<RunLease, ClaimError>) {
    if ttl <= 0 then (cp, Failure(InvalidTtl))
    else if !Holds(cp, lease.runId, lease.ownerId, lease.token, now) then (cp, Failure(RunLeaseLost))
    else
      var renewed := cp.runs[lease.runId].(heartbeatAt := now, expiresAt := Expiry(now, ttl));
      (cp.(runs := cp.runs[lease.runId := renewed]), Success(renewed))
  }

  function ReleaseRun(cp: Checkpoint, lease: RunLease, now: int): (Checkpoint, bool) {
    if lease.runId !in cp.runs || cp.runs[lease.runId].ownerId != lease.ownerId
      || cp.runs[lease.runId].token != lease.token then (cp, false)
    else
      var released := cp.runs[lease.runId].(ownerId := "", token := Next(lease.token), heartbeatAt := now,
        expiresAt := now);
      (cp.(runs := cp.runs[lease.runId := released]), true)
  }

  function TicketFor(i: Invocation, execute: bool, replayed: bool): Ticket {
    Ticket(i.runId, i.idempotencyKey, i.ownerId, i.token, i.runLeaseToken, execute, replayed, i.output)
  }

  function SetTool(cp: Checkpoint, key: Key, i: Invocation): Checkpoint {
    cp.(tools := cp.tools[key := i])
  }

  function ValidRequest(r: Request): Option<ClaimError> {
    if Trim(r.runId) == "" || Trim(r.idempotencyKey) == "" || Trim(r.toolName) == "" || Trim(r.ownerId) == "" then
      Some(Incomplete)
    else if r.ttl <= 0 then Some(InvalidTtl)
    else None
  }

  function ClaimTool(cp: Checkpoint, r: Request): (Checkpoint, Outcome<Ticket, ClaimError>) {
    if ValidRequest(r).Some? then (cp, Failure(ValidRequest(r).value))
    else if !Holds(cp, r.runId, r.ownerId, r.runLeaseToken, r.now) then (cp, Failure(RunLeaseLost))
    else if r.KeyOf() !in cp.tools then
      var i := Invocation(r.runId, r.idempotencyKey, r.toolName, Running, r.ownerId, 1, r.runLeaseToken, r.input, None,
        Expiry(r.now, r.ttl));
      (SetTool(cp, r.KeyOf(), i), Success(TicketFor(i, true, false)))
    else
      var i := cp.tools[r.KeyOf()];
      if i.toolName != r.toolName || i.input != r.input then (cp, Failure(ToolKeyReused))
      else
        match i.status
        case Completed => (cp, Success(TicketFor(i, false, true)))
        case Indeterminate => (cp, Failure(ToolOutcomeUnknown))
        case Running =>
          if i.expiresAt > r.now then (cp, Failure(ToolInvocationInFlight))
          else if r.mode == FailClosed then
            (SetTool(cp, r.KeyOf(), i.(status := Indeterminate, expiresAt := r.now)), Failure(ToolOutcomeUnknown))
          else
            var taken := i.(ownerId := r.ownerId, token := Next(i.token), runLeaseToken := r.runLeaseToken,
              expiresAt := Expiry(r.now, r.ttl));
            (SetTool(cp, r.KeyOf(), taken), Success(TicketFor(taken, true, false)))
  }

  function CompleteTool(cp: Checkpoint, t: Ticket, output: Payload, now: int): (Checkpoint, Outcome<(), ClaimError>) {
    if !Holds(cp, t.runId, t.ownerId, t.runLeaseToken, now) then (cp, Failure(RunLeaseLost))
    else if t.KeyOf() !in cp.tools then (cp, Failure(ToolInvocationLost))
    else
      var i := cp.tools[t.KeyOf()];
      if i.ownerId != t.ownerId || i.token != t.token || i.status != Running || i.expiresAt <= now then
        (cp, Failure(ToolInvocationLost))
      else (SetTool(cp, t.KeyOf(), i.(status := Completed, output := Some(output), expiresAt := now)), Success(()))
  }

  // ---- traces ----------------------------------------------------------------------------

  datatype Call =
    | ClaimRunCall(runId: string, ownerId: string, at: int, ttl: int)
    | HeartbeatCall(lease: RunLease, at: int, ttl: int)
    | ReleaseCall(lease: RunLease, at: int)
    | ClaimToolCall(request: Request)
    | CompleteCall(ticket: Ticket, output: Payload, at: int)
  {
    function Now(): int {
      if ClaimToolCall? then request.now else at
    }
  }

  datatype Answer =
    | LeaseAnswer(lease: Outcome<RunLease, ClaimError>)
    | ReleaseAnswer(released: bool)
    | TicketAnswer(ticket: Outcome<Ticket, ClaimError>)
    | CompleteAnswer(done: Outcome<(), ClaimError>)

  function After(cp: Checkpoint, call: Call): Checkpoint {
    match call
    case ClaimRunCall(runId, ownerId, at, ttl) => ClaimRun(cp, runId, ownerId, at, ttl).0
    case HeartbeatCall(lease, at, ttl) => HeartbeatRun(cp, lease, at, ttl).0
    case ReleaseCall(lease, at) => ReleaseRun(cp, lease, at).0
    case ClaimToolCall(request) => ClaimTool(cp, request).0
    case CompleteCall(ticket, output, at) => CompleteTool(cp, ticket, output, at).0
  }

  function AnswerTo(cp: Checkpoint, call: Call): Answer {
    match call
    case ClaimRunCall(runId, ownerId, at, ttl) => LeaseAnswer(ClaimRun(cp, runId, ownerId, at, ttl).1)
    case HeartbeatCall(lease, at, ttl) => LeaseAnswer(HeartbeatRun(cp, lease, at, ttl).1)
    case ReleaseCall(lease, at) => ReleaseAnswer(ReleaseRun(cp, lease, at).1)
    case ClaimToolCall(request) => TicketAnswer(ClaimTool(cp, request).1)
    case CompleteCall(ticket, output, at) => CompleteAnswer(CompleteTool(cp, ticket, output, at).1)
  }

  ghost predicate Leads(calls: seq<Call>, states: seq<Checkpoint>, k: nat)
    requires k < |calls| && k + 1 < |states|
  {
    states[k + 1] == After(states[k], calls[k])
  }

  /** `states[k]` is what the store holds after the first `k` calls. */
  ghost predicate Trace(calls: seq<Call>, states: seq<Checkpoint>) {
    && |states| == |calls| + 1 && states[0] == EMPTY
    && forall k: nat {:trigger Leads(calls, states, k)} | k < |calls| :: Leads(calls, states, k)
  }

  /** Call `k` hands out an execute ticket for `key`. */
  ghost predicate Issues(calls: seq<Call>, states: seq<Checkpoint>, k: nat, key: Key, ticket: Ticket)
    requires k < |calls| && k < |states|
  {
    calls[k].ClaimToolCall? && calls[k].request.KeyOf() == key
      && AnswerTo(states[k], calls[k]) == TicketAnswer(Success(ticket)) && ticket.execute
  }

  /** Call `k` completes `key` with its ticket. */
  ghost predicate Completes(calls: seq<Call>, states: seq<Checkpoint>, k: nat, key: Key)
    requires k < |calls| && k < |states|
  {
    calls[k].CompleteCall? && calls[k].ticket.KeyOf() == key && AnswerTo(states[k], calls[k])
      == CompleteAnswer(Success(()))
  }

  /** Call `k` grants or renews a lease. */
  ghost predicate Grants(calls: seq<Call>, states: seq<Checkpoint>, k: nat, lease: RunLease)
    requires k < |calls| && k < |states|
  {
    AnswerTo(states[k], calls[k]) == LeaseAnswer(Success(lease))
  }

  /** Call `k` gives up the lease of `runId` held under `token`. */
  ghost predicate Releases(calls: seq<Call>, states: seq<Checkpoint>, k: nat, runId: string, token: nat)
    requires k < |calls| && k < |states|
  {
    calls[k].ReleaseCall? && calls[k].lease.runId == runId && calls[k].lease.token == token
      && AnswerTo(states[k], calls[k]) == ReleaseAnswer(true)
  }

  // ---- what a call keeps -----------------------------------------------------------------

  /** A finished invocation never changes again, and a running one keeps its tool and its input. */
  ghost predicate ToolAdvances(a: Invocation, b: Invocation) {
    && a.toolName == b.toolName && a.input == b.input && a.token <= b.token
    && (a.status != Running ==> b == a)
  }

  /** Tokens only grow, nothing is forgotten, and a token that stays keeps its owner unless it is saturated. */
  ghost predicate Advances(a: Checkpoint, b: Checkpoint) {
    && (forall run <- a.runs :: run in b.runs && a.runs[run].token <= b.runs[run].token)
    && (forall key <- a.tools :: key in b.tools && ToolAdvances(a.tools[key], b.tools[key]))
  }

  /** Records stand under their own keys, and no token exceeds the number of calls made. */
  ghost predicate WellKept(cp: Checkpoint, count: nat) {
    && (forall run <- cp.runs :: cp.runs[run].runId == run && 1 <= cp.runs[run].token <= count)
    && (forall key <- cp.tools ::
      (cp.tools[key].runId, cp.tools[key].idempotencyKey) == key && 1 <= cp.tools[key].token <= count)
  }

  ghost predicate Kept(a: Checkpoint, b: Checkpoint, count: nat) {
    Advances(a, b) && WellKept(b, count + 1)
  }

  lemma SetRunKept(cp: Checkpoint, run: string, lease: RunLease, count: nat)
    requires WellKept(cp, count) && lease.runId == run && 1 <= lease.token <= count + 1
    requires run in cp.runs ==> cp.runs[run].token <= lease.token
    ensures Kept(cp, cp.(runs := cp.runs[run := lease]), count)
  {
  }

  lemma SetToolKept(cp: Checkpoint, key: Key, i: Invocation, count: nat)
    requires WellKept(cp, count) && (i.runId, i.idempotencyKey) == key && 1 <= i.token <= count + 1
    requires key in cp.tools ==> ToolAdvances(cp.tools[key], i)
    ensures Kept(cp, SetTool(cp, key, i), count)
  {
  }

  lemma SameKept(cp: Checkpoint, count: nat)
    requires WellKept(cp, count)
    ensures Kept(cp, cp, count)
  {
  }

  lemma ClaimRunKept(cp: Checkpoint, runId: string, ownerId: string, now: int, ttl: int, count: nat)
    requires WellKept(cp, count)
    ensures Kept(cp, ClaimRun(cp, runId, ownerId, now, ttl).0, count)
  {
    SameKept(cp, count);
    var (next, reply) := ClaimRun(cp, runId, ownerId, now, ttl);
    if reply.Success? {
      SetRunKept(cp, runId, reply.value, count);
    }
    hide Kept, WellKept, Advances;
  }

  lemma HeartbeatKept(cp: Checkpoint, lease: RunLease, now: int, ttl: int, count: nat)
    requires WellKept(cp, count)
    ensures Kept(cp, HeartbeatRun(cp, lease, now, ttl).0, count)
  {
    SameKept(cp, count);
    var (next, reply) := HeartbeatRun(cp, lease, now, ttl);
    if reply.Success? {
      SetRunKept(cp, lease.runId, reply.value, count);
    }
    hide Kept, WellKept, Advances;
  }

  lemma ReleaseKept(cp: Checkpoint, lease: RunLease, now: int, count: nat)
    requires WellKept(cp, count)
    ensures Kept(cp, ReleaseRun(cp, lease, now).0, count)
  {
    SameKept(cp, count);
    var (next, released) := ReleaseRun(cp, lease, now);
    if released {
      SetRunKept(cp, lease.runId, next.runs[lease.runId], count);
    }
    hide Kept, WellKept, Advances;
  }

  lemma ClaimToolKept(cp: Checkpoint, r: Request, count: nat)
    requires WellKept(cp, count)
    ensures Kept(cp, ClaimTool(cp, r).0, count)
  {
    SameKept(cp, count);
    var next := ClaimTool(cp, r).0;
    if next != cp {
      SetToolKept(cp, r.KeyOf(), next.tools[r.KeyOf()], count);
    }
    hide Kept, WellKept, Advances;
  }

  lemma CompleteToolKept(cp: Checkpoint, t: Ticket, output: Payload, now: int, count: nat)
    requires WellKept(cp, count)
    ensures Kept(cp, CompleteTool(cp, t, output, now).0, count)
  {
    SameKept(cp, count);
    var (next, reply) := CompleteTool(cp, t, output, now);
    if reply.Success? {
      SetToolKept(cp, t.KeyOf(), next.tools[t.KeyOf()], count);
    }
    hide Kept, WellKept, Advances;
  }

  lemma CallKept(cp: Checkpoint, call: Call, count: nat)
    requires WellKept(cp, count)
    ensures Kept(cp, After(cp, call), count)
  {
    hide Kept, WellKept, ClaimRun, HeartbeatRun, ReleaseRun, ClaimTool, CompleteTool;
    match call
    case ClaimRunCall(runId, ownerId, at, ttl) => ClaimRunKept(cp, runId, ownerId, at, ttl, count);
    case HeartbeatCall(lease, at, ttl) => HeartbeatKept(cp, lease, at, ttl, count);
    case ReleaseCall(lease, at) => ReleaseKept(cp, lease, at, count);
    case ClaimToolCall(request) => ClaimToolKept(cp, request, count);
    case CompleteCall(ticket, output, at) => CompleteToolKept(cp, ticket, output, at, count);
  }

  lemma {:induction false} TraceKeeps(calls: seq<Call>, states: seq<Checkpoint>, k: nat)
    requires Trace(calls, states) && k < |states|
    ensures WellKept(states[k], k)
    decreases k
  {
    hide After;
    if k == 0 {
    } else {
      TraceKeeps(calls, states, k - 1);
      assert Leads(calls, states, k - 1);
      CallKept(states[k - 1], calls[k - 1], k - 1);
    }
  }

  lemma AdvancesTransitive(a: Checkpoint, b: Checkpoint, c: Checkpoint)
    requires Advances(a, b) && Advances(b, c)
    ensures Advances(a, c)
  {
    forall key <- a.tools ensures key in c.tools && ToolAdvances(a.tools[key], c.tools[key]) {
      assert ToolAdvances(a.tools[key], b.tools[key]) && ToolAdvances(b.tools[key], c.tools[key]);
    }
  }

  lemma {:induction false} TraceAdvances(calls: seq<Call>, states: seq<Checkpoint>, i: nat, k: nat)
    requires Trace(calls, states) && i <= k < |states|
    ensures Advances(states[i], states[k])
    decreases k
  {
    hide After, WellKept;
    if i == k {
    } else {
      TraceAdvances(calls, states, i, k - 1);
      TraceKeeps(calls, states, k - 1);
      assert Leads(calls, states, k - 1);
      CallKept(states[k - 1], calls[k - 1], k - 1);
      AdvancesTransitive(states[i], states[k - 1], states[k]);
    }
  }

  // ---- completions -----------------------------------------------------------------------

  lemma CompletionOutcome(calls: seq<Call>, states: seq<Checkpoint>, k: nat, key: Key)
    requires Trace(calls, states) && k < |calls| && Completes(calls, states, k, key)
    ensures key in states[k].tools && states[k].tools[key].status == Running
    ensures states[k].tools[key].ownerId == calls[k].ticket.ownerId
    ensures states[k].tools[key].token == calls[k].ticket.token && states[k].tools[key].expiresAt > calls[k].Now()
    ensures key in states[k + 1].tools && states[k + 1].tools[key].status == Completed
    ensures states[k + 1].tools[key].output == Some(calls[k].output)
    ensures Holds(states[k], calls[k].ticket.runId, calls[k].ticket.ownerId, calls[k].ticket.runLeaseToken,
      calls[k].Now())
  {
    assert Leads(calls, states, k);
  }

  /** Whatever the callers do, a key is completed at most once. */
  lemma {:induction false} CompletedOnce(calls: seq<Call>, states: seq<Checkpoint>, i: nat, j: nat, key: Key)
    requires Trace(calls, states) && i < |calls| && j < |calls|
    requires Completes(calls, states, i, key) && Completes(calls, states, j, key)
    ensures i == j
  {
    hide After, AnswerTo;
    CompletionOutcome(calls, states, i, key);
    CompletionOutcome(calls, states, j, key);
    if i < j {
      TraceAdvances(calls, states, i + 1, j);
    } else if j < i {
      TraceAdvances(calls, states, j + 1, i);
    }
  }

  lemma ClaimOfCompleted(cp: Checkpoint, r: Request)
    requires r.KeyOf() in cp.tools && cp.tools[r.KeyOf()].status == Completed
    ensures var answer, i := ClaimTool(cp, r).1, cp.tools[r.KeyOf()];
      && (answer.Success? ==> !answer.value.execute && answer.value.replayed && answer.value.output == i.output)
      && (answer.Success? <==>
          && ValidRequest(r).None? && Holds(cp, r.runId, r.ownerId, r.runLeaseToken, r.now)
          && i.toolName == r.toolName && i.input == r.input)
  {
    hide ValidRequest, Holds;
  }

  /** After a completion every claim of the key by the holder of the run, for the same tool and input, replays the
      one recorded output; no claim is told to execute again. */
  lemma {:induction false} OutputReplayed(calls: seq<Call>, states: seq<Checkpoint>, i: nat, j: nat, key: Key)
    requires Trace(calls, states) && i < j < |calls| && Completes(calls, states, i, key)
    requires calls[j].ClaimToolCall? && calls[j].request.KeyOf() == key
    ensures var r, answer := calls[j].request, ClaimTool(states[j], calls[j].request).1;
      && AnswerTo(states[j], calls[j]) == TicketAnswer(answer)
      && (answer.Success? ==>
        !answer.value.execute && answer.value.replayed && answer.value.output == Some(calls[i].output))
      && (answer.Success? <==>
          && ValidRequest(r).None? && Holds(states[j], r.runId, r.ownerId, r.runLeaseToken, r.now)
          && key in states[j].tools && states[j].tools[key].toolName == r.toolName
            && states[j].tools[key].input == r.input)
  {
    hide After, ValidRequest, Holds, ClaimTool;
    CompletionOutcome(calls, states, i, key);
    TraceAdvances(calls, states, i + 1, j);
    assert ToolAdvances(states[i + 1].tools[key], states[j].tools[key]);
    ClaimOfCompleted(states[j], calls[j].request);
  }

  // ---- tickets ---------------------------------------------------------------------------

  /** The invocation is what the request asked for, and expires when the request said. */
  predicate Records(i: Invocation, r: Request) {
    i.toolName == r.toolName && i.input == r.input && i.expiresAt == Expiry(r.now, r.ttl)
  }

  lemma ClaimIssues(cp: Checkpoint, r: Request, count: nat)
    requires WellKept(cp, count) && ClaimTool(cp, r).1.Success? && ClaimTool(cp, r).1.value.execute
    ensures var (next, ticket) := (ClaimTool(cp, r).0, ClaimTool(cp, r).1.value);
      && ticket.KeyOf() == r.KeyOf() && r.KeyOf() in next.tools && next.tools[r.KeyOf()].status == Running
      && next.tools[r.KeyOf()].token == ticket.token && next.tools[r.KeyOf()].ownerId == ticket.ownerId
      && Records(next.tools[r.KeyOf()], r) && ticket.ownerId == r.ownerId && ticket.runLeaseToken == r.runLeaseToken
      && !ticket.replayed && Holds(cp, r.runId, r.ownerId, r.runLeaseToken, r.now) && ValidRequest(r).None?
      && (r.KeyOf() in cp.tools ==>
          && ticket.token == Next(cp.tools[r.KeyOf()].token) && r.mode != FailClosed
          && cp.tools[r.KeyOf()].status == Running && cp.tools[r.KeyOf()].expiresAt <= r.now
          && cp.tools[r.KeyOf()].toolName == r.toolName && cp.tools[r.KeyOf()].input == r.input)
  {
    hide ValidRequest, Holds, Next;
  }

  lemma IssueOutcome(calls: seq<Call>, states: seq<Checkpoint>, k: nat, key: Key, ticket: Ticket)
    requires Trace(calls, states) && k < |calls| && Issues(calls, states, k, key, ticket)
    ensures calls[k].request.KeyOf() == key
    ensures key in states[k + 1].tools && states[k + 1].tools[key].status == Running
    ensures states[k + 1].tools[key].token == ticket.token && states[k + 1].tools[key].ownerId == ticket.ownerId
    ensures Records(states[k + 1].tools[key], calls[k].request)
    ensures var r := calls[k].request;
      && Holds(states[k], r.runId, r.ownerId, r.runLeaseToken, r.now)
      && ticket.ownerId == r.ownerId && ticket.runLeaseToken == r.runLeaseToken && !ticket.replayed
    ensures key in states[k].tools ==>
      && ticket.token == Next(states[k].tools[key].token) && calls[k].request.mode != FailClosed
      && states[k].tools[key].status == Running && states[k].tools[key].expiresAt <= calls[k].Now()
      && states[k].tools[key].toolName == calls[k].request.toolName
      && states[k].tools[key].input == calls[k].request.input
  {
    hide ClaimTool, Next, WellKept, Records;
    assert Leads(calls, states, k);
    TraceKeeps(calls, states, k);
    ClaimIssues(states[k], calls[k].request, k);
  }

  /** Each execute ticket of a key carries a larger token than the ones before it. */
  lemma {:induction false} TokensIncrease(calls: seq<Call>, states: seq<Checkpoint>, i: nat, j: nat, key: Key,
        first: Ticket, second: Ticket)
    requires Trace(calls, states) && |calls| <= U64_MAX && i < j < |calls|
    requires Issues(calls, states, i, key, first) && Issues(calls, states, j, key, second)
    ensures first.token < second.token
  {
    hide After, AnswerTo;
    IssueOutcome(calls, states, i, key, first);
    IssueOutcome(calls, states, j, key, second);
    TraceAdvances(calls, states, i + 1, j);
    TraceKeeps(calls, states, j);
    assert ToolAdvances(states[i + 1].tools[key], states[j].tools[key]);
  }

  /** Asked for in fail-closed mode only, a key is handed out for execution at most once. */
  lemma {:induction false} FailClosedExecutesOnce(calls: seq<Call>, states: seq<Checkpoint>, i: nat, j: nat, key: Key,
        first: Ticket, second: Ticket)
    requires Trace(calls, states) && i < |calls| && j < |calls|
    requires Issues(calls, states, i, key, first) && Issues(calls, states, j, key, second)
    requires forall k | 0 <= k < |calls| && calls[k].ClaimToolCall? && calls[k].request.KeyOf() == key ::
      calls[k].request.mode == FailClosed
    ensures i == j
  {
    hide After, AnswerTo;
    IssueOutcome(calls, states, i, key, first);
    IssueOutcome(calls, states, j, key, second);
    if i < j {
      TraceAdvances(calls, states, i + 1, j);
    } else if j < i {
      TraceAdvances(calls, states, j + 1, i);
    }
  }

  /** `i` is the last call before `k` that handed out an execute ticket for `key`. */
  ghost predicate LastIssue(calls: seq<Call>, states: seq<Checkpoint>, i: nat, k: nat, key: Key, ticket: Ticket)
    requires k <= |calls| && k < |states|
  {
    && i < k && Issues(calls, states, i, key, ticket)
    && forall j, t | i < j < k :: !Issues(calls, states, j, key, t)
  }

  /** A call that hands out no ticket for a key moves neither its owner nor its token. */
  lemma ClaimSilent(cp: Checkpoint, r: Request, key: Key, count: nat)
    requires WellKept(cp, count) && key in ClaimTool(cp, r).0.tools
    requires r.KeyOf() == key && ClaimTool(cp, r).1.Success? ==> !ClaimTool(cp, r).1.value.execute
    ensures key in cp.tools && SameHolder(cp.tools[key], ClaimTool(cp, r).0.tools[key])
  {
    hide ValidRequest, Holds, Next;
  }

  predicate SameHolder(a: Invocation, b: Invocation) {
    && a.ownerId == b.ownerId && a.token == b.token && a.toolName == b.toolName && a.input == b.input
    && (b.status == Running ==> a.status == Running && b.expiresAt == a.expiresAt)
  }

  lemma OtherCallSilent(cp: Checkpoint, call: Call, key: Key)
    requires !call.ClaimToolCall? && key in After(cp, call).tools
    ensures key in cp.tools && SameHolder(cp.tools[key], After(cp, call).tools[key])
  {
    hide Holds, Next;
  }

  lemma NoIssueKeeps(calls: seq<Call>, states: seq<Checkpoint>, k: nat, key: Key)
    requires Trace(calls, states) && k < |calls| && key in states[k + 1].tools
    requires forall ticket :: !Issues(calls, states, k, key, ticket)
    ensures key in states[k].tools && SameHolder(states[k].tools[key], states[k + 1].tools[key])
  {
    hide ClaimTool, ClaimRun, HeartbeatRun, ReleaseRun, CompleteTool, WellKept;
    assert Leads(calls, states, k);
    TraceKeeps(calls, states, k);
    if calls[k].ClaimToolCall? {
      var r := calls[k].request;
      var answer := ClaimTool(states[k], r).1;
      if r.KeyOf() == key && answer.Success? {
        assert !Issues(calls, states, k, key, answer.value);
      }
      ClaimSilent(states[k], r, key, k);
    } else {
      OtherCallSilent(states[k], calls[k], key);
    }
  }

  /** The owner and the token of an invocation are those of its last execute ticket. */
  lemma {:induction false} InvocationIssued(calls: seq<Call>, states: seq<Checkpoint>, k: nat, key: Key)
        returns (i: nat, ticket: Ticket)
    requires Trace(calls, states) && k < |states| && key in states[k].tools
    ensures LastIssue(calls, states, i, k, key, ticket)
    ensures states[k].tools[key].ownerId == ticket.ownerId && states[k].tools[key].token == ticket.token
    ensures states[k].tools[key].toolName == calls[i].request.toolName
    ensures states[k].tools[key].input == calls[i].request.input
    ensures states[k].tools[key].status == Running ==>
      states[k].tools[key].expiresAt == Expiry(calls[i].request.now, calls[i].request.ttl)
    decreases k
  {
    hide After, AnswerTo, Expiry;
    var last := k - 1;
    if t: Ticket :| Issues(calls, states, last, key, t) {
      i, ticket := last, t;
      IssueOutcome(calls, states, i, key, t);
    } else {
      NoIssueKeeps(calls, states, k - 1, key);
      i, ticket := InvocationIssued(calls, states, k - 1, key);
    }
  }

  /** Only the newest execute ticket of a key completes it, in the hands of the owner it was given to and before it
      expires. */
  lemma {:induction false} NewestTicketCompletes(calls: seq<Call>, states: seq<Checkpoint>, k: nat, key: Key)
        returns (i: nat, ticket: Ticket)
    requires Trace(calls, states) && k < |calls| && Completes(calls, states, k, key)
    ensures LastIssue(calls, states, i, k, key, ticket)
    ensures calls[k].ticket.ownerId == ticket.ownerId && calls[k].ticket.token == ticket.token
    ensures calls[k].Now() < Expiry(calls[i].request.now, calls[i].request.ttl)
  {
    hide After, AnswerTo;
    CompletionOutcome(calls, states, k, key);
    i, ticket := InvocationIssued(calls, states, k, key);
  }

  /** An execute ticket that has been followed by another never completes. */
  lemma {:induction false} OlderTicketFails(calls: seq<Call>, states: seq<Checkpoint>, i: nat, j: nat, k: nat,
        key: Key, first: Ticket, second: Ticket)
    requires Trace(calls, states) && |calls| <= U64_MAX && i < j < k < |calls|
    requires Issues(calls, states, i, key, first) && Issues(calls, states, j, key, second)
    requires calls[k].CompleteCall? && calls[k].ticket == first
    ensures !Completes(calls, states, k, key)
  {
    hide After, AnswerTo;
    TokensIncrease(calls, states, i, j, key, first, second);
    IssueOutcome(calls, states, j, key, second);
    TraceAdvances(calls, states, j + 1, k);
    assert ToolAdvances(states[j + 1].tools[key], states[k].tools[key]);
    if Completes(calls, states, k, key) {
      CompletionOutcome(calls, states, k, key);
    }
  }

  /** The first claim of a key is handed out exactly to the holder of the run, under token 1. */
  lemma FirstClaimExecutes(cp: Checkpoint, r: Request)
    requires r.KeyOf() !in cp.tools
    ensures var answer := ClaimTool(cp, r).1;
      && (answer.Success? <==> ValidRequest(r).None? && Holds(cp, r.runId, r.ownerId, r.runLeaseToken, r.now))
      && (answer.Success? ==> answer.value.execute && answer.value.token == 1)
  {
    hide ValidRequest, Holds;
  }

  // ---- tickets are exclusive while they are valid ----------------------------------------

  /** When the ticket handed out by call `i` expires. */
  ghost function TicketExpiry(calls: seq<Call>, i: nat): int
    requires i < |calls| && calls[i].ClaimToolCall?
  {
    Expiry(calls[i].request.now, calls[i].request.ttl)
  }

  lemma ValidTtl(r: Request)
    requires ValidRequest(r).None?
    ensures r.ttl > 0
  {
    hide Trim;
  }

  lemma ExpiryBeyond(now: int, ttl: int, until: int)
    requires ttl > 0 && now >= until && until <= I64_MAX
    ensures Expiry(now, ttl) >= until
  {
  }

  /** A running invocation is taken over only once it has expired, and then expires no earlier than it did. */
  lemma ClaimMovesExpiry(cp: Checkpoint, r: Request, key: Key, until: int)
    requires key in cp.tools && (cp.tools[key].status == Running ==> cp.tools[key].expiresAt >= until)
    requires until <= I64_MAX
    ensures var next := ClaimTool(cp, r).0;
      key in next.tools && (next.tools[key].status == Running ==> next.tools[key].expiresAt >= until)
  {
    hide Holds, Next, ValidRequest, Expiry;
    if ValidRequest(r).None? {
      ValidTtl(r);
      if r.now >= until {
        ExpiryBeyond(r.now, r.ttl, until);
      }
    }
  }

  lemma CallMovesExpiry(cp: Checkpoint, call: Call, key: Key, until: int)
    requires key in cp.tools && (cp.tools[key].status == Running ==> cp.tools[key].expiresAt >= until)
    requires until <= I64_MAX
    ensures var next := After(cp, call);
      key in next.tools && (next.tools[key].status == Running ==> next.tools[key].expiresAt >= until)
  {
    hide ClaimTool, Holds, Next;
    if call.ClaimToolCall? {
      ClaimMovesExpiry(cp, call.request, key, until);
    }
  }

  /** While an invocation is running it expires no earlier than any ticket that was handed out for it. */
  lemma {:induction false} ExpiryRises(calls: seq<Call>, states: seq<Checkpoint>, i: nat, k: nat, key: Key,
        ticket: Ticket)
    requires Trace(calls, states) && i < k < |states| && Issues(calls, states, i, key, ticket)
    ensures key in states[k].tools
    ensures states[k].tools[key].status == Running ==> states[k].tools[key].expiresAt >= TicketExpiry(calls, i)
    decreases k
  {
    hide After, AnswerTo, Expiry;
    if k == i + 1 {
      IssueOutcome(calls, states, i, key, ticket);
    } else {
      ExpiryRises(calls, states, i, k - 1, key, ticket);
      assert Leads(calls, states, k - 1);
      ExpiryAtMost(calls, i);
      CallMovesExpiry(states[k - 1], calls[k - 1], key, TicketExpiry(calls, i));
    }
  }

  lemma ExpiryAtMost(calls: seq<Call>, i: nat)
    requires i < |calls| && calls[i].ClaimToolCall?
    ensures TicketExpiry(calls, i) <= I64_MAX
  {
  }

  /** Whatever the callers do, a key is handed out again only once the ticket handed out before has expired, and only to
      the holder of the run, for the same tool and input. */
  lemma {:induction false} NextTicketAfterExpiry(calls: seq<Call>, states: seq<Checkpoint>, i: nat, j: nat, key: Key,
        first: Ticket, second: Ticket)
    requires Trace(calls, states) && i < j < |calls|
    requires Issues(calls, states, i, key, first) && Issues(calls, states, j, key, second)
    ensures calls[j].request.now >= Expiry(calls[i].request.now, calls[i].request.ttl)
    ensures var r := calls[j].request;
      && r.toolName == calls[i].request.toolName && r.input == calls[i].request.input
      && Holds(states[j], r.runId, r.ownerId, r.runLeaseToken, r.now)
      && second.ownerId == r.ownerId && second.runLeaseToken == r.runLeaseToken
  {
    hide After, AnswerTo, Expiry, Holds;
    IssueOutcome(calls, states, i, key, first);
    IssueOutcome(calls, states, j, key, second);
    ExpiryRises(calls, states, i, j, key, first);
    TraceAdvances(calls, states, i + 1, j);
    assert ToolAdvances(states[i + 1].tools[key], states[j].tools[key]);
  }

  /** No claim of the key has been made at or after `until` between the calls `i` and `k`, and no completion. */
  ghost predicate Undisturbed(calls: seq<Call>, states: seq<Checkpoint>, i: nat, k: nat, key: Key, until: int)
    requires k <= |calls| && k < |states|
  {
    forall m | i < m < k ::
      && !Completes(calls, states, m, key)
      && (calls[m].ClaimToolCall? && calls[m].request.KeyOf() == key ==> calls[m].request.now < until)
  }

  lemma ClaimInTime(cp: Checkpoint, r: Request, key: Key, count: nat)
    requires WellKept(cp, count) && key in cp.tools && cp.tools[key].status == Running
    requires r.KeyOf() == key ==> r.now < cp.tools[key].expiresAt
    ensures var next := ClaimTool(cp, r).0; key in next.tools && next.tools[key] == cp.tools[key]
  {
    hide ValidRequest, Holds, Next;
  }

  lemma OtherInTime(cp: Checkpoint, call: Call, key: Key)
    requires !call.ClaimToolCall? && key in cp.tools
    requires call.CompleteCall? && call.ticket.KeyOf() == key ==> AnswerTo(cp, call) != CompleteAnswer(Success(()))
    ensures var next := After(cp, call); key in next.tools && next.tools[key] == cp.tools[key]
  {
    hide Holds, Next;
  }

  /** Until its ticket expires nothing but its completion changes an invocation: no claim does, in whatever mode and by
      whatever owner. */
  lemma {:induction false} UntouchedInTime(calls: seq<Call>, states: seq<Checkpoint>, i: nat, k: nat, key: Key,
        ticket: Ticket)
    requires Trace(calls, states) && i < k < |states| && Issues(calls, states, i, key, ticket)
    requires Undisturbed(calls, states, i, k, key, Expiry(calls[i].request.now, calls[i].request.ttl))
    ensures key in states[k].tools && key in states[i + 1].tools && states[k].tools[key] == states[i + 1].tools[key]
    ensures states[k].tools[key].status == Running && Records(states[k].tools[key], calls[i].request)
    decreases k
  {
    hide After, AnswerTo, Expiry;
    IssueOutcome(calls, states, i, key, ticket);
    if k > i + 1 {
      UntouchedInTime(calls, states, i, k - 1, key, ticket);
      assert Leads(calls, states, k - 1) && !Completes(calls, states, k - 1, key);
      TraceKeeps(calls, states, k - 1);
      CallInTime(states[k - 1], calls[k - 1], key, k - 1);
    }
  }

  lemma CallInTime(cp: Checkpoint, call: Call, key: Key, count: nat)
    requires WellKept(cp, count) && key in cp.tools && cp.tools[key].status == Running
    requires call.ClaimToolCall? && call.request.KeyOf() == key ==> call.request.now < cp.tools[key].expiresAt
    requires call.CompleteCall? && call.ticket.KeyOf() == key ==> AnswerTo(cp, call) != CompleteAnswer(Success(()))
    ensures var next := After(cp, call); key in next.tools && next.tools[key] == cp.tools[key]
  {
    hide ClaimTool, AnswerTo, CompleteTool, HeartbeatRun, ReleaseRun, ClaimRun;
    if call.ClaimToolCall? {
      ClaimInTime(cp, call.request, key, count);
    } else {
      OtherInTime(cp, call, key);
    }
  }

  lemma RunningClaim(cp: Checkpoint, r: Request, i: Invocation)
    requires r.KeyOf() in cp.tools && cp.tools[r.KeyOf()] == i && i.status == Running
    requires ValidRequest(r).None? && Holds(cp, r.runId, r.ownerId, r.runLeaseToken, r.now)
    requires i.toolName == r.toolName && i.input == r.input
    ensures ClaimTool(cp, r).1 == Failure(ToolInvocationInFlight) <==> r.now < i.expiresAt
    ensures r.now >= i.expiresAt && r.mode == FailClosed ==>
      ClaimTool(cp, r).1 == Failure(ToolOutcomeUnknown) && ClaimTool(cp, r).0.tools[r.KeyOf()].status == Indeterminate
    ensures r.now >= i.expiresAt && r.mode != FailClosed ==>
      ClaimTool(cp, r).1.Success? && ClaimTool(cp, r).1.value.execute
  {
    hide ValidRequest, Holds;
  }

  /** A running invocation is refused to the holder of the run as in flight exactly until its newest ticket expires;
      from then on a fail-closed claim gives it up as undecided, and any other takes it over. */
  lemma {:induction false} InFlightExactly(calls: seq<Call>, states: seq<Checkpoint>, i: nat, k: nat, key: Key,
        ticket: Ticket)
    requires Trace(calls, states) && k < |calls| && LastIssue(calls, states, i, k, key, ticket)
    requires key in states[k].tools && states[k].tools[key].status == Running
    requires calls[k].ClaimToolCall? && calls[k].request.KeyOf() == key
    requires var r := calls[k].request;
      && ValidRequest(r).None? && Holds(states[k], r.runId, r.ownerId, r.runLeaseToken, r.now)
      && r.toolName == calls[i].request.toolName && r.input == calls[i].request.input
    ensures var until := Expiry(calls[i].request.now, calls[i].request.ttl);
      && (AnswerTo(states[k], calls[k]) == TicketAnswer(Failure(ToolInvocationInFlight)) <==> calls[k].Now() < until)
      && (calls[k].Now() >= until ==>
            if calls[k].request.mode == FailClosed then
              && AnswerTo(states[k], calls[k]) == TicketAnswer(Failure(ToolOutcomeUnknown))
              && key in states[k + 1].tools && states[k + 1].tools[key].status == Indeterminate
            else exists next :: Issues(calls, states, k, key, next))
  {
    hide ClaimTool, ValidRequest, Holds, Expiry;
    var last, _ := InvocationIssued(calls, states, k, key);
    SameLastIssue(calls, states, i, last, k, key);
    RunningClaim(states[k], calls[k].request, states[k].tools[key]);
    assert Leads(calls, states, k);
    TraceKeeps(calls, states, k);
    var answer := ClaimTool(states[k], calls[k].request).1;
    if answer.Success? && answer.value.execute {
      assert Issues(calls, states, k, key, answer.value);
    }
    ClaimKeepsKey(states[k], calls[k].request);
  }

  /** A request is complete when every name in it holds more than white space, and asks for some time. */
  lemma ValidRequestIs(r: Request)
    ensures ValidRequest(r)
      == if AllWhitespace(r.runId) || AllWhitespace(r.idempotencyKey) || AllWhitespace(r.toolName)
           || AllWhitespace(r.ownerId) then Some(Incomplete)
         else if r.ttl <= 0 then Some(InvalidTtl)
         else None
  {
    TrimBlank(r.runId);
    TrimBlank(r.idempotencyKey);
    TrimBlank(r.toolName);
    TrimBlank(r.ownerId);
    hide Trim, AllWhitespace;
  }

  /** Whatever the key: an incomplete request is refused, and then one of a caller that does not hold the run. */
  lemma NotForOthers(cp: Checkpoint, r: Request)
    requires ValidRequest(r).Some? || !Holds(cp, r.runId, r.ownerId, r.runLeaseToken, r.now)
    ensures ClaimTool(cp, r)
      == (cp, Failure(if ValidRequest(r).Some? then ValidRequest(r).value else RunLeaseLost))
  {
    hide ValidRequest, Holds;
  }

  /** Once a key has been handed out, the holder of the run is refused it for another tool or another input. */
  lemma {:induction false} OtherUseRefused(calls: seq<Call>, states: seq<Checkpoint>, i: nat, k: nat, key: Key,
        ticket: Ticket)
    requires Trace(calls, states) && i < k < |calls| && Issues(calls, states, i, key, ticket)
    requires calls[k].ClaimToolCall? && calls[k].request.KeyOf() == key && ValidRequest(calls[k].request).None?
    requires var r := calls[k].request;
      && Holds(states[k], r.runId, r.ownerId, r.runLeaseToken, r.now)
      && (r.toolName != calls[i].request.toolName || r.input != calls[i].request.input)
    ensures AnswerTo(states[k], calls[k]) == TicketAnswer(Failure(ToolKeyReused))
  {
    hide After, ValidRequest, Holds;
    IssueOutcome(calls, states, i, key, ticket);
    TraceAdvances(calls, states, i + 1, k);
  }

  /** An invocation that has been given up as undecided stays so: the holder of the run is told that its outcome is
      unknown, and it is never handed out or completed. */
  lemma {:induction false} UndecidedStays(calls: seq<Call>, states: seq<Checkpoint>, i: nat, k: nat, key: Key)
    requires Trace(calls, states) && i <= k < |calls| && key in states[i].tools
    requires states[i].tools[key].status == Indeterminate
    ensures key in states[k].tools && states[k].tools[key] == states[i].tools[key]
    ensures !Completes(calls, states, k, key) && forall ticket :: !Issues(calls, states, k, key, ticket)
    ensures calls[k].ClaimToolCall? && calls[k].request.KeyOf() == key ==>
      var r := calls[k].request;
      ValidRequest(r).None? && Holds(states[k], r.runId, r.ownerId, r.runLeaseToken, r.now)
      && r.toolName == states[i].tools[key].toolName && r.input == states[i].tools[key].input ==>
        AnswerTo(states[k], calls[k]) == TicketAnswer(Failure(ToolOutcomeUnknown))
  {
    hide After, ValidRequest, Holds;
    TraceAdvances(calls, states, i, k);
  }

  lemma ClaimKeepsKey(cp: Checkpoint, r: Request)
    requires r.KeyOf() in cp.tools
    ensures r.KeyOf() in ClaimTool(cp, r).0.tools
  {
    hide ValidRequest, Holds;
  }

  lemma {:induction false} SameLastIssue(calls: seq<Call>, states: seq<Checkpoint>, i: nat, j: nat, k: nat, key: Key)
    requires k <= |calls| && k < |states|
    requires exists t :: LastIssue(calls, states, i, k, key, t)
    requires exists t :: LastIssue(calls, states, j, k, key, t)
    ensures i == j
  {
    hide AnswerTo;
  }

  /** A ticket that does not complete is refused for the run that is not held, or else for the invocation. */
  lemma CompletionRefused(cp: Checkpoint, call: Call)
    requires call.CompleteCall?
    ensures
      || AnswerTo(cp, call) == CompleteAnswer(Success(()))
      || AnswerTo(cp, call) == CompleteAnswer(Failure(
           if Holds(cp, call.ticket.runId, call.ticket.ownerId, call.ticket.runLeaseToken, call.at) then
             ToolInvocationLost
           else RunLeaseLost))
  {
    hide Holds;
  }

  /** The newest ticket of a running invocation completes it exactly while its run is held and it has not expired. */
  lemma {:induction false} NewestTicketAccepted(calls: seq<Call>, states: seq<Checkpoint>, i: nat, k: nat, key: Key,
        ticket: Ticket)
    requires Trace(calls, states) && k < |calls| && LastIssue(calls, states, i, k, key, ticket)
    requires key in states[k].tools && states[k].tools[key].status == Running
    requires calls[k].CompleteCall? && calls[k].ticket == ticket
    ensures Completes(calls, states, k, key) <==>
      && Holds(states[k], ticket.runId, ticket.ownerId, ticket.runLeaseToken, calls[k].Now())
      && calls[k].Now() < Expiry(calls[i].request.now, calls[i].request.ttl)
    ensures !Completes(calls, states, k, key) ==>
      AnswerTo(states[k], calls[k]) == CompleteAnswer(Failure(
        if Holds(states[k], ticket.runId, ticket.ownerId, ticket.runLeaseToken, calls[k].Now()) then ToolInvocationLost
        else RunLeaseLost))
  {
    CompletionRefused(states[k], calls[k]);
    hide After, AnswerTo, Expiry, Holds;
    var last, newest := InvocationIssued(calls, states, k, key);
    SameLastIssue(calls, states, i, last, k, key);
    assert newest == ticket by {
      OneTicket(calls, states, i, key, newest, ticket);
    }
    IssueKey(calls, states, i, key, ticket);
    CompletionIs(states[k], ticket, calls[k]);
  }

  lemma {:induction false} OneTicket(calls: seq<Call>, states: seq<Checkpoint>, i: nat, key: Key, a: Ticket, b: Ticket)
    requires i < |calls| && i < |states| && Issues(calls, states, i, key, a) && Issues(calls, states, i, key, b)
    ensures a == b
  {
    hide AnswerTo;
  }

  lemma {:induction false} IssueKey(calls: seq<Call>, states: seq<Checkpoint>, i: nat, key: Key, ticket: Ticket)
    requires Trace(calls, states) && i < |calls| && Issues(calls, states, i, key, ticket)
    ensures ticket.KeyOf() == key
  {
    hide ClaimTool, WellKept;
    TraceKeeps(calls, states, i);
    ClaimIssues(states[i], calls[i].request, i);
  }

  lemma CompletionIs(cp: Checkpoint, ticket: Ticket, call: Call)
    requires call.CompleteCall? && call.ticket == ticket && ticket.KeyOf() in cp.tools
    requires var i := cp.tools[ticket.KeyOf()];
      i.ownerId == ticket.ownerId && i.token == ticket.token && i.status == Running
    ensures AnswerTo(cp, call) == CompleteAnswer(Success(())) <==>
      && Holds(cp, ticket.runId, ticket.ownerId, ticket.runLeaseToken, call.Now())
      && call.Now() < cp.tools[ticket.KeyOf()].expiresAt
  {
    hide Holds;
  }

  // ---- leases ----------------------------------------------------------------------------

  /** A call leaves a lease alone, or grants it anew, or releases it; a new grant under another token comes only
      after it has expired; and as long as its token is not saturated, it changes whenever the owner does. */
  ghost predicate LeaseMoves(cp: Checkpoint, call: Call, run: string)
    requires run in cp.runs
  {
    var before, next, answer := cp.runs[run], After(cp, call), AnswerTo(cp, call);
    && run in next.runs
    && (next.runs[run] == before || answer == LeaseAnswer(Success(next.runs[run]))
        || (call.ReleaseCall? && call.lease.runId == run && call.lease.token == before.token
          && answer == ReleaseAnswer(true)))
    && (answer.LeaseAnswer? && answer.lease.Success? && answer.lease.value.runId == run ==>
          next.runs[run] == answer.lease.value
          && (answer.lease.value.token != before.token ==> before.expiresAt <= call.Now()))
    && (before.token < U64_MAX && next.runs[run].token == before.token ==> next.runs[run].ownerId == before.ownerId)
  }

  lemma ClaimRunMoves(cp: Checkpoint, call: Call, run: string, count: nat)
    requires call.ClaimRunCall? && WellKept(cp, count) && run in cp.runs
    ensures LeaseMoves(cp, call, run)
  {
  }

  lemma HeartbeatMoves(cp: Checkpoint, call: Call, run: string, count: nat)
    requires call.HeartbeatCall? && WellKept(cp, count) && run in cp.runs
    ensures LeaseMoves(cp, call, run)
  {
  }

  lemma ReleaseMoves(cp: Checkpoint, call: Call, run: string, count: nat)
    requires call.ReleaseCall? && WellKept(cp, count) && run in cp.runs
    ensures LeaseMoves(cp, call, run)
  {
  }

  lemma ToolCallsMoveNoLease(cp: Checkpoint, call: Call)
    requires call.ClaimToolCall? || call.CompleteCall?
    ensures After(cp, call).runs == cp.runs && !AnswerTo(cp, call).LeaseAnswer?
  {
    hide Holds, ValidRequest, Next;
  }

  lemma CallMoves(cp: Checkpoint, call: Call, run: string, count: nat)
    requires WellKept(cp, count) && run in cp.runs
    ensures LeaseMoves(cp, call, run)
  {
    match call
    case ClaimRunCall(_, _, _, _) => hide LeaseMoves; ClaimRunMoves(cp, call, run, count);
    case HeartbeatCall(_, _, _) => hide LeaseMoves; HeartbeatMoves(cp, call, run, count);
    case ReleaseCall(_, _) => hide LeaseMoves; ReleaseMoves(cp, call, run, count);
    case _ => hide After, AnswerTo; ToolCallsMoveNoLease(cp, call);
  }

  lemma TraceMoves(calls: seq<Call>, states: seq<Checkpoint>, k: nat, run: string)
    requires Trace(calls, states) && k < |calls| && run in states[k].runs
    ensures LeaseMoves(states[k], calls[k], run) && states[k + 1] == After(states[k], calls[k])
  {
    hide After, AnswerTo, LeaseMoves;
    assert Leads(calls, states, k);
    TraceKeeps(calls, states, k);
    CallMoves(states[k], calls[k], run, k);
  }

  lemma LeaseGranted(cp: Checkpoint, call: Call, lease: RunLease, count: nat)
    requires WellKept(cp, count) && AnswerTo(cp, call) == LeaseAnswer(Success(lease))
    ensures var next := After(cp, call); lease.runId in next.runs && next.runs[lease.runId] == lease
  {
    hide ClaimTool, CompleteTool;
  }

  lemma GrantOutcome(calls: seq<Call>, states: seq<Checkpoint>, k: nat, lease: RunLease)
    requires Trace(calls, states) && k < |calls| && Grants(calls, states, k, lease)
    ensures lease.runId in states[k + 1].runs && states[k + 1].runs[lease.runId] == lease
  {
    hide After, AnswerTo;
    assert Leads(calls, states, k);
    TraceKeeps(calls, states, k);
    LeaseGranted(states[k], calls[k], lease, k);
  }

  lemma {:induction false} OwnerStays(calls: seq<Call>, states: seq<Checkpoint>, i: nat, k: nat, run: string)
    requires Trace(calls, states) && |calls| <= U64_MAX && i <= k < |states|
    requires run in states[i].runs && run in states[k].runs && states[k].runs[run].token == states[i].runs[run].token
    ensures states[k].runs[run].ownerId == states[i].runs[run].ownerId
    decreases k
  {
    hide After, AnswerTo;
    if i == k {
    } else {
      TraceAdvances(calls, states, i, k - 1);
      TraceAdvances(calls, states, k - 1, k);
      OwnerStays(calls, states, i, k - 1, run);
      TraceKeeps(calls, states, k - 1);
      TraceMoves(calls, states, k - 1, run);
    }
  }

  /** A token names its owner: of two leases of a run with different owners the later one has the larger token. */
  lemma {:induction false} LaterOwnerLargerToken(calls: seq<Call>, states: seq<Checkpoint>, i: nat, j: nat,
        first: RunLease, second: RunLease)
    requires Trace(calls, states) && |calls| <= U64_MAX && i < j < |calls| && first.runId == second.runId
    requires Grants(calls, states, i, first) && Grants(calls, states, j, second)
    ensures first.token <= second.token && (first.ownerId != second.ownerId ==> first.token < second.token)
  {
    hide After, AnswerTo;
    GrantOutcome(calls, states, i, first);
    GrantOutcome(calls, states, j, second);
    TraceAdvances(calls, states, i + 1, j + 1);
    if first.token == second.token {
      OwnerStays(calls, states, i + 1, j + 1, first.runId);
    }
  }

  /** Once a run has been leased to another owner, or again to the same one, no ticket taken under the earlier lease
      ever completes. */
  lemma {:induction false} SupersededLeaseFails(calls: seq<Call>, states: seq<Checkpoint>, i: nat, j: nat, k: nat,
        first: RunLease, second: RunLease)
    requires Trace(calls, states) && |calls| <= U64_MAX && i < j < k < |calls| && first.runId == second.runId
    requires Grants(calls, states, i, first) && Grants(calls, states, j, second)
    requires first.ownerId != second.ownerId || first.token != second.token
    requires calls[k].CompleteCall? && calls[k].ticket.runId == first.runId
    requires calls[k].ticket.runLeaseToken == first.token
    ensures !Completes(calls, states, k, calls[k].ticket.KeyOf())
  {
    hide After, AnswerTo;
    LaterOwnerLargerToken(calls, states, i, j, first, second);
    GrantOutcome(calls, states, j, second);
    TraceAdvances(calls, states, j + 1, k);
    if Completes(calls, states, k, calls[k].ticket.KeyOf()) {
      CompletionOutcome(calls, states, k, calls[k].ticket.KeyOf());
    }
  }

  lemma ReleaseOutcome(calls: seq<Call>, states: seq<Checkpoint>, k: nat, runId: string, token: nat)
    requires Trace(calls, states) && k < |calls| && Releases(calls, states, k, runId, token)
    ensures runId in states[k].runs && states[k].runs[runId].token == token
    ensures runId in states[k + 1].runs && states[k + 1].runs[runId].token == Next(token)
    ensures states[k + 1].runs[runId].ownerId == "" && states[k + 1].runs[runId].expiresAt == calls[k].at
  {
    assert Leads(calls, states, k);
  }

  /** Once a lease has been released, no ticket taken under it ever completes. */
  lemma {:induction false} ReleasedLeaseFails(calls: seq<Call>, states: seq<Checkpoint>, i: nat, k: nat, runId: string,
        token: nat)
    requires Trace(calls, states) && |calls| <= U64_MAX && i < k < |calls| && Releases(calls, states, i, runId, token)
    requires calls[k].CompleteCall? && calls[k].ticket.runId == runId && calls[k].ticket.runLeaseToken == token
    ensures !Completes(calls, states, k, calls[k].ticket.KeyOf())
  {
    hide After, AnswerTo;
    ReleaseOutcome(calls, states, i, runId, token);
    TraceKeeps(calls, states, i);
    TraceAdvances(calls, states, i + 1, k);
    if Completes(calls, states, k, calls[k].ticket.KeyOf()) {
      CompletionOutcome(calls, states, k, calls[k].ticket.KeyOf());
    }
  }

  /** Taking over an expired lease fences off its last holder exactly until the token saturates. */
  lemma TakeoverFences(cp: Checkpoint, runId: string, ownerId: string, now: int, ttl: int)
    requires runId in cp.runs && cp.runs[runId].expiresAt <= now && ttl > 0 && Trim(runId) != "" && Trim(ownerId) != ""
    ensures var reply := ClaimRun(cp, runId, ownerId, now, ttl).1;
      reply.Success? && (reply.value.token > cp.runs[runId].token <==> cp.runs[runId].token < U64_MAX)
  {
  }

  /** The clock that the callers read never goes back. */
  ghost predicate ClockAdvances(calls: seq<Call>) {
    forall i, j | 0 <= i <= j < |calls| :: calls[i].Now() <= calls[j].Now()
  }

  /** Between `i` and `k` the lease granted at `i` is not released, and never renewed to expire earlier. */
  ghost predicate NeverShortened(calls: seq<Call>, states: seq<Checkpoint>, i: nat, k: nat, lease: RunLease)
    requires i < k <= |calls| && |states| == |calls| + 1
  {
    && Grants(calls, states, i, lease)
    && (forall m, renewed | i < m < k && Grants(calls, states, m, renewed) ::
      renewed.runId == lease.runId && renewed.token == lease.token ==> renewed.expiresAt >= lease.expiresAt)
    && (forall m | i < m < k :: !Releases(calls, states, m, lease.runId, lease.token))
  }

  /** The record of the run still carries the token of the lease and expires no earlier. */
  predicate Outlasts(record: RunLease, lease: RunLease) {
    record.token == lease.token && record.expiresAt >= lease.expiresAt
  }

  lemma LeaseStandsOne(calls: seq<Call>, states: seq<Checkpoint>, i: nat, k: nat, lease: RunLease)
    requires Trace(calls, states) && i < k < |calls| && NeverShortened(calls, states, i, k + 1, lease)
    requires lease.runId in states[k].runs && Outlasts(states[k].runs[lease.runId], lease)
    ensures lease.runId in states[k + 1].runs
    ensures Outlasts(states[k + 1].runs[lease.runId], lease) || lease.expiresAt <= calls[k].Now()
  {
    hide After, AnswerTo;
    TraceMoves(calls, states, k, lease.runId);
    var before, next := states[k].runs[lease.runId], states[k + 1].runs[lease.runId];
    assert !Releases(calls, states, k, lease.runId, lease.token);
    if AnswerTo(states[k], calls[k]) == LeaseAnswer(Success(next)) && next != before {
      assert Grants(calls, states, k, next);
      TraceKeeps(calls, states, k + 1);
    }
  }

  /** A lease that is never shortened stands until it has expired. */
  lemma {:induction false} LeaseStands(calls: seq<Call>, states: seq<Checkpoint>, i: nat, k: nat, lease: RunLease)
    requires Trace(calls, states) && i < k <= |calls| && ClockAdvances(calls)
    requires NeverShortened(calls, states, i, k, lease)
    ensures lease.runId in states[k].runs
    ensures Outlasts(states[k].runs[lease.runId], lease) || lease.expiresAt <= calls[k - 1].Now()
    decreases k
  {
    hide After, AnswerTo;
    if i + 1 == k {
      GrantOutcome(calls, states, i, lease);
    } else {
      LeaseStands(calls, states, i, k - 1, lease);
      TraceAdvances(calls, states, k - 1, k);
      assert calls[k - 2].Now() <= calls[k - 1].Now();
      if Outlasts(states[k - 1].runs[lease.runId], lease) {
        LeaseStandsOne(calls, states, i, k - 1, lease);
      }
    }
  }

  /** Under a clock that never goes back the validity of successive owners does not overlap: when a run is granted
      under another token, every lease under the earlier token has expired that was neither released nor renewed to
      expire earlier. */
  lemma {:induction false} ValidityDisjoint(calls: seq<Call>, states: seq<Checkpoint>, i: nat, j: nat, first: RunLease,
        second: RunLease)
    requires Trace(calls, states) && i < j < |calls| && ClockAdvances(calls)
    requires NeverShortened(calls, states, i, j, first)
    requires Grants(calls, states, j, second) && second.runId == first.runId && second.token != first.token
    ensures first.expiresAt <= calls[j].Now()
  {
    hide After, AnswerTo;
    LeaseStands(calls, states, i, j, first);
    assert calls[j - 1].Now() <= calls[j].Now();
    TraceMoves(calls, states, j, first.runId);
  }

  // ---- the last lease of a run -----------------------------------------------------------

  /** `lease` is the last that was granted on its run before `k`, and has not been released. */
  ghost predicate LastGrant(calls: seq<Call>, states: seq<Checkpoint>, i: nat, k: nat, lease: RunLease)
    requires k <= |calls| && k < |states|
  {
    && i < k && Grants(calls, states, i, lease)
    && (forall m, other | i < m < k && Grants(calls, states, m, other) :: other.runId != lease.runId)
    && (forall m | i < m < k :: !Releases(calls, states, m, lease.runId, lease.token))
  }

  /** The record of a run is the last lease granted on it, to the letter. */
  lemma {:induction false} LastGrantStands(calls: seq<Call>, states: seq<Checkpoint>, i: nat, k: nat, lease: RunLease)
    requires Trace(calls, states) && k < |states| && k <= |calls| && LastGrant(calls, states, i, k, lease)
    ensures lease.runId in states[k].runs && states[k].runs[lease.runId] == lease
    decreases k
  {
    hide After, AnswerTo;
    if k == i + 1 {
      GrantOutcome(calls, states, i, lease);
    } else {
      LastGrantStands(calls, states, i, k - 1, lease);
      TraceMoves(calls, states, k - 1, lease.runId);
      TraceKeeps(calls, states, k);
      var next := states[k].runs[lease.runId];
      assert !Releases(calls, states, k - 1, lease.runId, lease.token);
      assert !Grants(calls, states, k - 1, next);
    }
  }

  /** A lease belongs to whoever asked for it and expires when the call said. */
  lemma GrantTerms(calls: seq<Call>, states: seq<Checkpoint>, i: nat, lease: RunLease)
    requires Trace(calls, states) && i < |calls| && Grants(calls, states, i, lease)
    ensures calls[i].ClaimRunCall? || calls[i].HeartbeatCall?
    ensures lease.expiresAt == Expiry(calls[i].at, calls[i].ttl) && calls[i].ttl > 0
    ensures lease.heartbeatAt == calls[i].at
    ensures lease.ownerId == if calls[i].ClaimRunCall? then calls[i].ownerId else calls[i].lease.ownerId
  {
    hide Trim, Expiry, ClaimTool, CompleteTool, WellKept;
    TraceKeeps(calls, states, i);
  }

  /** The last lease of a run can be renewed by its owner under its token, and keeps other owners out, exactly until it
      expires. */
  lemma {:induction false} LeaseLapses(calls: seq<Call>, states: seq<Checkpoint>, i: nat, k: nat, lease: RunLease)
    requires Trace(calls, states) && k < |calls| && LastGrant(calls, states, i, k, lease)
    ensures calls[i].ClaimRunCall? || calls[i].HeartbeatCall?
    ensures calls[k].HeartbeatCall? && calls[k].lease.runId == lease.runId && calls[k].ttl > 0 ==>
      ((exists renewed :: Grants(calls, states, k, renewed)) <==>
        && calls[k].lease.ownerId == lease.ownerId && calls[k].lease.token == lease.token
        && calls[k].at < Expiry(calls[i].at, calls[i].ttl))
    ensures calls[k].ClaimRunCall? && calls[k].runId == lease.runId && calls[k].ownerId != lease.ownerId
            && calls[k].ttl > 0 && Trim(lease.runId) != "" && Trim(calls[k].ownerId) != "" ==>
      if calls[k].at < Expiry(calls[i].at, calls[i].ttl) then
        AnswerTo(states[k], calls[k]) == LeaseAnswer(Failure(RunLeaseHeld))
      else exists taken :: Grants(calls, states, k, taken)
  {
    hide Trim, Expiry, ClaimTool, CompleteTool;
    LastGrantStands(calls, states, i, k, lease);
    GrantTerms(calls, states, i, lease);
    if calls[k].HeartbeatCall? {
      var answer := HeartbeatRun(states[k], calls[k].lease, calls[k].at, calls[k].ttl).1;
      if answer.Success? {
        assert Grants(calls, states, k, answer.value);
      }
    } else if calls[k].ClaimRunCall? {
      var answer := ClaimRun(states[k], calls[k].runId, calls[k].ownerId, calls[k].at, calls[k].ttl).1;
      if answer.Success? {
        assert Grants(calls, states, k, answer.value);
      }
    }
  }

  /** It is given up exactly by its own owner under its own token, whenever that is. */
  lemma {:induction false} LeaseReleased(calls: seq<Call>, states: seq<Checkpoint>, i: nat, k: nat, lease: RunLease)
    requires Trace(calls, states) && k < |calls| && LastGrant(calls, states, i, k, lease)
    requires calls[k].ReleaseCall? && calls[k].lease.runId == lease.runId
    ensures AnswerTo(states[k], calls[k])
      == ReleaseAnswer(calls[k].lease.ownerId == lease.ownerId && calls[k].lease.token == lease.token)
  {
    LastGrantStands(calls, states, i, k, lease);
    hide Trace, LastGrant;
  }

  // ---- exactly when a lease may be overtaken ---------------------------------------------

  /** From `now` on no claim by `other` is granted the run before the time `until`. */
  ghost predicate WaitsUntil(cp: Checkpoint, runId: string, other: string, now: int, until: int) {
    forall at: int, ttl: int | at >= now && ClaimRun(cp, runId, other, at, ttl).1.Success? :: until <= at
  }

  /** Another owner waits for a time exactly when it has come or the record of the run expires no earlier. */
  lemma ClaimsWait(cp: Checkpoint, runId: string, other: string, now: int, until: int)
    requires runId in cp.runs && cp.runs[runId].ownerId != other && Trim(runId) != "" && Trim(other) != ""
    ensures WaitsUntil(cp, runId, other, now, until) <==> until <= now || until <= cp.runs[runId].expiresAt
  {
    hide Trim;
    var record := cp.runs[runId];
    var at := if record.expiresAt > now then record.expiresAt else now;
    assert ClaimRun(cp, runId, other, at, 1).1.Success?;
  }

  /** After its holder has renewed a lease by a heartbeat, other owners still wait for what an earlier lease of the
      holder claims exactly when the renewal is for no less. */
  lemma HeartbeatKeepsClaim(cp: Checkpoint, lease: RunLease, now: int, ttl: int, other: string)
    requires Holds(cp, lease.runId, lease.ownerId, lease.token, now) && ttl > 0
    requires other != lease.ownerId && Trim(lease.runId) != "" && Trim(other) != ""
    ensures HeartbeatRun(cp, lease, now, ttl).1.Success?
    ensures WaitsUntil(HeartbeatRun(cp, lease, now, ttl).0, lease.runId, other, now, lease.expiresAt)
      <==> lease.expiresAt <= now || lease.expiresAt <= Expiry(now, ttl)
  {
    ClaimsWait(HeartbeatRun(cp, lease, now, ttl).0, lease.runId, other, now, lease.expiresAt);
    hide WaitsUntil, Expiry;
  }

  /** The same of a renewal by another claim of the holder. */
  lemma RenewalKeepsClaim(cp: Checkpoint, lease: RunLease, now: int, ttl: int, other: string)
    requires Holds(cp, lease.runId, lease.ownerId, lease.token, now) && ttl > 0 && Trim(lease.ownerId) != ""
    requires other != lease.ownerId && Trim(lease.runId) != "" && Trim(other) != ""
    ensures ClaimRun(cp, lease.runId, lease.ownerId, now, ttl).1.Success?
    ensures WaitsUntil(ClaimRun(cp, lease.runId, lease.ownerId, now, ttl).0, lease.runId, other, now, lease.expiresAt)
      <==> lease.expiresAt <= now || lease.expiresAt <= Expiry(now, ttl)
  {
    hide Trim;
    ClaimsWait(ClaimRun(cp, lease.runId, lease.ownerId, now, ttl).0, lease.runId, other, now, lease.expiresAt);
    hide WaitsUntil, Expiry;
  }

  /** After a release nobody waits: other owners still wait for what the lease claims exactly when it has expired. */
  lemma ReleaseEndsClaim(cp: Checkpoint, lease: RunLease, now: int, other: string)
    requires ReleaseRun(cp, lease, now).1 && Trim(lease.runId) != "" && Trim(other) != ""
    ensures WaitsUntil(ReleaseRun(cp, lease, now).0, lease.runId, other, now, lease.expiresAt)
      <==> lease.expiresAt <= now
  {
    ClaimsWait(ReleaseRun(cp, lease, now).0, lease.runId, other, now, lease.expiresAt);
    hide WaitsUntil;
  }

  /** The store honours a lease when a call is made: its run is still held under its owner and token, and has not
      expired. */
  ghost predicate Honoured(calls: seq<Call>, states: seq<Checkpoint>, k: nat, lease: RunLease)
    requires k < |calls| && k < |states|
  {
    Holds(states[k], lease.runId, lease.ownerId, lease.token, calls[k].Now())
  }

  /** Under a clock that never goes back the times at which leases of successive owners are honoured do not overlap,
      whatever was renewed, released or presented late: every lease of the earlier owner is honoured only before every
      lease of the later one. */
  lemma {:induction false} HonouredDisjoint(calls: seq<Call>, states: seq<Checkpoint>, i: nat, j: nat, first: RunLease,
        second: RunLease, a: nat, b: nat)
    requires Trace(calls, states) && |calls| <= U64_MAX && ClockAdvances(calls) && i < j < |calls|
    requires first.runId == second.runId
    requires Grants(calls, states, i, first) && Grants(calls, states, j, second)
    requires first.ownerId != second.ownerId || first.token != second.token
    requires a < |calls| && b < |calls| && Honoured(calls, states, a, first) && Honoured(calls, states, b, second)
    ensures a < b && calls[a].Now() <= calls[b].Now()
  {
    hide After, AnswerTo;
    LaterOwnerLargerToken(calls, states, i, j, first, second);
    if b <= a {
      TraceAdvances(calls, states, b, a);
    }
  }

  /** What a lease says of its own validity may be more: renewed for a shorter time it still claims its first expiry,
      which another owner need not wait for. */
  lemma ShorterRenewal(runId: string, first: string, second: string)
    requires Trim(runId) != "" && Trim(first) != "" && Trim(second) != "" && first != second
    ensures var (claimed, lease) := ClaimRun(EMPTY, runId, first, 0, 100);
      var (renewed, shorter) := HeartbeatRun(claimed, lease.value, 1, 1);
      var (taken, other) := ClaimRun(renewed, runId, second, 2, 100);
      && lease.Success? && shorter.Success? && other.Success?
      && other.value.ownerId == second && other.value.token != lease.value.token
      && lease.value.expiresAt == 100 && !Holds(taken, runId, first, lease.value.token, 2)
  {
    hide Trim;
  }
}
