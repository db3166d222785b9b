/** Dispatch to an adapter, and the execution record an approved plan goes through on its way to it. */
module ExecutionGate {
  import opened Wrappers
  import opened Strings
  import opened JsonText
  import opened CapabilityResolution
  import opened CapabilityPlanning
  import opened PreExecution
  import opened JobRecords

  // ------------------------------------------------------- adapters

  datatype Check = Passes | Fails | Throws

  datatype RunStatus = RunCompleted | RunFailed | RunCancelled

  /** `run` is how the adapter's execution ends; `None` when its promise rejects. */
  datatype Adapter = Adapter(
    adapterId: Str, providerTypes: seq<Str>, capabilities: seq<Str>,
    health: Check, validation: Check, executable: bool, run: Option<RunStatus>)

  datatype DispatchRejection =
    | MissingValidation | ValidationDenied | ValidationHasExpired | DispatchProviderChanged | DispatchCapabilityChanged
    | InvalidPlan | MissingAdapter | AdapterUnavailable | DispatchPolicyDenied

  datatype Dispatch = DispatchAccepted(adapterId: Str) | DispatchRejected(reason: DispatchRejection) | DispatchThrew

  predicate Supports(a: Adapter, provider: Provider, capabilityId: Str)
  {
    provider.providerType in a.providerTypes && (Lit("*") in a.capabilities || capabilityId in a.capabilities)
  }

  function FirstSupporting(adapters: seq<Adapter>, provider: Provider, capabilityId: Str): (r: Option<nat>)
    ensures r.Some? ==> r.value < |adapters| && Supports(adapters[r.value], provider, capabilityId)
    ensures r.Some? ==> forall k :: 0 <= k < r.value ==> !Supports(adapters[k], provider, capabilityId)
    ensures r.None? ==> forall k :: 0 <= k < |adapters| ==> !Supports(adapters[k], provider, capabilityId)
  {
    if adapters == [] then None
    else if Supports(adapters[0], provider, capabilityId) then Some(0)
    else match FirstSupporting(adapters[1..], provider, capabilityId) case None => None case Some(i) => Some(i + 1)
  }

  /** What the first supporting adapter says of itself; later ones are never asked. */
  function Selection(adapters: seq<Adapter>, provider: Provider, capabilityId: Str): Dispatch
  {
    var index := FirstSupporting(adapters, provider, capabilityId);
    if index.None? then DispatchRejected(MissingAdapter)
    else
      var a := adapters[index.value];
      if a.health == Throws || (a.health == Passes && a.validation == Throws) then DispatchThrew
      else if a.health == Fails || a.validation == Fails then DispatchRejected(AdapterUnavailable)
      else DispatchAccepted(a.adapterId)
  }

  /** `selectAdapter`. */
  method SelectAdapter(adapters: seq<Adapter>, provider: Provider, capabilityId: Str) returns (d: Dispatch)
    ensures d == Selection(adapters, provider, capabilityId)
  {
    for i := 0 to |adapters|
      invariant forall k :: 0 <= k < i ==> !Supports(adapters[k], provider, capabilityId)
    {
      var a := adapters[i];
      if provider.providerType !in a.providerTypes { continue; }
      if Lit("*") !in a.capabilities && capabilityId !in a.capabilities { continue; }
      match a.health {
        case Throws => return DispatchThrew;
        case Fails => return DispatchRejected(AdapterUnavailable);
        case Passes =>
      }
      match a.validation {
        case Throws => return DispatchThrew;
        case Fails => return DispatchRejected(AdapterUnavailable);
        case Passes => return DispatchAccepted(a.adapterId);
      }
    }
    return DispatchRejected(MissingAdapter);
  }

  // ------------------------------------------------------- dispatch

  datatype DispatchRequest = DispatchRequest(
    planId: Str, validationId: nat, providerId: Str, capabilityId: Str, operation: Str, sessionId: Str, requestedAt: int)

  datatype KnownValidation = KnownValidation(validationId: nat, outcome: Outcome, expiresAt: int)

  datatype DispatchInput = DispatchInput(
    plan: Option<Plan>, validation: Option<KnownValidation>, provider: Option<Provider>,
    adapters: seq<Adapter>, policyAllowed: Option<bool>)

  predicate PlanBound(q: DispatchRequest, plan: Option<Plan>)
  {
    && plan.Some? && plan.value.planId == q.planId && plan.value.sessionId == q.sessionId
    && plan.value.providerId == q.providerId && plan.value.capabilityId == q.capabilityId && plan.value.operation == q.operation
  }

  function DispatchProblem(q: DispatchRequest, input: DispatchInput): Option<DispatchRejection>
  {
    if input.plan.None? then Some(InvalidPlan)
    else if input.validation.None? then Some(MissingValidation)
    else if input.validation.value.outcome != AllowedOutcome || input.validation.value.validationId != q.validationId then
      Some(match input.validation.value.outcome
           case InvalidatedOutcome => DispatchProviderChanged
           case DeniedOutcome => ValidationDenied
           case AllowedOutcome => MissingValidation)
    else if q.requestedAt >= input.validation.value.expiresAt then Some(ValidationHasExpired)
    else if input.provider.None? || input.provider.value.providerId != q.providerId then Some(DispatchProviderChanged)
    else if q.capabilityId !in input.provider.value.capabilities then Some(DispatchCapabilityChanged)
    else if input.policyAllowed == Some(false) then Some(DispatchPolicyDenied)
    else if !PlanBound(q, input.plan) then Some(InvalidPlan)
    else None
  }

  /** `dispatchCapability`, up to its audit record. */
  function Dispatched(q: DispatchRequest, input: DispatchInput): Dispatch
  {
    var problem := DispatchProblem(q, input);
    if problem.Some? then DispatchRejected(problem.value)
    else Selection(input.adapters, input.provider.value, q.capabilityId)
  }

  method DispatchCapability(q: DispatchRequest, input: DispatchInput) returns (d: Dispatch)
    ensures d == Dispatched(q, input)
  {
    var reason: Option<DispatchRejection> := None;
    if input.plan.None? {
      reason := Some(InvalidPlan);
    } else if input.validation.None? {
      reason := Some(MissingValidation);
    } else if input.validation.value.outcome != AllowedOutcome || input.validation.value.validationId != q.validationId {
      match input.validation.value.outcome {
        case InvalidatedOutcome => reason := Some(DispatchProviderChanged);
        case DeniedOutcome => reason := Some(ValidationDenied);
        case AllowedOutcome => reason := Some(MissingValidation);
      }
    } else if q.requestedAt >= input.validation.value.expiresAt {
      reason := Some(ValidationHasExpired);
    } else if input.provider.None? || input.provider.value.providerId != q.providerId {
      reason := Some(DispatchProviderChanged);
    } else if q.capabilityId !in input.provider.value.capabilities {
      reason := Some(DispatchCapabilityChanged);
    } else if input.policyAllowed == Some(false) {
      reason := Some(DispatchPolicyDenied);
    }
    var binding := PlanBound(q, input.plan);
    if !binding && reason.None? { reason := Some(InvalidPlan); }
    if reason.Some? { return DispatchRejected(reason.value); }
    d := SelectAdapter(input.adapters, input.provider.value, q.capabilityId);
  }

  /** The validation found the plan executable, under the identity that is now presented. */
  predicate Validated(q: DispatchRequest, v: KnownValidation)
  {
    v.outcome == AllowedOutcome && v.validationId == q.validationId
  }

  /** The provider is there, is the one asked for, and offers the capability. */
  predicate Offers(q: DispatchRequest, provider: Option<Provider>)
  {
    provider.Some? && provider.value.providerId == q.providerId && q.capabilityId in provider.value.capabilities
  }

  /**
   * Why dispatch is refused before any adapter is asked. An outcome that invalidates reads as a changed provider, and an
   * allowance under another identity as a missing validation; the plan's own values are compared last.
   */
  lemma RefusedFor(q: DispatchRequest, input: DispatchInput)
    ensures var d := Dispatched(q, input);
      if input.plan == None then d == DispatchRejected(InvalidPlan)
      else if input.validation == None then d == DispatchRejected(MissingValidation)
      else if !Validated(q, input.validation.value) then
        && (input.validation.value.outcome == InvalidatedOutcome ==> d == DispatchRejected(DispatchProviderChanged))
        && (input.validation.value.outcome == DeniedOutcome ==> d == DispatchRejected(ValidationDenied))
        && (input.validation.value.outcome == AllowedOutcome ==> d == DispatchRejected(MissingValidation))
      else if input.validation.value.expiresAt <= q.requestedAt then d == DispatchRejected(ValidationHasExpired)
      else if !Offers(q, input.provider) then
        d == DispatchRejected(if input.provider == None || input.provider.value.providerId != q.providerId then DispatchProviderChanged
                              else DispatchCapabilityChanged)
      else if input.policyAllowed == Some(false) then d == DispatchRejected(DispatchPolicyDenied)
      else if (input.plan.value.planId, input.plan.value.sessionId, input.plan.value.providerId, input.plan.value.capabilityId,
               input.plan.value.operation) != (q.planId, q.sessionId, q.providerId, q.capabilityId, q.operation) then
        d == DispatchRejected(InvalidPlan)
      else d == Selection(input.adapters, input.provider.value, q.capabilityId)
  {
  }

  // ------------------------------------------------------- one execution

  /**
   * One call of `executeCapability`, with everything its environment decides: whether its identity is taken, whether
   * the audit stores take their records, when the caller aborts, and which save of the record fails.
   */
  datatype Execution = Execution(
    format: NumberFormat,
    planId: Str, validationId: nat, sessionId: Str, providerId: Str, capabilityId: Str, operation: Str,
    timestamp: int, requestedAt: int,
    state: ValidationState,
    provider: Option<Provider>,
    adapters: seq<Adapter>,
    duplicate: bool, validationAudited: bool, dispatchAudited: bool,
    abortedBefore: bool, abortedAfter: bool, timedOut: bool,
    failsAt: Option<nat>, retrySaved: bool)

  function ValidationRequest(x: Execution): ExecutionRequest
  {
    var digest := if x.state.plan.Some? then x.state.plan.value.manifestDigest else [];
    ExecutionRequest(x.planId, x.sessionId, x.providerId, x.capabilityId, digest, x.operation, x.timestamp)
  }

  function DispatchOf(x: Execution): DispatchRequest
  {
    DispatchRequest(x.planId, x.validationId, x.providerId, x.capabilityId, x.operation, x.sessionId, x.requestedAt)
  }

  function Dispatching(x: Execution): DispatchInput
  {
    var q := ValidationRequest(x);
    DispatchInput(x.state.plan, Some(KnownValidation(x.validationId, OutcomeOf(x.format, q, x.state), ExpiryOf(q, x.state))),
                  x.provider, x.adapters, None)
  }

  function FirstNamed(adapters: seq<Adapter>, id: Str): (r: Option<nat>)
    ensures r.Some? ==> r.value < |adapters| && adapters[r.value].adapterId == id
    ensures r.Some? ==> forall k :: 0 <= k < r.value ==> adapters[k].adapterId != id
    ensures r.None? ==> forall k :: 0 <= k < |adapters| ==> adapters[k].adapterId != id
  {
    if adapters == [] then None
    else if adapters[0].adapterId == id then Some(0)
    else match FirstNamed(adapters[1..], id) case None => None case Some(i) => Some(i + 1)
  }

  /** A save inside the main body is retried as a failure; the save of a failure itself is not. */
  datatype Write = Update(state: ExecutionState) | Closing(state: ExecutionState)

  function TerminalOf(x: Execution, status: RunStatus): ExecutionState
  {
    if x.abortedAfter then ExecCancelled
    else if x.timedOut then ExecExpired
    else match status case RunCompleted => ExecCompleted case RunCancelled => ExecCancelled case RunFailed => ExecFailed
  }

  function Decision(x: Execution): Dispatch
  {
    Dispatched(DispatchOf(x), Dispatching(x))
  }

  /** The adapter handed control, if every save on the way succeeds. */
  function ReachedBy(x: Execution, d: Dispatch): (r: Option<nat>)
    ensures r.Some? ==> r.value < |x.adapters|
  {
    if x.duplicate || !x.validationAudited || !d.DispatchAccepted? || !x.dispatchAudited || d.adapterId == [] then None
    else
      var index := FirstNamed(x.adapters, d.adapterId);
      if index.None? || !x.adapters[index.value].executable || x.abortedBefore then None else index
  }

  /** The saves after dispatch was accepted. */
  function AfterAcceptance(x: Execution, adapterId: Str): seq<Write>
  {
    var index := FirstNamed(x.adapters, adapterId);
    [Update(ExecRunning)] +
    if adapterId == [] || index.None? || !x.adapters[index.value].executable then [Closing(ExecFailed)]
    else if x.abortedBefore then [Closing(ExecCancelled)]
    else if x.adapters[index.value].run.None? then [Closing(ExecFailed)]
    else [Update(ExecCompleting), Update(TerminalOf(x, x.adapters[index.value].run.value))]
  }

  function WritesFor(x: Execution, d: Dispatch): seq<Write>
  {
    if x.duplicate then []
    else if !x.validationAudited then [Closing(ExecPending), Update(ExecValidating), Closing(ExecFailed)]
    else
      [Closing(ExecPending), Update(ExecValidating), Update(ExecDispatching)] +
      if d.DispatchThrew? || !x.dispatchAudited then [Closing(ExecFailed)]
      else if d.DispatchRejected? then [Update(ExecFailed), Closing(ExecFailed)]
      else AfterAcceptance(x, d.adapterId)
  }

  /** The saves an execution makes, in order, if none fails. */
  function Writes(x: Execution): seq<Write>
  {
    WritesFor(x, Decision(x))
  }

  function States(writes: seq<Write>): (r: seq<ExecutionState>)
    ensures |r| == |writes| && forall i :: 0 <= i < |r| ==> r[i] == writes[i].state
  {
    seq(|writes|, i requires 0 <= i < |writes| => writes[i].state)
  }

  function PersistedOf(x: Execution, writes: seq<Write>): seq<ExecutionState>
  {
    if x.failsAt.None? || x.failsAt.value >= |writes| then States(writes)
    else
      States(writes)[..x.failsAt.value] +
      if writes[x.failsAt.value].Update? && x.retrySaved then [ExecFailed] else []
  }

  /** What is persisted when one of the saves fails. */
  function Persisted(x: Execution): seq<ExecutionState>
  {
    PersistedOf(x, Writes(x))
  }

  function CalledBy(x: Execution, d: Dispatch): Option<nat>
  {
    if x.failsAt.Some? && x.failsAt.value < 4 then None else ReachedBy(x, d)
  }

  /** The adapter is called once the running state is saved. */
  function Called(x: Execution): Option<nat>
  {
    CalledBy(x, Decision(x))
  }

  class Run {
    const x: Execution
    var attempts: nat
    var log: seq<ExecutionState>
    var called: Option<nat>

    constructor (x: Execution)
      ensures this.x == x && attempts == 0 && log == [] && called == None
    {
      this.x := x;
      attempts, log, called := 0, [], None;
    }

    /** The first `k` planned saves have been made. */
    ghost predicate Saved(writes: seq<Write>, k: nat)
      reads this
    {
      && attempts == k <= |writes| && log == States(writes)[..k]
      && (x.failsAt.Some? ==> x.failsAt.value >= k)
    }

    /** `save`. */
    method Save(ghost writes: seq<Write>, state: ExecutionState) returns (ok: bool)
      requires Saved(writes, attempts) && attempts < |writes| && writes[attempts].state == state
      modifies this`attempts, this`log
      ensures attempts == old(attempts) + 1
      ensures ok ==> Saved(writes, attempts)
      ensures !ok ==> x.failsAt == Some(old(attempts)) && log == old(log)
    {
      ok := x.failsAt != Some(attempts);
      attempts := attempts + 1;
      if ok { log := log + [state]; }
    }

    /** A save in the main body; when it throws, the catch block saves a failed record if it can. */
    method SaveOrFail(ghost writes: seq<Write>, state: ExecutionState) returns (ok: bool)
      requires Saved(writes, attempts) && attempts < |writes| && writes[attempts] == Update(state)
      modifies this`attempts, this`log
      ensures ok ==> attempts == old(attempts) + 1 && Saved(writes, attempts)
      ensures !ok ==> x.failsAt == Some(old(attempts)) && log == PersistedOf(x, writes)
    {
      ok := Save(writes, state);
      if !ok && x.retrySaved { log := log + [ExecFailed]; }
    }

    /** The last save of a run. */
    method SaveLast(ghost writes: seq<Write>, state: ExecutionState)
      requires Saved(writes, attempts) && attempts + 1 == |writes| && writes[attempts] == Closing(state)
      modifies this`attempts, this`log
      ensures log == PersistedOf(x, writes)
    {
      var ok := Save(writes, state);
      if ok { assert States(writes)[..|writes|] == States(writes); }
    }

    method Decide() returns (d: Dispatch)
      ensures d == Decision(x)
    {
      var validation := ValidateBeforeExecution(x.format, ValidationRequest(x), x.state);
      var input := DispatchInput(x.state.plan, Some(KnownValidation(x.validationId, validation.outcome, validation.expiresAt)),
                                 x.provider, x.adapters, None);
      d := DispatchCapability(DispatchOf(x), input);
    }

    /** `executeCapability` and `run`. */
    method Execute()
      requires attempts == 0 && log == [] && called == None
      modifies this
      ensures log == Persisted(x) && called == Called(x)
    {
      if x.duplicate { return; }
      ghost var writes := Writes(x);
      var ok := Save(writes, ExecPending);
      if !ok { return; }
      ok := SaveOrFail(writes, ExecValidating);
      if !ok { return; }
      if !x.validationAudited { SaveLast(writes, ExecFailed); return; }
      ok := SaveOrFail(writes, ExecDispatching);
      if !ok { return; }
      var d := Decide();
      Act(d);
    }

    /** What follows the dispatch decision. */
    method Act(d: Dispatch)
      requires !x.duplicate && x.validationAudited && Saved(WritesFor(x, d), 3) && called == None
      modifies this
      ensures log == PersistedOf(x, WritesFor(x, d)) && called == CalledBy(x, d)
    {
      ghost var writes := WritesFor(x, d);
      var ok;
      if d.DispatchThrew? || !x.dispatchAudited { SaveLast(writes, ExecFailed); return; }
      if d.DispatchRejected? {
        ok := SaveOrFail(writes, ExecFailed);
        if ok { SaveLast(writes, ExecFailed); }
        return;
      }
      ok := SaveOrFail(writes, ExecRunning);
      if !ok { return; }
      RunAdapter(d);
    }

    method RunAdapter(d: Dispatch)
      requires !x.duplicate && x.validationAudited && x.dispatchAudited && d.DispatchAccepted?
      requires Saved(WritesFor(x, d), 4) && called == None
      modifies this
      ensures log == PersistedOf(x, WritesFor(x, d)) && called == CalledBy(x, d)
    {
      ghost var writes := WritesFor(x, d);
      var index: Option<nat> := None;
      for i := 0 to |x.adapters|
        invariant index == None && forall k :: 0 <= k < i ==> x.adapters[k].adapterId != d.adapterId
        invariant Saved(writes, 4) && called == None
      {
        if x.adapters[i].adapterId == d.adapterId { index := Some(i); break; }
      }
      assert index == FirstNamed(x.adapters, d.adapterId);
      if d.adapterId == [] || index.None? || !x.adapters[index.value].executable {
        SaveLast(writes, ExecFailed);
      } else if x.abortedBefore {
        SaveLast(writes, ExecCancelled);
      } else {
        called := index;
        FinishRun(writes, x.adapters[index.value].run);
      }
    }

    method FinishRun(ghost writes: seq<Write>, run: Option<RunStatus>)
      requires Saved(writes, 4)
      requires run.None? ==> writes[4..] == [Closing(ExecFailed)]
      requires run.Some? ==> writes[4..] == [Update(ExecCompleting), Update(TerminalOf(x, run.value))]
      modifies this`attempts, this`log
      ensures log == PersistedOf(x, writes)
    {
      if run.None? {
        assert writes[4..][0] == writes[4];
        SaveLast(writes, ExecFailed);
      } else {
        assert writes[4..][0] == writes[4] && writes[4..][1] == writes[5];
        var ok := SaveOrFail(writes, ExecCompleting);
        if !ok { return; }
        ok := SaveOrFail(writes, TerminalOf(x, run.value));
        if ok { assert States(writes)[..|writes|] == States(writes); }
      }
    }
  }

  // ------------------------------------------------------- what the gate guarantees

  /** The steps a persisted execution record may take. */
  predicate MayFollow(before: ExecutionState, after: ExecutionState)
  {
    match before
    case ExecPending => after == ExecValidating || after == ExecFailed
    case ExecValidating => after == ExecDispatching || after == ExecFailed
    case ExecDispatching => after == ExecRunning || after == ExecFailed
    case ExecRunning => after == ExecCompleting || after == ExecFailed || after == ExecCancelled
    case ExecCompleting => after == ExecCompleted || after == ExecFailed || after == ExecCancelled || after == ExecExpired
    case ExecFailed => after == ExecFailed
    case _ => false
  }

  ghost predicate IsPath(log: seq<ExecutionState>)
  {
    && (log != [] ==> log[0] == ExecPending)
    && forall i :: 0 < i < |log| ==> MayFollow(log[i - 1], log[i])
  }

  predicate Follows(writes: seq<Write>, i: nat)
    requires 0 < i < |writes|
  {
    MayFollow(writes[i - 1].state, writes[i].state) && MayFollow(writes[i - 1].state, ExecFailed)
  }

  lemma AcceptedPath(x: Execution, adapterId: Str)
    ensures var tail := AfterAcceptance(x, adapterId);
      && tail[0] == Update(ExecRunning)
      && forall i :: 0 < i < |tail| ==> Follows(tail, i)
  {
  }

  /** Each planned save may follow the one before it, and so may a failure. */
  ghost predicate Planned(writes: seq<Write>)
  {
    && (writes != [] ==> writes[0] == Closing(ExecPending))
    && forall i :: 0 < i < |writes| ==> Follows(writes, i)
  }

  lemma WritesArePlanned(x: Execution, d: Dispatch)
    ensures Planned(WritesFor(x, d))
  {
    if d.DispatchAccepted? { AcceptedPath(x, d.adapterId); }
  }

  lemma PlannedIsPath(x: Execution, writes: seq<Write>)
    requires Planned(writes)
    ensures IsPath(PersistedOf(x, writes))
  {
    var log := PersistedOf(x, writes);
    forall i | 0 < i < |log| ensures MayFollow(log[i - 1], log[i]) {
      assert Follows(writes, i);
    }
  }

  /** Whatever fails and whenever the caller aborts, the persisted states form a path of the lifecycle. */
  lemma LifecycleIsAPath(x: Execution)
    ensures IsPath(Persisted(x))
  {
    WritesArePlanned(x, Decision(x));
    PlannedIsPath(x, Writes(x));
  }

  ghost predicate UniqueAdapters(adapters: seq<Adapter>)
  {
    forall i, j :: 0 <= i < j < |adapters| ==> adapters[i].adapterId != adapters[j].adapterId
  }

  /** The adapter serves the provider's type, and this capability or all of them. */
  predicate Serves(x: Execution, a: Adapter)
    requires x.provider.Some?
  {
    x.provider.value.providerType in a.providerTypes && exists c :: c in a.capabilities && (c == x.capabilityId || c == Lit("*"))
  }

  /** The first adapter that serves the request, the only one that is asked. */
  ghost predicate Asked(x: Execution, j: nat)
  {
    && x.provider.Some? && j < |x.adapters| && Serves(x, x.adapters[j])
    && forall k :: 0 <= k < j ==> !Serves(x, x.adapters[k])
  }

  /** The adapter dispatch settles on: the one asked, healthy and willing. */
  ghost predicate Willing(x: Execution, j: nat)
  {
    Asked(x, j) && x.adapters[j].health == Passes && x.adapters[j].validation == Passes
  }

  /** A willing adapter that has a name. */
  ghost predicate Chosen(x: Execution, j: nat)
  {
    Willing(x, j) && x.adapters[j].adapterId != []
  }

  /** The plan is approved, valid, unexpired and bound to this request, and the provider still offers the capability. */
  ghost predicate Cleared(x: Execution)
  {
    && Executable(x.format, ValidationRequest(x), x.state)
    && x.requestedAt < x.state.plan.value.expiresAt
    && x.provider.Some? && x.provider.value.providerId == x.providerId && x.capabilityId in x.provider.value.capabilities
  }

  lemma NoProblemMeans(x: Execution)
    ensures DispatchProblem(DispatchOf(x), Dispatching(x)).None? <==> Cleared(x)
  {
    ClearedOutcome(x);
  }

  lemma ClearedOutcome(x: Execution)
    ensures OutcomeOf(x.format, ValidationRequest(x), x.state) == AllowedOutcome <==> Executable(x.format, ValidationRequest(x), x.state)
    ensures Executable(x.format, ValidationRequest(x), x.state) ==>
      x.state.plan.Some? && PlanMatches(ValidationRequest(x), x.state.plan.value)
      && ExpiryOf(ValidationRequest(x), x.state) == x.state.plan.value.expiresAt
  {
    ExecutableWithoutReasons(x.format, ValidationRequest(x), x.state);
  }

  lemma AskedIsFirst(x: Execution, j: nat)
    requires x.provider.Some?
    ensures Asked(x, j) <==> FirstSupporting(x.adapters, x.provider.value, x.capabilityId) == Some(j)
  {
    forall k: nat | k < |x.adapters|
      ensures Serves(x, x.adapters[k]) <==> Supports(x.adapters[k], x.provider.value, x.capabilityId) {
    }
  }

  /** What the adapter that is asked decides. */
  ghost predicate Answers(x: Execution, j: nat, d: Dispatch)
  {
    Asked(x, j) && d == match x.adapters[j].health
      case Throws => DispatchThrew
      case Fails => DispatchRejected(AdapterUnavailable)
      case Passes =>
        match x.adapters[j].validation
        case Throws => DispatchThrew
        case Fails => DispatchRejected(AdapterUnavailable)
        case Passes => DispatchAccepted(x.adapters[j].adapterId)
  }

  lemma SelectionMeans(x: Execution)
    requires x.provider.Some?
    ensures var d := Selection(x.adapters, x.provider.value, x.capabilityId);
      if d == DispatchRejected(MissingAdapter) then forall j: nat :: !Asked(x, j) else exists j: nat :: Answers(x, j, d)
    ensures forall j: nat :: Asked(x, j) ==> Answers(x, j, Selection(x.adapters, x.provider.value, x.capabilityId))
  {
    var index := FirstSupporting(x.adapters, x.provider.value, x.capabilityId);
    forall j: nat ensures Asked(x, j) <==> index == Some(j) { AskedIsFirst(x, j); }
    if index.Some? { assert Answers(x, index.value, Selection(x.adapters, x.provider.value, x.capabilityId)); }
  }

  /** The gate and the adapter that is asked decide. */
  lemma DecisionMeans(x: Execution)
    ensures Cleared(x) ==> forall j: nat :: Asked(x, j) ==> Answers(x, j, Decision(x))
    ensures !Cleared(x) || (forall j: nat :: !Asked(x, j)) ==> Decision(x).DispatchRejected?
  {
    NoProblemMeans(x);
    if x.provider.Some? { SelectionMeans(x); }
  }

  lemma AcceptedExactlyWhen(x: Execution)
    ensures var d := Decision(x);
      && (d.DispatchAccepted? && d.adapterId != [] <==> Cleared(x) && exists j: nat :: Chosen(x, j))
      && (forall j: nat :: Cleared(x) && Chosen(x, j) ==> d == DispatchAccepted(x.adapters[j].adapterId))
  {
    DecisionKinds(x);
    if Cleared(x) && Decision(x).DispatchAccepted? {
      var j: nat :| Willing(x, j) && Answers(x, j, Decision(x));
      AskedOnce(x, j);
      assert Chosen(x, j) <==> x.adapters[j].adapterId != [];
    }
  }

  /** When the decision is an acceptance, and when dispatch throws. */
  lemma DecisionKinds(x: Execution)
    ensures Decision(x).DispatchAccepted? <==> Cleared(x) && exists j: nat :: Willing(x, j)
    ensures Decision(x).DispatchThrew? <==> Cleared(x) && exists j: nat :: Answers(x, j, DispatchThrew)
    ensures Decision(x).DispatchAccepted? ==> exists j: nat :: Willing(x, j) && Answers(x, j, Decision(x))
  {
    DecisionMeans(x);
    if Cleared(x) && exists j: nat :: Asked(x, j) {
      var j: nat :| Asked(x, j);
      assert Answers(x, j, Decision(x));
      AskedOnce(x, j);
      assert Decision(x).DispatchAccepted? <==> Willing(x, j);
      assert Decision(x).DispatchThrew? <==> Answers(x, j, DispatchThrew);
    } else {
      forall j: nat ensures Cleared(x) ==> !Willing(x, j) && !Answers(x, j, DispatchThrew) {
        assert Cleared(x) ==> !Asked(x, j);
      }
    }
  }

  lemma AskedOnce(x: Execution, j: nat)
    requires Asked(x, j)
    ensures forall k: nat :: Asked(x, k) ==> k == j
  {
  }

  /** Control is handed to an adapter exactly when the gate is open, and to the first one that bears the chosen name. */
  lemma AdapterGate(x: Execution)
    ensures Called(x).Some? <==>
      && Cleared(x) && !x.duplicate && !x.abortedBefore && x.validationAudited && x.dispatchAudited
      && (x.failsAt.Some? ==> x.failsAt.value >= 4)
      && exists j: nat :: Chosen(x, j) && x.adapters[FirstNamed(x.adapters, x.adapters[j].adapterId).value].executable
    ensures Called(x).Some? ==> exists j: nat :: Chosen(x, j) && Called(x) == FirstNamed(x.adapters, x.adapters[j].adapterId)
  {
    AcceptedExactlyWhen(x);
  }

  /** With unique adapter identities the adapter called is the chosen one. */
  lemma UniqueAdapterIsChosen(x: Execution, i: nat)
    requires UniqueAdapters(x.adapters) && Called(x) == Some(i)
    ensures Chosen(x, i) && Cleared(x)
  {
    AdapterGate(x);
    var j: nat :| Chosen(x, j) && Called(x) == FirstNamed(x.adapters, x.adapters[j].adapterId);
    NamedOnce(x.adapters, j);
  }

  // ------------------------------------------------------- what is persisted

  /** The first adapter with the name of adapter `j`: the one that is handed control. */
  ghost predicate Bears(x: Execution, i: nat, j: nat)
  {
    && i < |x.adapters| && j < |x.adapters| && x.adapters[i].adapterId == x.adapters[j].adapterId
    && forall k :: 0 <= k < i ==> x.adapters[k].adapterId != x.adapters[j].adapterId
  }

  /**
   * What an adapter that was settled on leads to. One that cannot run, or rejects, leaves a failure, and an abort before
   * the run a cancellation; otherwise an abort during the run, then the timeout, then the run itself decide.
   */
  function Ending(x: Execution, a: Adapter): seq<ExecutionState>
  {
    if a.adapterId == [] || !a.executable then [ExecFailed]
    else if x.abortedBefore then [ExecCancelled]
    else if a.run.None? then [ExecFailed]
    else if x.abortedAfter then [ExecCompleting, ExecCancelled]
    else if x.timedOut then [ExecCompleting, ExecExpired]
    else if a.run == Some(RunCompleted) then [ExecCompleting, ExecCompleted]
    else if a.run == Some(RunCancelled) then [ExecCompleting, ExecCancelled]
    else [ExecCompleting, ExecFailed]
  }

  /** An execution that passes the gate, with no save failing, is recorded as running and then ends as its adapter decides. */
  lemma AdapterRunEnds(x: Execution, j: nat, i: nat)
    requires x.failsAt.None? && !x.duplicate && x.validationAudited && x.dispatchAudited
    requires Cleared(x) && Willing(x, j) && Bears(x, i, j)
    ensures Persisted(x) == [ExecPending, ExecValidating, ExecDispatching, ExecRunning] + Ending(x, x.adapters[i])
  {
    WillingIsAccepted(x, j);
    StatesOfAccepted(x, x.adapters[i].adapterId, i);
  }

  lemma WillingIsAccepted(x: Execution, j: nat)
    requires Cleared(x) && Willing(x, j)
    ensures Decision(x) == DispatchAccepted(x.adapters[j].adapterId)
  {
    DecisionMeans(x);
    assert Answers(x, j, Decision(x));
  }

  lemma StatesOfAccepted(x: Execution, name: Str, i: nat)
    requires x.failsAt.None? && !x.duplicate && x.validationAudited && x.dispatchAudited
    requires i < |x.adapters| && x.adapters[i].adapterId == name && forall k :: 0 <= k < i ==> x.adapters[k].adapterId != name
    ensures PersistedOf(x, WritesFor(x, DispatchAccepted(name))) ==
      [ExecPending, ExecValidating, ExecDispatching, ExecRunning] + Ending(x, x.adapters[i])
  {
    assert FirstNamed(x.adapters, name) == Some(i);
  }

  /** An execution that does not pass, with no save failing, never gets past dispatching and always ends as a failure. */
  lemma RefusedEnds(x: Execution)
    requires x.failsAt.None? && !x.duplicate
    requires !(x.validationAudited && x.dispatchAudited && Cleared(x) && exists j: nat :: Willing(x, j))
    ensures Persisted(x) ==
      if !x.validationAudited then [ExecPending, ExecValidating, ExecFailed]
      else if !x.dispatchAudited || (Cleared(x) && exists j: nat :: Answers(x, j, DispatchThrew)) then
        [ExecPending, ExecValidating, ExecDispatching, ExecFailed]
      else [ExecPending, ExecValidating, ExecDispatching, ExecFailed, ExecFailed]
  {
    DecisionKinds(x);
    StatesOfRefused(x, Decision(x));
  }

  lemma StatesOfRefused(x: Execution, d: Dispatch)
    requires x.failsAt.None? && !x.duplicate && !(x.validationAudited && x.dispatchAudited && d.DispatchAccepted?)
    ensures PersistedOf(x, WritesFor(x, d)) ==
      if !x.validationAudited then [ExecPending, ExecValidating, ExecFailed]
      else if !x.dispatchAudited || d.DispatchThrew? then [ExecPending, ExecValidating, ExecDispatching, ExecFailed]
      else [ExecPending, ExecValidating, ExecDispatching, ExecFailed, ExecFailed]
  {
  }

  /**
   * When save `k` fails, the states before it stay; a failure is recorded after them if that save succeeds, but not when
   * the failing save was the first one or itself ended the record outside of `completing`.
   */
  lemma FailedSaveEnds(x: Execution, k: nat)
    requires x.failsAt == Some(k)
    ensures var all := Persisted(x.(failsAt := None));
      Persisted(x) ==
        if k >= |all| then all
        else if x.retrySaved && k > 0 && (k + 1 < |all| || all[k - 1] == ExecCompleting) then all[..k] + [ExecFailed]
        else all[..k]
  {
    SameWrites(x);
    ClosingWrites(x, Decision(x));
    FailedSave(x, Writes(x), k);
  }

  /** Which save fails changes nothing of what is planned. */
  lemma SameWrites(x: Execution)
    ensures Writes(x.(failsAt := None)) == Writes(x)
  {
    assert Decision(x.(failsAt := None)) == Decision(x);
  }

  lemma FailedSave(x: Execution, writes: seq<Write>, k: nat)
    requires x.failsAt == Some(k)
    requires k < |writes| ==> (writes[k].Update? <==> k > 0 && (k + 1 < |writes| || writes[k - 1].state == ExecCompleting))
    ensures var all := PersistedOf(x.(failsAt := None), writes);
      PersistedOf(x, writes) ==
        if k >= |all| then all
        else if x.retrySaved && k > 0 && (k + 1 < |all| || all[k - 1] == ExecCompleting) then all[..k] + [ExecFailed]
        else all[..k]
  {
  }

  /** Which planned saves are not retried. */
  lemma ClosingWrites(x: Execution, d: Dispatch)
    ensures var writes := WritesFor(x, d);
      forall k :: 0 <= k < |writes| ==>
        (writes[k].Update? <==> k > 0 && (k + 1 < |writes| || writes[k - 1].state == ExecCompleting))
  {
  }

  lemma NamedOnce(adapters: seq<Adapter>, j: nat)
    requires UniqueAdapters(adapters) && j < |adapters|
    ensures FirstNamed(adapters, adapters[j].adapterId) == Some(j)
  {
  }
}
