/** The check made just before a plan is executed, and how it relates to plan creation and re-validation. */
module PreExecution {
  import opened Wrappers
  import opened Strings
  import opened JsonText
  import opened CapabilityResolution
  import opened CandidateRanking
  import opened CapabilityPlanning

  datatype ExecutionRequest = ExecutionRequest(
    planId: Str, sessionId: Str, providerId: Str, capabilityId: Str, manifestDigest: Str, operation: Str, timestamp: int)

  datatype RiskPolicy = RiskPolicy(allowLow: bool, allowMedium: bool, allowHigh: bool)

  datatype ValidationState = ValidationState(
    plan: Option<Plan>,
    context: Option<SessionContext>,
    provider: Option<Provider>,
    grant: Option<Grant>,
    advertised: Option<seq<Str>>,
    operationAllowed: Option<bool>,
    riskPolicy: Option<RiskPolicy>)

  datatype Reason =
    | ContextHasExpired | ContextMissing | ContextUnconfirmed | SourceBindingChanged
    | ProviderAbsent | ProviderHasChanged | ProviderIsDisabled | ProviderIsUnhealthy | CapabilityNotAdvertised
    | GrantInvalid | BudgetExceeded | PermissionDenied | ApprovalMissing | RiskPolicyDenied | OperationNotAllowed
    | StalePlan | ValidationExpired

  datatype Outcome = AllowedOutcome | DeniedOutcome | InvalidatedOutcome

  /** `expiresAt` is the plan's expiry, or the request time when there is no plan. */
  datatype Validation = Validation(outcome: Outcome, allowed: bool, reasons: seq<Reason>, expiresAt: int)

  // ------------------------------------------------------- the single conditions

  predicate PlanMatches(q: ExecutionRequest, plan: Plan)
  {
    && q.planId == plan.planId && q.sessionId == plan.sessionId && q.providerId == plan.providerId
    && q.capabilityId == plan.capabilityId && q.manifestDigest == plan.manifestDigest && q.operation == plan.operation
  }

  predicate ContextBound(format: NumberFormat, context: SessionContext, plan: Plan)
  {
    && context.sessionId == plan.sessionId
    && ListDigest(format, SortTexts(context.sourceIds)) == ListDigest(format, plan.sourceIds)
  }

  predicate ProviderIntact(q: ExecutionRequest, provider: Provider, plan: Plan)
  {
    && provider.providerId == plan.providerId
    && provider.manifestDigest == plan.manifestDigest && q.manifestDigest == provider.manifestDigest
  }

  predicate Advertised(state: ValidationState, provider: Provider, plan: Plan)
  {
    plan.capabilityId in (if state.advertised.Some? then state.advertised.value else provider.capabilities)
  }

  predicate GrantIntact(grant: Option<Grant>, plan: Plan)
  {
    && grant.Some? && grant.value.state == GrantActive
    && grant.value.grantId == plan.grantId && grant.value.grantVersion == plan.grantVersion
  }

  /** The permission digest is taken over the sorted list here. */
  predicate PermissionsIntact(format: NumberFormat, grant: Grant, plan: Plan)
  {
    ListDigest(format, SortTexts(grant.permissions)) == plan.permissionDigest && AllIn(plan.permissions, grant.permissions)
  }

  predicate BudgetsIntact(format: NumberFormat, grant: Grant, plan: Plan)
  {
    BudgetDigest(format, grant.budgets) == plan.budgetDigest && WithinBudget(plan.budgets, grant.budgets)
  }

  predicate RiskAllowed(policy: Option<RiskPolicy>, risk: Risk)
  {
    policy.Some? ==>
      match risk case Low => policy.value.allowLow case Medium => policy.value.allowMedium case High => policy.value.allowHigh
  }

  predicate PlanGiven(q: ExecutionRequest, plan: Plan, r: Reason)
  {
    match r
    case StalePlan => !PlanMatches(q, plan) || (plan.approval == Approved && plan.invalidation.Some?)
    case ApprovalMissing => plan.approval != Approved
    case ValidationExpired => q.timestamp >= plan.expiresAt
    case _ => false
  }

  predicate ContextGiven(format: NumberFormat, context: Option<SessionContext>, plan: Plan, r: Reason)
  {
    match r
    case ContextHasExpired => context.Some? && Closed(context.value.status)
    case ContextMissing => context.None?
    case ContextUnconfirmed => context.Some? && context.value.status == Proposed
    case SourceBindingChanged =>
      context.None? || (!Closed(context.value.status) && !ContextBound(format, context.value, plan))
    case _ => false
  }

  predicate ProviderGiven(q: ExecutionRequest, s: ValidationState, plan: Plan, r: Reason)
  {
    match r
    case ProviderAbsent => s.provider.None?
    case ProviderHasChanged => s.provider.Some? && !ProviderIntact(q, s.provider.value, plan)
    case ProviderIsDisabled => s.provider.Some? && (!s.provider.value.enabled || s.provider.value.registration == Disabled)
    case ProviderIsUnhealthy => s.provider.Some? && s.provider.value.health != Healthy
    case CapabilityNotAdvertised => s.provider.Some? && !Advertised(s, s.provider.value, plan)
    case _ => false
  }

  predicate GrantGiven(format: NumberFormat, grant: Option<Grant>, plan: Plan, r: Reason)
  {
    match r
    case GrantInvalid => !GrantIntact(grant, plan)
    case PermissionDenied => grant.Some? && !PermissionsIntact(format, grant.value, plan)
    case BudgetExceeded => grant.Some? && !BudgetsIntact(format, grant.value, plan)
    case _ => false
  }

  predicate PolicyGiven(s: ValidationState, plan: Plan, r: Reason)
  {
    match r
    case OperationNotAllowed => s.operationAllowed == Some(false)
    case RiskPolicyDenied => !RiskAllowed(s.riskPolicy, plan.risk)
    case _ => false
  }

  /** When each reason is given. */
  predicate Given(format: NumberFormat, q: ExecutionRequest, s: ValidationState, r: Reason)
  {
    if s.plan.None? then r == StalePlan
    else
      || PlanGiven(q, s.plan.value, r)
      || ContextGiven(format, s.context, s.plan.value, r)
      || ProviderGiven(q, s, s.plan.value, r)
      || GrantGiven(format, s.grant, s.plan.value, r)
      || PolicyGiven(s, s.plan.value, r)
  }

  predicate Invalidating(r: Reason)
  {
    r == StalePlan || r == ProviderHasChanged || r == ContextHasExpired
  }

  // ------------------------------------------------------- the validator

  /** The order in which the checks are made. */
  function Rank(r: Reason): nat
  {
    match r
    case StalePlan => 0
    case ApprovalMissing => 1
    case ValidationExpired => 2
    case ContextHasExpired => 3
    case ContextMissing => 4
    case ContextUnconfirmed => 5
    case SourceBindingChanged => 6
    case ProviderAbsent => 7
    case ProviderHasChanged => 8
    case ProviderIsDisabled => 9
    case ProviderIsUnhealthy => 10
    case CapabilityNotAdvertised => 11
    case GrantInvalid => 12
    case PermissionDenied => 13
    case BudgetExceeded => 14
    case OperationNotAllowed => 15
    case RiskPolicyDenied => 16
  }

  /** In the order of the checks, each at most once. */
  ghost predicate Ordered(reasons: seq<Reason>)
  {
    forall i, j :: 0 <= i < j < |reasons| ==> Rank(reasons[i]) < Rank(reasons[j])
  }

  ghost predicate UpTo(reasons: seq<Reason>, rank: nat)
  {
    forall x :: x in reasons ==> Rank(x) <= rank
  }

  /** One `if (...) reasons.push(...)`, keeping the first occurrence only, as the final `new Set` does. */
  method Push(reasons: seq<Reason>, given: bool, reason: Reason) returns (r: seq<Reason>)
    requires Ordered(reasons) && UpTo(reasons, Rank(reason))
    ensures forall x :: x in r <==> x in reasons || (given && x == reason)
    ensures Ordered(r) && UpTo(r, Rank(reason))
  {
    r := reasons;
    if given && reason !in reasons {
      forall i | 0 <= i < |reasons| ensures Rank(reasons[i]) < Rank(reason) {
        assert reasons[i] in reasons;
      }
      r := reasons + [reason];
    }
  }

  method PlanReasons(q: ExecutionRequest, plan: Plan) returns (reasons: seq<Reason>)
    ensures Ordered(reasons) && UpTo(reasons, Rank(ValidationExpired))
    ensures forall x :: x in reasons <==> PlanGiven(q, plan, x)
  {
    reasons := Push([], !PlanMatches(q, plan), StalePlan);
    var approved := plan.approval == Approved && plan.invalidation.None?;
    reasons := Push(reasons, !approved, if plan.approval == Approved then StalePlan else ApprovalMissing);
    reasons := Push(reasons, q.timestamp >= plan.expiresAt, ValidationExpired);
  }

  method ContextReasons(format: NumberFormat, context: Option<SessionContext>, plan: Plan, before: seq<Reason>)
    returns (reasons: seq<Reason>)
    requires Ordered(before) && UpTo(before, Rank(ValidationExpired))
    ensures Ordered(reasons) && UpTo(reasons, Rank(SourceBindingChanged))
    ensures forall x :: x in reasons <==> x in before || ContextGiven(format, context, plan, x)
  {
    var closed := context.Some? && Closed(context.value.status);
    if closed {
      reasons := Push(before, true, ContextHasExpired);
    } else if context.None? {
      reasons := Push(before, true, ContextMissing);
    } else {
      reasons := Push(before, context.value.status != Confirmed, ContextUnconfirmed);
    }
    var bound := context.Some? && ContextBound(format, context.value, plan);
    reasons := Push(reasons, !bound, if closed then ContextHasExpired else SourceBindingChanged);
  }

  method ProviderReasons(q: ExecutionRequest, s: ValidationState, plan: Plan, before: seq<Reason>) returns (reasons: seq<Reason>)
    requires Ordered(before) && UpTo(before, Rank(SourceBindingChanged))
    ensures Ordered(reasons) && UpTo(reasons, Rank(CapabilityNotAdvertised))
    ensures forall x :: x in reasons <==> x in before || ProviderGiven(q, s, plan, x)
  {
    if s.provider.None? {
      reasons := Push(before, true, ProviderAbsent);
      return;
    }
    var provider := s.provider.value;
    reasons := Push(before, provider.providerId != plan.providerId, ProviderHasChanged);
    var digestMatches := provider.manifestDigest == plan.manifestDigest && q.manifestDigest == provider.manifestDigest;
    reasons := Push(reasons, !digestMatches, ProviderHasChanged);
    reasons := Push(reasons, !(provider.enabled && provider.registration != Disabled), ProviderIsDisabled);
    reasons := Push(reasons, provider.health != Healthy, ProviderIsUnhealthy);
    reasons := Push(reasons, !Advertised(s, provider, plan), CapabilityNotAdvertised);
  }

  method GrantReasons(format: NumberFormat, grant: Option<Grant>, plan: Plan, before: seq<Reason>) returns (reasons: seq<Reason>)
    requires Ordered(before) && UpTo(before, Rank(CapabilityNotAdvertised))
    ensures Ordered(reasons) && UpTo(reasons, Rank(BudgetExceeded))
    ensures forall x :: x in reasons <==> x in before || GrantGiven(format, grant, plan, x)
  {
    reasons := Push(before, !GrantIntact(grant, plan), GrantInvalid);
    if grant.Some? {
      reasons := Push(reasons, !PermissionsIntact(format, grant.value, plan), PermissionDenied);
      reasons := Push(reasons, !BudgetsIntact(format, grant.value, plan), BudgetExceeded);
    }
  }

  method PolicyReasons(s: ValidationState, plan: Plan, before: seq<Reason>) returns (reasons: seq<Reason>)
    requires Ordered(before) && UpTo(before, Rank(BudgetExceeded))
    ensures Ordered(reasons)
    ensures forall x :: x in reasons <==> x in before || PolicyGiven(s, plan, x)
  {
    reasons := Push(before, s.operationAllowed == Some(false), OperationNotAllowed);
    reasons := Push(reasons, !RiskAllowed(s.riskPolicy, plan.risk), RiskPolicyDenied);
  }

  method AllReasons(format: NumberFormat, q: ExecutionRequest, s: ValidationState) returns (reasons: seq<Reason>)
    ensures forall x :: x in reasons <==> Given(format, q, s, x)
    ensures Ordered(reasons)
  {
    if s.plan.None? {
      return [StalePlan];
    }
    reasons := PlanReasons(q, s.plan.value);
    reasons := ContextReasons(format, s.context, s.plan.value, reasons);
    reasons := ProviderReasons(q, s, s.plan.value, reasons);
    reasons := GrantReasons(format, s.grant, s.plan.value, reasons);
    reasons := PolicyReasons(s, s.plan.value, reasons);
  }

  predicate PlanStands(q: ExecutionRequest, plan: Plan)
  {
    PlanMatches(q, plan) && plan.approval == Approved && plan.invalidation.None? && q.timestamp < plan.expiresAt
  }

  predicate ContextStands(format: NumberFormat, context: Option<SessionContext>, plan: Plan)
  {
    context.Some? && context.value.status == Confirmed && ContextBound(format, context.value, plan)
  }

  predicate ProviderStands(q: ExecutionRequest, s: ValidationState, plan: Plan)
  {
    && s.provider.Some? && ProviderIntact(q, s.provider.value, plan)
    && s.provider.value.enabled && s.provider.value.registration != Disabled && s.provider.value.health == Healthy
    && Advertised(s, s.provider.value, plan)
  }

  predicate GrantStands(format: NumberFormat, grant: Option<Grant>, plan: Plan)
  {
    GrantIntact(grant, plan) && PermissionsIntact(format, grant.value, plan) && BudgetsIntact(format, grant.value, plan)
  }

  predicate Executable(format: NumberFormat, q: ExecutionRequest, s: ValidationState)
  {
    && s.plan.Some? && PlanStands(q, s.plan.value)
    && ContextStands(format, s.context, s.plan.value)
    && ProviderStands(q, s, s.plan.value)
    && GrantStands(format, s.grant, s.plan.value)
    && s.operationAllowed != Some(false) && RiskAllowed(s.riskPolicy, s.plan.value.risk)
  }

  predicate Invalidated(format: NumberFormat, q: ExecutionRequest, s: ValidationState)
  {
    Given(format, q, s, StalePlan) || Given(format, q, s, ProviderHasChanged) || Given(format, q, s, ContextHasExpired)
  }

  function OutcomeOf(format: NumberFormat, q: ExecutionRequest, s: ValidationState): Outcome
  {
    if Invalidated(format, q, s) then InvalidatedOutcome
    else if Executable(format, q, s) then AllowedOutcome
    else DeniedOutcome
  }

  function ExpiryOf(q: ExecutionRequest, s: ValidationState): int
  {
    if s.plan.Some? then s.plan.value.expiresAt else q.timestamp
  }

  /** `validateCapabilityBeforeExecution`: allowed exactly when the plan is executable, with exactly the reasons that apply. */
  method ValidateBeforeExecution(format: NumberFormat, q: ExecutionRequest, s: ValidationState) returns (v: Validation)
    ensures forall x :: x in v.reasons <==> Given(format, q, s, x)
    ensures Ordered(v.reasons)
    ensures v.allowed <==> Executable(format, q, s)
    ensures v.outcome == OutcomeOf(format, q, s) && v.expiresAt == ExpiryOf(q, s)
    ensures v.outcome ==
      if StalePlan in v.reasons || ProviderHasChanged in v.reasons || ContextHasExpired in v.reasons then InvalidatedOutcome
      else if v.reasons != [] then DeniedOutcome else AllowedOutcome
    ensures v.allowed <==> v.reasons == []
  {
    var reasons := AllReasons(format, q, s);
    var invalidated := exists i :: 0 <= i < |reasons| && Invalidating(reasons[i]);
    assert invalidated <==> Invalidated(format, q, s) by {
      if Invalidated(format, q, s) {
        assert StalePlan in reasons || ProviderHasChanged in reasons || ContextHasExpired in reasons;
      }
      assert forall i :: 0 <= i < |reasons| ==> Given(format, q, s, reasons[i]);
    }
    var outcome := if invalidated then InvalidatedOutcome else if |reasons| > 0 then DeniedOutcome else AllowedOutcome;
    NoReasonsMeans(format, q, s, reasons);
    return Validation(outcome, outcome == AllowedOutcome, reasons, ExpiryOf(q, s));
  }

  lemma NoReasonsMeans(format: NumberFormat, q: ExecutionRequest, s: ValidationState, reasons: seq<Reason>)
    requires forall x :: x in reasons <==> Given(format, q, s, x)
    ensures reasons == [] <==> Executable(format, q, s)
  {
    ExecutableWithoutReasons(format, q, s);
    if reasons != [] { assert reasons[0] in reasons; }
  }

  lemma PlanStandsWithoutReasons(q: ExecutionRequest, plan: Plan)
    ensures PlanStands(q, plan) <==> forall x :: !PlanGiven(q, plan, x)
  {
    if !PlanStands(q, plan) {
      assert PlanGiven(q, plan, StalePlan) || PlanGiven(q, plan, ApprovalMissing) || PlanGiven(q, plan, ValidationExpired);
    }
  }

  lemma ContextStandsWithoutReasons(format: NumberFormat, context: Option<SessionContext>, plan: Plan)
    ensures ContextStands(format, context, plan) <==> forall x :: !ContextGiven(format, context, plan, x)
  {
    if !ContextStands(format, context, plan) {
      assert ContextGiven(format, context, plan, ContextHasExpired) || ContextGiven(format, context, plan, ContextMissing)
        || ContextGiven(format, context, plan, ContextUnconfirmed) || ContextGiven(format, context, plan, SourceBindingChanged);
    }
  }

  lemma ProviderStandsWithoutReasons(q: ExecutionRequest, s: ValidationState, plan: Plan)
    ensures ProviderStands(q, s, plan) <==> forall x :: !ProviderGiven(q, s, plan, x)
  {
    if !ProviderStands(q, s, plan) {
      assert ProviderGiven(q, s, plan, ProviderAbsent) || ProviderGiven(q, s, plan, ProviderHasChanged)
        || ProviderGiven(q, s, plan, ProviderIsDisabled) || ProviderGiven(q, s, plan, ProviderIsUnhealthy)
        || ProviderGiven(q, s, plan, CapabilityNotAdvertised);
    }
  }

  lemma GrantStandsWithoutReasons(format: NumberFormat, grant: Option<Grant>, plan: Plan)
    ensures GrantStands(format, grant, plan) <==> forall x :: !GrantGiven(format, grant, plan, x)
  {
    if !GrantStands(format, grant, plan) {
      assert GrantGiven(format, grant, plan, GrantInvalid) || GrantGiven(format, grant, plan, PermissionDenied)
        || GrantGiven(format, grant, plan, BudgetExceeded);
    }
  }

  lemma PolicyStandsWithoutReasons(s: ValidationState, plan: Plan)
    ensures s.operationAllowed != Some(false) && RiskAllowed(s.riskPolicy, plan.risk) <==> forall x :: !PolicyGiven(s, plan, x)
  {
    assert PolicyGiven(s, plan, OperationNotAllowed) <==> s.operationAllowed == Some(false);
    assert PolicyGiven(s, plan, RiskPolicyDenied) <==> !RiskAllowed(s.riskPolicy, plan.risk);
  }

  /** A plan is executable exactly when no reason speaks against it. */
  lemma ExecutableWithoutReasons(format: NumberFormat, q: ExecutionRequest, s: ValidationState)
    ensures Executable(format, q, s) <==> forall x :: !Given(format, q, s, x)
  {
    if s.plan.None? {
      assert Given(format, q, s, StalePlan);
    } else {
      PlanStandsWithoutReasons(q, s.plan.value);
      ContextStandsWithoutReasons(format, s.context, s.plan.value);
      ProviderStandsWithoutReasons(q, s, s.plan.value);
      GrantStandsWithoutReasons(format, s.grant, s.plan.value);
      PolicyStandsWithoutReasons(s, s.plan.value);
      assert forall x :: Given(format, q, s, x) <==>
        || PlanGiven(q, s.plan.value, x)
        || ContextGiven(format, s.context, s.plan.value, x)
        || ProviderGiven(q, s, s.plan.value, x)
        || GrantGiven(format, s.grant, s.plan.value, x)
        || PolicyGiven(s, s.plan.value, x);
    }
  }

  // ------------------------------------------------------- what may be executed

  /** The plan is approved, not invalidated, unexpired, and asked for with the values it was made with. */
  predicate PlanReady(q: ExecutionRequest, plan: Plan)
  {
    && plan.approval == Approved && plan.invalidation == None && q.timestamp < plan.expiresAt
    && q == ExecutionRequest(plan.planId, plan.sessionId, plan.providerId, plan.capabilityId, plan.manifestDigest, plan.operation, q.timestamp)
  }

  /** The context is confirmed, and binds the plan's session and sources in whatever order. */
  ghost predicate ContextReady(context: SessionContext, plan: Plan)
  {
    && context.status == Confirmed && context.sessionId == plan.sessionId
    && InOrder(plan.sourceIds) && multiset(plan.sourceIds) == multiset(context.sourceIds)
  }

  /** The plan's provider, with the same manifest, is enabled, healthy and still offers the capability. */
  predicate ProviderReady(provider: Provider, advertised: Option<seq<Str>>, plan: Plan)
  {
    && provider.providerId == plan.providerId && provider.manifestDigest == plan.manifestDigest
    && provider.enabled && provider.registration != Disabled && provider.health == Healthy
    && (advertised == None ==> plan.capabilityId in provider.capabilities)
    && (advertised.Some? ==> plan.capabilityId in advertised.value)
  }

  /** The grant holds these permissions, which the plan was made for in this order, and all that the plan needs. */
  ghost predicate PermissionsReady(grant: Grant, plan: Plan, permissions: seq<Str>)
  {
    && InOrder(permissions) && multiset(permissions) == multiset(grant.permissions)
    && forall x :: x in plan.permissions ==> x in grant.permissions
  }

  /** The grant has these budgets, which the plan was made for, and the plan stays within them. */
  predicate BudgetsReady(grant: Grant, plan: Plan, budgets: Budget)
  {
    && grant.budgets == budgets
    && plan.budgets.maximumBytes <= budgets.maximumBytes
    && plan.budgets.maximumDurationMs <= budgets.maximumDurationMs
    && plan.budgets.maximumQueries <= budgets.maximumQueries
  }

  /** The plan's grant is active, holds the permissions and budgets the plan was made for, and covers what it needs. */
  ghost predicate GrantReady(grant: Grant, plan: Plan, permissions: seq<Str>, budgets: Budget)
  {
    && grant.state == GrantActive && grant.grantId == plan.grantId && grant.grantVersion == plan.grantVersion
    && PermissionsReady(grant, plan, permissions) && BudgetsReady(grant, plan, budgets)
  }

  /** Neither the operation nor the risk is ruled out. */
  predicate PolicyReady(operationAllowed: Option<bool>, policy: Option<RiskPolicy>, risk: Risk)
  {
    && operationAllowed != Some(false)
    && (policy.Some? && risk == Low ==> policy.value.allowLow)
    && (policy.Some? && risk == Medium ==> policy.value.allowMedium)
    && (policy.Some? && risk == High ==> policy.value.allowHigh)
  }

  lemma ContextStandsMeans(format: NumberFormat, context: SessionContext, plan: Plan)
    requires GoodFormat(format)
    ensures ContextStands(format, Some(context), plan) <==> ContextReady(context, plan)
  {
    ListDigestDecides(format, SortTexts(context.sourceIds), plan.sourceIds);
    SortTextsIs(context.sourceIds, plan.sourceIds);
  }

  lemma PermissionsMean(format: NumberFormat, grant: Grant, plan: Plan, permissions: seq<Str>)
    requires GoodFormat(format) && plan.permissionDigest == ListDigest(format, permissions)
    ensures PermissionsIntact(format, grant, plan) <==> PermissionsReady(grant, plan, permissions)
  {
    ListDigestDecides(format, SortTexts(grant.permissions), permissions);
    SortTextsIs(grant.permissions, permissions);
    assert AllIn(plan.permissions, grant.permissions) <==> forall x :: x in plan.permissions ==> x in grant.permissions by {
      assert forall i :: 0 <= i < |plan.permissions| ==> plan.permissions[i] in plan.permissions;
    }
  }

  lemma BudgetsMean(format: NumberFormat, grant: Grant, plan: Plan, budgets: Budget)
    requires GoodFormat(format) && plan.budgetDigest == BudgetDigest(format, budgets)
    ensures BudgetsIntact(format, grant, plan) <==> BudgetsReady(grant, plan, budgets)
  {
    BudgetDigestDecides(format, grant.budgets, budgets);
  }

  lemma GrantStandsMeans(format: NumberFormat, grant: Grant, plan: Plan, permissions: seq<Str>, budgets: Budget)
    requires GoodFormat(format)
    requires plan.permissionDigest == ListDigest(format, permissions) && plan.budgetDigest == BudgetDigest(format, budgets)
    ensures GrantStands(format, Some(grant), plan) <==> GrantReady(grant, plan, permissions, budgets)
  {
    PermissionsMean(format, grant, plan, permissions);
    BudgetsMean(format, grant, plan, budgets);
  }

  /** What each reason about the plan says. */
  lemma PlanReasonsMean(format: NumberFormat, q: ExecutionRequest, s: ValidationState)
    requires s.plan.Some?
    ensures var plan := s.plan.value;
      && (Given(format, q, s, StalePlan) <==>
            || q != ExecutionRequest(plan.planId, plan.sessionId, plan.providerId, plan.capabilityId, plan.manifestDigest, plan.operation, q.timestamp)
            || (plan.approval == Approved && plan.invalidation != None))
      && (Given(format, q, s, ApprovalMissing) <==> plan.approval != Approved)
      && (Given(format, q, s, ValidationExpired) <==> plan.expiresAt <= q.timestamp)
  {
  }

  /** What each reason about the context says. */
  lemma ContextReasonsMean(format: NumberFormat, q: ExecutionRequest, s: ValidationState)
    requires GoodFormat(format) && s.plan.Some?
    ensures var plan := s.plan.value;
      && (Given(format, q, s, ContextMissing) <==> s.context == None)
      && (Given(format, q, s, ContextHasExpired) <==>
            s.context.Some? && (s.context.value.status == SessionExpired || s.context.value.status == Cleared))
      && (Given(format, q, s, ContextUnconfirmed) <==> s.context.Some? && s.context.value.status == Proposed)
      && (Given(format, q, s, SourceBindingChanged) <==>
            || s.context == None
            || ((s.context.value.status == Proposed || s.context.value.status == Confirmed)
                && !ContextReady(s.context.value.(status := Confirmed), plan)))
  {
    if s.context.Some? {
      var context := s.context.value;
      ListDigestDecides(format, SortTexts(context.sourceIds), s.plan.value.sourceIds);
      SortTextsIs(context.sourceIds, s.plan.value.sourceIds);
    }
  }

  /** What each reason about the provider and the policies says. */
  lemma ProviderReasonsMean(format: NumberFormat, q: ExecutionRequest, s: ValidationState)
    requires s.plan.Some?
    ensures var plan := s.plan.value;
      && (Given(format, q, s, ProviderAbsent) <==> s.provider == None)
      && (Given(format, q, s, ProviderHasChanged) <==>
            s.provider.Some? && !(s.provider.value.providerId == plan.providerId
                                  && s.provider.value.manifestDigest == plan.manifestDigest == q.manifestDigest))
      && (Given(format, q, s, ProviderIsDisabled) <==>
            s.provider.Some? && (!s.provider.value.enabled || s.provider.value.registration == Disabled))
      && (Given(format, q, s, ProviderIsUnhealthy) <==> s.provider.Some? && s.provider.value.health != Healthy)
      && (Given(format, q, s, CapabilityNotAdvertised) <==>
            && s.provider.Some?
            && if s.advertised.Some? then plan.capabilityId !in s.advertised.value
               else plan.capabilityId !in s.provider.value.capabilities)
    ensures
      && (Given(format, q, s, OperationNotAllowed) <==> s.operationAllowed == Some(false))
      && (Given(format, q, s, RiskPolicyDenied) <==>
            s.riskPolicy.Some? && ((s.plan.value.risk == Low && !s.riskPolicy.value.allowLow)
                                   || (s.plan.value.risk == Medium && !s.riskPolicy.value.allowMedium)
                                   || (s.plan.value.risk == High && !s.riskPolicy.value.allowHigh)))
  {
  }

  /** What each reason about the grant says, for a plan that was made for these granted permissions and budgets. */
  lemma GrantReasonsMean(format: NumberFormat, q: ExecutionRequest, s: ValidationState, permissions: seq<Str>, budgets: Budget)
    requires GoodFormat(format) && s.plan.Some?
    requires s.plan.value.permissionDigest == ListDigest(format, permissions) && s.plan.value.budgetDigest == BudgetDigest(format, budgets)
    ensures var plan := s.plan.value;
      && (Given(format, q, s, GrantInvalid) <==>
            s.grant == None || s.grant.value.state != GrantActive
            || s.grant.value.grantId != plan.grantId || s.grant.value.grantVersion != plan.grantVersion)
      && (Given(format, q, s, PermissionDenied) <==> s.grant.Some? && !PermissionsReady(s.grant.value, plan, permissions))
      && (Given(format, q, s, BudgetExceeded) <==> s.grant.Some? && !BudgetsReady(s.grant.value, plan, budgets))
  {
    GivenByGrant(format, q, s);
    if s.grant.Some? {
      PermissionsMean(format, s.grant.value, s.plan.value, permissions);
      BudgetsMean(format, s.grant.value, s.plan.value, budgets);
    }
  }

  lemma GivenByGrant(format: NumberFormat, q: ExecutionRequest, s: ValidationState)
    requires s.plan.Some?
    ensures Given(format, q, s, GrantInvalid) <==> !GrantIntact(s.grant, s.plan.value)
    ensures Given(format, q, s, PermissionDenied) <==> s.grant.Some? && !PermissionsIntact(format, s.grant.value, s.plan.value)
    ensures Given(format, q, s, BudgetExceeded) <==> s.grant.Some? && !BudgetsIntact(format, s.grant.value, s.plan.value)
  {
  }

  /**
   * A plan that was made for these granted permissions and budgets may be executed exactly when the plan itself, the
   * context, the provider, the grant and the policies are all ready for it. The digests have gone: equal digests are
   * equal lists and budgets.
   */
  lemma ExecutableExactlyWhenReady(format: NumberFormat, q: ExecutionRequest, s: ValidationState, permissions: seq<Str>, budgets: Budget)
    requires GoodFormat(format)
    requires s.plan.Some? ==>
      s.plan.value.permissionDigest == ListDigest(format, permissions) && s.plan.value.budgetDigest == BudgetDigest(format, budgets)
    ensures Executable(format, q, s) <==>
      && s.plan.Some? && PlanReady(q, s.plan.value)
      && s.context.Some? && ContextReady(s.context.value, s.plan.value)
      && s.provider.Some? && ProviderReady(s.provider.value, s.advertised, s.plan.value)
      && s.grant.Some? && GrantReady(s.grant.value, s.plan.value, permissions, budgets)
      && PolicyReady(s.operationAllowed, s.riskPolicy, s.plan.value.risk)
  {
    if s.plan.Some? && s.context.Some? { ContextStandsMeans(format, s.context.value, s.plan.value); }
    if s.plan.Some? && s.grant.Some? { GrantStandsMeans(format, s.grant.value, s.plan.value, permissions, budgets); }
  }

  // ------------------------------------------------------- agreement with re-validation

  /** The same state at the same time, as the planner's re-validation sees it. */
  function AsCurrent(q: ExecutionRequest, s: ValidationState): Current
    requires s.context.Some?
  {
    Current(s.context.value, s.provider, s.grant, q.timestamp)
  }

  /**
   * Whatever may be executed also passes re-validation, exactly when the grant lists its permissions in order:
   * planning and re-validation hash the list as given, this check hashes it sorted.
   */
  lemma ExecutableIsValid(format: NumberFormat, q: ExecutionRequest, s: ValidationState)
    requires GoodFormat(format) && Executable(format, q, s)
    ensures Staleness(format, s.plan.value, AsCurrent(q, s)) == None <==> InOrder(s.grant.value.permissions)
  {
    SortFixesOrdered(s.grant.value.permissions);
    ListDigestDecides(format, SortTexts(s.grant.value.permissions), s.grant.value.permissions);
  }

  // ------------------------------------------------------- completeness of the pipeline

  /** A state in which nothing has changed since the plan was made, and every policy permits it. */
  ghost predicate Unchanged(input: PlanInput, made: Plan, q: ExecutionRequest, s: ValidationState)
  {
    && s.plan == Some(made.(approval := Approved))
    && PlanMatches(q, made) && q.timestamp < made.expiresAt
    && s.context == Some(input.context.(status := Confirmed))
    && s.provider.Some? && s.provider == FindProvider(input.providers, made.providerId)
    && s.provider.value.enabled && s.provider.value.registration != Disabled && s.provider.value.health == Healthy
    && Advertised(s, s.provider.value, made)
    && s.grant == GrantFor(input.grants, made.providerId, made.capabilityId)
    && s.operationAllowed != Some(false) && RiskAllowed(s.riskPolicy, made.risk)
  }

  /**
   * A plan that was created, reviewed and approved, and is checked in an unchanged state, is executable exactly when
   * the grant it was made from lists its permissions in order.
   */
  lemma PipelineIsComplete(format: NumberFormat, input: PlanInput, q: ExecutionRequest, s: ValidationState)
    requires GoodFormat(format) && CreatePlan(format, input).Ok?
    requires Unchanged(input, CreatePlan(format, input).value, q, s)
    ensures s.grant.Some?
    ensures Executable(format, q, s) <==> InOrder(s.grant.value.permissions)
  {
    var made := CreatePlan(format, input).value;
    var grant := s.grant.value;
    assert made.permissionDigest == ListDigest(format, grant.permissions);
    SortFixesOrdered(grant.permissions);
    ListDigestDecides(format, SortTexts(grant.permissions), grant.permissions);
  }

  /** The plan as made, whatever has become of its approval since. */
  predicate Carries(s: ValidationState, made: Plan)
  {
    s.plan.Some? && s.plan.value == made.(approval := s.plan.value.approval, invalidation := s.plan.value.invalidation)
  }

  /** Some request in some state, however little it has to do with the one the plan was made in, may execute the plan. */
  ghost predicate EverExecutable(format: NumberFormat, made: Plan)
  {
    exists q, s :: Carries(s, made) && Executable(format, q, s)
  }

  /** The list the planner hashed was in order if the plan may be executed in any state at all. */
  lemma ExecutableNeedsOrder(format: NumberFormat, made: Plan, granted: seq<Str>, q: ExecutionRequest, s: ValidationState)
    requires GoodFormat(format) && made.permissionDigest == ListDigest(format, granted)
    requires Carries(s, made) && Executable(format, q, s)
    ensures InOrder(granted)
  {
    ListDigestDecides(format, SortTexts(s.grant.value.permissions), granted);
    SortTextsSorts(s.grant.value.permissions);
  }

  /** A state made to suit the plan. */
  function SuitedTo(input: PlanInput, made: Plan, grant: Grant): ValidationState
  {
    ValidationState(
      Some(made.(approval := Approved)), Some(input.context.(status := Confirmed)),
      Some(Provider(made.providerId, made.manifestDigest, made.manifestDigest, true, Enabled, Healthy, [made.capabilityId])),
      Some(grant), None, None, None)
  }

  /**
   * A created plan can ever be executed, by any request in any later state, exactly when the grant it was made from
   * lists its permissions in order.
   */
  lemma EverExecutableExactlyWhen(format: NumberFormat, input: PlanInput)
    requires GoodFormat(format) && CreatePlan(format, input).Ok?
    ensures var made := CreatePlan(format, input).value;
      var grant := GrantFor(input.grants, made.providerId, made.capabilityId);
      grant.Some? && (EverExecutable(format, made) <==> InOrder(grant.value.permissions))
  {
    var made := CreatePlan(format, input).value;
    var grant := GrantFor(input.grants, made.providerId, made.capabilityId).value;
    if EverExecutable(format, made) {
      var q, s :| Carries(s, made) && Executable(format, q, s);
      ExecutableNeedsOrder(format, made, grant.permissions, q, s);
    }
    if InOrder(grant.permissions) {
      SortFixesOrdered(grant.permissions);
      var s := SuitedTo(input, made, grant);
      var q := ExecutionRequest(made.planId, made.sessionId, made.providerId, made.capabilityId, made.manifestDigest, made.operation, input.now);
      assert Carries(s, made) && Executable(format, q, s);
    }
  }

  /** A plan made from a grant with these permissions, approved, and checked in the state it was made in. */
  lemma SamplePipeline(format: NumberFormat, now: int, granted: seq<Str>)
    returns (input: PlanInput, q: ExecutionRequest, s: ValidationState)
    ensures CreatePlan(format, input).Ok? && Unchanged(input, CreatePlan(format, input).value, q, s)
    ensures s.grant.Some? && s.grant.value.permissions == granted && q.timestamp == now
  {
    var id := Lit("p");
    input := SmallInput(id, granted, now);
    var made := CreatePlan(format, input).value;
    q := ExecutionRequest(id, id, id, id, id, id, now);
    s := ValidationState(Some(made.(approval := Approved)), Some(input.context.(status := Confirmed)), Some(input.providers[0]),
                         Some(input.grants[0]), None, None, None);
  }

  /**
   * A grant that lists writing before reading: the plan is made, approved and unchanged, and re-validation finds it
   * fresh, yet it may not be executed, now or ever.
   */
  lemma UnorderedGrant(format: NumberFormat, now: int) returns (input: PlanInput, q: ExecutionRequest, s: ValidationState)
    requires GoodFormat(format)
    ensures CreatePlan(format, input).Ok? && Unchanged(input, CreatePlan(format, input).value, q, s)
    ensures s.grant.value.permissions == [Lit("write"), Lit("read")]
    ensures Staleness(format, s.plan.value, AsCurrent(q, s)) == None
    ensures !Executable(format, q, s) && !EverExecutable(format, CreatePlan(format, input).value)
  {
    var granted := [Lit("write"), Lit("read")];
    assert granted[0][0] == 119 && granted[1][0] == 114;
    assert !Leq(granted[0], granted[1]);
    input, q, s := SamplePipeline(format, now, granted);
    PipelineIsComplete(format, input, q, s);
    EverExecutableExactlyWhen(format, input);
  }

  /** The pipeline is not empty: some plan is created and then executable. */
  lemma SomePlanExecutes(format: NumberFormat, now: int) returns (input: PlanInput, q: ExecutionRequest, s: ValidationState)
    requires GoodFormat(format)
    ensures CreatePlan(format, input).Ok? && Unchanged(input, CreatePlan(format, input).value, q, s)
    ensures Executable(format, q, s)
  {
    input, q, s := SamplePipeline(format, now, []);
    PipelineIsComplete(format, input, q, s);
  }
}
