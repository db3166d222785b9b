/** Plans for one capability call: creation from a resolution, the table of approvals, and re-validation. */
module CapabilityPlanning {
  import opened Wrappers
  import opened Strings
  import opened JsonText
  import JsonInjectivity
  import opened CapabilityResolution
  import opened CandidateRanking

  // ------------------------------------------------------- sorted lists and digests

  function InsertText(x: Str, sorted: seq<Str>): (r: seq<Str>)
    ensures |r| == |sorted| + 1
  {
    if sorted == [] || Leq(x, sorted[0]) then [x] + sorted else [sorted[0]] + InsertText(x, sorted[1..])
  }

  /** `[...values].sort()`. */
  function SortTexts(values: seq<Str>): (r: seq<Str>)
    ensures |r| == |values|
  {
    if values == [] then [] else InsertText(values[0], SortTexts(values[1..]))
  }

  ghost predicate InOrder(values: seq<Str>)
  {
    forall i, j :: 0 <= i < j < |values| ==> Leq(values[i], values[j])
  }

  lemma {:induction false} InsertTextSorts(x: Str, sorted: seq<Str>)
    requires InOrder(sorted)
    ensures InOrder(InsertText(x, sorted))
    ensures forall y :: y in InsertText(x, sorted) <==> y == x || y in sorted
  {
    if sorted == [] {
    } else if Leq(x, sorted[0]) {
      forall j | 0 <= j < |sorted| ensures Leq(x, sorted[j]) {
        if j > 0 { LeqTransitive(x, sorted[0], sorted[j]); }
      }
    } else {
      LeqTotal(x, sorted[0]);
      InsertTextSorts(x, sorted[1..]);
      var r := InsertText(x, sorted[1..]);
      forall j | 0 <= j < |r| ensures Leq(sorted[0], r[j]) {
        assert r[j] in r;
      }
    }
  }

  lemma {:induction false} SortTextsSorts(values: seq<Str>)
    ensures InOrder(SortTexts(values))
    ensures forall y :: y in SortTexts(values) <==> y in values
  {
    if values != [] {
      SortTextsSorts(values[1..]);
      InsertTextSorts(values[0], SortTexts(values[1..]));
    }
  }

  lemma {:induction false} SortedIsFixed(values: seq<Str>)
    requires InOrder(values)
    ensures SortTexts(values) == values
  {
    if values != [] {
      SortedIsFixed(values[1..]);
      assert values == [values[0]] + values[1..];
    }
  }

  /** Sorting leaves exactly the ordered lists alone. */
  lemma SortFixesOrdered(values: seq<Str>)
    ensures SortTexts(values) == values <==> InOrder(values)
  {
    SortTextsSorts(values);
    if InOrder(values) { SortedIsFixed(values); }
  }

  lemma {:induction false} InsertTextCounts(x: Str, sorted: seq<Str>)
    ensures multiset(InsertText(x, sorted)) == multiset{x} + multiset(sorted)
  {
    if sorted != [] && !Leq(x, sorted[0]) {
      InsertTextCounts(x, sorted[1..]);
      assert sorted == [sorted[0]] + sorted[1..];
    }
  }

  lemma {:induction false} SortTextsCounts(values: seq<Str>)
    ensures multiset(SortTexts(values)) == multiset(values)
  {
    if values != [] {
      SortTextsCounts(values[1..]);
      InsertTextCounts(values[0], SortTexts(values[1..]));
      assert values == [values[0]] + values[1..];
    }
  }

  lemma {:induction false} OrderedOnce(a: seq<Str>, b: seq<Str>)
    requires InOrder(a) && InOrder(b) && multiset(a) == multiset(b)
    ensures a == b
  {
    if a == [] {
      assert |multiset(b)| == 0;
    } else {
      assert a[0] in multiset(b) && |b| == |multiset(a)|;
      assert b[0] in multiset(a);
      SameLeast(a, b);
      assert a == [a[0]] + a[1..] && b == [b[0]] + b[1..];
      assert multiset(a[1..]) == multiset(a) - multiset{a[0]};
      OrderedOnce(a[1..], b[1..]);
    }
  }

  lemma SameLeast(a: seq<Str>, b: seq<Str>)
    requires InOrder(a) && InOrder(b) && a != [] && b != [] && a[0] in b && b[0] in a
    ensures a[0] == b[0]
  {
    LeqTotal(a[0], a[0]);
    LeqTotal(b[0], b[0]);
    assert Leq(a[0], b[0]) && Leq(b[0], a[0]);
    LeqAntisymmetric(a[0], b[0]);
  }

  /** The sorted list is the one ordered list with the same texts, each as often. */
  lemma SortTextsIs(values: seq<Str>, sorted: seq<Str>)
    ensures SortTexts(values) == sorted <==> InOrder(sorted) && multiset(sorted) == multiset(values)
  {
    SortTextsSorts(values);
    SortTextsCounts(values);
    if InOrder(sorted) && multiset(sorted) == multiset(values) { OrderedOnce(SortTexts(values), sorted); }
  }

  /** `[...new Set(values)].sort()`. */
  function SortedUnique(values: seq<Str>): seq<Str>
  {
    SortTexts(Unique(values))
  }

  lemma SortedUniqueMembers(values: seq<Str>)
    ensures forall x :: x in SortedUnique(values) <==> x in values
  {
    UniqueKeeps(values);
    SortTextsSorts(Unique(values));
  }

  function Texts(values: seq<Str>): (r: seq<Json>)
    ensures |r| == |values| && forall i :: 0 <= i < |r| ==> r[i] == Json.String(values[i])
  {
    seq(|values|, i requires 0 <= i < |values| => Json.String(values[i]))
  }

  /** Hashing is taken to be injective, so a digest is the canonical text it hashes. */
  function ListDigest(format: NumberFormat, values: seq<Str>): Str
  {
    Print(format, Json.Array(Texts(values)))
  }

  /** Two lists have the same digest exactly when they are the same list. */
  lemma ListDigestDecides(format: NumberFormat, a: seq<Str>, b: seq<Str>)
    requires GoodFormat(format)
    ensures ListDigest(format, a) == ListDigest(format, b) <==> a == b
  {
    JsonInjectivity.PrintCanonical(format, Json.Array(Texts(a)), Json.Array(Texts(b)));
    if JsonInjectivity.Same(Json.Array(Texts(a)), Json.Array(Texts(b))) {
      TextsSame(a, b);
    }
  }

  lemma TextsSame(a: seq<Str>, b: seq<Str>)
    requires JsonInjectivity.Same(Json.Array(Texts(a)), Json.Array(Texts(b)))
    ensures a == b
  {
    var u, v := JsonInjectivity.Elements(Texts(a)), JsonInjectivity.Elements(Texts(b));
    if |a| == 1 { assert Texts(a)[0] != Json.Undefined; }
    if |b| == 1 { assert Texts(b)[0] != Json.Undefined; }
    assert u == Texts(a) && v == Texts(b);
    forall i | 0 <= i < |a| ensures a[i] == b[i] {
      assert JsonInjectivity.Same(u[i], v[i]);
    }
  }

  // ------------------------------------------------------- grants

  datatype Budget = Budget(maximumBytes: real, maximumDurationMs: real, maximumQueries: real)

  datatype GrantState = GrantActive | GrantExpired | GrantRevoked | GrantDenied

  datatype Grant = Grant(
    grantId: Str, grantVersion: int, state: GrantState, permissions: seq<Str>,
    allowedProviderIds: Option<seq<Str>>, allowedCapabilityIds: Option<seq<Str>>, budgets: Budget)

  function BudgetKeys(): (r: seq<Str>)
    ensures |r| == 3
  {
    [Lit("maximumBytes"), Lit("maximumDurationMs"), Lit("maximumQueries")]
  }

  function BudgetValues(b: Budget): (r: seq<Json>)
    ensures |r| == 3
  {
    [Number(b.maximumBytes), Number(b.maximumDurationMs), Number(b.maximumQueries)]
  }

  function BudgetDigest(format: NumberFormat, b: Budget): Str
  {
    Print(format, Json.Object(JsonInjectivity.Zip(BudgetKeys(), BudgetValues(b))))
  }

  /** Two budgets have the same digest exactly when they are the same budget. */
  lemma BudgetDigestDecides(format: NumberFormat, a: Budget, b: Budget)
    requires GoodFormat(format)
    ensures BudgetDigest(format, a) == BudgetDigest(format, b) <==> a == b
  {
    var u, v := BudgetValues(a), BudgetValues(b);
    assert |BudgetKeys()[0]| == 12 && |BudgetKeys()[1]| == 17 && |BudgetKeys()[2]| == 14;
    JsonInjectivity.ZipSame(BudgetKeys(), u, v);
    JsonInjectivity.PrintCanonical(format, Json.Object(JsonInjectivity.Zip(BudgetKeys(), u)), Json.Object(JsonInjectivity.Zip(BudgetKeys(), v)));
    if BudgetDigest(format, a) == BudgetDigest(format, b) {
      assert JsonInjectivity.Same(u[0], v[0]) && JsonInjectivity.Same(u[1], v[1]) && JsonInjectivity.Same(u[2], v[2]);
    }
  }

  predicate GrantCovers(grant: Grant, providerId: Str, capabilityId: Str)
  {
    && grant.state == GrantActive
    && (grant.allowedProviderIds.Some? ==> providerId in grant.allowedProviderIds.value)
    && (grant.allowedCapabilityIds.Some? ==> capabilityId in grant.allowedCapabilityIds.value)
  }

  /** `grantFor`: the first active grant that covers the pair. */
  function GrantFor(grants: seq<Grant>, providerId: Str, capabilityId: Str): (r: Option<Grant>)
    ensures r.Some? ==> r.value in grants && GrantCovers(r.value, providerId, capabilityId)
    ensures r.None? ==> forall g :: g in grants ==> !GrantCovers(g, providerId, capabilityId)
  {
    if grants == [] then None
    else if GrantCovers(grants[0], providerId, capabilityId) then Some(grants[0])
    else GrantFor(grants[1..], providerId, capabilityId)
  }

  predicate AllIn(values: seq<Str>, allowed: seq<Str>)
  {
    forall i :: 0 <= i < |values| ==> values[i] in allowed
  }

  predicate WithinBudget(needed: Budget, available: Budget)
  {
    && needed.maximumBytes <= available.maximumBytes
    && needed.maximumDurationMs <= available.maximumDurationMs
    && needed.maximumQueries <= available.maximumQueries
  }

  predicate GrantSupports(grant: Grant, permissions: seq<Str>, budget: Budget)
  {
    AllIn(permissions, grant.permissions) && WithinBudget(budget, grant.budgets)
  }

  // ------------------------------------------------------- plans

  datatype Approval = ProposedPlan | Reviewed | Approved | RejectedPlan | ExpiredPlan | CancelledPlan

  datatype Risk = Low | Medium | High

  datatype Invalidation = ProviderChanged | CapabilityChanged | ContextExpired | PermissionsChanged | GrantLapsed | PlanExpired

  datatype Plan = Plan(
    planId: Str, sessionId: Str, sourceIds: seq<Str>, providerId: Str, capabilityId: Str, manifestDigest: Str,
    operation: Str, permissions: seq<Str>, budgets: Budget, risk: Risk, expiresAt: int,
    approval: Approval, invalidation: Option<Invalidation>,
    grantId: Str, grantVersion: int, permissionDigest: Str, budgetDigest: Str)

  datatype SessionContext = SessionContext(sessionId: Str, status: SessionStatus, sourceIds: seq<Str>)

  /** `expiresAt` is `None` when it is not a canonical timestamp. */
  datatype PlanInput = PlanInput(
    planId: Str,
    context: SessionContext,
    resolutionSessionId: Str, candidates: seq<Candidate>,
    providers: seq<Provider>, grants: seq<Grant>,
    providerId: Option<Str>, capabilityId: Option<Str>,
    operation: Str, permissions: seq<Str>, budgets: Budget, risk: Option<Risk>,
    expiresAt: Option<int>, now: int)

  datatype PlanFailure =
    | ContextInvalid | ResolutionMismatch | InvalidExpiry | CandidateIneligible | ProviderMissing
    | GrantMissing | GrantIncompatible | PlanNotFound | InvalidTransition

  function RiskFor(permissions: seq<Str>, requested: Option<Risk>): Risk
  {
    if requested.Some? then requested.value
    else if Lit("write") in permissions || Lit("command") in permissions || Lit("network") in permissions then High
    else if Lit("capability") in permissions then Medium
    else Low
  }

  function FindProvider(providers: seq<Provider>, providerId: Str): (r: Option<Provider>)
    ensures r.Some? ==> r.value in providers && r.value.providerId == providerId
    ensures r.None? ==> forall p :: p in providers ==> p.providerId != providerId
  {
    if providers == [] then None
    else if providers[0].providerId == providerId then Some(providers[0])
    else FindProvider(providers[1..], providerId)
  }

  predicate Closed(status: SessionStatus)
  {
    status == SessionExpired || status == Cleared
  }

  /** `createCapabilityPlan`. */
  function CreatePlan(format: NumberFormat, input: PlanInput): Result<Plan, PlanFailure>
  {
    if Closed(input.context.status) then Err(ContextInvalid)
    else if input.resolutionSessionId != input.context.sessionId then Err(ResolutionMismatch)
    else if input.expiresAt.None? || input.expiresAt.value <= input.now then Err(InvalidExpiry)
    else
      var selected := FirstSelectable(input.candidates, input.providerId, input.capabilityId);
      if selected.None? then Err(CandidateIneligible)
      else
        var provider := FindProvider(input.providers, selected.value.providerId);
        var grant := GrantFor(input.grants, selected.value.providerId, selected.value.capabilityId);
        var permissions := SortedUnique(input.permissions);
        if provider.None? then Err(ProviderMissing)
        else if grant.None? then Err(GrantMissing)
        else if !GrantSupports(grant.value, permissions, input.budgets) then Err(GrantIncompatible)
        else Ok(Plan(
          input.planId, input.context.sessionId, SortTexts(input.context.sourceIds),
          provider.value.providerId, selected.value.capabilityId, provider.value.manifestDigest,
          input.operation, permissions, input.budgets, RiskFor(permissions, input.risk), input.expiresAt.value,
          ProposedPlan, None,
          grant.value.grantId, grant.value.grantVersion,
          ListDigest(format, grant.value.permissions), BudgetDigest(format, grant.value.budgets)))
  }

  // ------------------------------------------------------- approval

  predicate MayBecome(from: Approval, to: Approval)
  {
    match from
    case ProposedPlan => to == Reviewed || to == RejectedPlan || to == CancelledPlan
    case Reviewed => to == Approved || to == RejectedPlan || to == CancelledPlan
    case Approved => to == ExpiredPlan || to == CancelledPlan
    case _ => false
  }

  /** The approvals a plan goes through, one accepted transition after another. */
  ghost predicate ApprovalPath(path: seq<Approval>)
  {
    && path != [] && path[0] == ProposedPlan
    && forall i :: 0 < i < |path| ==> MayBecome(path[i - 1], path[i])
  }

  /** An approved plan has been reviewed, and has been approved by nothing but that review. */
  lemma ApprovedAfterReview(path: seq<Approval>)
    requires ApprovalPath(path) && path[|path| - 1] == Approved
    ensures path == [ProposedPlan, Reviewed, Approved]
  {
    var n := |path|;
    forall i | 0 < i < n ensures path[i] != ProposedPlan {
      assert MayBecome(path[i - 1], path[i]);
    }
    assert n > 1 && MayBecome(path[n - 2], path[n - 1]);
    assert n > 2 && MayBecome(path[n - 3], path[n - 2]);
    assert path[n - 3] == ProposedPlan;
  }

  // ------------------------------------------------------- re-validation

  datatype Current = Current(context: SessionContext, provider: Option<Provider>, grant: Option<Grant>, now: int)

  /** Why `validateCapabilityPlan` invalidates a plan. */
  function Staleness(format: NumberFormat, plan: Plan, current: Current): Option<Invalidation>
  {
    if plan.sessionId != current.context.sessionId || Closed(current.context.status)
       || ListDigest(format, plan.sourceIds) != ListDigest(format, SortTexts(current.context.sourceIds)) then
      Some(if Closed(current.context.status) then ContextExpired else ProviderChanged)
    else if current.provider.None? || current.provider.value.manifestDigest != plan.manifestDigest then Some(ProviderChanged)
    else if current.grant.None? || current.grant.value.state != GrantActive
            || current.grant.value.grantId != plan.grantId || current.grant.value.grantVersion != plan.grantVersion
            || ListDigest(format, current.grant.value.permissions) != plan.permissionDigest
            || BudgetDigest(format, current.grant.value.budgets) != plan.budgetDigest then
      Some(if current.grant.None? || current.grant.value.state != GrantActive then GrantLapsed else PermissionsChanged)
    else if current.now >= plan.expiresAt then Some(PlanExpired)
    else None
  }

  function Validated(format: NumberFormat, plan: Plan, current: Current): Plan
  {
    var reason := Staleness(format, plan, current);
    if reason.Some? then plan.(invalidation := reason) else plan
  }

  /** The risk that was asked for; else high for writing, commands and the network, and medium for capabilities. */
  ghost predicate RiskFits(input: PlanInput, risk: Risk)
  {
    if input.risk.Some? then risk == input.risk.value
    else if exists x :: x in input.permissions && (x == Lit("write") || x == Lit("command") || x == Lit("network")) then risk == High
    else if Lit("capability") in input.permissions then risk == Medium
    else risk == Low
  }

  /**
   * A fresh plan covers exactly what it was asked for: its permissions, sources and operation, an eligible selected
   * candidate with the manifest of a known provider, and an active grant that supports all of it.
   */
  lemma PlanCoversRequest(format: NumberFormat, input: PlanInput)
    requires CreatePlan(format, input).Ok?
    ensures var plan := CreatePlan(format, input).value;
      && (forall x :: x in input.permissions <==> x in plan.permissions)
      && (forall x :: x in input.context.sourceIds <==> x in plan.sourceIds)
      && InOrder(plan.permissions) && InOrder(plan.sourceIds)
      && plan.sessionId == input.context.sessionId == input.resolutionSessionId && plan.operation == input.operation
      && plan.planId == input.planId && plan.budgets == input.budgets
      && plan.approval == ProposedPlan && plan.invalidation == None
      && input.expiresAt == Some(plan.expiresAt) && input.now < plan.expiresAt
      && RiskFits(input, plan.risk)
    ensures var plan := CreatePlan(format, input).value;
      && (exists g :: g in input.grants && GrantCovers(g, plan.providerId, plan.capabilityId)
            && plan.grantId == g.grantId && plan.grantVersion == g.grantVersion
            && AllIn(plan.permissions, g.permissions) && WithinBudget(input.budgets, g.budgets))
      && (exists c :: c in input.candidates && Selectable(c, input.providerId, input.capabilityId)
            && c.providerId == plan.providerId && c.capabilityId == plan.capabilityId)
      && (exists p :: p in input.providers && p.providerId == plan.providerId && p.manifestDigest == plan.manifestDigest)
  {
    SortedUniqueMembers(input.permissions);
    SortTextsSorts(Unique(input.permissions));
    SortTextsSorts(input.context.sourceIds);
    var selected := FirstSelectable(input.candidates, input.providerId, input.capabilityId).value;
    var grant := GrantFor(input.grants, selected.providerId, selected.capabilityId).value;
    var provider := FindProvider(input.providers, selected.providerId).value;
    assert grant in input.grants && selected in input.candidates && provider in input.providers;
  }

  // ------------------------------------------------------- when a plan is created

  /** The candidate is eligible and is what the caller selected, as far as a selection was made. */
  predicate Suits(input: PlanInput, c: Candidate)
  {
    && c.eligible
    && (input.providerId == None || input.providerId == Some(c.providerId))
    && (input.capabilityId == None || input.capabilityId == Some(c.capabilityId))
  }

  ghost predicate FirstSuiting(input: PlanInput, i: nat)
  {
    i < |input.candidates| && Suits(input, input.candidates[i]) && forall k :: 0 <= k < i ==> !Suits(input, input.candidates[k])
  }

  ghost predicate FirstProvider(input: PlanInput, providerId: Str, i: nat)
  {
    && i < |input.providers| && input.providers[i].providerId == providerId
    && forall k :: 0 <= k < i ==> input.providers[k].providerId != providerId
  }

  /** The grant is active and names the provider and the capability in every list it has. */
  predicate Grants(g: Grant, c: Candidate)
  {
    && g.state == GrantActive
    && (g.allowedProviderIds == None || c.providerId in g.allowedProviderIds.value)
    && (g.allowedCapabilityIds == None || c.capabilityId in g.allowedCapabilityIds.value)
  }

  ghost predicate FirstGranting(input: PlanInput, c: Candidate, i: nat)
  {
    i < |input.grants| && Grants(input.grants[i], c) && forall k :: 0 <= k < i ==> !Grants(input.grants[k], c)
  }

  /** The grant lists every permission and leaves room for every budget that is asked for. */
  ghost predicate Suffices(input: PlanInput, g: Grant)
  {
    && (forall x :: x in input.permissions ==> x in g.permissions)
    && input.budgets.maximumBytes <= g.budgets.maximumBytes
    && input.budgets.maximumDurationMs <= g.budgets.maximumDurationMs
    && input.budgets.maximumQueries <= g.budgets.maximumQueries
  }

  lemma {:induction false} SelectableIsFirst(input: PlanInput, from: nat) returns (i: nat)
    requires from <= |input.candidates| && exists k :: from <= k < |input.candidates| && Suits(input, input.candidates[k])
    ensures from <= i < |input.candidates| && Suits(input, input.candidates[i])
    ensures forall k :: from <= k < i ==> !Suits(input, input.candidates[k])
    ensures FirstSelectable(input.candidates[from..], input.providerId, input.capabilityId) == Some(input.candidates[i])
    decreases |input.candidates| - from
  {
    i := from;
    if !Suits(input, input.candidates[from]) {
      i := SelectableIsFirst(input, from + 1);
      assert input.candidates[from..][1..] == input.candidates[from + 1..];
    }
  }

  lemma {:induction false} ProviderIsFirst(input: PlanInput, providerId: Str, from: nat) returns (i: nat)
    requires from <= |input.providers| && exists k :: from <= k < |input.providers| && input.providers[k].providerId == providerId
    ensures from <= i < |input.providers| && input.providers[i].providerId == providerId
    ensures forall k :: from <= k < i ==> input.providers[k].providerId != providerId
    ensures FindProvider(input.providers[from..], providerId) == Some(input.providers[i])
    decreases |input.providers| - from
  {
    i := from;
    if input.providers[from].providerId != providerId {
      i := ProviderIsFirst(input, providerId, from + 1);
      assert input.providers[from..][1..] == input.providers[from + 1..];
    }
  }

  lemma {:induction false} GrantIsFirst(input: PlanInput, c: Candidate, from: nat) returns (i: nat)
    requires from <= |input.grants| && exists k :: from <= k < |input.grants| && Grants(input.grants[k], c)
    ensures from <= i < |input.grants| && Grants(input.grants[i], c)
    ensures forall k :: from <= k < i ==> !Grants(input.grants[k], c)
    ensures GrantFor(input.grants[from..], c.providerId, c.capabilityId) == Some(input.grants[i])
    decreases |input.grants| - from
  {
    i := from;
    if !Grants(input.grants[from], c) {
      i := GrantIsFirst(input, c, from + 1);
      assert input.grants[from..][1..] == input.grants[from + 1..];
    }
  }

  lemma SufficesMeans(input: PlanInput, g: Grant)
    ensures GrantSupports(g, SortedUnique(input.permissions), input.budgets) <==> Suffices(input, g)
  {
    var permissions := SortedUnique(input.permissions);
    SortedUniqueMembers(input.permissions);
    if AllIn(permissions, g.permissions) {
      forall x | x in input.permissions ensures x in g.permissions {
        assert x in permissions;
      }
    }
    assert forall i :: 0 <= i < |permissions| ==> permissions[i] in permissions;
  }

  /** The request is open: a usable context of the resolution's session, and an expiry yet to come. */
  ghost predicate Open(input: PlanInput)
  {
    && input.context.status != SessionExpired && input.context.status != Cleared
    && input.resolutionSessionId == input.context.sessionId
    && exists t :: input.expiresAt == Some(t) && input.now < t
  }

  /** What the plan takes from the candidate, the provider and the grant it is made from. */
  predicate TakenFrom(format: NumberFormat, made: Plan, c: Candidate, p: Provider, g: Grant)
  {
    && made.providerId == c.providerId && made.capabilityId == c.capabilityId && made.manifestDigest == p.manifestDigest
    && made.grantId == g.grantId && made.grantVersion == g.grantVersion
    && made.permissionDigest == ListDigest(format, g.permissions) && made.budgetDigest == BudgetDigest(format, g.budgets)
  }

  /** The provider and the grant of the chosen candidate, or what is wrong with them. */
  ghost predicate ChosenDecides(format: NumberFormat, input: PlanInput, made: Result<Plan, PlanFailure>, chosen: Candidate, p: nat, g: nat)
  {
    if forall k :: 0 <= k < |input.providers| ==> input.providers[k].providerId != chosen.providerId then made == Err(ProviderMissing)
    else if forall k :: 0 <= k < |input.grants| ==> !Grants(input.grants[k], chosen) then made == Err(GrantMissing)
    else
      && FirstProvider(input, chosen.providerId, p) && FirstGranting(input, chosen, g)
      && if !Suffices(input, input.grants[g]) then made == Err(GrantIncompatible)
         else made.Ok? && TakenFrom(format, made.value, chosen, input.providers[p], input.grants[g])
  }

  lemma CreatedFromChosen(format: NumberFormat, input: PlanInput, chosen: Candidate) returns (p: nat, g: nat)
    requires Open(input) && FirstSelectable(input.candidates, input.providerId, input.capabilityId) == Some(chosen)
    ensures ChosenDecides(format, input, CreatePlan(format, input), chosen, p, g)
  {
    p, g := 0, 0;
    if exists k :: 0 <= k < |input.providers| && input.providers[k].providerId == chosen.providerId {
      p := ProviderIsFirst(input, chosen.providerId, 0);
      assert input.providers[0..] == input.providers;
    }
    if exists k :: 0 <= k < |input.grants| && Grants(input.grants[k], chosen) {
      g := GrantIsFirst(input, chosen, 0);
      assert input.grants[0..] == input.grants;
      SufficesMeans(input, input.grants[g]);
    }
  }

  /**
   * When a plan is created, from which candidate, provider and grant, and which failure is reported otherwise: the first
   * suiting candidate decides, even where a later one would have a provider or a sufficient grant.
   */
  lemma CreatedExactlyWhen(format: NumberFormat, input: PlanInput) returns (c: nat, p: nat, g: nat)
    ensures var made := CreatePlan(format, input);
      if !Open(input) then
        made == Err(if input.context.status == SessionExpired || input.context.status == Cleared then ContextInvalid
                    else if input.resolutionSessionId != input.context.sessionId then ResolutionMismatch else InvalidExpiry)
      else if forall k :: 0 <= k < |input.candidates| ==> !Suits(input, input.candidates[k]) then made == Err(CandidateIneligible)
      else FirstSuiting(input, c) && ChosenDecides(format, input, made, input.candidates[c], p, g)
  {
    c, p, g := 0, 0, 0;
    if Open(input) && exists k :: 0 <= k < |input.candidates| && Suits(input, input.candidates[k]) {
      c := SelectableIsFirst(input, 0);
      assert input.candidates[0..] == input.candidates;
      p, g := CreatedFromChosen(format, input, input.candidates[c]);
    }
  }

  /** The plan was made for these sources, this provider manifest and this very grant, and has not expired. */
  predicate StillCurrent(format: NumberFormat, plan: Plan, current: Current, permissions: seq<Str>, budgets: Budget)
  {
    && plan.sessionId == current.context.sessionId
    && (current.context.status == Proposed || current.context.status == Confirmed)
    && plan.sourceIds == SortTexts(current.context.sourceIds)
    && current.provider.Some? && current.provider.value.manifestDigest == plan.manifestDigest
    && current.grant.Some? && current.grant.value.state == GrantActive
    && current.grant.value.grantId == plan.grantId && current.grant.value.grantVersion == plan.grantVersion
    && current.grant.value.permissions == permissions && current.grant.value.budgets == budgets
    && current.now < plan.expiresAt
  }

  /** Re-validation accepts exactly when nothing the plan was made from has changed. */
  lemma FreshExactlyWhenCurrent(format: NumberFormat, plan: Plan, current: Current, permissions: seq<Str>, budgets: Budget)
    requires GoodFormat(format)
    requires plan.permissionDigest == ListDigest(format, permissions) && plan.budgetDigest == BudgetDigest(format, budgets)
    ensures Staleness(format, plan, current) == None <==> StillCurrent(format, plan, current, permissions, budgets)
  {
    ListDigestDecides(format, plan.sourceIds, SortTexts(current.context.sourceIds));
    if current.grant.Some? {
      ListDigestDecides(format, current.grant.value.permissions, permissions);
      BudgetDigestDecides(format, current.grant.value.budgets, budgets);
    }
  }

  /**
   * Which reason makes a plan stale: a closed context before all else, then other sources or another manifest, both
   * reported as a changed provider, then the grant, and the expiry last.
   */
  lemma StaleFor(format: NumberFormat, plan: Plan, current: Current, permissions: seq<Str>, budgets: Budget)
    requires GoodFormat(format)
    requires plan.permissionDigest == ListDigest(format, permissions) && plan.budgetDigest == BudgetDigest(format, budgets)
    ensures var context, grant := current.context, current.grant;
      Staleness(format, plan, current) ==
        if context.status == SessionExpired || context.status == Cleared then Some(ContextExpired)
        else if plan.sessionId != context.sessionId || !(InOrder(plan.sourceIds) && multiset(plan.sourceIds) == multiset(context.sourceIds)) then
          Some(ProviderChanged)
        else if current.provider == None || current.provider.value.manifestDigest != plan.manifestDigest then Some(ProviderChanged)
        else if grant == None || grant.value.state != GrantActive then Some(GrantLapsed)
        else if grant.value.(state := GrantActive, allowedProviderIds := None, allowedCapabilityIds := None)
                != Grant(plan.grantId, plan.grantVersion, GrantActive, permissions, None, None, budgets) then Some(PermissionsChanged)
        else if plan.expiresAt <= current.now then Some(PlanExpired)
        else None
  {
    ListDigestDecides(format, plan.sourceIds, SortTexts(current.context.sourceIds));
    SortTextsIs(current.context.sourceIds, plan.sourceIds);
    if current.grant.Some? {
      ListDigestDecides(format, current.grant.value.permissions, permissions);
      BudgetDigestDecides(format, current.grant.value.budgets, budgets);
    }
  }

  /** A smallest request for a plan, under a grant with these permissions. */
  function SmallInput(planId: Str, granted: seq<Str>, now: int): PlanInput
  {
    var id := Lit("p");
    var budget := Budget(1.0, 1.0, 1.0);
    PlanInput(planId, SessionContext(id, Proposed, []), id, [Candidate(id, id, 8, true, [], [])],
              [Provider(id, id, id, true, Enabled, Healthy, [id])], [Grant(id, 1, GrantActive, granted, None, None, budget)],
              None, None, id, [], budget, None, Some(now + 1), now)
  }
}
