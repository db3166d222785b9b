/** The execution guard: what `authorizeCapabilityExecution` computes, and the method that computes it step by step. */
module Authorization {
  import opened Wrappers
  import opened Strings
  import opened JsonText
  import opened SchemaValidation
  import opened ResultEnforcement
  import opened Paths
  import opened GuardClaims
  import CapabilityPlanning
  import PreExecution

  const MAX_INPUT_BYTES := 64 * 1024

  datatype Rejection =
    | IdentityMismatch | InputTooLarge | InputNonconforming
    | TooManyPaths | PathsNotDeclared | PathShape | RootMissing | RootEscape | ArtifactSymlink | OutsideRoots | ProtectedPath
    | CwdShape | CwdNotDeclared | CwdRootMissing | CwdNotSourceRoot | CwdOutsidePaths | CwdEscape | CwdCanonicalScope
    | WritesNotDeclared | TooManyFiles | WriteScope | TooManyBytes | ArtifactRootMissing | ArtifactRootScope
    | HardWriteDenied | HardFiles | HardBytes | HardWriteScope
    | NetworkDenied | TooManyRequests | NetworkScope | HardNetworkDenied | HardRequests | HardTarget | HardVerb
    | PolicyContextMissing | PolicyRefused(evaluation: Evaluation) | PlanStateMissing | PlanNotExecutable
    | ConfirmationRequired | TimeoutNotAllowed

  datatype Authorized = Authorized(
    cwd: Option<Path>,
    artifactRoot: Option<Path>,
    paths: seq<PathBinding>,
    writePaths: seq<PathBinding>,
    network: seq<NetworkBinding>,
    timeoutMs: real,
    decisions: seq<Evaluation>)

  predicate Covered(roots: seq<Str>, target: Str)
  {
    exists i :: 0 <= i < |roots| && PrefixOrEqual(roots[i], target)
  }

  // ------------------------------------------------------- paths

  predicate Protected(world: World, call: Call, relative: Str)
  {
    world.sensitive(relative) || Covered(call.manifest.protectedPaths + call.context.extraProtected, relative)
  }

  function DeclaredRoot(world: World, call: Call): Option<Path>
  {
    CanonicalRoot(world.fs,
      if call.manifest.pathMode == ArtifactRelative then call.context.artifactRoot else call.context.sourceRoot)
  }

  /** The verdict on a canonical path under its root. */
  function BindPath(world: World, call: Call, root: Path, requested: Str, canonical: Path): Result<PathBinding, Rejection>
    requires root <= canonical && SafeRelative(requested)
  {
    var candidate := Resolve(root, requested);
    SafeStaysUnder(root, requested);
    var relative := Relative(root, canonical);
    if call.manifest.pathMode == ArtifactRelative
       && (LooksOutside(candidate[|root|..]) || LinkOnTheWay(world.fs, root, candidate[|root|..])) then Err(ArtifactSymlink)
    else if !Covered(call.manifest.allowedRoots, relative) then Err(OutsideRoots)
    else if Protected(world, call, relative) then Err(ProtectedPath)
    else Ok(PathBinding(requested, relative, canonical))
  }

  /** `resolvePathClaim`. */
  function ResolvedClaim(world: World, call: Call, requested: Str): Result<PathBinding, Rejection>
  {
    if call.manifest.pathMode == NoPaths then Err(PathsNotDeclared)
    else if !SafeRelative(requested) then Err(PathShape)
    else
      var root := DeclaredRoot(world, call);
      if root.None? then Err(RootMissing)
      else
        var canonical := Canonical(world.fs, Resolve(root.value, requested));
        if canonical.None? || !PrefixOrEqual(Absolute(root.value), Absolute(canonical.value)) then Err(RootEscape)
        else
          PrefixIsSegmentwiseAbsolute(root.value, canonical.value);
          BindPath(world, call, root.value, requested, canonical.value)
  }

  method ResolvePathClaim(world: World, call: Call, requested: Str) returns (r: Result<PathBinding, Rejection>)
    ensures r == ResolvedClaim(world, call, requested)
  {
    var m := call.manifest;
    if m.pathMode == NoPaths { return Err(PathsNotDeclared); }
    if !SafeRelative(requested) { return Err(PathShape); }
    var root := DeclaredRoot(world, call);
    if root.None? { return Err(RootMissing); }
    var candidate := Resolve(root.value, requested);
    SafeStaysUnder(root.value, requested);
    var canonical := RealpathWithMissingTail(world.fs, candidate);
    if canonical.None? || !PrefixOrEqual(Absolute(root.value), Absolute(canonical.value)) { return Err(RootEscape); }
    PrefixIsSegmentwiseAbsolute(root.value, canonical.value);
    if m.pathMode == ArtifactRelative {
      var linked := HasSymlinkComponent(world.fs, root.value, candidate);
      if linked { return Err(ArtifactSymlink); }
    }
    var relative := Relative(root.value, canonical.value);
    if !Covered(m.allowedRoots, relative) { return Err(OutsideRoots); }
    if Protected(world, call, relative) { return Err(ProtectedPath); }
    return Ok(PathBinding(requested, relative, canonical.value));
  }

  /** The bindings of a list of claims, or the first rejection. */
  function Collected(resolve: Str -> Result<PathBinding, Rejection>, claims: seq<Str>): Result<seq<PathBinding>, Rejection>
  {
    if claims == [] then Ok([])
    else
      var n := |claims| - 1;
      AndThen(Collected(resolve, claims[..n]), resolve(claims[n]))
  }

  function AndThen(bound: Result<seq<PathBinding>, Rejection>, next: Result<PathBinding, Rejection>): Result<seq<PathBinding>, Rejection>
  {
    if bound.Err? then bound
    else if next.Err? then Err(next.error)
    else Ok(bound.value + [next.value])
  }

  lemma CollectedExtends(resolve: Str -> Result<PathBinding, Rejection>, claims: seq<Str>, i: nat)
    requires i < |claims|
    ensures Collected(resolve, claims[..i + 1]) == AndThen(Collected(resolve, claims[..i]), resolve(claims[i]))
  {
    assert claims[..i + 1][..i] == claims[..i];
  }

  lemma {:induction false} RejectionStands(resolve: Str -> Result<PathBinding, Rejection>, claims: seq<Str>, n: nat, e: Rejection)
    requires n <= |claims| && Collected(resolve, claims[..n]) == Err(e)
    ensures Collected(resolve, claims) == Err(e)
    decreases |claims| - n
  {
    if n == |claims| {
      assert claims[..n] == claims;
    } else {
      CollectedExtends(resolve, claims, n);
      RejectionStands(resolve, claims, n + 1, e);
    }
  }

  /** A collected list holds the binding of every claim, in order. */
  lemma {:induction false} CollectedEach(resolve: Str -> Result<PathBinding, Rejection>, claims: seq<Str>)
    requires Collected(resolve, claims).Ok?
    ensures var bound := Collected(resolve, claims).value;
      |bound| == |claims| && forall i :: 0 <= i < |bound| ==> resolve(claims[i]) == Ok(bound[i])
  {
    if claims != [] {
      CollectedEach(resolve, claims[..|claims| - 1]);
    }
  }

  function Resolver(world: World, call: Call): Str -> Result<PathBinding, Rejection>
  {
    (requested: Str) => ResolvedClaim(world, call, requested)
  }

  function ResolvedClaims(world: World, call: Call, claims: seq<Str>): Result<seq<PathBinding>, Rejection>
  {
    Collected(Resolver(world, call), claims)
  }

  method ResolvePaths(world: World, call: Call, claims: seq<Str>) returns (r: Result<seq<PathBinding>, Rejection>)
    ensures r == ResolvedClaims(world, call, claims)
  {
    var paths := [];
    for i := 0 to |claims|
      invariant ResolvedClaims(world, call, claims[..i]) == Ok(paths)
    {
      CollectedExtends(Resolver(world, call), claims, i);
      var resolved := ResolvePathClaim(world, call, claims[i]);
      if resolved.Err? {
        RejectionStands(Resolver(world, call), claims, i + 1, resolved.error);
        return Err(resolved.error);
      }
      paths := paths + [resolved.value];
    }
    assert claims[..|claims|] == claims;
    return Ok(paths);
  }

  /** `[...new Map(writes.map(item => [item.relative, item])).values()]`: the last binding of a path, at its first place. */
  function LastPerPath(writes: seq<PathBinding>): seq<PathBinding>
  {
    if writes == [] then []
    else
      var n := |writes| - 1;
      Placed(LastPerPath(writes[..n]), writes[n])
  }

  function Placed(kept: seq<PathBinding>, b: PathBinding): seq<PathBinding>
  {
    if kept == [] then [b]
    else if kept[0].relative == b.relative then [b] + kept[1..]
    else [kept[0]] + Placed(kept[1..], b)
  }

  /** The write bindings: a claim already bound as a path reuses that binding. */
  method ResolveWrites(world: World, call: Call, paths: seq<PathBinding>) returns (r: Result<seq<PathBinding>, Rejection>)
    requires ResolvedClaims(world, call, PathClaims(call)) == Ok(paths)
    ensures r == ResolvedClaims(world, call, WriteClaims(call))
  {
    var claims := WriteClaims(call);
    var writes := [];
    for i := 0 to |claims|
      invariant ResolvedClaims(world, call, claims[..i]) == Ok(writes)
    {
      CollectedExtends(Resolver(world, call), claims, i);
      var resolved := ReuseBinding(world, call, paths, claims[i]);
      if resolved.Err? {
        RejectionStands(Resolver(world, call), claims, i + 1, resolved.error);
        return Err(resolved.error);
      }
      writes := writes + [resolved.value];
    }
    assert claims[..|claims|] == claims;
    return Ok(writes);
  }

  /** `paths.find(item => item.requested === requested) || resolvePathClaim(...)`. */
  method ReuseBinding(world: World, call: Call, paths: seq<PathBinding>, requested: Str) returns (r: Result<PathBinding, Rejection>)
    requires ResolvedClaims(world, call, PathClaims(call)) == Ok(paths)
    ensures r == ResolvedClaim(world, call, requested)
  {
    for k := 0 to |paths|
    {
      if paths[k].requested == requested {
        BoundFromClaims(world, call, PathClaims(call));
        return Ok(paths[k]);
      }
    }
    r := ResolvePathClaim(world, call, requested);
  }

  /** Every binding comes from resolving its own claim, in order. */
  lemma BoundFromClaims(world: World, call: Call, claims: seq<Str>)
    requires ResolvedClaims(world, call, claims).Ok?
    ensures var bound := ResolvedClaims(world, call, claims).value;
      && |bound| == |claims|
      && forall i :: 0 <= i < |bound| ==>
           ResolvedClaim(world, call, claims[i]) == Ok(bound[i]) && bound[i].requested == claims[i]
  {
    var resolve := Resolver(world, call);
    CollectedEach(resolve, claims);
    var bound := ResolvedClaims(world, call, claims).value;
    forall i | 0 <= i < |bound|
      ensures ResolvedClaim(world, call, claims[i]) == Ok(bound[i]) && bound[i].requested == claims[i]
    {
      assert resolve(claims[i]) == Ok(bound[i]);
      OwnClaim(world, call, claims[i]);
    }
  }

  lemma OwnClaim(world: World, call: Call, requested: Str)
    ensures ResolvedClaim(world, call, requested).Ok? ==> ResolvedClaim(world, call, requested).value.requested == requested
  {
  }

  // ------------------------------------------------------- the working directory

  function AuthorizedCwd(world: World, call: Call): Result<Option<Path>, Rejection>
  {
    var m := call.manifest;
    var cwd := Field(Members(call.arguments), Lit("cwd"));
    var source := CanonicalRoot(world.fs, call.context.sourceRoot);
    if cwd == Json.Undefined then
      if m.cwdMode != SourceRootOnly then Ok(None)
      else if source.None? then Err(CwdRootMissing)
      else Ok(source)
    else if !cwd.String? || !SafeRelative(cwd.s) then Err(CwdShape)
    else if m.cwdMode == NoCwd then Err(CwdNotDeclared)
    else if source.None? then Err(CwdRootMissing)
    else if m.cwdMode == SourceRootOnly && cwd.s != [DOT] then Err(CwdNotSourceRoot)
    else if m.cwdMode == Subdirectories && !Covered(m.cwdPaths, cwd.s) then Err(CwdOutsidePaths)
    else
      var canonical := Canonical(world.fs, Resolve(source.value, cwd.s));
      if canonical.None? || !PrefixOrEqual(Absolute(source.value), Absolute(canonical.value)) then Err(CwdEscape)
      else
        PrefixIsSegmentwiseAbsolute(source.value, canonical.value);
        if m.cwdMode == Subdirectories && !Covered(m.cwdPaths, Relative(source.value, canonical.value)) then
          Err(CwdCanonicalScope)
        else Ok(canonical)
  }

  // ------------------------------------------------------- writes and network

  function HardWriteVerdict(world: World, call: Call, hard: HardWrite, writes: seq<PathBinding>): Option<Rejection>
  {
    if !hard.allowed then Some(HardWriteDenied)
    else if hard.maxFiles.Some? && |writes| > hard.maxFiles.value then Some(HardFiles)
    else if hard.maxBytes.Some? && ContentBytes(world, call) > hard.maxBytes.value then Some(HardBytes)
    else if hard.allowedPaths.Some?
            && exists i :: 0 <= i < |writes| && !Covered(hard.allowedPaths.value, writes[i].relative)
    then Some(HardWriteScope)
    else None
  }

  /** `writeGuard`. */
  function WriteVerdict(world: World, call: Call, writes: seq<PathBinding>): Option<Rejection>
  {
    var m := call.manifest;
    var root := CanonicalRoot(world.fs, call.context.artifactRoot);
    if !Flag(call, Lit("write")) && writes == [] then None
    else if m.writeMode == NoWrites then Some(WritesNotDeclared)
    else if |writes| > m.maxFiles then Some(TooManyFiles)
    else if exists i :: 0 <= i < |writes| && !Covered(m.writePaths, writes[i].relative) then Some(WriteScope)
    else if ContentBytes(world, call) > m.maxBytes then Some(TooManyBytes)
    else if m.writeMode == ArtifactOnly && root.None? then Some(ArtifactRootMissing)
    else if m.writeMode == ArtifactOnly
            && exists i :: 0 <= i < |writes| && !PrefixOrEqual(Absolute(root.value), Absolute(writes[i].canonical))
    then Some(ArtifactRootScope)
    else if call.context.hardWrite.Some? then HardWriteVerdict(world, call, call.context.hardWrite.value, writes)
    else None
  }

  /** The first target or verb outside the hard network allowlists. */
  function HardTargetVerdict(hard: HardNetwork, network: seq<NetworkBinding>): (r: Option<Rejection>)
    ensures r.None? <==> forall b :: b in network ==>
      && (hard.allowedTargets.Some? ==> Covered(hard.allowedTargets.value, b.target))
      && (hard.allowedMethods.Some? ==> b.verb in hard.allowedMethods.value)
  {
    if network == [] then None
    else if hard.allowedTargets.Some? && !Covered(hard.allowedTargets.value, network[0].target) then Some(HardTarget)
    else if hard.allowedMethods.Some? && network[0].verb !in hard.allowedMethods.value then Some(HardVerb)
    else HardTargetVerdict(hard, network[1..])
  }

  function HardNetworkVerdict(hard: HardNetwork, network: seq<NetworkBinding>): Option<Rejection>
  {
    if !hard.allowed then Some(HardNetworkDenied)
    else if hard.maxRequests.Some? && |network| > hard.maxRequests.value then Some(HardRequests)
    else HardTargetVerdict(hard, network)
  }

  /** `networkGuard`. */
  function NetworkVerdict(call: Call, network: seq<NetworkBinding>): Option<Rejection>
  {
    var m := call.manifest;
    if network == [] && !Flag(call, Lit("networkAccess")) then None
    else if m.networkDenied then Some(NetworkDenied)
    else if |network| > m.maxRequests then Some(TooManyRequests)
    else if exists i :: 0 <= i < |network| && !(Covered(m.targets, network[i].target) && network[i].verb in m.methods)
    then Some(NetworkScope)
    else if call.context.hardNetwork.Some? then HardNetworkVerdict(call.context.hardNetwork.value, network)
    else None
  }

  method CheckNetwork(call: Call, network: seq<NetworkBinding>) returns (r: Option<Rejection>)
    ensures r == NetworkVerdict(call, network)
  {
    var m := call.manifest;
    if network == [] && !Flag(call, Lit("networkAccess")) { return None; }
    if m.networkDenied { return Some(NetworkDenied); }
    if |network| > m.maxRequests { return Some(TooManyRequests); }
    for i := 0 to |network|
      invariant forall k :: 0 <= k < i ==> Covered(m.targets, network[k].target) && network[k].verb in m.methods
    {
      if !Covered(m.targets, network[i].target) || network[i].verb !in m.methods { return Some(NetworkScope); }
    }
    var hard := call.context.hardNetwork;
    if hard.Some? && !hard.value.allowed { return Some(HardNetworkDenied); }
    if hard.Some? && hard.value.maxRequests.Some? && |network| > hard.value.maxRequests.value { return Some(HardRequests); }
    if hard.None? { return None; }
    r := CheckHardTargets(hard.value, network);
  }

  method CheckHardTargets(hard: HardNetwork, network: seq<NetworkBinding>) returns (r: Option<Rejection>)
    ensures r == HardTargetVerdict(hard, network)
  {
    for i := 0 to |network|
      invariant HardTargetVerdict(hard, network) == HardTargetVerdict(hard, network[i..])
    {
      assert network[i..][1..] == network[i + 1..];
      if hard.allowedTargets.Some? && !Covered(hard.allowedTargets.value, network[i].target) { return Some(HardTarget); }
      if hard.allowedMethods.Some? && network[i].verb !in hard.allowedMethods.value { return Some(HardVerb); }
    }
    return None;
  }

  // ------------------------------------------------------- policies

  function CategoryText(c: Category): Str
  {
    match c
    case NetworkCategory => Lit("network")
    case WriteCategory => Lit("write")
    case ReadCategory => Lit("read")
    case CapabilityCategory => Lit("capability")
    case OtherCategory(name) => name
  }

  function SortText(p: PolicyInput): Str
  {
    CategoryText(p.category) + [58] + p.operation
  }

  function InsertPolicy(world: World, p: PolicyInput, sorted: seq<PolicyInput>): (r: seq<PolicyInput>)
    ensures forall x :: x in r <==> x == p || x in sorted
  {
    if sorted == [] then [p]
    else if world.notAfter(SortText(p), SortText(sorted[0])) then [p] + sorted
    else [sorted[0]] + InsertPolicy(world, p, sorted[1..])
  }

  function SortPolicies(world: World, inputs: seq<PolicyInput>): (r: seq<PolicyInput>)
    ensures forall x :: x in r <==> x in inputs
  {
    if inputs == [] then [] else InsertPolicy(world, inputs[0], SortPolicies(world, inputs[1..]))
  }

  function PathScopes(paths: seq<PathBinding>): (r: seq<Scope>)
    ensures |r| == |paths| && forall i :: 0 <= i < |r| ==> r[i] == PathScope(paths[i].relative)
  {
    seq(|paths|, i requires 0 <= i < |paths| => PathScope(paths[i].relative))
  }

  function TargetScopes(network: seq<NetworkBinding>): (r: seq<Scope>)
    ensures |r| == |network| && forall i :: 0 <= i < |r| ==> r[i] == NetworkTarget(network[i].target)
  {
    seq(|network|, i requires 0 <= i < |network| => NetworkTarget(network[i].target))
  }

  /** The scopes of this call a policy is asked about; its own scope when the call has none of the kind. */
  function Scopes(call: Call, p: PolicyInput, paths: seq<PathBinding>, network: seq<NetworkBinding>): (r: seq<Scope>)
    ensures r != []
  {
    var own := [if p.scope.Some? then p.scope.value else EmptyScope];
    match p.category
    case NetworkCategory => if network == [] then own else TargetScopes(network)
    case WriteCategory => if paths == [] then own else PathScopes(paths)
    case ReadCategory => if paths == [] then own else PathScopes(paths)
    case CapabilityCategory => [CapabilityScope(call.identity.capabilityId)]
    case OtherCategory(_) => own
  }

  function Scoped(p: PolicyInput, scopes: seq<Scope>): (r: seq<PolicyInput>)
    ensures |r| == |scopes|
    ensures forall i :: 0 <= i < |r| ==> r[i] == p.(scope := Some(scopes[i]))
  {
    seq(|scopes|, i requires 0 <= i < |scopes| => p.(scope := Some(scopes[i])))
  }

  /** `policyScopes`. */
  function Questions(call: Call, sorted: seq<PolicyInput>, paths: seq<PathBinding>, network: seq<NetworkBinding>): seq<PolicyInput>
  {
    if sorted == [] then []
    else Scoped(sorted[0], Scopes(call, sorted[0], paths, network)) + Questions(call, sorted[1..], paths, network)
  }

  /** The evaluations of the questions, or the first one that is not an allowance. */
  function Answers(world: World, questions: seq<PolicyInput>): (r: Result<seq<Evaluation>, Rejection>)
    ensures r.Ok? <==> forall q :: q in questions ==> world.evaluate(q).decision == Allowed
    ensures r.Ok? ==> |r.value| == |questions| && forall i :: 0 <= i < |questions| ==> r.value[i] == world.evaluate(questions[i])
  {
    if questions == [] then Ok([])
    else
      var n := |questions| - 1;
      assert forall q :: q in questions <==> q == questions[n] || q in questions[..n];
      match Answers(world, questions[..n])
      case Err(e) => Err(e)
      case Ok(answers) =>
        var evaluation := world.evaluate(questions[n]);
        if evaluation.decision != Allowed then Err(PolicyRefused(evaluation)) else Ok(answers + [evaluation])
  }

  predicate SameRun(call: Call, policy: PolicyContext)
  {
    && policy.sourceId == call.identity.sourceId && policy.sessionId == call.identity.sessionId
    && policy.runId == call.identity.runId
  }

  /** What the guard asks the check before execution about the plan the call carries. */
  function PlanRequest(call: Call, plan: CapabilityPlanning.Plan): PreExecution.ExecutionRequest
  {
    PreExecution.ExecutionRequest(
      plan.planId, call.identity.sessionId, call.identity.providerId, call.identity.capabilityId,
      plan.manifestDigest, plan.operation, call.now)
  }

  predicate PlanExecutable(world: World, call: Call, plan: CapabilityPlanning.Plan, state: PreExecution.ValidationState)
  {
    PreExecution.Executable(world.format, PlanRequest(call, plan), state.(plan := Some(plan)))
  }

  function PlanVerdict(world: World, call: Call, policy: PolicyContext): Option<Rejection>
  {
    if policy.plan.None? then None
    else if policy.validation.None? then Some(PlanStateMissing)
    else if PlanExecutable(world, call, policy.plan.value, policy.validation.value) then None
    else Some(PlanNotExecutable)
  }

  method CheckPlan(world: World, call: Call, policy: PolicyContext) returns (r: Option<Rejection>)
    ensures r == PlanVerdict(world, call, policy)
  {
    if policy.plan.None? { return None; }
    if policy.validation.None? { return Some(PlanStateMissing); }
    var plan := policy.plan.value;
    var validation := PreExecution.ValidateBeforeExecution(world.format, PlanRequest(call, plan), policy.validation.value.(plan := Some(plan)));
    return if validation.allowed then None else Some(PlanNotExecutable);
  }

  /** `phase16Guard`. */
  function PolicyVerdict(world: World, call: Call, paths: seq<PathBinding>, network: seq<NetworkBinding>)
    : Result<seq<Evaluation>, Rejection>
  {
    if call.policy.None? || !SameRun(call, call.policy.value) || call.policy.value.inputs == [] then Err(PolicyContextMissing)
    else
      var questions := Questions(call, SortPolicies(world, call.policy.value.inputs), paths, network);
      match Answers(world, questions)
      case Err(e) => Err(e)
      case Ok(decisions) =>
        match PlanVerdict(world, call, call.policy.value)
        case None => Ok(decisions)
        case Some(e) => Err(e)
  }

  /** The loop over the policy questions, which stops at the first one that is not allowed. */
  method AskAll(world: World, questions: seq<PolicyInput>) returns (r: Result<seq<Evaluation>, Rejection>)
    ensures r == Answers(world, questions)
  {
    var decisions := [];
    for i := 0 to |questions|
      invariant Answers(world, questions[..i]) == Ok(decisions)
    {
      assert questions[..i + 1][..i] == questions[..i];
      var evaluation := world.evaluate(questions[i]);
      decisions := decisions + [evaluation];
      if evaluation.decision != Allowed {
        RefusalStands(world, questions, i + 1, PolicyRefused(evaluation));
        return Err(PolicyRefused(evaluation));
      }
    }
    assert questions[..|questions|] == questions;
    return Ok(decisions);
  }

  method AskPolicies(world: World, call: Call, paths: seq<PathBinding>, network: seq<NetworkBinding>)
    returns (r: Result<seq<Evaluation>, Rejection>)
    ensures r == PolicyVerdict(world, call, paths, network)
  {
    if call.policy.None? || !SameRun(call, call.policy.value) { return Err(PolicyContextMissing); }
    var policy := call.policy.value;
    var questions := Questions(call, SortPolicies(world, policy.inputs), paths, network);
    NoQuestions(world, call, policy.inputs, paths, network);
    if questions == [] { return Err(PolicyContextMissing); }
    var answers := AskAll(world, questions);
    if answers.Err? { return Err(answers.error); }
    var planFailure := CheckPlan(world, call, policy);
    if planFailure.Some? { return Err(planFailure.value); }
    return Ok(answers.value);
  }

  lemma {:induction false} RefusalStands(world: World, questions: seq<PolicyInput>, n: nat, e: Rejection)
    requires n <= |questions| && Answers(world, questions[..n]) == Err(e)
    ensures Answers(world, questions) == Err(e)
    decreases |questions| - n
  {
    if n == |questions| {
      assert questions[..n] == questions;
    } else {
      assert questions[..n + 1][..n] == questions[..n];
      RefusalStands(world, questions, n + 1, e);
    }
  }

  /** Every policy is asked about every scope it applies to, and nothing else is asked. */
  lemma {:induction false} QuestionsAsked(call: Call, sorted: seq<PolicyInput>, paths: seq<PathBinding>, network: seq<NetworkBinding>)
    ensures forall q :: q in Questions(call, sorted, paths, network) <==> Asked(call, sorted, paths, network, q)
  {
    if sorted != [] {
      QuestionsAsked(call, sorted[1..], paths, network);
      var scopes := Scopes(call, sorted[0], paths, network);
      forall q ensures q in Questions(call, sorted, paths, network) <==> Asked(call, sorted, paths, network, q) {
        AskedFirst(call, sorted, paths, network, q);
      }
    }
  }

  predicate OwnScope(p: PolicyInput, scope: Scope)
  {
    scope == if p.scope.Some? then p.scope.value else EmptyScope
  }

  /** A policy is about every requested target, every bound path, this capability or its own scope, by its category. */
  ghost predicate ScopeApplies(call: Call, p: PolicyInput, paths: seq<PathBinding>, network: seq<NetworkBinding>, scope: Scope)
  {
    match p.category
    case NetworkCategory => if network == [] then OwnScope(p, scope) else exists n :: n in network && scope == NetworkTarget(n.target)
    case WriteCategory => if paths == [] then OwnScope(p, scope) else exists b :: b in paths && scope == PathScope(b.relative)
    case ReadCategory => if paths == [] then OwnScope(p, scope) else exists b :: b in paths && scope == PathScope(b.relative)
    case CapabilityCategory => scope == CapabilityScope(call.identity.capabilityId)
    case OtherCategory(_) => OwnScope(p, scope)
  }

  lemma PathScopesMean(paths: seq<PathBinding>, scope: Scope)
    ensures scope in PathScopes(paths) <==>
      exists b :: b in paths && scope == PathScope(b.relative)
  {
    if b :| b in paths && scope == PathScope(b.relative) {
      var i :| 0 <= i < |paths| && paths[i] == b;
      assert PathScopes(paths)[i] == scope;
    }
  }

  lemma TargetScopesMean(network: seq<NetworkBinding>, scope: Scope)
    ensures scope in TargetScopes(network) <==>
      exists n :: n in network && scope == NetworkTarget(n.target)
  {
    if n :| n in network && scope == NetworkTarget(n.target) {
      var i :| 0 <= i < |network| && network[i] == n;
      assert TargetScopes(network)[i] == scope;
    }
  }

  /** A policy is asked about exactly the scopes that apply to it. */
  lemma ScopesMean(call: Call, p: PolicyInput, paths: seq<PathBinding>, network: seq<NetworkBinding>, scope: Scope)
    ensures scope in Scopes(call, p, paths, network) <==> ScopeApplies(call, p, paths, network, scope)
  {
    PathScopesMean(paths, scope);
    TargetScopesMean(network, scope);
  }

  ghost predicate AskedAbout(call: Call, p: PolicyInput, paths: seq<PathBinding>, network: seq<NetworkBinding>, q: PolicyInput)
  {
    q.scope.Some? && ScopeApplies(call, p, paths, network, q.scope.value) && q == p.(scope := q.scope)
  }

  ghost predicate Asked(call: Call, inputs: seq<PolicyInput>, paths: seq<PathBinding>, network: seq<NetworkBinding>, q: PolicyInput)
  {
    exists p :: p in inputs && AskedAbout(call, p, paths, network, q)
  }

  lemma AskedFirst(call: Call, sorted: seq<PolicyInput>, paths: seq<PathBinding>, network: seq<NetworkBinding>, q: PolicyInput)
    requires sorted != []
    ensures Asked(call, sorted, paths, network, q) <==>
      q in Scoped(sorted[0], Scopes(call, sorted[0], paths, network)) || Asked(call, sorted[1..], paths, network, q)
  {
    var scopes := Scopes(call, sorted[0], paths, network);
    var scoped := Scoped(sorted[0], scopes);
    assert forall p :: p in sorted <==> p == sorted[0] || p in sorted[1..];
    if q.scope.Some? { ScopesMean(call, sorted[0], paths, network, q.scope.value); }
    if q in scoped {
      var i :| 0 <= i < |scoped| && scoped[i] == q;
      assert scopes[i] in scopes;
      assert AskedAbout(call, sorted[0], paths, network, q);
    }
    if AskedAbout(call, sorted[0], paths, network, q) {
      var i :| 0 <= i < |scopes| && scopes[i] == q.scope.value;
      assert scoped[i] == q;
    }
  }

  lemma NoQuestions(world: World, call: Call, inputs: seq<PolicyInput>, paths: seq<PathBinding>, network: seq<NetworkBinding>)
    ensures Questions(call, SortPolicies(world, inputs), paths, network) == [] <==> inputs == []
  {
    var sorted := SortPolicies(world, inputs);
    if inputs != [] {
      assert inputs[0] in sorted;
    }
  }

  // ------------------------------------------------------- the whole guard

  predicate TimeoutAllowed(call: Call)
  {
    call.timeoutMs.None? ||
      (var t := call.timeoutMs.value; t.Floor as real == t && 1.0 <= t <= call.manifest.maxTimeoutMs as real)
  }

  predicate Satisfies(c: Option<Confirmation>)
  {
    c.Some? && (c.value.state == ConfirmedState || c.value.state == NotRequired || c.value.persisted == Some(ApprovedDecision))
  }

  predicate Confirmed(policy: PolicyContext)
  {
    exists i :: 0 <= i < |policy.inputs| && Satisfies(policy.inputs[i].confirmation)
  }

  function Identified(call: Call): bool
  {
    && call.identity.capabilityId == call.manifest.id && call.identity.capabilityVersion == call.manifest.version
    && (call.context.providerId.Some? ==> call.context.providerId.value == call.identity.providerId)
  }

  function InputVerdict(world: World, call: Call): Option<Rejection>
  {
    var size := world.bytes(call.arguments);
    if size.None? || size.value > MAX_INPUT_BYTES then Some(InputTooLarge)
    else if !Conforms(call.manifest.inputSchema, call.arguments)
            || NodeCount(call.manifest.inputSchema, call.arguments) > MAX_NODES then Some(InputNonconforming)
    else None
  }

  /** The checks after the path claims are bound. */
  function Remaining(world: World, call: Call, paths: seq<PathBinding>, writes: seq<PathBinding>): Result<Authorized, Rejection>
  {
    var cwd := AuthorizedCwd(world, call);
    var network := NetworkClaims(world, call);
    var kept := LastPerPath(writes);
    if cwd.Err? then Err(cwd.error)
    else if WriteVerdict(world, call, kept).Some? then Err(WriteVerdict(world, call, kept).value)
    else if NetworkVerdict(call, network).Some? then Err(NetworkVerdict(call, network).value)
    else if PolicyVerdict(world, call, paths, network).Err? then Err(PolicyVerdict(world, call, paths, network).error)
    else if call.manifest.confirmationRequired && call.policy.Some? && !Confirmed(call.policy.value) then Err(ConfirmationRequired)
    else if !TimeoutAllowed(call) then Err(TimeoutNotAllowed)
    else Ok(Authorized(
      cwd.value,
      if call.manifest.pathMode == ArtifactRelative then CanonicalRoot(world.fs, call.context.artifactRoot) else None,
      paths, kept, network,
      if call.timeoutMs.Some? then call.timeoutMs.value else call.manifest.defaultTimeoutMs as real,
      PolicyVerdict(world, call, paths, network).value))
  }

  /** The value of `authorizeCapabilityExecution`. */
  function Authorize(world: World, call: Call): Result<Authorized, Rejection>
  {
    if !Identified(call) then Err(IdentityMismatch)
    else if InputVerdict(world, call).Some? then Err(InputVerdict(world, call).value)
    else if |PathClaims(call)| > call.manifest.maxPaths then Err(TooManyPaths)
    else
      var paths := ResolvedClaims(world, call, PathClaims(call));
      if paths.Err? then Err(paths.error)
      else
        var writes := ResolvedClaims(world, call, WriteClaims(call));
        if writes.Err? then Err(writes.error)
        else Remaining(world, call, paths.value, writes.value)
  }

  method AuthorizeCapabilityExecution(world: World, call: Call) returns (r: Result<Authorized, Rejection>)
    ensures r == Authorize(world, call)
  {
    if !Identified(call) { return Err(IdentityMismatch); }
    var size := world.bytes(call.arguments);
    if size.None? || size.value > MAX_INPUT_BYTES { return Err(InputTooLarge); }
    var conforming := Accepts(call.manifest.inputSchema, call.arguments);
    if !conforming { return Err(InputNonconforming); }
    var claims := PathClaims(call);
    if |claims| > call.manifest.maxPaths { return Err(TooManyPaths); }
    var paths := ResolvePaths(world, call, claims);
    if paths.Err? { return Err(paths.error); }
    var writes := ResolveWrites(world, call, paths.value);
    if writes.Err? { return Err(writes.error); }
    r := CheckRemaining(world, call, paths.value, writes.value);
  }

  method CheckRemaining(world: World, call: Call, paths: seq<PathBinding>, writes: seq<PathBinding>)
    returns (r: Result<Authorized, Rejection>)
    ensures r == Remaining(world, call, paths, writes)
  {
    var cwd := AuthorizedCwd(world, call);
    if cwd.Err? { return Err(cwd.error); }
    var network := NetworkClaims(world, call);
    var kept := KeepLastPerPath(writes);
    var writeFailure := WriteVerdict(world, call, kept);
    if writeFailure.Some? { return Err(writeFailure.value); }
    var networkFailure := CheckNetwork(call, network);
    if networkFailure.Some? { return Err(networkFailure.value); }
    var decisions := AskPolicies(world, call, paths, network);
    if decisions.Err? { return Err(decisions.error); }
    if call.manifest.confirmationRequired && !Confirmed(call.policy.value) { return Err(ConfirmationRequired); }
    if !TimeoutAllowed(call) { return Err(TimeoutNotAllowed); }
    var timeoutMs := if call.timeoutMs.Some? then call.timeoutMs.value else call.manifest.defaultTimeoutMs as real;
    var artifactRoot :=
      if call.manifest.pathMode == ArtifactRelative then CanonicalRoot(world.fs, call.context.artifactRoot) else None;
    return Ok(Authorized(cwd.value, artifactRoot, paths, kept, network, timeoutMs, decisions.value));
  }

  method KeepLastPerPath(writes: seq<PathBinding>) returns (kept: seq<PathBinding>)
    ensures kept == LastPerPath(writes)
  {
    kept := [];
    for i := 0 to |writes|
      invariant kept == LastPerPath(writes[..i])
    {
      assert writes[..i + 1][..i] == writes[..i];
      kept := Placed(kept, writes[i]);
    }
    assert writes[..|writes|] == writes;
  }
}
