/** Why the guard rejects a call: every rejection in terms of the call, and the order in which they are looked for. */
module GuardRejections {
  import opened Wrappers
  import opened Strings
  import opened JsonText
  import opened SchemaValidation
  import opened Paths
  import opened GuardClaims
  import opened Authorization
  import opened AuthorizationTheorems
  import PreExecution

  // ------------------------------------------------------- one path

  ghost predicate NoPathRoot(world: World, call: Call)
  {
    forall root :: !IsPathRoot(world, call, root)
  }

  /** Where the request leads below the root, if it stays below it. */
  predicate LeadsTo(world: World, root: Path, requested: Str, place: Path)
  {
    Canonical(world.fs, Resolve(root, requested)) == Some(place) && root <= place
  }

  ghost predicate LeadsAway(world: World, root: Path, requested: Str)
  {
    forall place :: !LeadsTo(world, root, requested, place)
  }

  lemma PlaceMeans(world: World, root: Path, requested: Str) returns (place: Path)
    ensures var canonical := Canonical(world.fs, Resolve(root, requested));
      && (LeadsAway(world, root, requested) <==>
            canonical.None? || !PrefixOrEqual(Absolute(root), Absolute(canonical.value)))
      && (!LeadsAway(world, root, requested) ==> canonical == Some(place) && LeadsTo(world, root, requested, place))
  {
    var canonical := Canonical(world.fs, Resolve(root, requested));
    place := if canonical.Some? then canonical.value else [];
    if canonical.Some? {
      PrefixIsSegmentwiseAbsolute(root, place);
      assert LeadsTo(world, root, requested, place) <==> root <= place;
    }
  }

  /** The verdict on a place below the root. */
  ghost predicate PlaceDecides(world: World, call: Call, root: Path, requested: Str, place: Path, r: Result<PathBinding, Rejection>)
    requires SafeRelative(requested)
  {
    var relative := Relative(root, place);
    if call.manifest.pathMode == ArtifactRelative && !Unlinked(world, root, requested) then r == Err(ArtifactSymlink)
    else if forall p :: p in call.manifest.allowedRoots ==> !PrefixOrEqual(p, relative) then r == Err(OutsideRoots)
    else if Shielded(world, call, relative) then r == Err(ProtectedPath)
    else r == Ok(PathBinding(requested, relative, place))
  }

  lemma PlaceIsDecided(world: World, call: Call, root: Path, requested: Str, place: Path)
    requires SafeRelative(requested) && root <= place
    ensures PlaceDecides(world, call, root, requested, place, BindPath(world, call, root, requested, place))
  {
    SafeStaysUnder(root, requested);
    LinkOnTheWayMeans(world.fs, root, Resolve(root, requested)[|root|..]);
    CoveredMeans(call.manifest.allowedRoots, Relative(root, place));
    ProtectedMeans(world, call, Relative(root, place));
  }

  /** Why one path is rejected: the first of these conditions that does not hold decides. */
  lemma ClaimRejectedFor(world: World, call: Call, requested: Str) returns (root: Path, place: Path)
    ensures var r := ResolvedClaim(world, call, requested);
      if call.manifest.pathMode == NoPaths then r == Err(PathsNotDeclared)
      else if !SafeRelative(requested) then r == Err(PathShape)
      else if NoPathRoot(world, call) then r == Err(RootMissing)
      else
        && IsPathRoot(world, call, root)
        && if LeadsAway(world, root, requested) then r == Err(RootEscape)
           else LeadsTo(world, root, requested, place) && PlaceDecides(world, call, root, requested, place, r)
  {
    root, place := [], [];
    if SafeRelative(requested) && call.manifest.pathMode != NoPaths {
      if given :| IsPathRoot(world, call, given) {
        root := given;
        PathRootMeans(world, call, root);
        place := PlaceMeans(world, root, requested);
        if !LeadsAway(world, root, requested) { PlaceIsDecided(world, call, root, requested, place); }
      } else {
        var declared := DeclaredRoot(world, call);
        if declared.Some? { PathRootMeans(world, call, declared.value); }
      }
    }
  }

  /** Claims are looked at in order, and the first that is rejected decides. */
  lemma {:induction false} FirstRejected(resolve: Str -> Result<PathBinding, Rejection>, claims: seq<Str>) returns (i: nat)
    requires Collected(resolve, claims).Err?
    ensures i < |claims| && resolve(claims[i]) == Err(Collected(resolve, claims).error)
    ensures forall k :: 0 <= k < i ==> resolve(claims[k]).Ok?
  {
    var n := |claims| - 1;
    if Collected(resolve, claims[..n]).Err? {
      i := FirstRejected(resolve, claims[..n]);
    } else {
      i := n;
      CollectedEach(resolve, claims[..n]);
      forall k | 0 <= k < n ensures resolve(claims[k]).Ok? { assert claims[..n][k] == claims[k]; }
    }
  }

  // ------------------------------------------------------- the working directory

  ghost predicate NoSourceRoot(world: World, call: Call)
  {
    forall root :: !IsRoot(world.fs, call.context.sourceRoot, root)
  }

  /** Why the working directory is rejected. */
  lemma CwdRejectedFor(world: World, call: Call) returns (root: Path, place: Path)
    ensures var r := AuthorizedCwd(world, call);
      var requested, mode := Field(Members(call.arguments), Lit("cwd")), call.manifest.cwdMode;
      if requested == Json.Undefined && mode != SourceRootOnly then r == Ok(None)
      else if requested != Json.Undefined && !(requested.String? && SafeRelative(requested.s)) then r == Err(CwdShape)
      else if requested != Json.Undefined && mode == NoCwd then r == Err(CwdNotDeclared)
      else if NoSourceRoot(world, call) then r == Err(CwdRootMissing)
      else
        && IsRoot(world.fs, call.context.sourceRoot, root)
        && if requested == Json.Undefined then r == Ok(Some(root))
           else if mode == SourceRootOnly && requested.s != [DOT] then r == Err(CwdNotSourceRoot)
           else if mode == Subdirectories && !UnderCwdPaths(call, requested.s) then r == Err(CwdOutsidePaths)
           else if LeadsAway(world, root, requested.s) then r == Err(CwdEscape)
           else
             && LeadsTo(world, root, requested.s, place)
             && r == if mode == Subdirectories && !UnderCwdPaths(call, Relative(root, place)) then Err(CwdCanonicalScope) else Ok(Some(place))
  {
    root, place := [], [];
    var requested := Field(Members(call.arguments), Lit("cwd"));
    if given :| IsRoot(world.fs, call.context.sourceRoot, given) {
      root := given;
      RootMeans(world.fs, call.context.sourceRoot, root);
      if requested.String? && SafeRelative(requested.s) {
        CoveredMeans(call.manifest.cwdPaths, requested.s);
        place := PlaceMeans(world, root, requested.s);
        if root <= place { CoveredMeans(call.manifest.cwdPaths, Relative(root, place)); }
      }
    } else {
      var declared := CanonicalRoot(world.fs, call.context.sourceRoot);
      if declared.Some? { RootMeans(world.fs, call.context.sourceRoot, declared.value); }
    }
  }

  // ------------------------------------------------------- writes and network

  /** Some written path is below none of these roots. */
  ghost predicate SomeOutside(writes: seq<PathBinding>, roots: seq<Str>)
  {
    exists b :: b in writes && forall p :: p in roots ==> !PrefixOrEqual(p, b.relative)
  }

  lemma OutsideMeans(writes: seq<PathBinding>, roots: seq<Str>)
    ensures (exists i :: 0 <= i < |writes| && !Covered(roots, writes[i].relative)) <==> SomeOutside(writes, roots)
  {
    forall b: PathBinding ensures Covered(roots, b.relative) <==> exists p :: p in roots && PrefixOrEqual(p, b.relative) {
      CoveredMeans(roots, b.relative);
    }
    if b :| b in writes && !Covered(roots, b.relative) {
      var i :| 0 <= i < |writes| && writes[i] == b;
    }
  }

  /** Why a hard policy rejects writing. */
  lemma HardWriteRejectedFor(world: World, call: Call, hard: HardWrite, writes: seq<PathBinding>)
    ensures HardWriteVerdict(world, call, hard, writes) ==
      if !hard.allowed then Some(HardWriteDenied)
      else if hard.maxFiles.Some? && hard.maxFiles.value < |writes| then Some(HardFiles)
      else if hard.maxBytes.Some? && !ContentWithin(world, call, hard.maxBytes.value) then Some(HardBytes)
      else if hard.allowedPaths.Some? && SomeOutside(writes, hard.allowedPaths.value) then Some(HardWriteScope)
      else None
  {
    if hard.allowedPaths.Some? { OutsideMeans(writes, hard.allowedPaths.value); }
  }

  ghost predicate NoArtifactRoot(world: World, call: Call)
  {
    forall root :: !IsRoot(world.fs, call.context.artifactRoot, root)
  }

  ghost predicate AllInArtifactRoot(world: World, call: Call, writes: seq<PathBinding>)
  {
    exists root :: IsRoot(world.fs, call.context.artifactRoot, root) && forall b :: b in writes ==> root <= b.canonical
  }

  lemma ArtifactRootMeans(world: World, call: Call, writes: seq<PathBinding>)
    ensures var root := CanonicalRoot(world.fs, call.context.artifactRoot);
      && (root.None? <==> NoArtifactRoot(world, call))
      && (root.Some? ==>
            ((exists i :: 0 <= i < |writes| && !PrefixOrEqual(Absolute(root.value), Absolute(writes[i].canonical))) <==>
             !AllInArtifactRoot(world, call, writes)))
  {
    var root := CanonicalRoot(world.fs, call.context.artifactRoot);
    forall r ensures root == Some(r) <==> IsRoot(world.fs, call.context.artifactRoot, r) {
      RootMeans(world.fs, call.context.artifactRoot, r);
    }
    if root.Some? {
      forall i | 0 <= i < |writes|
        ensures PrefixOrEqual(Absolute(root.value), Absolute(writes[i].canonical)) <==> root.value <= writes[i].canonical {
        PrefixIsSegmentwiseAbsolute(root.value, writes[i].canonical);
      }
    }
  }

  /** Why writing is rejected. */
  lemma WriteRejectedFor(world: World, call: Call, writes: seq<PathBinding>)
    ensures var m := call.manifest;
      WriteVerdict(world, call, writes) ==
        if Field(Members(call.arguments), Lit("write")) != Bool(true) && writes == [] then None
        else if m.writeMode == NoWrites then Some(WritesNotDeclared)
        else if m.maxFiles < |writes| then Some(TooManyFiles)
        else if SomeOutside(writes, m.writePaths) then Some(WriteScope)
        else if !ContentWithin(world, call, m.maxBytes) then Some(TooManyBytes)
        else if m.writeMode == ArtifactOnly && NoArtifactRoot(world, call) then Some(ArtifactRootMissing)
        else if m.writeMode == ArtifactOnly && !AllInArtifactRoot(world, call, writes) then Some(ArtifactRootScope)
        else if call.context.hardWrite.Some? then HardWriteVerdict(world, call, call.context.hardWrite.value, writes)
        else None
  {
    OutsideMeans(writes, call.manifest.writePaths);
    ArtifactRootMeans(world, call, writes);
  }

  /** The target is below none of these. */
  predicate OffTarget(targets: seq<Str>, b: NetworkBinding)
  {
    forall i :: 0 <= i < |targets| ==> !PrefixOrEqual(targets[i], b.target)
  }

  /** The request is within the lists of a hard policy. */
  predicate Within(hard: HardNetwork, b: NetworkBinding)
  {
    && (hard.allowedTargets.Some? ==> !OffTarget(hard.allowedTargets.value, b))
    && (hard.allowedMethods.Some? ==> b.verb in hard.allowedMethods.value)
  }

  /** Why a hard policy rejects a request: the first request outside its lists decides, its target before its verb. */
  lemma {:induction false} HardTargetRejectedFor(hard: HardNetwork, network: seq<NetworkBinding>) returns (i: nat)
    requires HardTargetVerdict(hard, network).Some?
    ensures i < |network| && !Within(hard, network[i]) && forall k :: 0 <= k < i ==> Within(hard, network[k])
    ensures HardTargetVerdict(hard, network) ==
      Some(if hard.allowedTargets.Some? && OffTarget(hard.allowedTargets.value, network[i]) then HardTarget else HardVerb)
  {
    if Within(hard, network[0]) {
      var j := HardTargetRejectedFor(hard, network[1..]);
      i := j + 1;
      forall k | 0 <= k < i ensures Within(hard, network[k]) { if k > 0 { assert network[k] == network[1..][k - 1]; } }
    } else {
      i := 0;
    }
  }

  /** Why the network is rejected. */
  lemma NetworkRejectedFor(call: Call, network: seq<NetworkBinding>)
    ensures var m, hard := call.manifest, call.context.hardNetwork;
      NetworkVerdict(call, network) ==
        if network == [] && Field(Members(call.arguments), Lit("networkAccess")) != Bool(true) then None
        else if m.networkDenied then Some(NetworkDenied)
        else if m.maxRequests < |network| then Some(TooManyRequests)
        else if exists b :: b in network && (OffTarget(m.targets, b) || b.verb !in m.methods) then Some(NetworkScope)
        else if hard == None then None
        else if !hard.value.allowed then Some(HardNetworkDenied)
        else if hard.value.maxRequests.Some? && hard.value.maxRequests.value < |network| then Some(HardRequests)
        else HardTargetVerdict(hard.value, network)
  {
    if b :| b in network && (OffTarget(call.manifest.targets, b) || b.verb !in call.manifest.methods) {
      var i :| 0 <= i < |network| && network[i] == b;
    }
  }

  // ------------------------------------------------------- policies

  /** Questions are asked in order, and the first that is not allowed decides. */
  lemma {:induction false} FirstRefused(world: World, questions: seq<PolicyInput>) returns (i: nat)
    requires Answers(world, questions).Err?
    ensures i < |questions| && world.evaluate(questions[i]).decision != Allowed
    ensures Answers(world, questions) == Err(PolicyRefused(world.evaluate(questions[i])))
    ensures forall k :: 0 <= k < i ==> world.evaluate(questions[k]).decision == Allowed
  {
    var n := |questions| - 1;
    if Answers(world, questions[..n]).Err? {
      i := FirstRefused(world, questions[..n]);
    } else {
      i := n;
      forall k | 0 <= k < n ensures world.evaluate(questions[k]).decision == Allowed { assert questions[k] in questions[..n]; }
    }
  }

  /** Why the policies reject: none for this run, one that refuses what it is asked, or a plan that may not be executed. */
  lemma PolicyRejectedFor(world: World, call: Call, paths: seq<PathBinding>, network: seq<NetworkBinding>) returns (q: PolicyInput)
    ensures var r := PolicyVerdict(world, call, paths, network);
      if call.policy == None || call.policy.value.inputs == []
         || (call.policy.value.sourceId, call.policy.value.sessionId, call.policy.value.runId) !=
            (call.identity.sourceId, call.identity.sessionId, call.identity.runId) then r == Err(PolicyContextMissing)
      else if !(forall a :: Asked(call, call.policy.value.inputs, paths, network, a) ==> world.evaluate(a).decision == Allowed) then
        && Asked(call, call.policy.value.inputs, paths, network, q)
        && world.evaluate(q).decision != Allowed && r == Err(PolicyRefused(world.evaluate(q)))
      else if call.policy.value.plan.Some? && call.policy.value.validation == None then r == Err(PlanStateMissing)
      else if !PlanAllows(world, call, call.policy.value) then r == Err(PlanNotExecutable)
      else r.Ok?
  {
    q := PolicyInput(ReadCategory, [], None, None);
    if call.policy.Some? {
      QuestionsAre(world, call, paths, network);
      var questions := Questions(call, SortPolicies(world, call.policy.value.inputs), paths, network);
      if Answers(world, questions).Err? {
        var i := FirstRefused(world, questions);
        q := questions[i];
        assert q in questions;
      }
    }
  }

  // ------------------------------------------------------- the order of the checks

  /** After the paths are bound: the directory, writing, the network, the policies, the confirmation and the timeout, in turn. */
  ghost predicate RestDecides(world: World, call: Call, paths: seq<PathBinding>, writes: seq<PathBinding>, r: Result<Authorized, Rejection>)
  {
    var network := NetworkClaims(world, call);
    if AuthorizedCwd(world, call).Err? then r == Err(AuthorizedCwd(world, call).error)
    else if WriteVerdict(world, call, writes).Some? then r == Err(WriteVerdict(world, call, writes).value)
    else if NetworkVerdict(call, network).Some? then r == Err(NetworkVerdict(call, network).value)
    else if PolicyVerdict(world, call, paths, network).Err? then r == Err(PolicyVerdict(world, call, paths, network).error)
    else if call.manifest.confirmationRequired && call.policy.Some? && !ConfirmationGiven(call.policy.value) then r == Err(ConfirmationRequired)
    else if call.timeoutMs.Some? && !TimeoutFits(call, call.timeoutMs.value) then r == Err(TimeoutNotAllowed)
    else r.Ok?
  }

  lemma RestIsDecided(world: World, call: Call, paths: seq<PathBinding>, writes: seq<PathBinding>)
    ensures RestDecides(world, call, paths, LastPerPath(writes), Remaining(world, call, paths, writes))
  {
    TimeoutMeans(call);
    if call.policy.Some? { ConfirmedMeans(call.policy.value); }
  }

  /** The bindings of everything the call names as a path, and one for each path it asks to write. */
  ghost predicate AllBound(world: World, call: Call, paths: seq<PathBinding>, writes: seq<PathBinding>)
  {
    PathsJustified(world, call, paths) && WritesListed(call, paths, writes)
  }

  lemma ClaimsAreBound(world: World, call: Call) returns (paths: seq<PathBinding>, writes: seq<PathBinding>)
    requires ResolvedClaims(world, call, PathClaims(call)).Ok? && |PathClaims(call)| <= call.manifest.maxPaths
    ensures ResolvedClaims(world, call, PathClaims(call)) == Ok(paths) && ResolvedClaims(world, call, WriteClaims(call)) == Ok(writes)
    ensures AllBound(world, call, paths, LastPerPath(writes))
  {
    WritesResolve(world, call);
    paths := ResolvedClaims(world, call, PathClaims(call)).value;
    writes := ResolvedClaims(world, call, WriteClaims(call)).value;
    PathsAreJustified(world, call, paths);
    WritesAreWritten(world, call, paths, writes);
    KeptWrites(call, paths, writes);
  }

  /** The first path claim that is rejected, and that nothing before it is. */
  ghost predicate FirstUnbound(world: World, call: Call, i: nat)
  {
    && i < |PathClaims(call)| && ResolvedClaim(world, call, PathClaims(call)[i]).Err?
    && forall k :: 0 <= k < i ==> ResolvedClaim(world, call, PathClaims(call)[k]).Ok?
  }

  lemma SomeFirstUnbound(world: World, call: Call) returns (i: nat)
    requires ResolvedClaims(world, call, PathClaims(call)).Err?
    ensures FirstUnbound(world, call, i)
    ensures ResolvedClaims(world, call, PathClaims(call)) == Err(ResolvedClaim(world, call, PathClaims(call)[i]).error)
  {
    i := FirstRejected(Resolver(world, call), PathClaims(call));
    forall k | 0 <= k < i ensures ResolvedClaim(world, call, PathClaims(call)[k]).Ok? {
      assert Resolver(world, call)(PathClaims(call)[k]).Ok?;
    }
  }

  lemma BoundHasNoUnbound(world: World, call: Call, i: nat)
    requires ResolvedClaims(world, call, PathClaims(call)).Ok?
    ensures !FirstUnbound(world, call, i)
  {
    BoundFromClaims(world, call, PathClaims(call));
  }

  /** Who is called with what, before any path is looked at. */
  lemma EarlyRejections(world: World, call: Call)
    ensures var r := Authorize(world, call);
      if call.identity.capabilityId != call.manifest.id || call.identity.capabilityVersion != call.manifest.version
         || !(call.context.providerId == None || call.context.providerId == Some(call.identity.providerId)) then r == Err(IdentityMismatch)
      else if world.bytes(call.arguments).None? || world.bytes(call.arguments).value > 65_536 then r == Err(InputTooLarge)
      else if !(Conforms(call.manifest.inputSchema, call.arguments) && NodeCount(call.manifest.inputSchema, call.arguments) <= 10_000) then
        r == Err(InputNonconforming)
      else InputAllowed(world, call)
  {
  }

  /**
   * A call whose identity and input are accepted is rejected for too many paths, or for its first path that is
   * rejected, or else for the first of the other checks that fails. Paths to write never fail where paths do not.
   */
  lemma RejectedInOrder(world: World, call: Call) returns (i: nat, paths: seq<PathBinding>, writes: seq<PathBinding>)
    requires InputAllowed(world, call)
    ensures var r := Authorize(world, call);
      if call.manifest.maxPaths < |PathClaims(call)| then r == Err(TooManyPaths)
      else if exists k: nat :: FirstUnbound(world, call, k) then
        FirstUnbound(world, call, i) && r == Err(ResolvedClaim(world, call, PathClaims(call)[i]).error)
      else AllBound(world, call, paths, writes) && RestDecides(world, call, paths, writes, r)
  {
    i, paths, writes := 0, [], [];
    InputAllowedMeans(world, call);
    if |PathClaims(call)| <= call.manifest.maxPaths {
      if ResolvedClaims(world, call, PathClaims(call)).Err? {
        i := SomeFirstUnbound(world, call);
      } else {
        forall k: nat ensures !FirstUnbound(world, call, k) { BoundHasNoUnbound(world, call, k); }
        var all;
        paths, all := ClaimsAreBound(world, call);
        writes := LastPerPath(all);
        RestIsDecided(world, call, paths, all);
      }
    }
  }
}
