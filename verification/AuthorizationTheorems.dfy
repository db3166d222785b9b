/** What an authorization means, and how it changes when the policies around a call get tighter. */
module AuthorizationTheorems {
  import opened Wrappers
  import opened Strings
  import opened JsonText
  import opened SchemaValidation
  import opened ResultEnforcement
  import opened Paths
  import opened GuardClaims
  import opened Authorization
  import CapabilityPlanning
  import PreExecution

  // ------------------------------------------------------- paths

  /** What a given root directory canonically is. */
  predicate IsRoot(fs: FileSystem, given: Option<Path>, root: Path)
  {
    given.Some? && fs.isDirectory(given.value) == Some(true) && fs.realpath(given.value) == Some(root)
  }

  lemma RootMeans(fs: FileSystem, given: Option<Path>, root: Path)
    ensures CanonicalRoot(fs, given) == Some(root) <==> IsRoot(fs, given, root)
  {
  }

  /** The root of a call's paths: its artifact root for artifact-relative manifests, its source root otherwise. */
  predicate IsPathRoot(world: World, call: Call, root: Path)
  {
    if call.manifest.pathMode == ArtifactRelative then IsRoot(world.fs, call.context.artifactRoot, root)
    else IsRoot(world.fs, call.context.sourceRoot, root)
  }

  lemma PathRootMeans(world: World, call: Call, root: Path)
    ensures DeclaredRoot(world, call) == Some(root) <==> IsPathRoot(world, call, root)
  {
  }

  /** Sensitive, or below a path that the manifest or the context protects. */
  ghost predicate Shielded(world: World, call: Call, relative: Str)
  {
    || world.sensitive(relative)
    || (exists p :: p in call.manifest.protectedPaths && PrefixOrEqual(p, relative))
    || (exists p :: p in call.context.extraProtected && PrefixOrEqual(p, relative))
  }

  lemma ProtectedMeans(world: World, call: Call, relative: Str)
    ensures Protected(world, call, relative) <==> Shielded(world, call, relative)
  {
    var few, more := call.manifest.protectedPaths, call.context.extraProtected;
    CoveredMeans(few + more, relative);
    assert forall p :: p in few + more <==> p in few || p in more;
  }

  lemma CoveredMeans(roots: seq<Str>, target: Str)
    ensures Covered(roots, target) <==> exists p :: p in roots && PrefixOrEqual(p, target)
  {
    if p :| p in roots && PrefixOrEqual(p, target) {
      var i :| 0 <= i < |roots| && roots[i] == p;
    }
  }

  /** A binding below this root is where its request leads, in a declared scope, unshielded, without a link on the way. */
  ghost predicate BoundBelow(world: World, call: Call, root: Path, b: PathBinding)
    requires SafeRelative(b.requested)
  {
    && root <= b.canonical && b.relative == Relative(root, b.canonical)
    && Canonical(world.fs, Resolve(root, b.requested)) == Some(b.canonical)
    && (call.manifest.pathMode == ArtifactRelative ==> Unlinked(world, root, b.requested))
    && (exists p :: p in call.manifest.allowedRoots && PrefixOrEqual(p, b.relative))
    && !Shielded(world, call, b.relative)
  }

  /** A bound path lies below the canonical root of the call's paths, in scope. */
  ghost predicate WithinScope(world: World, call: Call, b: PathBinding)
  {
    && call.manifest.pathMode != NoPaths && SafeRelative(b.requested)
    && exists root :: IsPathRoot(world, call, root) && BoundBelow(world, call, root, b)
  }

  ghost predicate Unlinked(world: World, root: Path, requested: Str)
    requires SafeRelative(requested)
  {
    SafeStaysUnder(root, requested);
    var rest := Resolve(root, requested)[|root|..];
    !LooksOutside(rest) && forall n :: !FirstLink(world.fs, root, rest, n)
  }

  lemma ClaimBinds(world: World, call: Call, requested: Str, b: PathBinding)
    ensures ResolvedClaim(world, call, requested) == Ok(b) <==> b.requested == requested && WithinScope(world, call, b)
  {
    var root := DeclaredRoot(world, call);
    if SafeRelative(requested) && root.Some? && call.manifest.pathMode != NoPaths {
      PathRootMeans(world, call, root.value);
      BindsBelow(world, call, root.value, requested, b);
    }
    if b.requested == requested && WithinScope(world, call, b) {
      var r :| IsPathRoot(world, call, r) && BoundBelow(world, call, r, b);
      PathRootMeans(world, call, r);
    }
  }

  lemma BindsBelow(world: World, call: Call, root: Path, requested: Str, b: PathBinding)
    requires SafeRelative(requested) && DeclaredRoot(world, call) == Some(root) && call.manifest.pathMode != NoPaths
    ensures ResolvedClaim(world, call, requested) == Ok(b) <==> b.requested == requested && BoundBelow(world, call, root, b)
  {
    SafeStaysUnder(root, requested);
    LinkOnTheWayMeans(world.fs, root, Resolve(root, requested)[|root|..]);
    var canonical := Canonical(world.fs, Resolve(root, requested));
    if canonical.Some? {
      PrefixIsSegmentwiseAbsolute(root, canonical.value);
      var relative := Relative(root, canonical.value);
      CoveredMeans(call.manifest.allowedRoots, relative);
      ProtectedMeans(world, call, relative);
    }
  }

  /** Every text the call names as a path has its own binding within scope, no other does, and they are not too many. */
  ghost predicate PathsJustified(world: World, call: Call, paths: seq<PathBinding>)
  {
    && |paths| <= call.manifest.maxPaths
    && (forall i, j :: 0 <= i < j < |paths| ==> paths[i].requested != paths[j].requested)
    && (forall x {:trigger NamesPath(call, x)} :: NamesPath(call, x) ==> exists b :: b in paths && b.requested == x)
    && (forall b :: b in paths ==> NamesPath(call, b.requested) && WithinScope(world, call, b))
  }

  lemma ClaimsBind(world: World, call: Call, claims: seq<Str>, bound: seq<PathBinding>)
    ensures ResolvedClaims(world, call, claims) == Ok(bound) <==>
      |bound| == |claims| && forall i :: 0 <= i < |bound| ==> ResolvedClaim(world, call, claims[i]) == Ok(bound[i])
  {
    var resolve := Resolver(world, call);
    assert forall c :: resolve(c) == ResolvedClaim(world, call, c);
    CollectedIff(resolve, claims, bound);
  }

  lemma CollectedIff(resolve: Str -> Result<PathBinding, Rejection>, claims: seq<Str>, bound: seq<PathBinding>)
    ensures Collected(resolve, claims) == Ok(bound) <==>
      |bound| == |claims| && forall i :: 0 <= i < |bound| ==> resolve(claims[i]) == Ok(bound[i])
  {
    if Collected(resolve, claims).Ok? { CollectedEach(resolve, claims); }
    if |bound| == |claims| && forall i :: 0 <= i < |bound| ==> resolve(claims[i]) == Ok(bound[i]) {
      AllCollected(resolve, claims, bound);
    }
  }

  lemma {:induction false} AllCollected(resolve: Str -> Result<PathBinding, Rejection>, claims: seq<Str>, bound: seq<PathBinding>)
    requires |bound| == |claims| && forall i :: 0 <= i < |bound| ==> resolve(claims[i]) == Ok(bound[i])
    ensures Collected(resolve, claims) == Ok(bound)
  {
    if claims != [] {
      var n := |claims| - 1;
      AllCollected(resolve, claims[..n], bound[..n]);
      assert bound == bound[..n] + [bound[n]];
    }
  }

  // ------------------------------------------------------- writes

  /** A bound path the call asks to write. */
  ghost predicate Written(call: Call, paths: seq<PathBinding>, b: PathBinding)
  {
    b in paths && NamesWrite(call, b.requested)
  }

  ghost function WrittenPaths(call: Call, paths: seq<PathBinding>): set<Str>
  {
    set b | b in paths && NamesWrite(call, b.requested) :: b.relative
  }

  ghost function RelativesOf(bindings: seq<PathBinding>): set<Str>
  {
    set b | b in bindings :: b.relative
  }

  ghost predicate DistinctRelatives(bindings: seq<PathBinding>)
  {
    forall i, j :: 0 <= i < j < |bindings| ==> bindings[i].relative != bindings[j].relative
  }

  /** The content a write carries is at most this many bytes; without text content it carries none. */
  predicate ContentWithin(world: World, call: Call, limit: int)
  {
    var content := Field(Members(call.arguments), Lit("content"));
    if content.String? then world.utf8(content.s) <= limit else 0 <= limit
  }

  /** Every written path lies below one of these roots. */
  ghost predicate WrittenUnder(call: Call, paths: seq<PathBinding>, roots: seq<Str>)
  {
    forall b :: Written(call, paths, b) ==> exists p :: p in roots && PrefixOrEqual(p, b.relative)
  }

  ghost predicate HardWriteAllows(world: World, call: Call, hard: HardWrite, paths: seq<PathBinding>)
  {
    && hard.allowed
    && (hard.maxFiles.Some? ==> |WrittenPaths(call, paths)| <= hard.maxFiles.value)
    && (hard.maxBytes.Some? ==> ContentWithin(world, call, hard.maxBytes.value))
    && (hard.allowedPaths.Some? ==> WrittenUnder(call, paths, hard.allowedPaths.value))
  }

  ghost predicate ArtifactRootContains(world: World, call: Call, paths: seq<PathBinding>)
  {
    exists root :: IsRoot(world.fs, call.context.artifactRoot, root) && forall b :: Written(call, paths, b) ==> root <= b.canonical
  }

  /** The call asks to write: it says so, or names a path to write. */
  ghost predicate AsksToWrite(call: Call)
  {
    Field(Members(call.arguments), Lit("write")) == Bool(true) || exists x :: NamesWrite(call, x)
  }

  /** Writing this much, there, is declared by the manifest and allowed by the hard policy. */
  ghost predicate WritingAllowed(world: World, call: Call, paths: seq<PathBinding>)
  {
    var m := call.manifest;
    AsksToWrite(call) ==>
      && m.writeMode != NoWrites
      && |WrittenPaths(call, paths)| <= m.maxFiles
      && ContentWithin(world, call, m.maxBytes)
      && WrittenUnder(call, paths, m.writePaths)
      && (m.writeMode == ArtifactOnly ==> ArtifactRootContains(world, call, paths))
      && (call.context.hardWrite.Some? ==> HardWriteAllows(world, call, call.context.hardWrite.value, paths))
  }

  /** The write bindings are path bindings, one for each path the call asks to write. */
  ghost predicate WritesListed(call: Call, paths: seq<PathBinding>, writes: seq<PathBinding>)
  {
    && DistinctRelatives(writes)
    && RelativesOf(writes) == WrittenPaths(call, paths)
    && forall b :: b in writes ==> Written(call, paths, b)
  }

  lemma {:induction false} PlacedKeeps(kept: seq<PathBinding>, b: PathBinding)
    requires DistinctRelatives(kept)
    ensures DistinctRelatives(Placed(kept, b))
    ensures RelativesOf(Placed(kept, b)) == RelativesOf(kept) + {b.relative}
    ensures forall x :: x in Placed(kept, b) ==> x == b || x in kept
  {
    if kept == [] {
    } else if kept[0].relative == b.relative {
      assert kept == [kept[0]] + kept[1..];
    } else {
      var rest := kept[1..];
      PlacedKeeps(rest, b);
      assert kept == [kept[0]] + rest;
      var r := Placed(rest, b);
      forall j | 0 <= j < |r| ensures r[j].relative != kept[0].relative {
        assert r[j] in r;
        if r[j] != b {
          var k :| 0 <= k < |rest| && rest[k] == r[j];
          assert kept[k + 1] == r[j];
        }
      }
      PlacedRelatives(kept, b);
    }
  }

  lemma PlacedRelatives(kept: seq<PathBinding>, b: PathBinding)
    requires kept != [] && kept[0].relative != b.relative
    requires RelativesOf(Placed(kept[1..], b)) == RelativesOf(kept[1..]) + {b.relative}
    ensures RelativesOf(Placed(kept, b)) == RelativesOf(kept) + {b.relative}
  {
    ConsRelatives(kept[0], kept[1..]);
    ConsRelatives(kept[0], Placed(kept[1..], b));
    assert kept == [kept[0]] + kept[1..];
  }

  lemma ConsRelatives(b: PathBinding, rest: seq<PathBinding>)
    ensures RelativesOf([b] + rest) == {b.relative} + RelativesOf(rest)
  {
    assert forall x :: x in [b] + rest <==> x == b || x in rest;
  }

  lemma SnocRelatives(rest: seq<PathBinding>, b: PathBinding)
    ensures RelativesOf(rest + [b]) == RelativesOf(rest) + {b.relative}
  {
    assert forall x :: x in rest + [b] <==> x == b || x in rest;
  }

  lemma {:induction false} LastPerPathKeeps(writes: seq<PathBinding>)
    ensures DistinctRelatives(LastPerPath(writes))
    ensures RelativesOf(LastPerPath(writes)) == RelativesOf(writes)
    ensures forall x :: x in LastPerPath(writes) ==> x in writes
  {
    if writes != [] {
      var n := |writes| - 1;
      LastPerPathKeeps(writes[..n]);
      PlacedKeeps(LastPerPath(writes[..n]), writes[n]);
      SnocRelatives(writes[..n], writes[n]);
      assert writes == writes[..n] + [writes[n]];
    }
  }

  lemma {:induction false} DistinctCount(bindings: seq<PathBinding>)
    requires DistinctRelatives(bindings)
    ensures |RelativesOf(bindings)| == |bindings|
  {
    if bindings != [] {
      var n := |bindings| - 1;
      DistinctCount(bindings[..n]);
      SnocRelatives(bindings[..n], bindings[n]);
      assert bindings == bindings[..n] + [bindings[n]];
      LastIsNew(bindings);
    }
  }

  lemma LastIsNew(bindings: seq<PathBinding>)
    requires DistinctRelatives(bindings) && bindings != []
    ensures bindings[|bindings| - 1].relative !in RelativesOf(bindings[..|bindings| - 1])
  {
  }

  /** Two lists of bindings that agree on common claims: the shorter one is the longer one filtered by its claims. */
  lemma SharedBindings(claims: seq<Str>, paths: seq<PathBinding>, wanted: seq<Str>, writes: seq<PathBinding>)
    requires |paths| == |claims| && forall k :: 0 <= k < |paths| ==> paths[k].requested == claims[k]
    requires |writes| == |wanted| && forall i :: 0 <= i < |writes| ==> writes[i].requested == wanted[i]
    requires forall i, k :: 0 <= i < |wanted| && 0 <= k < |claims| && claims[k] == wanted[i] ==> paths[k] == writes[i]
    requires forall x :: x in wanted ==> x in claims
    ensures forall b :: b in writes <==> b in paths && b.requested in wanted
  {
    forall b | b in writes ensures b in paths && b.requested in wanted {
      var i :| 0 <= i < |writes| && writes[i] == b;
      assert wanted[i] in claims;
      var k :| 0 <= k < |claims| && claims[k] == wanted[i];
      assert paths[k] == b;
    }
    forall b | b in paths && b.requested in wanted ensures b in writes {
      var k :| 0 <= k < |paths| && paths[k] == b;
      var i :| 0 <= i < |wanted| && wanted[i] == b.requested;
      assert writes[i] == b;
    }
  }

  /** The resolved write claims are exactly the written path bindings, as far as their paths go. */
  lemma WritesAreWritten(world: World, call: Call, paths: seq<PathBinding>, writes: seq<PathBinding>)
    requires ResolvedClaims(world, call, PathClaims(call)) == Ok(paths)
    requires ResolvedClaims(world, call, WriteClaims(call)) == Ok(writes)
    ensures forall b :: b in writes <==> Written(call, paths, b)
  {
    BoundFromClaims(world, call, PathClaims(call));
    BoundFromClaims(world, call, WriteClaims(call));
    WriteClaimsArePathClaims(call);
    SharedBindings(PathClaims(call), paths, WriteClaims(call), writes);
    forall b ensures b in paths && b.requested in WriteClaims(call) <==> Written(call, paths, b) {
      WriteClaimsMean(call, b.requested);
    }
  }

  /** Write claims resolve whenever path claims do. */
  lemma WritesResolve(world: World, call: Call)
    requires ResolvedClaims(world, call, PathClaims(call)).Ok?
    ensures ResolvedClaims(world, call, WriteClaims(call)).Ok?
  {
    BoundFromClaims(world, call, PathClaims(call));
    WriteClaimsArePathClaims(call);
    var claims, wanted := PathClaims(call), WriteClaims(call);
    forall i | 0 <= i < |wanted| ensures ResolvedClaim(world, call, wanted[i]).Ok? {
      assert wanted[i] in claims;
      var k :| 0 <= k < |claims| && claims[k] == wanted[i];
    }
    AllResolve(Resolver(world, call), wanted);
  }

  lemma {:induction false} AllResolve(resolve: Str -> Result<PathBinding, Rejection>, claims: seq<Str>)
    requires forall i :: 0 <= i < |claims| ==> resolve(claims[i]).Ok?
    ensures Collected(resolve, claims).Ok?
  {
    if claims != [] { AllResolve(resolve, claims[..|claims| - 1]); }
  }

  lemma KeptWrites(call: Call, paths: seq<PathBinding>, writes: seq<PathBinding>)
    requires forall b :: b in writes <==> Written(call, paths, b)
    ensures WritesListed(call, paths, LastPerPath(writes))
    ensures |LastPerPath(writes)| == |WrittenPaths(call, paths)|
  {
    LastPerPathKeeps(writes);
    assert RelativesOf(writes) == WrittenPaths(call, paths);
    DistinctCount(LastPerPath(writes));
  }

  lemma SomethingWritten(call: Call, writes: seq<PathBinding>)
    requires |writes| == |WriteClaims(call)|
    ensures LastPerPath(writes) != [] <==> exists x :: NamesWrite(call, x)
  {
    if writes != [] {
      SomethingKept(writes);
      var x := WriteClaims(call)[0];
      assert x in WriteClaims(call);
      WriteClaimsMean(call, x);
    }
    if x :| NamesWrite(call, x) { WriteClaimsMean(call, x); }
  }

  lemma RelativeInjective(root: Path, p: Path, q: Path)
    requires root <= p && root <= q && Relative(root, p) == Relative(root, q)
    ensures p == q
  {
    JoinInjective(p[|root|..], q[|root|..]);
    assert p == root + p[|root|..] && q == root + q[|root|..];
  }

  /** Below the one root of a call's paths lies whatever is within scope. */
  lemma ScopedBelow(world: World, call: Call, b: PathBinding)
    requires WithinScope(world, call, b)
    ensures DeclaredRoot(world, call).Some?
    ensures var root := DeclaredRoot(world, call).value; root <= b.canonical && b.relative == Relative(root, b.canonical)
  {
    var root :| IsPathRoot(world, call, root) && BoundBelow(world, call, root, b);
    PathRootMeans(world, call, root);
  }

  /** Bindings of one call with the same relative path lead to the same place. */
  lemma SameRelativeSamePlace(world: World, call: Call, b: PathBinding, c: PathBinding)
    requires WithinScope(world, call, b) && WithinScope(world, call, c) && b.relative == c.relative
    ensures b.canonical == c.canonical
  {
    ScopedBelow(world, call, b);
    ScopedBelow(world, call, c);
    RelativeInjective(DeclaredRoot(world, call).value, b.canonical, c.canonical);
  }

  /** Scope conditions on one binding per path hold of all written bindings. */
  lemma ScopeOfAll(call: Call, paths: seq<PathBinding>, kept: seq<PathBinding>, roots: seq<Str>)
    requires WritesListed(call, paths, kept)
    ensures (forall i :: 0 <= i < |kept| ==> Covered(roots, kept[i].relative)) <==> WrittenUnder(call, paths, roots)
  {
    if forall i :: 0 <= i < |kept| ==> Covered(roots, kept[i].relative) {
      forall b | Written(call, paths, b) ensures exists p :: p in roots && PrefixOrEqual(p, b.relative) {
        assert b.relative in RelativesOf(kept);
        var c :| c in kept && c.relative == b.relative;
        CoveredMeans(roots, b.relative);
      }
    }
    if WrittenUnder(call, paths, roots) {
      forall i | 0 <= i < |kept| ensures Covered(roots, kept[i].relative) {
        assert kept[i] in kept && Written(call, paths, kept[i]);
        CoveredMeans(roots, kept[i].relative);
      }
    }
  }

  /** Bindings with one relative path lead to one place. */
  ghost predicate PlacesAgree(paths: seq<PathBinding>)
  {
    forall b, c :: b in paths && c in paths && b.relative == c.relative ==> b.canonical == c.canonical
  }

  lemma ScopedPlacesAgree(world: World, call: Call, paths: seq<PathBinding>)
    requires forall b :: b in paths ==> WithinScope(world, call, b)
    ensures PlacesAgree(paths)
  {
    forall b, c | b in paths && c in paths && b.relative == c.relative ensures b.canonical == c.canonical {
      SameRelativeSamePlace(world, call, b, c);
    }
  }

  /** Where one of the kept bindings of a path leads, every written binding of it leads. */
  lemma PlaceOfOne(call: Call, paths: seq<PathBinding>, kept: seq<PathBinding>, b: PathBinding) returns (i: nat)
    requires WritesListed(call, paths, kept) && Written(call, paths, b) && PlacesAgree(paths)
    ensures i < |kept| && kept[i].canonical == b.canonical
  {
    assert b.relative in RelativesOf(kept);
    var c :| c in kept && c.relative == b.relative;
    i :| i < |kept| && kept[i] == c;
    assert Written(call, paths, c);
  }

  lemma PlaceOfAll(call: Call, paths: seq<PathBinding>, kept: seq<PathBinding>, root: Path)
    requires WritesListed(call, paths, kept) && PlacesAgree(paths)
    ensures (forall i :: 0 <= i < |kept| ==> PrefixOrEqual(Absolute(root), Absolute(kept[i].canonical))) <==>
      forall b :: Written(call, paths, b) ==> root <= b.canonical
  {
    forall i | 0 <= i < |kept|
      ensures Written(call, paths, kept[i])
      ensures PrefixOrEqual(Absolute(root), Absolute(kept[i].canonical)) <==> root <= kept[i].canonical
    {
      assert kept[i] in kept;
      PrefixIsSegmentwiseAbsolute(root, kept[i].canonical);
    }
    forall b | Written(call, paths, b) ensures exists i :: 0 <= i < |kept| && kept[i].canonical == b.canonical {
      var i := PlaceOfOne(call, paths, kept, b);
    }
  }

  /** No write verdict, condition by condition. */
  lemma WriteVerdictIsNone(world: World, call: Call, kept: seq<PathBinding>)
    ensures WriteVerdict(world, call, kept).None? <==>
      (Flag(call, Lit("write")) || kept != [] ==>
        var m := call.manifest;
        && m.writeMode != NoWrites && |kept| <= m.maxFiles && ContentBytes(world, call) <= m.maxBytes
        && (forall i :: 0 <= i < |kept| ==> Covered(m.writePaths, kept[i].relative))
        && (m.writeMode == ArtifactOnly ==> KeptInArtifactRoot(world, call, kept))
        && (call.context.hardWrite.Some? ==> HardWriteVerdict(world, call, call.context.hardWrite.value, kept).None?))
  {
  }

  predicate KeptInArtifactRoot(world: World, call: Call, kept: seq<PathBinding>)
  {
    var root := CanonicalRoot(world.fs, call.context.artifactRoot);
    root.Some? && forall i :: 0 <= i < |kept| ==> PrefixOrEqual(Absolute(root.value), Absolute(kept[i].canonical))
  }

  lemma ArtifactScopeMeans(world: World, call: Call, paths: seq<PathBinding>, kept: seq<PathBinding>)
    requires WritesListed(call, paths, kept) && PlacesAgree(paths)
    ensures KeptInArtifactRoot(world, call, kept) <==> ArtifactRootContains(world, call, paths)
  {
    var root := CanonicalRoot(world.fs, call.context.artifactRoot);
    if root.Some? {
      RootMeans(world.fs, call.context.artifactRoot, root.value);
      PlaceOfAll(call, paths, kept, root.value);
    }
    if r :| IsRoot(world.fs, call.context.artifactRoot, r) { RootMeans(world.fs, call.context.artifactRoot, r); }
  }

  lemma WriteVerdictMeans(world: World, call: Call, paths: seq<PathBinding>, kept: seq<PathBinding>)
    requires WritesListed(call, paths, kept) && |kept| == |WrittenPaths(call, paths)|
    requires PlacesAgree(paths)
    requires kept != [] <==> exists x :: NamesWrite(call, x)
    ensures WriteVerdict(world, call, kept).None? <==> WritingAllowed(world, call, paths)
  {
    WriteVerdictIsNone(world, call, kept);
    ScopeOfAll(call, paths, kept, call.manifest.writePaths);
    ArtifactScopeMeans(world, call, paths, kept);
    if call.context.hardWrite.Some? { HardWriteMeans(world, call, call.context.hardWrite.value, paths, kept); }
  }

  lemma HardWriteMeans(world: World, call: Call, hard: HardWrite, paths: seq<PathBinding>, kept: seq<PathBinding>)
    requires WritesListed(call, paths, kept) && |kept| == |WrittenPaths(call, paths)|
    ensures HardWriteVerdict(world, call, hard, kept).None? <==> HardWriteAllows(world, call, hard, paths)
  {
    if hard.allowedPaths.Some? { ScopeOfAll(call, paths, kept, hard.allowedPaths.value); }
  }

  // ------------------------------------------------------- network and policies

  /** The target of the request lies at or below one of these. */
  ghost predicate OnTarget(targets: seq<Str>, b: NetworkBinding)
  {
    exists p :: p in targets && PrefixOrEqual(p, b.target)
  }

  ghost predicate HardNetworkAllows(hard: HardNetwork, network: seq<NetworkBinding>)
  {
    && hard.allowed
    && (hard.maxRequests.Some? ==> |network| <= hard.maxRequests.value)
    && (hard.allowedTargets.Some? ==> forall b :: b in network ==> OnTarget(hard.allowedTargets.value, b))
    && (hard.allowedMethods.Some? ==> forall b :: b in network ==> b.verb in hard.allowedMethods.value)
  }

  ghost predicate NetworkAllowed(call: Call, network: seq<NetworkBinding>)
  {
    network != [] || Field(Members(call.arguments), Lit("networkAccess")) == Bool(true) ==>
      && !call.manifest.networkDenied
      && |network| <= call.manifest.maxRequests
      && (forall b :: b in network ==> OnTarget(call.manifest.targets, b) && b.verb in call.manifest.methods)
      && (call.context.hardNetwork.Some? ==> HardNetworkAllows(call.context.hardNetwork.value, network))
  }

  lemma NetworkVerdictMeans(call: Call, network: seq<NetworkBinding>)
    ensures NetworkVerdict(call, network).None? <==> NetworkAllowed(call, network)
  {
    forall i | 0 <= i < |network| ensures network[i] in network {
    }
    forall b: NetworkBinding, targets: seq<Str> ensures Covered(targets, b.target) <==> OnTarget(targets, b) {
      CoveredMeans(targets, b.target);
    }
  }

  /** A plan the call carries is executable, by a request for this call, now. */
  ghost predicate PlanAllows(world: World, call: Call, policy: PolicyContext)
  {
    policy.plan.Some? ==>
      && policy.validation.Some?
      && var plan := policy.plan.value;
         PreExecution.Executable(
           world.format,
           PreExecution.ExecutionRequest(
             plan.planId, call.identity.sessionId, call.identity.providerId, call.identity.capabilityId,
             plan.manifestDigest, plan.operation, call.now),
           policy.validation.value.(plan := Some(plan)))
  }

  /** Every supplied policy allows every path, target or capability it is about, and any plan is executable. */
  ghost predicate PoliciesAllow(world: World, call: Call, paths: seq<PathBinding>, network: seq<NetworkBinding>)
  {
    && call.policy.Some? && call.policy.value.inputs != []
    && call.policy.value.sourceId == call.identity.sourceId && call.policy.value.sessionId == call.identity.sessionId
    && call.policy.value.runId == call.identity.runId
    && (forall q :: Asked(call, call.policy.value.inputs, paths, network, q) ==> world.evaluate(q).decision == Allowed)
    && PlanAllows(world, call, call.policy.value)
  }

  lemma PolicyVerdictMeans(world: World, call: Call, paths: seq<PathBinding>, network: seq<NetworkBinding>)
    ensures PolicyVerdict(world, call, paths, network).Ok? <==> PoliciesAllow(world, call, paths, network)
  {
    if call.policy.Some? {
      QuestionsAre(world, call, paths, network);
    }
  }

  lemma QuestionsAre(world: World, call: Call, paths: seq<PathBinding>, network: seq<NetworkBinding>)
    requires call.policy.Some?
    ensures forall q :: q in Questions(call, SortPolicies(world, call.policy.value.inputs), paths, network) <==>
      Asked(call, call.policy.value.inputs, paths, network, q)
  {
    var inputs := call.policy.value.inputs;
    QuestionsAsked(call, SortPolicies(world, inputs), paths, network);
    AskedInAnyOrder(call, SortPolicies(world, inputs), inputs, paths, network);
  }

  /** Every decision of an accepting run is an allowance, and there is one for every question. */
  lemma DecisionsMean(world: World, call: Call, paths: seq<PathBinding>, network: seq<NetworkBinding>)
    requires PolicyVerdict(world, call, paths, network).Ok?
    ensures var decisions := PolicyVerdict(world, call, paths, network).value;
      && (forall d :: d in decisions ==> d.decision == Allowed)
      && forall q :: Asked(call, call.policy.value.inputs, paths, network, q) ==> world.evaluate(q) in decisions
  {
    QuestionsAre(world, call, paths, network);
    AnswersAre(world, Questions(call, SortPolicies(world, call.policy.value.inputs), paths, network));
  }

  lemma AskedInAnyOrder(call: Call, a: seq<PolicyInput>, b: seq<PolicyInput>, paths: seq<PathBinding>, network: seq<NetworkBinding>)
    requires forall p :: p in a <==> p in b
    ensures forall q :: Asked(call, a, paths, network, q) <==> Asked(call, b, paths, network, q)
  {
  }

  lemma AnswersAre(world: World, questions: seq<PolicyInput>)
    requires Answers(world, questions).Ok?
    ensures var decisions := Answers(world, questions).value;
      && (forall d :: d in decisions ==> d.decision == Allowed)
      && forall q :: q in questions ==> world.evaluate(q) in decisions
  {
    var decisions := Answers(world, questions).value;
    forall d | d in decisions ensures d.decision == Allowed {
      var i :| 0 <= i < |decisions| && decisions[i] == d;
      assert questions[i] in questions;
    }
    forall q | q in questions ensures world.evaluate(q) in decisions {
      var i :| 0 <= i < |questions| && questions[i] == q;
      assert decisions[i] == world.evaluate(q);
    }
  }

  // ------------------------------------------------------- the authorization theorem

  ghost predicate InputAllowed(world: World, call: Call)
  {
    && call.identity.capabilityId == call.manifest.id && call.identity.capabilityVersion == call.manifest.version
    && (call.context.providerId == None || call.context.providerId == Some(call.identity.providerId))
    && world.bytes(call.arguments).Some? && world.bytes(call.arguments).value <= 64 * 1024
    && Conforms(call.manifest.inputSchema, call.arguments)
    && NodeCount(call.manifest.inputSchema, call.arguments) <= 10_000
  }

  /** Some policy input carries a confirmation that is given, not required or persisted as approved. */
  ghost predicate ConfirmationGiven(policy: PolicyContext)
  {
    exists p :: p in policy.inputs && p.confirmation.Some? &&
      (p.confirmation.value.state == ConfirmedState || p.confirmation.value.state == NotRequired
       || p.confirmation.value.persisted == Some(ApprovedDecision))
  }

  lemma ConfirmedMeans(policy: PolicyContext)
    ensures Confirmed(policy) <==> ConfirmationGiven(policy)
  {
    if p :| p in policy.inputs && Satisfies(p.confirmation) {
      var i :| 0 <= i < |policy.inputs| && policy.inputs[i] == p;
    }
  }

  /** The directory the call runs in, or none: as requested, within the source root and the declared subdirectories. */
  ghost predicate CwdJustified(world: World, call: Call, cwd: Option<Path>)
  {
    var requested, mode := Field(Members(call.arguments), Lit("cwd")), call.manifest.cwdMode;
    if requested == Json.Undefined && mode != SourceRootOnly then cwd == None
    else cwd.Some? && exists root :: IsRoot(world.fs, call.context.sourceRoot, root) && CwdBelow(world, call, root, cwd.value)
  }

  /** `dir` is the root when none is requested, and otherwise what the request leads to, as far as it is allowed. */
  ghost predicate CwdBelow(world: World, call: Call, root: Path, dir: Path)
  {
    var requested, mode := Field(Members(call.arguments), Lit("cwd")), call.manifest.cwdMode;
    if requested == Json.Undefined then dir == root
    else
      && requested.String? && SafeRelative(requested.s) && mode != NoCwd
      && root <= dir && Canonical(world.fs, Resolve(root, requested.s)) == Some(dir)
      && (mode == SourceRootOnly ==> requested.s == [DOT])
      && (mode == Subdirectories ==> UnderCwdPaths(call, requested.s) && UnderCwdPaths(call, Relative(root, dir)))
  }

  ghost predicate UnderCwdPaths(call: Call, relative: Str)
  {
    exists p :: p in call.manifest.cwdPaths && PrefixOrEqual(p, relative)
  }

  /** The guard settles on a working directory exactly when it is justified. */
  lemma CwdMeans(world: World, call: Call, cwd: Option<Path>)
    ensures AuthorizedCwd(world, call) == Ok(cwd) <==> CwdJustified(world, call, cwd)
  {
    var root := CanonicalRoot(world.fs, call.context.sourceRoot);
    forall r ensures root == Some(r) <==> IsRoot(world.fs, call.context.sourceRoot, r) {
      RootMeans(world.fs, call.context.sourceRoot, r);
    }
    if root.Some? { CwdFromRoot(world, call, root.value, cwd); }
  }

  lemma CwdFromRoot(world: World, call: Call, root: Path, cwd: Option<Path>)
    requires CanonicalRoot(world.fs, call.context.sourceRoot) == Some(root)
    ensures AuthorizedCwd(world, call) == Ok(cwd) <==>
      if Field(Members(call.arguments), Lit("cwd")) == Json.Undefined && call.manifest.cwdMode != SourceRootOnly then cwd == None
      else cwd.Some? && CwdBelow(world, call, root, cwd.value)
  {
    var requested := Field(Members(call.arguments), Lit("cwd"));
    if requested.String? { CoveredMeans(call.manifest.cwdPaths, requested.s); }
    if cwd.Some? {
      PrefixIsSegmentwiseAbsolute(root, cwd.value);
      CoveredMeans(call.manifest.cwdPaths, Relative(root, cwd.value));
    }
  }

  predicate WholeMs(t: real, n: int)
  {
    t == n as real
  }

  /** The timeout is the requested whole number of milliseconds within the maximum, or else the default. */
  ghost predicate TimeoutFits(call: Call, timeoutMs: real)
  {
    if call.timeoutMs.None? then timeoutMs == call.manifest.defaultTimeoutMs as real
    else timeoutMs == call.timeoutMs.value && exists n :: WholeMs(timeoutMs, n) && 1 <= n <= call.manifest.maxTimeoutMs
  }

  lemma TimeoutMeans(call: Call)
    ensures TimeoutAllowed(call) <==> call.timeoutMs.None? || TimeoutFits(call, call.timeoutMs.value)
  {
    if call.timeoutMs.Some? {
      var t := call.timeoutMs.value;
      if TimeoutAllowed(call) { assert WholeMs(t, t.Floor); }
    }
  }

  /** Artifact-relative calls learn their canonical artifact root, if it is available. */
  ghost predicate ArtifactRootTold(world: World, call: Call, told: Option<Path>)
  {
    forall root :: told == Some(root) <==>
      call.manifest.pathMode == ArtifactRelative && IsRoot(world.fs, call.context.artifactRoot, root)
  }

  /** Everything an authorization promises about the call it was given for. */
  ghost predicate Justified(world: World, call: Call, a: Authorized)
  {
    && InputAllowed(world, call)
    && PathsJustified(world, call, a.paths)
    && WritesListed(call, a.paths, a.writePaths) && WritingAllowed(world, call, a.paths)
    && a.network == NetworkClaims(world, call) && NetworkAllowed(call, a.network)
    && PoliciesAllow(world, call, a.paths, a.network)
    && (call.manifest.confirmationRequired ==> ConfirmationGiven(call.policy.value))
    && CwdJustified(world, call, a.cwd)
    && ArtifactRootTold(world, call, a.artifactRoot)
    && TimeoutFits(call, a.timeoutMs)
  }

  lemma RemainingUnfolds(world: World, call: Call, paths: seq<PathBinding>, writes: seq<PathBinding>)
    ensures Remaining(world, call, paths, writes).Ok? <==>
      && AuthorizedCwd(world, call).Ok?
      && WriteVerdict(world, call, LastPerPath(writes)).None?
      && NetworkVerdict(call, NetworkClaims(world, call)).None?
      && PolicyVerdict(world, call, paths, NetworkClaims(world, call)).Ok?
      && (call.manifest.confirmationRequired && call.policy.Some? ==> Confirmed(call.policy.value))
      && TimeoutAllowed(call)
    ensures Remaining(world, call, paths, writes).Ok? ==>
      var a := Remaining(world, call, paths, writes).value;
      && a.paths == paths && a.writePaths == LastPerPath(writes) && a.network == NetworkClaims(world, call)
      && Ok(a.cwd) == AuthorizedCwd(world, call)
      && a.artifactRoot ==
           (if call.manifest.pathMode == ArtifactRelative then CanonicalRoot(world.fs, call.context.artifactRoot) else None)
      && a.timeoutMs == (if call.timeoutMs.Some? then call.timeoutMs.value else call.manifest.defaultTimeoutMs as real)
      && Ok(a.decisions) == PolicyVerdict(world, call, paths, a.network)
  {
  }

  /** What an accepting run went through. */
  lemma AcceptedUnfolds(world: World, call: Call, a: Authorized)
    requires Authorize(world, call) == Ok(a)
    ensures InputAllowed(world, call) && |PathClaims(call)| <= call.manifest.maxPaths
    ensures ResolvedClaims(world, call, PathClaims(call)) == Ok(a.paths)
    ensures ResolvedClaims(world, call, WriteClaims(call)).Ok?
    ensures Remaining(world, call, a.paths, ResolvedClaims(world, call, WriteClaims(call)).value) == Ok(a)
  {
    var paths, writes := ResolvedClaims(world, call, PathClaims(call)), ResolvedClaims(world, call, WriteClaims(call));
    AcceptedStages(world, call, a, paths, writes);
    InputAllowedMeans(world, call);
    RemainingUnfolds(world, call, paths.value, writes.value);
  }

  lemma AcceptedStages(world: World, call: Call, a: Authorized, paths: Result<seq<PathBinding>, Rejection>, writes: Result<seq<PathBinding>, Rejection>)
    requires Authorize(world, call) == Ok(a)
    requires paths == ResolvedClaims(world, call, PathClaims(call)) && writes == ResolvedClaims(world, call, WriteClaims(call))
    ensures Identified(call) && InputVerdict(world, call).None? && |PathClaims(call)| <= call.manifest.maxPaths
    ensures paths.Ok? && writes.Ok? && Remaining(world, call, paths.value, writes.value) == Ok(a)
  {
  }

  lemma InputAllowedMeans(world: World, call: Call)
    ensures InputAllowed(world, call) <==> Identified(call) && InputVerdict(world, call).None?
  {
  }

  /** An authorization is justified: every path, write, request, decision and limit is as declared and as allowed. */
  lemma AuthorizedIsJustified(world: World, call: Call, a: Authorized)
    requires Authorize(world, call) == Ok(a)
    ensures Justified(world, call, a)
    ensures forall d :: d in a.decisions ==> d.decision == Allowed
    ensures forall q :: Asked(call, call.policy.value.inputs, a.paths, a.network, q) ==> world.evaluate(q) in a.decisions
  {
    AcceptedUnfolds(world, call, a);
    var writes := AcceptedWrites(world, call, a);
    AcceptedRest(world, call, a, writes);
    PathsAreJustified(world, call, a.paths);
    DecisionsMean(world, call, a.paths, a.network);
  }

  /** What the checks after the paths establish, in words. */
  lemma AcceptedRest(world: World, call: Call, a: Authorized, writes: seq<PathBinding>)
    requires Remaining(world, call, a.paths, writes) == Ok(a)
    ensures a.network == NetworkClaims(world, call) && NetworkAllowed(call, a.network)
    ensures PoliciesAllow(world, call, a.paths, a.network) && PolicyVerdict(world, call, a.paths, a.network).Ok?
    ensures Ok(a.decisions) == PolicyVerdict(world, call, a.paths, a.network)
    ensures call.manifest.confirmationRequired ==> ConfirmationGiven(call.policy.value)
    ensures CwdJustified(world, call, a.cwd) && ArtifactRootTold(world, call, a.artifactRoot) && TimeoutFits(call, a.timeoutMs)
  {
    RemainingUnfolds(world, call, a.paths, writes);
    NetworkVerdictMeans(call, a.network);
    PolicyVerdictMeans(world, call, a.paths, a.network);
    if call.policy.Some? { ConfirmedMeans(call.policy.value); }
    CwdMeans(world, call, a.cwd);
    TimeoutMeans(call);
  }

  /** The writes of an accepted call are listed and allowed. */
  lemma AcceptedWrites(world: World, call: Call, a: Authorized) returns (writes: seq<PathBinding>)
    requires Authorize(world, call) == Ok(a)
    ensures ResolvedClaims(world, call, WriteClaims(call)) == Ok(writes)
    ensures WritesListed(call, a.paths, a.writePaths) && WritingAllowed(world, call, a.paths)
  {
    AcceptedUnfolds(world, call, a);
    writes := ResolvedClaims(world, call, WriteClaims(call)).value;
    RemainingUnfolds(world, call, a.paths, writes);
    PathsAreJustified(world, call, a.paths);
    WritesAreWritten(world, call, a.paths, writes);
    BoundFromClaims(world, call, WriteClaims(call));
    WritesMean(world, call, a.paths, writes);
  }

  /** A plan carried by an accepted call is approved, unexpired and made for it, and its grant still covers it. */
  lemma CarriedPlanFits(world: World, call: Call, a: Authorized)
    requires Authorize(world, call) == Ok(a) && call.policy.Some? && call.policy.value.plan.Some?
    ensures var plan := call.policy.value.plan.value;
      && plan.approval == CapabilityPlanning.Approved && plan.invalidation == None && call.now < plan.expiresAt
      && plan.sessionId == call.identity.sessionId && plan.providerId == call.identity.providerId
      && plan.capabilityId == call.manifest.id
      && call.policy.value.validation.Some?
      && var grant := call.policy.value.validation.value.grant;
         && grant.Some? && grant.value.state == CapabilityPlanning.GrantActive && grant.value.grantId == plan.grantId
         && CapabilityPlanning.AllIn(plan.permissions, grant.value.permissions)
  {
    AcceptedUnfolds(world, call, a);
    PolicyVerdictMeans(world, call, a.paths, a.network);
    RemainingUnfolds(world, call, a.paths, ResolvedClaims(world, call, WriteClaims(call)).value);
  }

  lemma PathsAreJustified(world: World, call: Call, paths: seq<PathBinding>)
    requires ResolvedClaims(world, call, PathClaims(call)) == Ok(paths) && |PathClaims(call)| <= call.manifest.maxPaths
    ensures PathsJustified(world, call, paths)
  {
    BoundFromClaims(world, call, PathClaims(call));
    PathClaimsMean(call, []);
    forall x | NamesPath(call, x) ensures exists b :: b in paths && b.requested == x {
      var b := NamedIsBound(world, call, paths, x);
    }
    forall b | b in paths ensures NamesPath(call, b.requested) && WithinScope(world, call, b) {
      BoundIsNamed(world, call, paths, b);
    }
  }

  lemma NamedIsBound(world: World, call: Call, paths: seq<PathBinding>, x: Str) returns (b: PathBinding)
    requires ResolvedClaims(world, call, PathClaims(call)) == Ok(paths) && NamesPath(call, x)
    ensures b in paths && b.requested == x
  {
    BoundFromClaims(world, call, PathClaims(call));
    PathClaimsMean(call, x);
    var i :| 0 <= i < |PathClaims(call)| && PathClaims(call)[i] == x;
    b := paths[i];
  }

  lemma BoundIsNamed(world: World, call: Call, paths: seq<PathBinding>, b: PathBinding)
    requires ResolvedClaims(world, call, PathClaims(call)) == Ok(paths) && b in paths
    ensures NamesPath(call, b.requested) && WithinScope(world, call, b)
  {
    BoundFromClaims(world, call, PathClaims(call));
    var i :| 0 <= i < |paths| && paths[i] == b;
    assert PathClaims(call)[i] in PathClaims(call);
    PathClaimsMean(call, b.requested);
    ClaimBinds(world, call, b.requested, b);
  }

  ghost predicate SameBindings(some: seq<PathBinding>, others: seq<PathBinding>)
  {
    forall b :: b in some <==> b in others
  }

  /** Justified paths are what the path claims resolve to, in some order. */
  lemma JustifiedResolves(world: World, call: Call, paths: seq<PathBinding>) returns (bound: seq<PathBinding>)
    requires PathsJustified(world, call, paths)
    ensures ResolvedClaims(world, call, PathClaims(call)) == Ok(bound) && SameBindings(bound, paths)
    ensures |PathClaims(call)| <= call.manifest.maxPaths
  {
    var claims := PathClaims(call);
    forall i | 0 <= i < |claims| ensures exists b :: b in paths && ResolvedClaim(world, call, claims[i]) == Ok(b) {
      var b := JustifiedClaim(world, call, paths, claims[i]);
    }
    AllResolve(Resolver(world, call), claims);
    bound := ResolvedClaims(world, call, claims).value;
    forall b ensures b in bound <==> b in paths {
      if b in paths { JustifiedIsBound(world, call, paths, bound, b); }
      if b in bound { BoundIsJustified(world, call, paths, bound, b); }
    }
    ClaimsFit(call, paths);
  }

  lemma JustifiedIsBound(world: World, call: Call, paths: seq<PathBinding>, bound: seq<PathBinding>, b: PathBinding)
    requires PathsJustified(world, call, paths) && ResolvedClaims(world, call, PathClaims(call)) == Ok(bound) && b in paths
    ensures b in bound
  {
    BoundFromClaims(world, call, PathClaims(call));
    PathClaimsMean(call, b.requested);
    ClaimBinds(world, call, b.requested, b);
    var i :| 0 <= i < |PathClaims(call)| && PathClaims(call)[i] == b.requested;
    assert bound[i] == b;
  }

  lemma BoundIsJustified(world: World, call: Call, paths: seq<PathBinding>, bound: seq<PathBinding>, b: PathBinding)
    requires PathsJustified(world, call, paths) && ResolvedClaims(world, call, PathClaims(call)) == Ok(bound) && b in bound
    ensures b in paths
  {
    BoundFromClaims(world, call, PathClaims(call));
    var i :| 0 <= i < |bound| && bound[i] == b;
    var c := JustifiedClaim(world, call, paths, PathClaims(call)[i]);
  }

  lemma JustifiedClaim(world: World, call: Call, paths: seq<PathBinding>, claim: Str) returns (b: PathBinding)
    requires PathsJustified(world, call, paths) && claim in PathClaims(call)
    ensures b in paths && ResolvedClaim(world, call, claim) == Ok(b)
  {
    PathClaimsMean(call, claim);
    b :| b in paths && b.requested == claim;
    ClaimBinds(world, call, claim, b);
  }

  /** There are no more claims than bindings that answer for them. */
  lemma ClaimsFit(call: Call, paths: seq<PathBinding>)
    requires forall x {:trigger NamesPath(call, x)} :: NamesPath(call, x) ==> exists b :: b in paths && b.requested == x
    ensures |PathClaims(call)| <= |paths|
  {
    var claims := PathClaims(call);
    PathClaimsMean(call, []);
    var requests := seq(|paths|, i requires 0 <= i < |paths| => paths[i].requested);
    forall x | x in claims ensures x in requests {
      PathClaimsMean(call, x);
      var b :| b in paths && b.requested == x;
      var i :| 0 <= i < |paths| && paths[i] == b;
      assert requests[i] == x;
    }
    DistinctAmong(claims, requests);
  }

  /** Distinct texts that all occur in a list are no more than the list is long. */
  lemma {:induction false} DistinctAmong(some: seq<Str>, all: seq<Str>)
    requires forall i, j :: 0 <= i < j < |some| ==> some[i] != some[j]
    requires forall x :: x in some ==> x in all
    ensures |some| <= |all|
  {
    if some != [] {
      var n := |some| - 1;
      assert some[n] in some;
      var k :| 0 <= k < |all| && all[k] == some[n];
      forall x | x in some[..n] ensures x in all[..k] + all[k + 1..] {
        var i :| 0 <= i < |some[..n]| && some[..n][i] == x;
        assert some[i] == x && x in all;
        var j :| 0 <= j < |all| && all[j] == x;
        if j < k { assert all[..k][j] == x; } else { assert all[k + 1..][j - k - 1] == x; }
      }
      DistinctAmong(some[..n], all[..k] + all[k + 1..]);
    }
  }

  /** The write verdict, in terms of what it means. */
  lemma WritesMean(world: World, call: Call, paths: seq<PathBinding>, writes: seq<PathBinding>)
    requires PathsJustified(world, call, paths)
    requires forall b :: b in writes <==> Written(call, paths, b)
    requires |writes| == |WriteClaims(call)|
    ensures WritesListed(call, paths, LastPerPath(writes))
    ensures WriteVerdict(world, call, LastPerPath(writes)).None? <==> WritingAllowed(world, call, paths)
  {
    KeptWrites(call, paths, writes);
    SomethingWritten(call, writes);
    ScopedPlacesAgree(world, call, paths);
    WriteVerdictMeans(world, call, paths, LastPerPath(writes));
  }

  lemma SomethingKept(writes: seq<PathBinding>)
    requires writes != []
    ensures LastPerPath(writes) != []
  {
    LastPerPathKeeps(writes);
    assert writes[0].relative in RelativesOf(writes);
  }

  /** The guard accepts a call exactly when there is a justified authorization for it. */
  lemma AcceptedExactlyWhenJustified(world: World, call: Call)
    ensures Authorize(world, call).Ok? <==> exists a :: Justified(world, call, a)
  {
    if Authorize(world, call).Ok? {
      AuthorizedIsJustified(world, call, Authorize(world, call).value);
    }
    if a :| Justified(world, call, a) {
      JustifiedIsAccepted(world, call, a);
    }
  }

  /** What is allowed of some paths is allowed of the same paths in another order. */
  lemma OrderIsFree(world: World, call: Call, some: seq<PathBinding>, others: seq<PathBinding>, network: seq<NetworkBinding>)
    requires SameBindings(some, others)
    ensures WritingAllowed(world, call, some) <==> WritingAllowed(world, call, others)
    ensures PoliciesAllow(world, call, some, network) <==> PoliciesAllow(world, call, others, network)
  {
    assert forall b :: Written(call, some, b) <==> Written(call, others, b);
    assert WrittenPaths(call, some) == WrittenPaths(call, others);
    if some != [] { assert some[0] in others; }
    if others != [] { assert others[0] in some; }
    forall p, q ensures AskedAbout(call, p, some, network, q) <==> AskedAbout(call, p, others, network, q) {
    }
  }

  /** The writes of justified paths resolve, and the write verdict is what they say. */
  lemma JustifiedWrites(world: World, call: Call, bound: seq<PathBinding>) returns (writes: seq<PathBinding>)
    requires ResolvedClaims(world, call, PathClaims(call)) == Ok(bound) && |PathClaims(call)| <= call.manifest.maxPaths
    ensures ResolvedClaims(world, call, WriteClaims(call)) == Ok(writes)
    ensures WriteVerdict(world, call, LastPerPath(writes)).None? <==> WritingAllowed(world, call, bound)
  {
    PathsAreJustified(world, call, bound);
    WritesResolve(world, call);
    writes := ResolvedClaims(world, call, WriteClaims(call)).value;
    WritesAreWritten(world, call, bound, writes);
    BoundFromClaims(world, call, WriteClaims(call));
    WritesMean(world, call, bound, writes);
  }

  lemma RestIsAccepted(world: World, call: Call, a: Authorized, bound: seq<PathBinding>, writes: seq<PathBinding>)
    requires Justified(world, call, a) && WriteVerdict(world, call, LastPerPath(writes)).None?
    requires PoliciesAllow(world, call, bound, a.network)
    ensures Remaining(world, call, bound, writes).Ok?
  {
    NetworkVerdictMeans(call, a.network);
    PolicyVerdictMeans(world, call, bound, a.network);
    ConfirmedMeans(call.policy.value);
    CwdMeans(world, call, a.cwd);
    TimeoutMeans(call);
    RemainingUnfolds(world, call, bound, writes);
  }

  lemma StagesAccept(world: World, call: Call, paths: seq<PathBinding>, writes: seq<PathBinding>)
    requires Identified(call) && InputVerdict(world, call).None? && |PathClaims(call)| <= call.manifest.maxPaths
    requires ResolvedClaims(world, call, PathClaims(call)) == Ok(paths)
    requires ResolvedClaims(world, call, WriteClaims(call)) == Ok(writes)
    requires Remaining(world, call, paths, writes).Ok?
    ensures Authorize(world, call).Ok?
  {
  }

  lemma JustifiedIsAccepted(world: World, call: Call, a: Authorized)
    requires Justified(world, call, a)
    ensures Authorize(world, call).Ok?
  {
    var bound := JustifiedResolves(world, call, a.paths);
    var writes := JustifiedWrites(world, call, bound);
    OrderIsFree(world, call, bound, a.paths, a.network);
    RestIsAccepted(world, call, a, bound, writes);
    InputAllowedMeans(world, call);
    StagesAccept(world, call, bound, writes);
  }

  /** On acceptance every text the call names as a path is the request of a binding within scope. */
  lemma NamedPathsAreBound(world: World, call: Call, a: Authorized, x: Str)
    requires Authorize(world, call) == Ok(a) && NamesPath(call, x)
    ensures exists b :: b in a.paths && b.requested == x && WithinScope(world, call, b)
    ensures NamesWrite(call, x) ==>
      exists w :: w in a.writePaths && exists b :: b in a.paths && b.requested == x && b.relative == w.relative
  {
    AuthorizedIsJustified(world, call, a);
    var b :| b in a.paths && b.requested == x;
    if NamesWrite(call, x) {
      assert Written(call, a.paths, b) && b.relative in RelativesOf(a.writePaths);
      var w :| w in a.writePaths && w.relative == b.relative;
    }
  }

  /** A call without arguments, under one policy. */
  function BareCall(p: PolicyInput): Call
  {
    var schema := Schema(NullKind, None, None, None, None, None, None, None, None, [], []);
    var manifest := Manifest([], [], schema, NoPaths, [], [], 0, NoCwd, [], NoWrites, [], 0, 0, true, [], [], 0, false, 1, 1, []);
    Call(manifest, Null, Identity([], [], [], [], [], []), Some(PolicyContext([], [], [], [p], None, None)),
         Context(None, None, None, None, [], None), None, 0)
  }

  /** The guard is not always closed: such a call is authorized when its policy allows it. */
  lemma SomeCallIsAuthorized(world: World, p: PolicyInput)
    requires world.bytes(Null) == Some(4) && p.category.OtherCategory? && p.scope.Some? && world.evaluate(p).decision == Allowed
    ensures Authorize(world, BareCall(p)).Ok?
  {
    NothingClaimed(BareCall(p));
    BareInput(world, p);
    BareRest(world, p);
  }

  lemma BareInput(world: World, p: PolicyInput)
    requires world.bytes(Null) == Some(4)
    ensures Identified(BareCall(p)) && InputVerdict(world, BareCall(p)).None?
  {
  }

  lemma BareRest(world: World, p: PolicyInput)
    requires p.category.OtherCategory? && p.scope.Some? && world.evaluate(p).decision == Allowed
    ensures Remaining(world, BareCall(p), [], []).Ok?
  {
    NothingRequested(world, BareCall(p));
    BarePolicies(world, p);
    RemainingUnfolds(world, BareCall(p), [], []);
  }

  lemma BarePolicies(world: World, p: PolicyInput)
    requires p.category.OtherCategory? && p.scope.Some? && world.evaluate(p).decision == Allowed
    ensures PolicyVerdict(world, BareCall(p), [], []).Ok?
  {
    PolicyVerdictMeans(world, BareCall(p), [], []);
    forall q | Asked(BareCall(p), [p], [], [], q) ensures q == p {
    }
  }

  lemma NothingClaimed(call: Call)
    requires call.arguments == Null && call.manifest.pathInputs == []
    ensures PathClaims(call) == [] && WriteClaims(call) == []
  {
    if WriteClaims(call) != [] { assert WriteClaims(call)[0] in WriteClaims(call); }
    WriteClaimsArePathClaims(call);
    NoPathClaims(call);
  }

  lemma NoPathClaims(call: Call)
    requires call.arguments == Null && call.manifest.pathInputs == []
    ensures PathClaims(call) == []
  {
    NoFields(PathKeys());
  }

  lemma NothingRequested(world: World, call: Call)
    requires call.arguments == Null
    ensures NetworkClaims(world, call) == []
  {
  }

  lemma {:induction false} NoFields(keys: seq<Str>)
    ensures ExtractStrings([], keys) == []
  {
    if keys != [] { NoFields(keys[1..]); }
  }

  lemma ScopeAllowed(world: World, call: Call, paths: seq<PathBinding>, network: seq<NetworkBinding>, p: PolicyInput, scope: Scope)
    requires PoliciesAllow(world, call, paths, network) && p in call.policy.value.inputs
    requires scope in Scopes(call, p, paths, network)
    ensures world.evaluate(p.(scope := Some(scope))).decision == Allowed
  {
    var q := p.(scope := Some(scope));
    ScopesMean(call, p, paths, network, scope);
    assert AskedAbout(call, p, paths, network, q);
    assert Asked(call, call.policy.value.inputs, paths, network, q);
  }

  /** Read and write policies allow every bound path. */
  lemma EveryPathAllowed(world: World, call: Call, paths: seq<PathBinding>, network: seq<NetworkBinding>, p: PolicyInput, b: PathBinding)
    requires PoliciesAllow(world, call, paths, network) && p in call.policy.value.inputs && b in paths
    requires p.category == WriteCategory || p.category == ReadCategory
    ensures world.evaluate(p.(scope := Some(PathScope(b.relative)))).decision == Allowed
  {
    var i :| 0 <= i < |paths| && paths[i] == b;
    assert Scopes(call, p, paths, network)[i] == PathScope(b.relative);
    ScopeAllowed(world, call, paths, network, p, PathScope(b.relative));
  }

  /** Network policies allow every requested target. */
  lemma EveryTargetAllowed(world: World, call: Call, paths: seq<PathBinding>, network: seq<NetworkBinding>, p: PolicyInput, n: NetworkBinding)
    requires PoliciesAllow(world, call, paths, network) && p in call.policy.value.inputs && n in network
    requires p.category == NetworkCategory
    ensures world.evaluate(p.(scope := Some(NetworkTarget(n.target)))).decision == Allowed
  {
    var i :| 0 <= i < |network| && network[i] == n;
    assert Scopes(call, p, paths, network)[i] == NetworkTarget(n.target);
    ScopeAllowed(world, call, paths, network, p, NetworkTarget(n.target));
  }

  /** Capability policies allow this capability, and policies of other kinds allow their own scope. */
  lemma CapabilityAllowed(world: World, call: Call, paths: seq<PathBinding>, network: seq<NetworkBinding>, p: PolicyInput)
    requires PoliciesAllow(world, call, paths, network) && p in call.policy.value.inputs
    ensures p.category == CapabilityCategory ==>
      world.evaluate(p.(scope := Some(CapabilityScope(call.identity.capabilityId)))).decision == Allowed
    ensures p.category.OtherCategory? && p.scope.Some? ==> world.evaluate(p).decision == Allowed
  {
    var first := Scopes(call, p, paths, network)[0];
    ScopeAllowed(world, call, paths, network, p, first);
    if p.category.OtherCategory? && p.scope.Some? { assert p.(scope := Some(first)) == p; }
  }

  lemma ResolveDot(root: Path)
    ensures Resolve(root, [DOT]) == root
  {
    var rest := Split([DOT][1..]);
    assert rest == [[]] && [DOT] + rest[0] == [DOT];
    assert [[DOT] + rest[0]] + rest[1..] == [[DOT]];
    assert Follow(root, [[DOT]]) == Follow(Enter(root, [DOT]), []);
  }

  /**
   * An authorized working directory is inside the canonical source root and, where the manifest says so, inside its
   * subdirectories. Without a request it is that root; a request for the root gives the real path of the root, which is
   * the root itself if the file system still resolves it to itself.
   */
  lemma CwdIsContained(world: World, call: Call, cwd: Path)
    requires AuthorizedCwd(world, call) == Ok(Some(cwd))
    ensures call.manifest.cwdMode != NoCwd
    ensures var source := CanonicalRoot(world.fs, call.context.sourceRoot);
      var requested := Field(Members(call.arguments), Lit("cwd"));
      && source.Some? && source.value <= cwd
      && (requested == Json.Undefined ==> call.manifest.cwdMode == SourceRootOnly && cwd == source.value)
      && (requested != Json.Undefined ==> requested.String? && Canonical(world.fs, Resolve(source.value, requested.s)) == Some(cwd))
      && (call.manifest.cwdMode == Subdirectories ==> Covered(call.manifest.cwdPaths, Relative(source.value, cwd)))
      && (call.manifest.cwdMode == SourceRootOnly && requested != Json.Undefined ==> Canonical(world.fs, source.value) == Some(cwd))
      && (call.manifest.cwdMode == SourceRootOnly && ResolvesToItself(world.fs, source.value) ==> cwd == source.value)
  {
    var requested := Field(Members(call.arguments), Lit("cwd"));
    if requested != Json.Undefined { RequestedCwd(world, call, requested, cwd); }
  }

  lemma RequestedCwd(world: World, call: Call, requested: Json, cwd: Path)
    requires requested == Field(Members(call.arguments), Lit("cwd")) && requested != Json.Undefined
    requires AuthorizedCwd(world, call) == Ok(Some(cwd))
    ensures call.manifest.cwdMode != NoCwd && requested.String? && CanonicalRoot(world.fs, call.context.sourceRoot).Some?
    ensures var source := CanonicalRoot(world.fs, call.context.sourceRoot).value;
      && source <= cwd && Canonical(world.fs, Resolve(source, requested.s)) == Some(cwd)
      && (call.manifest.cwdMode == Subdirectories ==> Covered(call.manifest.cwdPaths, Relative(source, cwd)))
      && (call.manifest.cwdMode == SourceRootOnly ==>
            && Canonical(world.fs, source) == Some(cwd)
            && (ResolvesToItself(world.fs, source) ==> cwd == source))
  {
    var source := CanonicalRoot(world.fs, call.context.sourceRoot);
    if source.Some? {
      PrefixIsSegmentwiseAbsolute(source.value, cwd);
      ResolveDot(source.value);
      if ResolvesToItself(world.fs, source.value) { RealRoot(world.fs, source.value); }
    }
  }

  predicate ResolvesToItself(fs: FileSystem, p: Path)
  {
    fs.exists_(p) && fs.realpath(p) == Some(p)
  }

  lemma RealRoot(fs: FileSystem, p: Path)
    requires ResolvesToItself(fs, p)
    ensures Canonical(fs, p) == Some(p)
  {
    assert p[..|p|] == p && p + p[|p|..] == p;
    assert Deepest(fs, p, |p|);
  }

  /** No request whose text starts with two dots is ever bound below the artifact root, not even `..notes`. */
  lemma DottedNamesAreRefused(world: World, call: Call, requested: Str)
    requires call.manifest.pathMode == ArtifactRelative && StartsWith(requested, [DOT, DOT])
    ensures ResolvedClaim(world, call, requested).Err?
    ensures SafeRelative(requested) && DeclaredRoot(world, call).Some? ==>
      var root := DeclaredRoot(world, call).value;
      var canonical := Canonical(world.fs, Resolve(root, requested));
      canonical.Some? && root <= canonical.value ==> ResolvedClaim(world, call, requested) == Err(ArtifactSymlink)
  {
    var root := DeclaredRoot(world, call);
    if SafeRelative(requested) && root.Some? {
      DottedLooksOutside(root.value, requested);
      var canonical := Canonical(world.fs, Resolve(root.value, requested));
      if canonical.Some? { PrefixIsSegmentwiseAbsolute(root.value, canonical.value); }
    }
  }

  /** A slash-free name that starts with two dots and goes on is a safe relative path to that name. */
  lemma DottedName(root: Path, name: Str)
    requires SLASH !in name && BACKSLASH !in name && NUL !in name && |name| > 2 && StartsWith(name, [DOT, DOT])
    ensures SafeRelative(name) && IsName(name) && Resolve(root, name) == root + [name]
  {
    assert name[0] == DOT && name[..1] == [name[0]];
    SlashFreeSplit(name);
    assert Follow(root, [name]) == Follow(Enter(root, name), []);
  }

  /** The name `..notes` directly below an artifact root is refused as a symbolic link, whatever the file system holds. */
  lemma DottedNotes(world: World, call: Call, root: Path)
    requires call.manifest.pathMode == ArtifactRelative && DeclaredRoot(world, call) == Some(root)
    requires Canonical(world.fs, Resolve(root, Lit("..notes"))) == Some(Resolve(root, Lit("..notes")))
    ensures SafeRelative(Lit("..notes")) && Resolve(root, Lit("..notes")) == root + [Lit("..notes")]
    ensures ResolvedClaim(world, call, Lit("..notes")) == Err(ArtifactSymlink)
  {
    var name := Lit("..notes");
    assert name[0] == DOT && name[1] == DOT;
    assert name[..2] == [DOT, DOT];
    DottedName(root, name);
    DottedNamesAreRefused(world, call, name);
  }

  // ------------------------------------------------------- tighter policies

  /** Every path the first list covers is covered by the second. */
  ghost predicate Narrower(tight: seq<Str>, loose: seq<Str>)
  {
    forall x :: x in tight ==> Covered(loose, x)
  }

  lemma NarrowerCovers(tight: seq<Str>, loose: seq<Str>, target: Str)
    requires Narrower(tight, loose) && Covered(tight, target)
    ensures Covered(loose, target)
  {
    var i :| 0 <= i < |tight| && PrefixOrEqual(tight[i], target);
    assert tight[i] in tight;
    var j :| 0 <= j < |loose| && PrefixOrEqual(loose[j], tight[i]);
    PrefixTransitive(loose[j], tight[i], target);
  }

  predicate NoMore(tight: Option<int>, loose: Option<int>)
  {
    loose.Some? ==> tight.Some? && tight.value <= loose.value
  }

  ghost predicate TighterWrite(tight: Option<HardWrite>, loose: Option<HardWrite>)
  {
    loose.Some? ==>
      && tight.Some? && (tight.value.allowed ==> loose.value.allowed)
      && NoMore(tight.value.maxFiles, loose.value.maxFiles) && NoMore(tight.value.maxBytes, loose.value.maxBytes)
      && (loose.value.allowedPaths.Some? ==>
            tight.value.allowedPaths.Some? && Narrower(tight.value.allowedPaths.value, loose.value.allowedPaths.value))
  }

  ghost predicate TighterNetwork(tight: Option<HardNetwork>, loose: Option<HardNetwork>)
  {
    loose.Some? ==>
      && tight.Some? && (tight.value.allowed ==> loose.value.allowed)
      && NoMore(tight.value.maxRequests, loose.value.maxRequests)
      && (loose.value.allowedTargets.Some? ==>
            tight.value.allowedTargets.Some? && Narrower(tight.value.allowedTargets.value, loose.value.allowedTargets.value))
      && (loose.value.allowedMethods.Some? ==>
            && tight.value.allowedMethods.Some?
            && forall v :: v in tight.value.allowedMethods.value ==> v in loose.value.allowedMethods.value)
  }

  /** The same surroundings with tighter hard policies and at least as much protected. */
  ghost predicate Tighter(tight: Context, loose: Context)
  {
    && tight.sourceRoot == loose.sourceRoot && tight.artifactRoot == loose.artifactRoot && tight.providerId == loose.providerId
    && TighterWrite(tight.hardWrite, loose.hardWrite)
    && TighterNetwork(tight.hardNetwork, loose.hardNetwork)
    && Narrower(loose.extraProtected, tight.extraProtected)
  }

  lemma ProtectedStays(world: World, call: Call, loose: Context, relative: Str)
    requires Tighter(call.context, loose) && Protected(world, call.(context := loose), relative)
    ensures Protected(world, call, relative)
  {
    if !world.sensitive(relative) {
      var m := call.manifest.protectedPaths;
      var all := m + loose.extraProtected;
      var i :| 0 <= i < |all| && PrefixOrEqual(all[i], relative);
      if i < |m| {
        assert PrefixOrEqual((m + call.context.extraProtected)[i], relative);
      } else {
        assert loose.extraProtected[i - |m|] == all[i];
        NarrowerCovers(loose.extraProtected, call.context.extraProtected, relative);
        var j :| 0 <= j < |call.context.extraProtected| && PrefixOrEqual(call.context.extraProtected[j], relative);
        assert PrefixOrEqual((m + call.context.extraProtected)[|m| + j], relative);
      }
    }
  }

  lemma ClaimStays(world: World, call: Call, loose: Context, requested: Str)
    requires Tighter(call.context, loose) && ResolvedClaim(world, call, requested).Ok?
    ensures ResolvedClaim(world, call.(context := loose), requested) == ResolvedClaim(world, call, requested)
  {
    var b := ResolvedClaim(world, call, requested).value;
    var other := call.(context := loose);
    if Protected(world, other, b.relative) { ProtectedStays(world, call, loose, b.relative); }
  }

  lemma ClaimsStay(world: World, call: Call, loose: Context, claims: seq<Str>)
    requires Tighter(call.context, loose) && ResolvedClaims(world, call, claims).Ok?
    ensures ResolvedClaims(world, call.(context := loose), claims) == ResolvedClaims(world, call, claims)
  {
    var bound := ResolvedClaims(world, call, claims).value;
    BoundFromClaims(world, call, claims);
    forall i | 0 <= i < |claims| ensures ResolvedClaim(world, call.(context := loose), claims[i]) == Ok(bound[i]) {
      ClaimStays(world, call, loose, claims[i]);
    }
    ClaimsBind(world, call.(context := loose), claims, bound);
  }

  lemma WriteStays(world: World, call: Call, loose: Context, writes: seq<PathBinding>)
    requires Tighter(call.context, loose) && WriteVerdict(world, call, writes).None?
    ensures WriteVerdict(world, call.(context := loose), writes).None?
  {
    var other := call.(context := loose);
    assert ContentBytes(world, other) == ContentBytes(world, call) && Flag(other, Lit("write")) == Flag(call, Lit("write"));
    if loose.hardWrite.Some? && loose.hardWrite.value.allowedPaths.Some? {
      var t, l := call.context.hardWrite.value.allowedPaths.value, loose.hardWrite.value.allowedPaths.value;
      forall i | 0 <= i < |writes| && Covered(t, writes[i].relative) ensures Covered(l, writes[i].relative) {
        NarrowerCovers(t, l, writes[i].relative);
      }
    }
  }

  lemma NetworkStays(call: Call, loose: Context, network: seq<NetworkBinding>)
    requires Tighter(call.context, loose) && NetworkVerdict(call, network).None?
    ensures NetworkVerdict(call.(context := loose), network).None?
  {
    NetworkVerdictMeans(call, network);
    NetworkVerdictMeans(call.(context := loose), network);
    if loose.hardNetwork.Some? && loose.hardNetwork.value.allowedTargets.Some? && call.context.hardNetwork.value.allowedTargets.Some? {
      var t, l := call.context.hardNetwork.value.allowedTargets.value, loose.hardNetwork.value.allowedTargets.value;
      forall b | b in network && Covered(t, b.target) ensures Covered(l, b.target) {
        NarrowerCovers(t, l, b.target);
      }
    }
  }

  /** Tightening never turns a rejection into an acceptance, and what both accept is authorized identically. */
  lemma TighteningOnlyRejects(world: World, call: Call, loose: Context)
    requires Tighter(call.context, loose) && Authorize(world, call).Ok?
    ensures Authorize(world, call.(context := loose)) == Authorize(world, call)
  {
    var a := Authorize(world, call).value;
    AcceptedUnfolds(world, call, a);
    SameClaims(world, call, loose);
    ClaimsStay(world, call, loose, PathClaims(call));
    ClaimsStay(world, call, loose, WriteClaims(call));
    RemainingStays(world, call, loose, a.paths, ResolvedClaims(world, call, WriteClaims(call)).value);
  }

  /** None of this depends on the hard policies. */
  lemma SameClaims(world: World, call: Call, loose: Context)
    requires Tighter(call.context, loose)
    ensures var other := call.(context := loose);
      && Identified(other) == Identified(call) && InputVerdict(world, other) == InputVerdict(world, call)
      && PathClaims(other) == PathClaims(call) && WriteClaims(other) == WriteClaims(call)
  {
  }

  lemma SameSurroundings(world: World, call: Call, loose: Context)
    requires Tighter(call.context, loose)
    ensures var other := call.(context := loose);
      NetworkClaims(world, other) == NetworkClaims(world, call) && TimeoutAllowed(other) == TimeoutAllowed(call)
  {
  }

  lemma SameCwd(world: World, call: Call, loose: Context)
    requires Tighter(call.context, loose)
    ensures AuthorizedCwd(world, call.(context := loose)) == AuthorizedCwd(world, call)
  {
  }

  lemma RemainingStays(world: World, call: Call, loose: Context, paths: seq<PathBinding>, writes: seq<PathBinding>)
    requires Tighter(call.context, loose) && Remaining(world, call, paths, writes).Ok?
    ensures Remaining(world, call.(context := loose), paths, writes) == Remaining(world, call, paths, writes)
  {
    var network := NetworkClaims(world, call);
    var other := call.(context := loose);
    RemainingUnfolds(world, call, paths, writes);
    RemainingUnfolds(world, other, paths, writes);
    SameSurroundings(world, call, loose);
    SameCwd(world, call, loose);
    assert WriteVerdict(world, other, LastPerPath(writes)).None? by { WriteStays(world, call, loose, LastPerPath(writes)); }
    assert NetworkVerdict(other, network).None? by { NetworkStays(call, loose, network); }
    PolicyUnaffected(world, call, loose, paths, network);
  }

  lemma PolicyUnaffected(world: World, call: Call, loose: Context, paths: seq<PathBinding>, network: seq<NetworkBinding>)
    ensures PolicyVerdict(world, call.(context := loose), paths, network) == PolicyVerdict(world, call, paths, network)
  {
    if call.policy.Some? {
      QuestionsUnaffected(call, loose, SortPolicies(world, call.policy.value.inputs), paths, network);
      PlanUnaffected(world, call, loose, call.policy.value);
    }
  }

  lemma PlanUnaffected(world: World, call: Call, loose: Context, policy: PolicyContext)
    ensures PlanVerdict(world, call.(context := loose), policy) == PlanVerdict(world, call, policy)
  {
    if policy.plan.Some? {
      assert PlanRequest(call.(context := loose), policy.plan.value) == PlanRequest(call, policy.plan.value);
    }
  }

  lemma {:induction false} QuestionsUnaffected(call: Call, loose: Context, sorted: seq<PolicyInput>, paths: seq<PathBinding>, network: seq<NetworkBinding>)
    ensures Questions(call.(context := loose), sorted, paths, network) == Questions(call, sorted, paths, network)
  {
    if sorted != [] {
      QuestionsUnaffected(call, loose, sorted[1..], paths, network);
      assert Scopes(call.(context := loose), sorted[0], paths, network) == Scopes(call, sorted[0], paths, network);
    }
  }
}
