/** The execution guard's inputs, and the path, write and network claims it reads out of a call's arguments. */
module GuardClaims {
  import opened Wrappers
  import opened Strings
  import opened JsonText
  import opened SchemaValidation
  import opened ResultEnforcement
  import opened Paths
  import CapabilityPlanning
  import PreExecution

  // ------------------------------------------------------- manifests and policies

  datatype PathMode = NoPaths | SourceRelative | ArtifactRelative

  datatype CwdMode = NoCwd | SourceRootOnly | Subdirectories

  datatype WriteMode = NoWrites | SourceScoped | ExplicitPaths | ArtifactOnly

  datatype Manifest = Manifest(
    id: Str, version: Str,
    inputSchema: Schema,
    pathMode: PathMode, allowedRoots: seq<Str>, protectedPaths: seq<Str>, maxPaths: int,
    cwdMode: CwdMode, cwdPaths: seq<Str>,
    writeMode: WriteMode, writePaths: seq<Str>, maxFiles: int, maxBytes: int,
    networkDenied: bool, targets: seq<Str>, methods: seq<Str>, maxRequests: int,
    confirmationRequired: bool,
    defaultTimeoutMs: int, maxTimeoutMs: int,
    pathInputs: seq<Str>)      // the inputs that command-line templates bind as paths

  datatype HardWrite = HardWrite(
    allowed: bool, allowedPaths: Option<seq<Str>>, maxFiles: Option<int>, maxBytes: Option<int>)

  datatype HardNetwork = HardNetwork(
    allowed: bool, allowedTargets: Option<seq<Str>>, allowedMethods: Option<seq<Str>>, maxRequests: Option<int>)

  datatype Context = Context(
    sourceRoot: Option<Path>, artifactRoot: Option<Path>,
    hardWrite: Option<HardWrite>, hardNetwork: Option<HardNetwork>,
    extraProtected: seq<Str>,
    providerId: Option<Str>)

  datatype Identity = Identity(
    sourceId: Str, sessionId: Str, runId: Str, capabilityId: Str, capabilityVersion: Str, providerId: Str)

  datatype Category = NetworkCategory | WriteCategory | ReadCategory | CapabilityCategory | OtherCategory(name: Str)

  datatype Scope = NetworkTarget(target: Str) | PathScope(path: Str) | CapabilityScope(id: Str) | GivenScope(n: nat) | EmptyScope

  datatype ConfirmationState = NotRequired | ConfirmedState | MissingState | DeniedState

  datatype PersistedDecision = ApprovedDecision | DeniedDecision

  datatype Confirmation = Confirmation(state: ConfirmationState, persisted: Option<PersistedDecision>)

  datatype PolicyInput = PolicyInput(category: Category, operation: Str, scope: Option<Scope>, confirmation: Option<Confirmation>)

  datatype Decision = Allowed | RequiresConfirmation | Denied

  datatype Evaluation = Evaluation(decision: Decision, reason: Str)

  /** `plan` is the plan the call carries, if any, and `validation` the state to check it in; its own plan is ignored. */
  datatype PolicyContext = PolicyContext(
    sourceId: Str, sessionId: Str, runId: Str, inputs: seq<PolicyInput>,
    plan: Option<CapabilityPlanning.Plan>, validation: Option<PreExecution.ValidationState>)

  /** Everything the guard consults but does not define: the file system, sizes, upper-casing and the shared policies. */
  datatype World = World(
    fs: FileSystem,
    format: NumberFormat,
    bytes: Measure,
    utf8: Str -> nat,
    upper: Str -> Str,
    sensitive: Str -> bool,
    evaluate: PolicyInput -> Evaluation,
    notAfter: (Str, Str) -> bool)

  datatype Call = Call(
    manifest: Manifest,
    arguments: Json,
    identity: Identity,
    policy: Option<PolicyContext>,
    context: Context,
    timeoutMs: Option<real>,
    now: int)

  datatype PathBinding = PathBinding(requested: Str, relative: Str, canonical: Path)

  datatype NetworkBinding = NetworkBinding(target: Str, verb: Str)

  // ------------------------------------------------------- reading arguments

  /** The members of an argument object; anything else carries no claims. */
  function Members(arguments: Json): seq<Entry<Json>>
  {
    if arguments.Object? then arguments.members else []
  }

  function Field(members: seq<Entry<Json>>, key: Str): Json
  {
    if Has(members, key) then Get(members, key) else Json.Undefined
  }

  function Texts(items: seq<Json>): seq<Str>
  {
    if items == [] then []
    else
      var n := |items| - 1;
      Texts(items[..n]) + if items[n].String? then [items[n].s] else []
  }

  function TextsOf(value: Json): seq<Str>
  {
    match value
    case String(s) => [s]
    case Array(items) => Texts(items)
    case _ => []
  }

  function ExtractStrings(members: seq<Entry<Json>>, keys: seq<Str>): seq<Str>
  {
    if keys == [] then [] else TextsOf(Field(members, keys[0])) + ExtractStrings(members, keys[1..])
  }

  function PathKeys(): seq<Str>
  {
    [Lit("path"), Lit("paths"), Lit("file"), Lit("files"), Lit("writePath"), Lit("writePaths")]
  }

  function TemplatePaths(members: seq<Entry<Json>>, inputs: seq<Str>): seq<Str>
  {
    if inputs == [] then []
    else
      (var value := Field(members, inputs[0]); if value.String? then [value.s] else [])
      + TemplatePaths(members, inputs[1..])
  }

  function PathClaims(call: Call): seq<Str>
  {
    var members := Members(call.arguments);
    Unique(ExtractStrings(members, PathKeys()) + TemplatePaths(members, call.manifest.pathInputs))
  }

  function WriteClaims(call: Call): seq<Str>
  {
    var members := Members(call.arguments);
    var explicit := ExtractStrings(members, [Lit("writePath"), Lit("writePaths")]);
    var generic := ExtractStrings(members, [Lit("path"), Lit("paths")]);
    Claimed(call.manifest.writeMode, explicit, generic, TemplatePaths(members, call.manifest.pathInputs))
  }

  function Claimed(mode: WriteMode, explicit: seq<Str>, generic: seq<Str>, templates: seq<Str>): seq<Str>
  {
    match mode
    case NoWrites => explicit
    case ArtifactOnly => Unique(explicit + generic + templates)
    case _ => Unique(explicit + generic)
  }

  // ------------------------------------------------------- what is claimed, in terms of the arguments

  /** The argument under this name is the text `x`, or an array that holds it. */
  predicate GivenUnder(call: Call, key: Str, x: Str)
  {
    var value := Field(Members(call.arguments), key);
    value == Json.String(x) || (value.Array? && Json.String(x) in value.items)
  }

  /** Some command-line template binds an argument as a path, and that argument is the text `x`. */
  ghost predicate BoundByTemplate(call: Call, x: Str)
  {
    exists name :: name in call.manifest.pathInputs && Field(Members(call.arguments), name) == Json.String(x)
  }

  /** The call names `x` as a path, whatever its write mode. */
  ghost predicate NamesPath(call: Call, x: Str)
  {
    || GivenUnder(call, Lit("path"), x) || GivenUnder(call, Lit("paths"), x)
    || GivenUnder(call, Lit("file"), x) || GivenUnder(call, Lit("files"), x)
    || GivenUnder(call, Lit("writePath"), x) || GivenUnder(call, Lit("writePaths"), x)
    || BoundByTemplate(call, x)
  }

  /** The call names `x` as a path to write: which names count depends on the write mode. */
  ghost predicate NamesWrite(call: Call, x: Str)
  {
    || GivenUnder(call, Lit("writePath"), x) || GivenUnder(call, Lit("writePaths"), x)
    || (call.manifest.writeMode != NoWrites && (GivenUnder(call, Lit("path"), x) || GivenUnder(call, Lit("paths"), x)))
    || (call.manifest.writeMode == ArtifactOnly && BoundByTemplate(call, x))
  }

  /** An argument object has one value under each name, and `Field` reads it. */
  lemma FieldReads(members: seq<Entry<Json>>, key: Str, value: Json)
    requires DistinctKeys(members)
    ensures Entry(key, value) in members ==> Field(members, key) == value
    ensures Field(members, key) != Json.Undefined ==> Entry(key, Field(members, key)) in members
  {
    if Entry(key, value) in members {
      var i :| 0 <= i < |members| && members[i] == Entry(key, value);
      var j :| 0 <= j < |members| && members[j] == Entry(key, Get(members, key));
      assert i == j;
    }
  }

  lemma {:induction false} TextsMean(items: seq<Json>, x: Str)
    ensures x in Texts(items) <==> Json.String(x) in items
  {
    if items != [] {
      var n := |items| - 1;
      TextsMean(items[..n], x);
      assert items == items[..n] + [items[n]];
    }
  }

  lemma GivenMeans(call: Call, key: Str, x: Str)
    ensures x in TextsOf(Field(Members(call.arguments), key)) <==> GivenUnder(call, key, x)
  {
    var value := Field(Members(call.arguments), key);
    if value.Array? { TextsMean(value.items, x); }
  }

  lemma {:induction false} TemplatesMean(members: seq<Entry<Json>>, inputs: seq<Str>, x: Str)
    ensures x in TemplatePaths(members, inputs) <==> exists name :: name in inputs && Field(members, name) == Json.String(x)
  {
    if inputs != [] {
      TemplatesMean(members, inputs[1..], x);
      assert forall name :: name in inputs <==> name == inputs[0] || name in inputs[1..];
    }
  }

  lemma {:induction false} ExtractsMean(call: Call, keys: seq<Str>, x: Str)
    ensures x in ExtractStrings(Members(call.arguments), keys) <==> exists k :: 0 <= k < |keys| && GivenUnder(call, keys[k], x)
  {
    if keys != [] {
      GivenMeans(call, keys[0], x);
      ExtractsMean(call, keys[1..], x);
      if k :| 0 <= k < |keys| && GivenUnder(call, keys[k], x) {
        if k > 0 { assert GivenUnder(call, keys[1..][k - 1], x); }
      }
      if k :| 0 <= k < |keys[1..]| && GivenUnder(call, keys[1..][k], x) {
        assert GivenUnder(call, keys[k + 1], x);
      }
    }
  }

  lemma PairExtracts(call: Call, keys: seq<Str>, x: Str)
    requires |keys| == 2
    ensures x in ExtractStrings(Members(call.arguments), keys) <==> GivenUnder(call, keys[0], x) || GivenUnder(call, keys[1], x)
  {
    ExtractsMean(call, keys, x);
  }

  lemma SixExtract(call: Call, keys: seq<Str>, x: Str)
    requires |keys| == 6
    ensures x in ExtractStrings(Members(call.arguments), keys) <==>
      || GivenUnder(call, keys[0], x) || GivenUnder(call, keys[1], x) || GivenUnder(call, keys[2], x)
      || GivenUnder(call, keys[3], x) || GivenUnder(call, keys[4], x) || GivenUnder(call, keys[5], x)
  {
    ExtractsMean(call, keys, x);
    if k :| 0 <= k < |keys| && GivenUnder(call, keys[k], x) {
      assert k == 0 || k == 1 || k == 2 || k == 3 || k == 4 || k == 5;
    }
  }

  /** The path claims of a call are exactly the texts it names as paths, each once. */
  lemma PathClaimsMean(call: Call, x: Str)
    ensures x in PathClaims(call) <==> NamesPath(call, x)
    ensures forall i, j :: 0 <= i < j < |PathClaims(call)| ==> PathClaims(call)[i] != PathClaims(call)[j]
  {
    var members := Members(call.arguments);
    SixExtract(call, PathKeys(), x);
    TemplatesMean(members, call.manifest.pathInputs, x);
    UniqueKeeps(ExtractStrings(members, PathKeys()) + TemplatePaths(members, call.manifest.pathInputs));
  }

  lemma ClaimedMeans(mode: WriteMode, explicit: seq<Str>, generic: seq<Str>, templates: seq<Str>, x: Str)
    ensures x in Claimed(mode, explicit, generic, templates) <==>
      x in explicit || (mode != NoWrites && x in generic) || (mode == ArtifactOnly && x in templates)
  {
    UniqueKeeps(explicit + generic + templates);
    UniqueKeeps(explicit + generic);
  }

  /** The write claims of a call are exactly the texts it names as paths to write. */
  lemma WriteClaimsMean(call: Call, x: Str)
    ensures x in WriteClaims(call) <==> NamesWrite(call, x)
  {
    var members := Members(call.arguments);
    var explicit := ExtractStrings(members, [Lit("writePath"), Lit("writePaths")]);
    var generic := ExtractStrings(members, [Lit("path"), Lit("paths")]);
    var templates := TemplatePaths(members, call.manifest.pathInputs);
    ClaimedMeans(call.manifest.writeMode, explicit, generic, templates, x);
    PairExtracts(call, [Lit("writePath"), Lit("writePaths")], x);
    PairExtracts(call, [Lit("path"), Lit("paths")], x);
    TemplatesMean(members, call.manifest.pathInputs, x);
  }

  /** Whatever is claimed for writing is also claimed as a path. */
  lemma WriteClaimsArePathClaims(call: Call)
    ensures forall x :: x in WriteClaims(call) ==> x in PathClaims(call)
  {
    forall x ensures x in WriteClaims(call) ==> x in PathClaims(call) {
      WriteClaimsMean(call, x);
      PathClaimsMean(call, x);
    }
  }

  predicate KnownVerb(verb: Str)
  {
    verb in [Lit("GET"), Lit("POST"), Lit("PUT"), Lit("PATCH"), Lit("DELETE")]
  }

  function NetworkClaim(world: World, target: Json, verb: Json): seq<NetworkBinding>
  {
    var normalized := if verb.String? then world.upper(verb.s) else Lit("GET");
    if target.String? && KnownVerb(normalized) then [NetworkBinding(target.s, normalized)] else []
  }

  function ItemClaim(world: World, item: Json): seq<NetworkBinding>
  {
    if item.Object? then NetworkClaim(world, Field(item.members, Lit("target")), Field(item.members, Lit("method"))) else []
  }

  function RequestClaims(world: World, items: seq<Json>): seq<NetworkBinding>
  {
    if items == [] then []
    else
      var n := |items| - 1;
      RequestClaims(world, items[..n]) + ItemClaim(world, items[n])
  }

  function NetworkClaims(world: World, call: Call): seq<NetworkBinding>
  {
    var members := Members(call.arguments);
    var network, verb := Field(members, Lit("network")), Field(members, Lit("networkMethod"));
    var requests := Field(members, Lit("networkRequests"));
    NetworkClaim(world, Field(members, Lit("networkTarget")), verb)
    + (if network.String? then NetworkClaim(world, network, verb) else [])
    + ItemClaim(world, network)
    + (if requests.Array? then RequestClaims(world, requests.items) else [])
  }

  /** A network request an argument object can state: a target text and a verb that is known, or absent for GET. */
  predicate States(world: World, target: Json, verb: Json, b: NetworkBinding)
  {
    && target == Json.String(b.target)
    && (b.verb == Lit("GET") || b.verb == Lit("POST") || b.verb == Lit("PUT") || b.verb == Lit("PATCH") || b.verb == Lit("DELETE"))
    && b.verb == if verb.String? then world.upper(verb.s) else Lit("GET")
  }

  lemma NetworkClaimMeans(world: World, target: Json, verb: Json, b: NetworkBinding)
    ensures b in NetworkClaim(world, target, verb) <==> States(world, target, verb, b)
  {
  }

  predicate StatedBy(world: World, item: Json, b: NetworkBinding)
  {
    item.Object? && States(world, Field(item.members, Lit("target")), Field(item.members, Lit("method")), b)
  }

  lemma StatedInParts(world: World, items: seq<Json>, b: NetworkBinding)
    requires items != []
    ensures (exists item :: item in items && StatedBy(world, item, b)) <==>
      (exists item :: item in items[..|items| - 1] && StatedBy(world, item, b)) || StatedBy(world, items[|items| - 1], b)
  {
    var n := |items| - 1;
    assert forall item :: item in items <==> item == items[n] || item in items[..n];
  }

  lemma {:induction false} RequestClaimsMean(world: World, items: seq<Json>, b: NetworkBinding)
    ensures b in RequestClaims(world, items) <==> exists item :: item in items && StatedBy(world, item, b)
  {
    if items != [] {
      var n := |items| - 1;
      RequestClaimsMean(world, items[..n], b);
      ItemClaimMeans(world, items[n], b);
      StatedInParts(world, items, b);
    }
  }

  lemma ItemClaimMeans(world: World, item: Json, b: NetworkBinding)
    ensures b in ItemClaim(world, item) <==> StatedBy(world, item, b)
  {
    if item.Object? {
      NetworkClaimMeans(world, Field(item.members, Lit("target")), Field(item.members, Lit("method")), b);
    }
  }

  /** The network claims of a call are exactly the requests its arguments state, in any of the four places. */
  lemma NetworkClaimsMean(world: World, call: Call, b: NetworkBinding)
    ensures var members := Members(call.arguments);
      var network, verb := Field(members, Lit("network")), Field(members, Lit("networkMethod"));
      var requests := Field(members, Lit("networkRequests"));
      b in NetworkClaims(world, call) <==>
        || States(world, Field(members, Lit("networkTarget")), verb, b)
        || States(world, network, verb, b)
        || StatedBy(world, network, b)
        || (requests.Array? && exists item :: item in requests.items && StatedBy(world, item, b))
  {
    var members := Members(call.arguments);
    var network, verb := Field(members, Lit("network")), Field(members, Lit("networkMethod"));
    var requests := Field(members, Lit("networkRequests"));
    NetworkClaimMeans(world, Field(members, Lit("networkTarget")), verb, b);
    NetworkClaimMeans(world, network, verb, b);
    ItemClaimMeans(world, network, b);
    if requests.Array? { RequestClaimsMean(world, requests.items, b); }
  }

  ghost predicate StatesSome(world: World, target: Json, verb: Json)
  {
    exists b :: States(world, target, verb, b)
  }

  ghost predicate StatedBySome(world: World, item: Json)
  {
    exists b :: StatedBy(world, item, b)
  }

  function One(given: bool): nat
  {
    if given then 1 else 0
  }

  lemma NetworkClaimCounts(world: World, target: Json, verb: Json)
    ensures |NetworkClaim(world, target, verb)| == One(StatesSome(world, target, verb))
  {
    var claim := NetworkClaim(world, target, verb);
    if claim != [] {
      NetworkClaimMeans(world, target, verb, claim[0]);
    } else if b :| States(world, target, verb, b) {
      NetworkClaimMeans(world, target, verb, b);
    }
  }

  lemma ItemClaimCounts(world: World, item: Json)
    ensures |ItemClaim(world, item)| == One(StatedBySome(world, item))
  {
    if item.Object? {
      var target, verb := Field(item.members, Lit("target")), Field(item.members, Lit("method"));
      NetworkClaimCounts(world, target, verb);
      if b :| States(world, target, verb, b) { assert StatedBy(world, item, b); }
    }
  }

  ghost function Places(items: seq<Json>, states: Json -> bool): set<nat>
  {
    set i: nat | i < |items| && states(items[i])
  }

  ghost function Stater(world: World): Json -> bool
  {
    item => StatedBySome(world, item)
  }

  /** The places of a list that state a request. */
  ghost function Stating(world: World, items: seq<Json>): set<nat>
  {
    Places(items, Stater(world))
  }

  lemma {:induction false} RequestClaimsCount(world: World, items: seq<Json>)
    ensures |RequestClaims(world, items)| == |Stating(world, items)|
  {
    if items != [] {
      var n := |items| - 1;
      RequestClaimsCount(world, items[..n]);
      ItemClaimCounts(world, items[n]);
      StatingLast(items, Stater(world));
    }
  }

  lemma StatingLast(items: seq<Json>, states: Json -> bool)
    requires items != []
    ensures var n := |items| - 1;
      |Places(items, states)| == |Places(items[..n], states)| + One(states(items[n]))
  {
    var n := |items| - 1;
    assert Places(items, states) == Places(items[..n], states) + if states(items[n]) then {n} else {};
  }

  /** Every place that states a request counts once, even when two of them state the same request. */
  lemma NetworkClaimsCount(world: World, call: Call)
    ensures var members := Members(call.arguments);
      var network, verb := Field(members, Lit("network")), Field(members, Lit("networkMethod"));
      var requests := Field(members, Lit("networkRequests"));
      |NetworkClaims(world, call)| ==
        One(StatesSome(world, Field(members, Lit("networkTarget")), verb))
        + One(StatesSome(world, network, verb)) + One(StatedBySome(world, network))
        + if requests.Array? then |Stating(world, requests.items)| else 0
  {
    var members := Members(call.arguments);
    var network, verb := Field(members, Lit("network")), Field(members, Lit("networkMethod"));
    var requests := Field(members, Lit("networkRequests"));
    NetworkClaimCounts(world, Field(members, Lit("networkTarget")), verb);
    NetworkClaimCounts(world, network, verb);
    ItemClaimCounts(world, network);
    if requests.Array? { RequestClaimsCount(world, requests.items); }
  }

  /** The content a write call carries, in bytes. */
  function ContentBytes(world: World, call: Call): nat
  {
    var content := Field(Members(call.arguments), Lit("content"));
    if content.String? then world.utf8(content.s) else 0
  }

  predicate Flag(call: Call, key: Str)
  {
    Field(Members(call.arguments), key) == Bool(true)
  }
}
