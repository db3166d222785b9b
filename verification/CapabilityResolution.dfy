/** Ranking of capability candidates over the provider inventory. */
module CapabilityResolution {
  import opened Wrappers
  import opened Strings

  const MAX_CANDIDATES := 500

  datatype Registration = Discovered | Registered | Enabled | Disabled | OtherRegistration

  datatype Health = Healthy | Degraded | Unreachable | OtherHealth

  datatype Provider = Provider(
    providerId: Str, providerType: Str, manifestDigest: Str,
    enabled: bool, registration: Registration, health: Health,
    capabilities: seq<Str>)

  datatype CapabilityMatch = CapabilityMatch(
    capabilityId: Str, displayName: Str, description: Str,
    providerType: Option<Str>,
    requiredPermissions: seq<Str>,
    supportedContext: Option<seq<Str>>)

  datatype SessionStatus = Proposed | Confirmed | SessionExpired | Cleared

  datatype ResolutionContext = ResolutionContext(
    sessionId: Str, status: SessionStatus, sourceIds: seq<Str>,
    allowedProviderIds: Option<seq<Str>>, allowedPermissions: Option<seq<Str>>)

  datatype Intent = Intent(
    query: Str, requestedCapabilities: seq<Str>, providerTypes: seq<Str>,
    requiredPermissions: seq<Str>, contextTags: seq<Str>)

  datatype MatchReason = ExactMatch | NameOverlap | DescriptionOverlap | TypeMatch | ContextMatch | HealthyProvider

  datatype Refusal =
    | NotRegistered | ProviderDisabled | ProviderUnhealthy | CapabilityUnavailable
    | ContextNotAllowed | PermissionsIncompatible | ContextNotConfirmed

  datatype Candidate = Candidate(
    providerId: Str, capabilityId: Str, score: int, eligible: bool,
    matchReasons: seq<MatchReason>, refusals: seq<Refusal>)

  /** Lower-casing and the collation that `localeCompare` uses; `notAfter(a, b)` is a non-positive comparison. */
  datatype Locale = Locale(lower: Str -> Str, notAfter: (Str, Str) -> bool)

  // ------------------------------------------------------- scoring

  predicate Alphanumeric(u: CodeUnit)
  {
    48 <= u <= 57 || 97 <= u <= 122
  }

  /** `split(/[^a-z0-9]+/).filter(Boolean)`. */
  function Words(s: Str): (r: seq<Str>)
    ensures s != [] && Alphanumeric(s[|s| - 1]) ==> r != []
  {
    if s == [] then []
    else
      var n := |s| - 1;
      var words := Words(s[..n]);
      if !Alphanumeric(s[n]) then words
      else if n > 0 && Alphanumeric(s[n - 1]) then words[..|words| - 1] + [words[|words| - 1] + [s[n]]]
      else words + [[s[n]]]
  }

  function Normalize(locale: Locale, value: Str): seq<Str>
  {
    Words(locale.lower(value))
  }

  function JoinWith(separator: Str, parts: seq<Str>): Str
  {
    if parts == [] then []
    else if |parts| == 1 then parts[0]
    else parts[0] + separator + JoinWith(separator, parts[1..])
  }

  function Overlap(left: seq<Str>, right: seq<Str>): nat
  {
    if left == [] then 0
    else Overlap(left[..|left| - 1], right) + if left[|left| - 1] in right then 1 else 0
  }

  function Min(a: int, b: int): int
  {
    if a < b then a else b
  }

  predicate ExactlyRequested(locale: Locale, intent: Intent, capabilityId: Str)
  {
    exists i :: 0 <= i < |intent.requestedCapabilities| &&
      locale.lower(intent.requestedCapabilities[i]) == locale.lower(capabilityId)
  }

  predicate SharesContext(intent: Intent, capability: CapabilityMatch)
  {
    capability.supportedContext.Some? &&
      exists i :: 0 <= i < |capability.supportedContext.value| && capability.supportedContext.value[i] in intent.contextTags
  }

  function QueryWords(locale: Locale, intent: Intent): seq<Str>
  {
    Normalize(locale, intent.query + [32] + JoinWith([32], intent.requestedCapabilities))
  }

  /** What each kind of match is worth for this capability. */
  function Worth(locale: Locale, intent: Intent, capability: CapabilityMatch, provider: Provider, reason: MatchReason): (r: nat)
    ensures reason == ExactMatch ==> r <= 60
    ensures reason == NameOverlap ==> r <= 24
    ensures reason == DescriptionOverlap ==> r <= 16
    ensures reason != ExactMatch && reason != NameOverlap && reason != DescriptionOverlap ==> r <= 12
    ensures reason == HealthyProvider ==> r <= 8
  {
    var words := QueryWords(locale, intent);
    match reason
    case ExactMatch => if ExactlyRequested(locale, intent, capability.capabilityId) then 60 else 0
    case NameOverlap => Min(24, Overlap(words, Normalize(locale, capability.capabilityId)) * 12)
    case DescriptionOverlap =>
      Min(16, Overlap(words, Normalize(locale, capability.displayName + [32] + capability.description)) * 4)
    case TypeMatch => if provider.providerType in intent.providerTypes then 12 else 0
    case ContextMatch => if SharesContext(intent, capability) then 12 else 0
    case HealthyProvider => if provider.health == Healthy then 8 else 0
  }

  function With<T>(items: seq<T>, added: bool, item: T): seq<T>
  {
    if added then items + [item] else items
  }

  function Score(locale: Locale, intent: Intent, capability: CapabilityMatch, provider: Provider): int
  {
    Min(100,
      Worth(locale, intent, capability, provider, ExactMatch)
      + Worth(locale, intent, capability, provider, NameOverlap)
      + Worth(locale, intent, capability, provider, DescriptionOverlap)
      + Worth(locale, intent, capability, provider, TypeMatch)
      + Worth(locale, intent, capability, provider, ContextMatch)
      + Worth(locale, intent, capability, provider, HealthyProvider))
  }

  /** The reasons that contribute, in order. */
  function Reasons(locale: Locale, intent: Intent, capability: CapabilityMatch, provider: Provider): seq<MatchReason>
  {
    var exact := With([], Worth(locale, intent, capability, provider, ExactMatch) > 0, ExactMatch);
    var name := With(exact, Worth(locale, intent, capability, provider, NameOverlap) > 0, NameOverlap);
    var text := With(name, Worth(locale, intent, capability, provider, DescriptionOverlap) > 0, DescriptionOverlap);
    var typed := With(text, Worth(locale, intent, capability, provider, TypeMatch) > 0, TypeMatch);
    var tagged := With(typed, Worth(locale, intent, capability, provider, ContextMatch) > 0, ContextMatch);
    With(tagged, Worth(locale, intent, capability, provider, HealthyProvider) > 0, HealthyProvider)
  }

  /** One `if (...) { score += ...; reasons.push(...) }`, for a reason of this worth. */
  method Award(earned: bool, points: int, ghost worth: int, reason: MatchReason, score: int, reasons: seq<MatchReason>)
    returns (score': int, reasons': seq<MatchReason>)
    requires (earned ==> points > 0) && worth == if earned then points else 0
    ensures score' == score + worth && reasons' == With(reasons, worth > 0, reason)
  {
    score', reasons' := score, reasons;
    if earned { score', reasons' := score + points, reasons + [reason]; }
  }

  /** `scoreCapability`: the score is built up reason by reason. */
  method ScoreCapability(locale: Locale, intent: Intent, capability: CapabilityMatch, provider: Provider)
    returns (score: int, reasons: seq<MatchReason>)
    ensures score == Score(locale, intent, capability, provider)
    ensures reasons == Reasons(locale, intent, capability, provider)
  {
    ghost var worth := (reason: MatchReason) => Worth(locale, intent, capability, provider, reason);
    var words := QueryWords(locale, intent);
    var nameOverlap := Overlap(words, Normalize(locale, capability.capabilityId));
    var textOverlap := Overlap(words, Normalize(locale, capability.displayName + [32] + capability.description));
    var exact := ExactlyRequested(locale, intent, capability.capabilityId);
    score, reasons := 0, [];
    score, reasons := Award(exact, 60, worth(ExactMatch), ExactMatch, score, reasons);
    score, reasons := Award(nameOverlap > 0, Min(24, nameOverlap * 12), worth(NameOverlap), NameOverlap, score, reasons);
    score, reasons := Award(textOverlap > 0, Min(16, textOverlap * 4), worth(DescriptionOverlap), DescriptionOverlap, score, reasons);
    score, reasons := Award(provider.providerType in intent.providerTypes, 12, worth(TypeMatch), TypeMatch, score, reasons);
    score, reasons := Award(SharesContext(intent, capability), 12, worth(ContextMatch), ContextMatch, score, reasons);
    score, reasons := Award(provider.health == Healthy, 8, worth(HealthyProvider), HealthyProvider, score, reasons);
    score := Min(100, score);
  }

  // ------------------------------------------------------- what the score means

  ghost predicate Plain(s: Str)
  {
    forall i :: 0 <= i < |s| ==> Alphanumeric(s[i])
  }

  /** A text without separators is one word. */
  lemma {:induction false} PlainIsOneWord(s: Str)
    requires Plain(s) && s != []
    ensures Words(s) == [s]
  {
    var n := |s| - 1;
    if n > 0 {
      PlainIsOneWord(s[..n]);
      assert s == s[..n] + [s[n]];
    } else {
      assert s[..0] == [] && s == [s[0]];
    }
  }

  /** A separator splits a text into the words before it and the words after it. */
  lemma {:induction false} SeparatorSplits(a: Str, separator: CodeUnit, b: Str)
    requires !Alphanumeric(separator)
    ensures Words(a + [separator] + b) == Words(a) + Words(b)
  {
    var s := a + [separator] + b;
    if b == [] {
      assert s[..|s| - 1] == a;
    } else {
      var n := |b| - 1;
      var start := a + [separator] + b[..n];
      assert s == start + [b[n]] && b == b[..n] + [b[n]];
      SeparatorSplits(a, separator, b[..n]);
      assert start[|start| - 1] == if n > 0 then b[..n][n - 1] else separator;
      WordsLast(start, b[n]);
      WordsLast(b[..n], b[n]);
      LongerLast(Words(a), Words(b[..n]), b[n]);
    }
  }

  predicate Continues(s: Str)
  {
    s != [] && Alphanumeric(s[|s| - 1])
  }

  function LongerWord(words: seq<Str>, u: CodeUnit): seq<Str>
    requires words != []
  {
    words[..|words| - 1] + [words[|words| - 1] + [u]]
  }

  /** One more code unit ends a word, lengthens the last one or begins a new one. */
  lemma WordsLast(s: Str, u: CodeUnit)
    ensures Continues(s) ==> Words(s) != []
    ensures Words(s + [u]) ==
      if !Alphanumeric(u) then Words(s) else if Continues(s) then LongerWord(Words(s), u) else Words(s) + [[u]]
  {
    assert (s + [u])[..|s|] == s;
  }

  lemma LongerLast(before: seq<Str>, words: seq<Str>, u: CodeUnit)
    ensures words != [] ==> LongerWord(before + words, u) == before + LongerWord(words, u)
    ensures (before + words) + [[u]] == before + (words + [[u]])
  {
    if words != [] {
      assert (before + words)[..|before + words| - 1] == before + words[..|words| - 1];
    }
  }

  function Places(left: seq<Str>, right: seq<Str>): set<nat>
  {
    set i: nat | i < |left| && left[i] in right
  }

  /** How many words of the one text occur in the other, repeated ones each time. */
  lemma {:induction false} OverlapCounts(left: seq<Str>, right: seq<Str>)
    ensures Overlap(left, right) == |Places(left, right)|
  {
    if left == [] {
      assert Places(left, right) == {};
    } else {
      var n := |left| - 1;
      OverlapCounts(left[..n], right);
      assert Places(left, right) == Places(left[..n], right) + if left[n] in right then {n} else {};
    }
  }

  ghost predicate Requested(locale: Locale, intent: Intent, capabilityId: Str)
  {
    exists q :: q in intent.requestedCapabilities && locale.lower(q) == locale.lower(capabilityId)
  }

  ghost predicate TagShared(intent: Intent, capability: CapabilityMatch)
  {
    capability.supportedContext.Some? && exists t :: t in capability.supportedContext.value && t in intent.contextTags
  }

  /** The words of the request that occur in this text, repeated ones each time. */
  function WordsIn(locale: Locale, intent: Intent, text: Str): nat
  {
    Overlap(Words(locale.lower(intent.query + [32] + JoinWith([32], intent.requestedCapabilities))), Words(locale.lower(text)))
  }

  /**
   * A requested capability is worth 60; each word of the request in its identity 12, at most 24; each in its name and
   * description 4, at most 16; its provider type 12; a shared context tag 12; and a healthy provider 8: at most 100.
   */
  lemma ScoreAddsUp(locale: Locale, intent: Intent, capability: CapabilityMatch, provider: Provider)
    ensures Score(locale, intent, capability, provider) ==
      Total(Requested(locale, intent, capability.capabilityId),
            WordsIn(locale, intent, capability.capabilityId),
            WordsIn(locale, intent, capability.displayName + [32] + capability.description),
            provider.providerType in intent.providerTypes, TagShared(intent, capability), provider.health == Healthy)
  {
    FactWorths(locale, intent, capability, provider);
    WordWorths(locale, intent, capability, provider);
  }

  function Total(requested: bool, named: nat, described: nat, typed: bool, tagged: bool, healthy: bool): nat
  {
    var sum :=
      (if requested then 60 else 0) + (if named >= 2 then 24 else 12 * named) + (if described >= 4 then 16 else 4 * described)
      + (if typed then 12 else 0) + (if tagged then 12 else 0) + (if healthy then 8 else 0);
    if sum > 100 then 100 else sum
  }

  lemma WordWorths(locale: Locale, intent: Intent, capability: CapabilityMatch, provider: Provider)
    ensures var named := WordsIn(locale, intent, capability.capabilityId);
      Worth(locale, intent, capability, provider, NameOverlap) == if named >= 2 then 24 else 12 * named
    ensures var described := WordsIn(locale, intent, capability.displayName + [32] + capability.description);
      Worth(locale, intent, capability, provider, DescriptionOverlap) == if described >= 4 then 16 else 4 * described
  {
  }

  lemma FactWorths(locale: Locale, intent: Intent, capability: CapabilityMatch, provider: Provider)
    ensures Worth(locale, intent, capability, provider, ExactMatch) ==
      if Requested(locale, intent, capability.capabilityId) then 60 else 0
    ensures Worth(locale, intent, capability, provider, TypeMatch) == if provider.providerType in intent.providerTypes then 12 else 0
    ensures Worth(locale, intent, capability, provider, ContextMatch) == if TagShared(intent, capability) then 12 else 0
    ensures Worth(locale, intent, capability, provider, HealthyProvider) == if provider.health == Healthy then 8 else 0
  {
    RequestedMeans(locale, intent, capability.capabilityId);
    SharedMeans(intent, capability);
  }

  lemma RequestedMeans(locale: Locale, intent: Intent, capabilityId: Str)
    ensures ExactlyRequested(locale, intent, capabilityId) <==> Requested(locale, intent, capabilityId)
  {
    if q :| q in intent.requestedCapabilities && locale.lower(q) == locale.lower(capabilityId) {
      var i :| 0 <= i < |intent.requestedCapabilities| && intent.requestedCapabilities[i] == q;
    }
  }

  lemma SharedMeans(intent: Intent, capability: CapabilityMatch)
    ensures SharesContext(intent, capability) <==> TagShared(intent, capability)
  {
    if t :| capability.supportedContext.Some? && t in capability.supportedContext.value && t in intent.contextTags {
      var i :| 0 <= i < |capability.supportedContext.value| && capability.supportedContext.value[i] == t;
    }
  }

  /** The match reasons given are those that are worth something, in their order. */
  lemma ReasonsMean(locale: Locale, intent: Intent, capability: CapabilityMatch, provider: Provider, x: MatchReason)
    ensures x in Reasons(locale, intent, capability, provider) <==> Worth(locale, intent, capability, provider, x) > 0
  {
    var worth := (reason: MatchReason) => Worth(locale, intent, capability, provider, reason);
    var r0: seq<MatchReason> := [];
    var r1 := With(r0, worth(ExactMatch) > 0, ExactMatch);
    var r2 := With(r1, worth(NameOverlap) > 0, NameOverlap);
    var r3 := With(r2, worth(DescriptionOverlap) > 0, DescriptionOverlap);
    var r4 := With(r3, worth(TypeMatch) > 0, TypeMatch);
    var r5 := With(r4, worth(ContextMatch) > 0, ContextMatch);
    WithMembers(r0, worth(ExactMatch) > 0, ExactMatch, x);
    WithMembers(r1, worth(NameOverlap) > 0, NameOverlap, x);
    WithMembers(r2, worth(DescriptionOverlap) > 0, DescriptionOverlap, x);
    WithMembers(r3, worth(TypeMatch) > 0, TypeMatch, x);
    WithMembers(r4, worth(ContextMatch) > 0, ContextMatch, x);
    WithMembers(r5, worth(HealthyProvider) > 0, HealthyProvider, x);
  }

  /** Scores lie in 0..100; an exactly requested capability scores at least 60 and any other at most 72. */
  lemma ScoreRange(locale: Locale, intent: Intent, capability: CapabilityMatch, provider: Provider)
    ensures 0 <= Score(locale, intent, capability, provider) <= 100
    ensures ExactlyRequested(locale, intent, capability.capabilityId) ==> Score(locale, intent, capability, provider) >= 60
    ensures !ExactlyRequested(locale, intent, capability.capabilityId) ==> Score(locale, intent, capability, provider) <= 72
  {
  }

  // ------------------------------------------------------- eligibility

  /** One missing permission is enough: without a list, only reading is granted. */
  predicate PermissionsGranted(required: seq<Str>, allowed: Option<seq<Str>>)
  {
    forall i :: 0 <= i < |required| ==>
      if allowed.Some? then required[i] in allowed.value else required[i] == Lit("read")
  }

  predicate Refused(context: ResolutionContext, intent: Intent, provider: Provider, capability: CapabilityMatch, r: Refusal)
  {
    match r
    case NotRegistered => provider.registration != Registered && provider.registration != Enabled
    case ProviderDisabled => provider.registration == Disabled || !provider.enabled
    case ProviderUnhealthy => provider.health != Healthy
    case CapabilityUnavailable => capability.capabilityId !in provider.capabilities
    case ContextNotAllowed => context.allowedProviderIds.Some? && provider.providerId !in context.allowedProviderIds.value
    case PermissionsIncompatible =>
      !PermissionsGranted(intent.requiredPermissions + capability.requiredPermissions, context.allowedPermissions)
    case ContextNotConfirmed => context.status != Confirmed && context.status != Proposed
  }

  /** The refusals that are about the provider alone. */
  function ProviderRefusals(context: ResolutionContext, intent: Intent, provider: Provider, capability: CapabilityMatch): seq<Refusal>
  {
    var registered := With([], Refused(context, intent, provider, capability, NotRegistered), NotRegistered);
    var enabled := With(registered, Refused(context, intent, provider, capability, ProviderDisabled), ProviderDisabled);
    var healthy := With(enabled, Refused(context, intent, provider, capability, ProviderUnhealthy), ProviderUnhealthy);
    With(healthy, Refused(context, intent, provider, capability, CapabilityUnavailable), CapabilityUnavailable)
  }

  function Refusals(context: ResolutionContext, intent: Intent, provider: Provider, capability: CapabilityMatch): seq<Refusal>
  {
    var offered := ProviderRefusals(context, intent, provider, capability);
    var bound := With(offered, Refused(context, intent, provider, capability, ContextNotAllowed), ContextNotAllowed);
    var granted := With(bound, Refused(context, intent, provider, capability, PermissionsIncompatible), PermissionsIncompatible);
    With(granted, Refused(context, intent, provider, capability, ContextNotConfirmed), ContextNotConfirmed)
  }

  lemma WithMembers<T>(items: seq<T>, added: bool, item: T, x: T)
    ensures x in With(items, added, item) <==> x in items || (added && x == item)
  {
  }

  /** A candidate is refused for exactly the reasons that apply, so it is eligible exactly when none does. */
  lemma RefusedForCause(context: ResolutionContext, intent: Intent, provider: Provider, capability: CapabilityMatch, x: Refusal)
    ensures x in Refusals(context, intent, provider, capability) <==> Refused(context, intent, provider, capability, x)
  {
    var r0: seq<Refusal> := [];
    var r1 := With(r0, Refused(context, intent, provider, capability, NotRegistered), NotRegistered);
    var r2 := With(r1, Refused(context, intent, provider, capability, ProviderDisabled), ProviderDisabled);
    var r3 := With(r2, Refused(context, intent, provider, capability, ProviderUnhealthy), ProviderUnhealthy);
    var r4 := With(r3, Refused(context, intent, provider, capability, CapabilityUnavailable), CapabilityUnavailable);
    var r5 := With(r4, Refused(context, intent, provider, capability, ContextNotAllowed), ContextNotAllowed);
    var r6 := With(r5, Refused(context, intent, provider, capability, PermissionsIncompatible), PermissionsIncompatible);
    WithMembers(r0, Refused(context, intent, provider, capability, NotRegistered), NotRegistered, x);
    WithMembers(r1, Refused(context, intent, provider, capability, ProviderDisabled), ProviderDisabled, x);
    WithMembers(r2, Refused(context, intent, provider, capability, ProviderUnhealthy), ProviderUnhealthy, x);
    WithMembers(r3, Refused(context, intent, provider, capability, CapabilityUnavailable), CapabilityUnavailable, x);
    WithMembers(r4, Refused(context, intent, provider, capability, ContextNotAllowed), ContextNotAllowed, x);
    WithMembers(r5, Refused(context, intent, provider, capability, PermissionsIncompatible), PermissionsIncompatible, x);
    WithMembers(r6, Refused(context, intent, provider, capability, ContextNotConfirmed), ContextNotConfirmed, x);
  }

  /** A permission is granted by the list, or without a list when it is the permission to read. */
  predicate Grantable(allowed: Option<seq<Str>>, x: Str)
  {
    if allowed.Some? then x in allowed.value else x == Lit("read")
  }

  /** What each refusal says. */
  lemma RefusalsMean(context: ResolutionContext, intent: Intent, provider: Provider, capability: CapabilityMatch)
    ensures var given := Refusals(context, intent, provider, capability);
      && (NotRegistered in given <==> !(provider.registration == Registered || provider.registration == Enabled))
      && (ProviderDisabled in given <==> provider.registration == Disabled || !provider.enabled)
      && (ProviderUnhealthy in given <==> provider.health != Healthy)
      && (CapabilityUnavailable in given <==> capability.capabilityId !in provider.capabilities)
      && (ContextNotAllowed in given <==>
            context.allowedProviderIds.Some? && provider.providerId !in context.allowedProviderIds.value)
      && (PermissionsIncompatible in given <==>
            exists x :: (x in intent.requiredPermissions || x in capability.requiredPermissions) && !Grantable(context.allowedPermissions, x))
      && (ContextNotConfirmed in given <==> context.status == SessionExpired || context.status == Cleared)
  {
    forall x ensures x in Refusals(context, intent, provider, capability) <==> Refused(context, intent, provider, capability, x) {
      RefusedForCause(context, intent, provider, capability, x);
    }
    GrantedMeans(intent.requiredPermissions, capability.requiredPermissions, context.allowedPermissions);
  }

  lemma GrantedMeans(some: seq<Str>, others: seq<Str>, allowed: Option<seq<Str>>)
    ensures !PermissionsGranted(some + others, allowed) <==> exists x :: (x in some || x in others) && !Grantable(allowed, x)
  {
    var all := some + others;
    assert forall x :: x in all <==> x in some || x in others;
    if x :| x in all && !Grantable(allowed, x) {
      var i :| 0 <= i < |all| && all[i] == x;
    }
    if i :| 0 <= i < |all| && !Grantable(allowed, all[i]) { assert all[i] in all; }
  }

  /** `eligible`. */
  method CheckEligible(context: ResolutionContext, intent: Intent, provider: Provider, capability: CapabilityMatch)
    returns (refusals: seq<Refusal>)
    ensures refusals == Refusals(context, intent, provider, capability)
  {
    var required := intent.requiredPermissions + capability.requiredPermissions;
    refusals := CheckProvider(context, intent, provider, capability);
    refusals := Push(context.allowedProviderIds.Some? && provider.providerId !in context.allowedProviderIds.value,
                     ContextNotAllowed, refusals);
    refusals := Push(!PermissionsGranted(required, context.allowedPermissions), PermissionsIncompatible, refusals);
    refusals := Push(context.status != Confirmed && context.status != Proposed, ContextNotConfirmed, refusals);
  }

  /** Its first four conditions, which are about the provider alone. */
  method CheckProvider(ghost context: ResolutionContext, ghost intent: Intent, provider: Provider, capability: CapabilityMatch)
    returns (refusals: seq<Refusal>)
    ensures refusals == ProviderRefusals(context, intent, provider, capability)
  {
    refusals := [];
    refusals := Push(provider.registration != Registered && provider.registration != Enabled, NotRegistered, refusals);
    refusals := Push(provider.registration == Disabled || !provider.enabled, ProviderDisabled, refusals);
    refusals := Push(provider.health != Healthy, ProviderUnhealthy, refusals);
    refusals := Push(capability.capabilityId !in provider.capabilities, CapabilityUnavailable, refusals);
  }

  /** One `if (...) reasons.push(...)`. */
  method Push(raised: bool, refusal: Refusal, refusals: seq<Refusal>) returns (refusals': seq<Refusal>)
    ensures refusals' == With(refusals, raised, refusal)
  {
    refusals' := refusals;
    if raised { refusals' := refusals + [refusal]; }
  }

  // ------------------------------------------------------- candidates

  function CatalogEntry(catalog: seq<CapabilityMatch>, provider: Provider, capabilityId: Str): CapabilityMatch
  {
    if catalog == [] then CapabilityMatch(capabilityId, [], [], Some(provider.providerType), [], None)
    else if (catalog[0].providerType.None? || catalog[0].providerType.value == provider.providerType)
            && catalog[0].capabilityId == capabilityId then catalog[0]
    else CatalogEntry(catalog[1..], provider, capabilityId)
  }

  datatype Resolving = Resolving(locale: Locale, context: ResolutionContext, intent: Intent, catalog: seq<CapabilityMatch>)

  function CandidateFor(r: Resolving, provider: Provider, capabilityId: Str): Candidate
  {
    var capability := CatalogEntry(r.catalog, provider, capabilityId);
    var refusals := Refusals(r.context, r.intent, provider, capability);
    Candidate(provider.providerId, capability.capabilityId, Score(r.locale, r.intent, capability, provider), refusals == [],
              Reasons(r.locale, r.intent, capability, provider), refusals)
  }

  function CandidatesOf(r: Resolving, provider: Provider, ids: seq<Str>): seq<Candidate>
  {
    if ids == [] then [] else CandidatesOf(r, provider, ids[..|ids| - 1]) + [CandidateFor(r, provider, ids[|ids| - 1])]
  }

  function Offers(r: Resolving): Provider -> seq<Candidate>
  {
    (provider: Provider) => CandidatesOf(r, provider, provider.capabilities)
  }

  function Gathered(offer: Provider -> seq<Candidate>, providers: seq<Provider>): seq<Candidate>
  {
    if providers == [] then []
    else
      var n := |providers| - 1;
      Gathered(offer, providers[..n]) + offer(providers[n])
  }

  function AllCandidates(r: Resolving, providers: seq<Provider>): seq<Candidate>
  {
    Gathered(Offers(r), providers)
  }

  // ------------------------------------------------------- what the candidates are

  /** The catalog entry is meant for this capability of this provider. */
  predicate Describes(entry: CapabilityMatch, provider: Provider, capabilityId: Str)
  {
    entry.capabilityId == capabilityId && (entry.providerType == None || entry.providerType == Some(provider.providerType))
  }

  /** The first entry that describes the capability, or an empty description of it. */
  ghost predicate DescribedBy(catalog: seq<CapabilityMatch>, provider: Provider, capabilityId: Str, entry: CapabilityMatch)
  {
    if exists k :: 0 <= k < |catalog| && Describes(catalog[k], provider, capabilityId) then
      exists k :: 0 <= k < |catalog| && Describes(catalog[k], provider, capabilityId) && entry == catalog[k]
                  && forall i :: 0 <= i < k ==> !Describes(catalog[i], provider, capabilityId)
    else entry == CapabilityMatch(capabilityId, [], [], Some(provider.providerType), [], None)
  }

  lemma {:induction false} CatalogDescribes(catalog: seq<CapabilityMatch>, provider: Provider, capabilityId: Str)
    ensures DescribedBy(catalog, provider, capabilityId, CatalogEntry(catalog, provider, capabilityId))
  {
    if catalog != [] && !Describes(catalog[0], provider, capabilityId) {
      CatalogDescribes(catalog[1..], provider, capabilityId);
      DescribedLater(catalog, provider, capabilityId, CatalogEntry(catalog[1..], provider, capabilityId));
    }
  }

  lemma DescribedLater(catalog: seq<CapabilityMatch>, provider: Provider, capabilityId: Str, entry: CapabilityMatch)
    requires catalog != [] && !Describes(catalog[0], provider, capabilityId)
    requires DescribedBy(catalog[1..], provider, capabilityId, entry)
    ensures DescribedBy(catalog, provider, capabilityId, entry)
  {
    var rest := catalog[1..];
    if k :| 0 <= k < |rest| && Describes(rest[k], provider, capabilityId) && entry == rest[k]
            && forall i :: 0 <= i < k ==> !Describes(rest[i], provider, capabilityId) {
      assert catalog[k + 1] == rest[k];
      forall i | 0 <= i < k + 1 ensures !Describes(catalog[i], provider, capabilityId) {
        if i > 0 { assert catalog[i] == rest[i - 1]; }
      }
    } else {
      forall i | 0 <= i < |catalog| ensures !Describes(catalog[i], provider, capabilityId) {
        if i > 0 { assert catalog[i] == rest[i - 1]; }
      }
    }
  }

  /** A candidate for a capability that this provider offers, scored and refused by its description. */
  ghost predicate CandidateOf(r: Resolving, provider: Provider, capabilityId: Str, c: Candidate)
  {
    && capabilityId in provider.capabilities && c.providerId == provider.providerId && c.capabilityId == capabilityId
    && exists entry :: DescribedBy(r.catalog, provider, capabilityId, entry)
         && c.score == Score(r.locale, r.intent, entry, provider) && c.refusals == Refusals(r.context, r.intent, provider, entry)
         && c.matchReasons == Reasons(r.locale, r.intent, entry, provider) && (c.eligible <==> c.refusals == [])
  }

  lemma DescribedOnce(catalog: seq<CapabilityMatch>, provider: Provider, capabilityId: Str, a: CapabilityMatch, b: CapabilityMatch)
    requires DescribedBy(catalog, provider, capabilityId, a) && DescribedBy(catalog, provider, capabilityId, b)
    ensures a == b && a.capabilityId == capabilityId
  {
  }

  lemma CandidateIs(r: Resolving, provider: Provider, capabilityId: Str, c: Candidate)
    requires capabilityId in provider.capabilities
    ensures c == CandidateFor(r, provider, capabilityId) <==> CandidateOf(r, provider, capabilityId, c)
  {
    var entry := CatalogEntry(r.catalog, provider, capabilityId);
    CatalogDescribes(r.catalog, provider, capabilityId);
    DescribedOnce(r.catalog, provider, capabilityId, entry, entry);
    if CandidateOf(r, provider, capabilityId, c) {
      var other :| DescribedBy(r.catalog, provider, capabilityId, other)
         && c.score == Score(r.locale, r.intent, other, provider) && c.refusals == Refusals(r.context, r.intent, provider, other)
         && c.matchReasons == Reasons(r.locale, r.intent, other, provider) && (c.eligible <==> c.refusals == []);
      DescribedOnce(r.catalog, provider, capabilityId, entry, other);
    }
  }

  function Maker(r: Resolving, provider: Provider): Str -> Candidate
  {
    (id: Str) => CandidateFor(r, provider, id)
  }

  ghost predicate MadeFrom(make: Str -> Candidate, ids: seq<Str>, c: Candidate)
  {
    exists id :: id in ids && c == make(id)
  }

  lemma MadeFromMore(make: Str -> Candidate, ids: seq<Str>, c: Candidate)
    requires ids != []
    ensures MadeFrom(make, ids, c) <==> MadeFrom(make, ids[..|ids| - 1], c) || c == make(ids[|ids| - 1])
  {
    var n := |ids| - 1;
    assert forall id :: id in ids <==> id in ids[..n] || id == ids[n];
  }

  lemma {:induction false} CandidatesOfMean(r: Resolving, provider: Provider, ids: seq<Str>, make: Str -> Candidate, c: Candidate)
    requires make == Maker(r, provider)
    ensures c in CandidatesOf(r, provider, ids) <==> MadeFrom(make, ids, c)
  {
    if ids != [] {
      CandidatesOfMean(r, provider, ids[..|ids| - 1], make, c);
      MadeFromMore(make, ids, c);
      assert make(ids[|ids| - 1]) == CandidateFor(r, provider, ids[|ids| - 1]);
    }
  }

  lemma {:induction false} GatheredMeans(offer: Provider -> seq<Candidate>, providers: seq<Provider>, c: Candidate)
    ensures c in Gathered(offer, providers) <==> exists p :: p in providers && c in offer(p)
  {
    if providers != [] {
      var n := |providers| - 1;
      GatheredMeans(offer, providers[..n], c);
      assert forall p :: p in providers <==> p in providers[..n] || p == providers[n];
    }
  }

  /** The candidates are those of every capability every provider offers, and no others. */
  lemma CandidatesMean(r: Resolving, providers: seq<Provider>, c: Candidate)
    ensures c in AllCandidates(r, providers) <==> exists p, id :: p in providers && CandidateOf(r, p, id, c)
  {
    GatheredMeans(Offers(r), providers, c);
    if p :| p in providers && c in Offers(r)(p) {
      CandidatesOfMean(r, p, p.capabilities, Maker(r, p), c);
      var id :| id in p.capabilities && c == Maker(r, p)(id);
      CandidateIs(r, p, id, c);
    }
    if p, id :| p in providers && CandidateOf(r, p, id, c) {
      CandidateIs(r, p, id, c);
      CandidatesOfMean(r, p, p.capabilities, Maker(r, p), c);
      assert c == Maker(r, p)(id);
      assert c in Offers(r)(p);
    }
  }

  // ------------------------------------------------------- ranking

  /** The comparator: eligible first, then the higher score, then provider and capability in collation order. */
  predicate RanksNotAfter(locale: Locale, a: Candidate, b: Candidate)
  {
    if a.eligible != b.eligible then a.eligible
    else if a.score != b.score then a.score > b.score
    else if !SamePlace(locale, a.providerId, b.providerId) then locale.notAfter(a.providerId, b.providerId)
    else locale.notAfter(a.capabilityId, b.capabilityId)
  }

  predicate SamePlace(locale: Locale, a: Str, b: Str)
  {
    locale.notAfter(a, b) && locale.notAfter(b, a)
  }

  function InsertCandidate(locale: Locale, c: Candidate, sorted: seq<Candidate>): seq<Candidate>
  {
    if sorted == [] || RanksNotAfter(locale, c, sorted[0]) then [c] + sorted
    else [sorted[0]] + InsertCandidate(locale, c, sorted[1..])
  }

  /** The stable sort of the candidate list. */
  function SortCandidates(locale: Locale, candidates: seq<Candidate>): seq<Candidate>
  {
    if candidates == [] then [] else InsertCandidate(locale, candidates[0], SortCandidates(locale, candidates[1..]))
  }

  function Bounded(candidates: seq<Candidate>): seq<Candidate>
  {
    if |candidates| > MAX_CANDIDATES then candidates[..MAX_CANDIDATES] else candidates
  }

  function Ranked(r: Resolving, providers: seq<Provider>): seq<Candidate>
  {
    SortCandidates(r.locale, AllCandidates(r, providers))
  }

  method Assess(r: Resolving, provider: Provider, capabilityId: Str) returns (c: Candidate)
    ensures c == CandidateFor(r, provider, capabilityId)
  {
    var capability := CatalogEntry(r.catalog, provider, capabilityId);
    var score, reasons := ScoreCapability(r.locale, r.intent, capability, provider);
    var refusals := CheckEligible(r.context, r.intent, provider, capability);
    return Candidate(provider.providerId, capability.capabilityId, score, refusals == [], reasons, refusals);
  }

  lemma CandidatesExtend(r: Resolving, provider: Provider, ids: seq<Str>, k: nat)
    requires k < |ids|
    ensures CandidatesOf(r, provider, ids[..k + 1]) == CandidatesOf(r, provider, ids[..k]) + [CandidateFor(r, provider, ids[k])]
  {
    assert ids[..k + 1][..k] == ids[..k];
  }

  method CandidatesOfProvider(r: Resolving, provider: Provider) returns (candidates: seq<Candidate>)
    ensures candidates == CandidatesOf(r, provider, provider.capabilities)
  {
    candidates := [];
    for k := 0 to |provider.capabilities|
      invariant candidates == CandidatesOf(r, provider, provider.capabilities[..k])
    {
      var candidate := Assess(r, provider, provider.capabilities[k]);
      candidates := candidates + [candidate];
      CandidatesExtend(r, provider, provider.capabilities, k);
    }
    assert provider.capabilities[..|provider.capabilities|] == provider.capabilities;
  }

  /** `resolveCapabilities`. */
  method ResolveCapabilities(r: Resolving, providers: seq<Provider>) returns (retained: seq<Candidate>)
    ensures retained == Bounded(Ranked(r, providers))
  {
    var candidates := [];
    for i := 0 to |providers|
      invariant candidates == AllCandidates(r, providers[..i])
    {
      var more := CandidatesOfProvider(r, providers[i]);
      candidates := candidates + more;
      assert providers[..i + 1][..i] == providers[..i];
    }
    assert providers[..|providers|] == providers;
    candidates := SortCandidates(r.locale, candidates);
    retained := if |candidates| > MAX_CANDIDATES then candidates[..MAX_CANDIDATES] else candidates;
  }
}
