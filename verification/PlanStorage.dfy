/** The plan store: plans change in place, and every accepted change sorts and bounds what is kept. */
module PlanStorage {
  import opened Wrappers
  import opened Strings
  import opened JsonText
  import opened CapabilityResolution
  import opened CandidateRanking
  import opened CapabilityPlanning

  const MAX_PLANS: nat := 300

  /** How many plans are kept. */
  function Kept(maxPlans: Option<int>): (keep: nat)
    ensures 1 <= keep <= MAX_PLANS
    ensures keep == if maxPlans == None || maxPlans.value > 300 then 300 else if maxPlans.value < 1 then 1 else maxPlans.value
  {
    var asked := if maxPlans.Some? then maxPlans.value else MAX_PLANS;
    var atLeastOne := if asked < 1 then 1 else asked;
    if atLeastOne < MAX_PLANS then atLeastOne else MAX_PLANS
  }

  // ------------------------------------------------------- what a write keeps

  predicate NotAfter(locale: Locale, a: Plan, b: Plan)
  {
    locale.notAfter(a.planId, b.planId)
  }

  function InsertPlan(locale: Locale, p: Plan, sorted: seq<Plan>): (r: seq<Plan>)
    ensures |r| == |sorted| + 1
  {
    if sorted == [] || NotAfter(locale, p, sorted[0]) then [p] + sorted else [sorted[0]] + InsertPlan(locale, p, sorted[1..])
  }

  /** The stable sort by identity. */
  function SortPlans(locale: Locale, plans: seq<Plan>): (r: seq<Plan>)
    ensures |r| == |plans|
  {
    if plans == [] then [] else InsertPlan(locale, plans[0], SortPlans(locale, plans[1..]))
  }

  function LastOf(plans: seq<Plan>, keep: nat): seq<Plan>
  {
    if |plans| <= keep then plans else plans[|plans| - keep..]
  }

  /** `persistStore`. */
  function Persisted(locale: Locale, keep: nat, plans: seq<Plan>): seq<Plan>
  {
    LastOf(SortPlans(locale, plans), keep)
  }

  ghost predicate SortedPlans(locale: Locale, plans: seq<Plan>)
  {
    forall i, j :: 0 <= i < j < |plans| ==> NotAfter(locale, plans[i], plans[j])
  }

  lemma {:induction false} InsertPlanSorts(locale: Locale, p: Plan, sorted: seq<Plan>)
    requires GoodLocale(locale) && SortedPlans(locale, sorted)
    ensures SortedPlans(locale, InsertPlan(locale, p, sorted))
    ensures multiset(InsertPlan(locale, p, sorted)) == multiset(sorted) + multiset{p}
  {
    if sorted == [] {
    } else if NotAfter(locale, p, sorted[0]) {
      assert forall j :: 0 < j < |sorted| ==> NotAfter(locale, sorted[0], sorted[j]);
    } else {
      InsertPlanSorts(locale, p, sorted[1..]);
      assert sorted == [sorted[0]] + sorted[1..];
      var r := InsertPlan(locale, p, sorted[1..]);
      forall j | 0 <= j < |r| ensures NotAfter(locale, sorted[0], r[j]) {
        assert r[j] in multiset(r);
        if r[j] != p { assert r[j] in multiset(sorted[1..]); }
      }
    }
  }

  lemma {:induction false} SortPlansSorts(locale: Locale, plans: seq<Plan>)
    requires GoodLocale(locale)
    ensures SortedPlans(locale, SortPlans(locale, plans))
    ensures multiset(SortPlans(locale, plans)) == multiset(plans)
  {
    if plans != [] {
      SortPlansSorts(locale, plans[1..]);
      InsertPlanSorts(locale, plans[0], SortPlans(locale, plans[1..]));
      assert plans == [plans[0]] + plans[1..];
    }
  }

  lemma {:induction false} SortedPlansAreFixed(locale: Locale, plans: seq<Plan>)
    requires SortedPlans(locale, plans)
    ensures SortPlans(locale, plans) == plans
  {
    if plans != [] {
      SortedPlansAreFixed(locale, plans[1..]);
      assert plans == [plans[0]] + plans[1..];
    }
  }

  lemma PersistedKeeps(locale: Locale, keep: nat, plans: seq<Plan>)
    requires GoodLocale(locale)
    ensures SortedPlans(locale, Persisted(locale, keep, plans)) && |Persisted(locale, keep, plans)| <= keep
    ensures forall p :: p in Persisted(locale, keep, plans) ==> p in plans
  {
    SortPlansSorts(locale, plans);
    SameMembers(plans, SortPlans(locale, plans));
  }

  // ------------------------------------------------------- the operations

  /** The plan at `k` is the first with this identity. */
  ghost predicate FirstWith(plans: seq<Plan>, planId: Str, k: nat)
  {
    k < |plans| && plans[k].planId == planId && forall i :: 0 <= i < k ==> plans[i].planId != planId
  }

  ghost predicate NoneWith(plans: seq<Plan>, planId: Str)
  {
    forall i :: 0 <= i < |plans| ==> plans[i].planId != planId
  }

  /** The eight moves a plan's approval may make. */
  predicate MoveListed(from: Approval, to: Approval)
  {
    || (from == ProposedPlan && to == Reviewed) || (from == ProposedPlan && to == RejectedPlan)
    || (from == ProposedPlan && to == CancelledPlan)
    || (from == Reviewed && to == Approved) || (from == Reviewed && to == RejectedPlan) || (from == Reviewed && to == CancelledPlan)
    || (from == Approved && to == ExpiredPlan) || (from == Approved && to == CancelledPlan)
  }

  function FindPlan(plans: seq<Plan>, planId: Str): (r: Option<nat>)
    ensures r.Some? ==> r.value < |plans| && plans[r.value].planId == planId
    ensures r.Some? ==> forall k :: 0 <= k < r.value ==> plans[k].planId != planId
    ensures r.None? ==> forall k :: 0 <= k < |plans| ==> plans[k].planId != planId
  {
    if plans == [] then None
    else if plans[0].planId == planId then Some(0)
    else match FindPlan(plans[1..], planId) case None => None case Some(i) => Some(i + 1)
  }

  datatype Settings = Settings(format: NumberFormat, locale: Locale, maxPlans: Option<int>)

  datatype PlanEvent =
    | Creates(input: PlanInput)
    | Moves(planId: Str, next: Approval)
    | Checks(planId: Str, current: Current)

  /** The store as the operation leaves it in memory, or the reason why it changes nothing. */
  function Changed(format: NumberFormat, plans: seq<Plan>, e: PlanEvent): Result<seq<Plan>, PlanFailure>
  {
    match e
    case Creates(input) =>
      (match CreatePlan(format, input)
       case Ok(plan) => Ok(plans + [plan])
       case Err(error) => Err(error))
    case Moves(planId, next) =>
      var index := FindPlan(plans, planId);
      if index.None? then Err(PlanNotFound)
      else if !MayBecome(plans[index.value].approval, next) then Err(InvalidTransition)
      else Ok(plans[index.value := plans[index.value].(approval := next)])
    case Checks(planId, current) =>
      var index := FindPlan(plans, planId);
      if index.None? then Err(PlanNotFound)
      else Ok(plans[index.value := Validated(format, plans[index.value], current)])
  }

  function Effect(s: Settings, plans: seq<Plan>, e: PlanEvent): seq<Plan>
  {
    var changed := Changed(s.format, plans, e);
    if changed.Ok? then Persisted(s.locale, Kept(s.maxPlans), changed.value) else plans
  }

  function Run(s: Settings, events: seq<PlanEvent>): seq<Plan>
  {
    if events == [] then [] else Effect(s, Run(s, events[..|events| - 1]), events[|events| - 1])
  }

  /** The plan store, whose plans are updated in place. */
  class PlanStore {
    const settings: Settings
    var plans: seq<Plan>

    constructor (settings: Settings)
      ensures this.settings == settings && plans == Run(settings, [])
    {
      this.settings := settings;
      plans := [];
    }

    method Persist()
      modifies this`plans
      ensures plans == Persisted(settings.locale, Kept(settings.maxPlans), old(plans))
    {
      plans := SortPlans(settings.locale, plans);
      var keep := Kept(settings.maxPlans);
      if |plans| > keep { plans := plans[|plans| - keep..]; }
    }

    /** `createAndPersistCapabilityPlan`. */
    method Create(input: PlanInput) returns (r: Result<Plan, PlanFailure>)
      modifies this`plans
      ensures r == CreatePlan(settings.format, input)
      ensures plans == Effect(settings, old(plans), Creates(input))
    {
      r := CreatePlan(settings.format, input);
      if r.Ok? {
        plans := plans + [r.value];
        Persist();
      }
    }

    /** `transitionCapabilityPlan`. */
    method Transition(planId: Str, next: Approval) returns (r: Result<Plan, PlanFailure>)
      modifies this`plans
      ensures plans == Effect(settings, old(plans), Moves(planId, next))
      ensures r.Ok? ==> exists k: nat ::
        && FirstWith(old(plans), planId, k) && MoveListed(old(plans)[k].approval, next)
        && r.value == old(plans)[k].(approval := next)
        && plans == Persisted(settings.locale, Kept(settings.maxPlans), old(plans)[k := r.value])
      ensures r.Err? ==>
        && plans == old(plans)
        && if r.error == PlanNotFound then NoneWith(old(plans), planId)
           else r.error == InvalidTransition && exists k: nat :: FirstWith(old(plans), planId, k) && !MoveListed(old(plans)[k].approval, next)
    {
      for i := 0 to |plans|
        invariant plans == old(plans)
        invariant forall k :: 0 <= k < i ==> plans[k].planId != planId
      {
        if plans[i].planId == planId {
          assert FirstWith(old(plans), planId, i);
          if !MayBecome(plans[i].approval, next) { return Err(InvalidTransition); }
          var plan := plans[i].(approval := next);
          plans := plans[i := plan];
          Persist();
          return Ok(plan);
        }
      }
      return Err(PlanNotFound);
    }

    /** `revalidateCapabilityPlan`: a plan found stale is marked and stays marked. */
    method Revalidate(planId: Str, current: Current) returns (r: Result<Plan, PlanFailure>)
      modifies this`plans
      ensures plans == Effect(settings, old(plans), Checks(planId, current))
      ensures var index := FindPlan(old(plans), planId);
        && (index.None? ==> r == Err(PlanNotFound))
        && (index.Some? ==>
              var plan := Validated(settings.format, old(plans)[index.value], current);
              r == if plan.invalidation.Some? then Err(InvalidTransition) else Ok(plan))
    {
      for i := 0 to |plans|
        invariant plans == old(plans)
        invariant forall k :: 0 <= k < i ==> plans[k].planId != planId
      {
        if plans[i].planId == planId {
          var plan := plans[i];
          var reason := Staleness(settings.format, plan, current);
          if reason.Some? { plan := plan.(invalidation := reason); }
          plans := plans[i := plan];
          Persist();
          return if plan.invalidation.Some? then Err(InvalidTransition) else Ok(plan);
        }
      }
      return Err(PlanNotFound);
    }
  }

  // ------------------------------------------------------- over whole runs

  /** What a run leaves in the store is sorted and within its bound, so reading it back changes and rejects nothing. */
  lemma {:induction false} StoreReadsBack(s: Settings, events: seq<PlanEvent>)
    requires GoodLocale(s.locale)
    ensures SortPlans(s.locale, Run(s, events)) == Run(s, events) && |Run(s, events)| <= Kept(s.maxPlans) <= 300
  {
    if events != [] {
      var n := |events| - 1;
      StoreReadsBack(s, events[..n]);
      var changed := Changed(s.format, Run(s, events[..n]), events[n]);
      if changed.Ok? {
        PersistedKeeps(s.locale, Kept(s.maxPlans), changed.value);
        SortedPlansAreFixed(s.locale, Run(s, events));
      }
    }
  }

  /** Created by this event, whatever has become of its approval since. */
  predicate MadeBy(format: NumberFormat, e: PlanEvent, p: Plan)
  {
    && e.Creates? && CreatePlan(format, e.input).Ok?
    && p == CreatePlan(format, e.input).value.(approval := p.approval, invalidation := p.invalidation)
  }

  /** The event that made the i-th approval of the path, after the one before it. */
  predicate MovedBy(events: seq<PlanEvent>, planId: Str, path: seq<Approval>, at: seq<nat>, i: nat)
    requires 0 < i < |path| == |at|
  {
    at[i - 1] < at[i] < |events| && events[at[i]] == Moves(planId, path[i])
  }

  /** `path` are the approvals the plan went through in the run, and `at` the events that made and moved it. */
  ghost predicate History(format: NumberFormat, events: seq<PlanEvent>, p: Plan, path: seq<Approval>, at: seq<nat>)
  {
    && ApprovalPath(path) && path[|path| - 1] == p.approval
    && |at| == |path| && at[0] < |events| && MadeBy(format, events[at[0]], p)
    && forall i :: 0 < i < |path| ==> MovedBy(events, p.planId, path, at, i)
  }

  lemma HistoryContinues(format: NumberFormat, events: seq<PlanEvent>, n: nat, p: Plan, path: seq<Approval>, at: seq<nat>)
    requires n <= |events| && History(format, events[..n], p, path, at)
    ensures History(format, events, p, path, at)
  {
    forall i | 0 < i < |path| ensures MovedBy(events, p.planId, path, at, i) {
      assert MovedBy(events[..n], p.planId, path, at, i);
    }
  }

  lemma MarksBefore(events: seq<PlanEvent>, planId: Str, path: seq<Approval>, at: seq<nat>)
    requires |at| == |path| > 0 && at[0] < |events|
    requires forall i :: 0 < i < |path| ==> MovedBy(events, planId, path, at, i)
    ensures at[|at| - 1] < |events|
  {
    if |path| > 1 { assert MovedBy(events, planId, path, at, |path| - 1); }
  }

  lemma PathExtends(path: seq<Approval>, next: Approval)
    requires ApprovalPath(path) && MayBecome(path[|path| - 1], next)
    ensures ApprovalPath(path + [next])
  {
  }

  lemma HistoryMoves(format: NumberFormat, events: seq<PlanEvent>, p: Plan, path: seq<Approval>, at: seq<nat>, next: Approval)
    requires events != [] && History(format, events[..|events| - 1], p, path, at)
    requires events[|events| - 1] == Moves(p.planId, next) && MayBecome(p.approval, next)
    ensures History(format, events, p.(approval := next), path + [next], at + [|events| - 1])
  {
    var n := |events| - 1;
    PathExtends(path, next);
    MarksBefore(events[..n], p.planId, path, at);
    forall i | 0 < i < |path| + 1 ensures MovedBy(events, p.planId, path + [next], at + [n], i) {
      if i < |path| { assert MovedBy(events[..n], p.planId, path, at, i); }
    }
  }

  /** Where a plan that is stored after an event comes from. */
  lemma StepTraces(s: Settings, plans: seq<Plan>, e: PlanEvent, p: Plan) returns (before: Plan)
    requires GoodLocale(s.locale) && p in Effect(s, plans, e)
    ensures
      || (before == p && MadeBy(s.format, e, p) && p.approval == ProposedPlan)
      || (before in plans && p == before)
      || (before in plans && e == Moves(p.planId, p.approval) && MayBecome(before.approval, p.approval)
            && p == before.(approval := p.approval))
      || (before in plans && e.Checks? && p == before.(invalidation := p.invalidation))
  {
    before := p;
    var changed := Changed(s.format, plans, e);
    if changed.Ok? {
      PersistedKeeps(s.locale, Kept(s.maxPlans), changed.value);
      if p !in plans && !e.Creates? {
        before := plans[FindPlan(plans, e.planId).value];
      }
    }
  }

  /** Every stored plan was created in the run and went, one accepted move after another, to the approval it has. */
  lemma {:induction false} StoredPlanHistory(s: Settings, events: seq<PlanEvent>, p: Plan)
    returns (path: seq<Approval>, at: seq<nat>)
    requires GoodLocale(s.locale) && p in Run(s, events)
    ensures History(s.format, events, p, path, at)
  {
    var n := |events| - 1;
    var e := events[n];
    var before := StepTraces(s, Run(s, events[..n]), e, p);
    if before in Run(s, events[..n]) {
      path, at := StoredPlanHistory(s, events[..n], before);
      if p.approval != before.approval {
        HistoryMoves(s.format, events, before, path, at, p.approval);
        path, at := path + [p.approval], at + [n];
      } else {
        HistoryContinues(s.format, events, n, before, path, at);
      }
    } else {
      path, at := [ProposedPlan], [n];
    }
  }

  /** In every run, an approved plan was created, then reviewed, then approved, by three events in this order. */
  lemma ApprovedWasReviewed(s: Settings, events: seq<PlanEvent>, p: Plan) returns (made: nat, reviewed: nat, approved: nat)
    requires GoodLocale(s.locale) && p in Run(s, events) && p.approval == Approved
    ensures made < reviewed < approved < |events| && MadeBy(s.format, events[made], p)
    ensures events[reviewed] == Moves(p.planId, Reviewed) && events[approved] == Moves(p.planId, Approved)
  {
    var path, at := StoredPlanHistory(s, events, p);
    ApprovedAfterReview(path);
    assert MovedBy(events, p.planId, path, at, 1) && MovedBy(events, p.planId, path, at, 2);
    made, reviewed, approved := at[0], at[1], at[2];
  }

  // ------------------------------------------------------- what a write stores

  /** After a run, a change to plans in place that keeps their identities is stored as it is. */
  lemma ChangedInPlace(s: Settings, events: seq<PlanEvent>, k: nat, p: Plan)
    requires GoodLocale(s.locale) && k < |Run(s, events)| && p.planId == Run(s, events)[k].planId
    ensures Persisted(s.locale, Kept(s.maxPlans), Run(s, events)[k := p]) == Run(s, events)[k := p]
  {
    var plans := Run(s, events);
    StoreReadsBack(s, events);
    SortPlansSorts(s.locale, plans);
    assert SortedPlans(s.locale, plans[k := p]);
    SortedPlansAreFixed(s.locale, plans[k := p]);
  }

  lemma RunSnoc(s: Settings, events: seq<PlanEvent>, e: PlanEvent)
    ensures Run(s, events + [e]) == Effect(s, Run(s, events), e)
  {
    assert (events + [e])[..|events|] == events;
  }

  /** In every run a listed move is stored on the first plan with the identity, and any other move changes nothing. */
  lemma MoveIsStored(s: Settings, events: seq<PlanEvent>, planId: Str, next: Approval, k: nat)
    requires GoodLocale(s.locale) && FirstWith(Run(s, events), planId, k)
    ensures var plans := Run(s, events);
      Run(s, events + [Moves(planId, next)]) ==
        if MoveListed(plans[k].approval, next) then plans[k := plans[k].(approval := next)] else plans
  {
    var plans := Run(s, events);
    RunSnoc(s, events, Moves(planId, next));
    MoveChanges(s.format, plans, planId, next, k);
    ChangedInPlace(s, events, k, plans[k].(approval := next));
  }

  lemma MoveChanges(format: NumberFormat, plans: seq<Plan>, planId: Str, next: Approval, k: nat)
    requires FirstWith(plans, planId, k)
    ensures Changed(format, plans, Moves(planId, next)) ==
      if MoveListed(plans[k].approval, next) then Ok(plans[k := plans[k].(approval := next)]) else Err(InvalidTransition)
  {
  }

  /** In every run a check is stored on the first plan with the identity: a stale plan is marked, a fresh one is left alone. */
  lemma CheckIsStored(s: Settings, events: seq<PlanEvent>, planId: Str, current: Current, k: nat)
    requires GoodLocale(s.locale) && FirstWith(Run(s, events), planId, k)
    ensures var plans := Run(s, events);
      var reason := Staleness(s.format, plans[k], current);
      Run(s, events + [Checks(planId, current)]) == if reason.Some? then plans[k := plans[k].(invalidation := reason)] else plans
  {
    var plans := Run(s, events);
    RunSnoc(s, events, Checks(planId, current));
    ChangedInPlace(s, events, k, Validated(s.format, plans[k], current));
    assert plans[k := plans[k]] == plans;
  }

  /** Without a plan of this identity neither a move nor a check changes anything. */
  lemma UnknownChangesNothing(s: Settings, events: seq<PlanEvent>, planId: Str, next: Approval, current: Current)
    requires NoneWith(Run(s, events), planId)
    ensures Run(s, events + [Moves(planId, next)]) == Run(s, events) == Run(s, events + [Checks(planId, current)])
  {
    RunSnoc(s, events, Moves(planId, next));
    RunSnoc(s, events, Checks(planId, current));
  }

  /** A refused creation changes nothing, and while there is room an accepted one adds just the new plan. */
  lemma CreationIsStored(s: Settings, events: seq<PlanEvent>, input: PlanInput)
    requires GoodLocale(s.locale)
    ensures var made, plans, after := CreatePlan(s.format, input), Run(s, events), Run(s, events + [Creates(input)]);
      && (made.Err? ==> after == plans)
      && (made.Ok? && |plans| < Kept(s.maxPlans) ==>
            SortedPlans(s.locale, after) && multiset(after) == multiset(plans) + multiset{made.value})
  {
    RunSnoc(s, events, Creates(input));
    if CreatePlan(s.format, input).Ok? {
      SortPlansSorts(s.locale, Run(s, events) + [CreatePlan(s.format, input).value]);
    }
  }

  lemma MadeIsFirst(plans: seq<Plan>, after: seq<Plan>, made: Plan) returns (k: nat)
    requires multiset(after) == multiset(plans) + multiset{made} && NoneWith(plans, made.planId)
    ensures FirstWith(after, made.planId, k) && after[k] == made
  {
    assert made in multiset(after);
    k := FindPlan(after, made.planId).value;
    assert after[k] in multiset(after);
  }

  lemma InItsPlace(plans: seq<Plan>, after: seq<Plan>, made: Plan, k: nat, p: Plan)
    requires multiset(after) == multiset(plans) + multiset{made} && k < |after| && after[k] == made
    ensures multiset(after[k := p]) == multiset(plans) + multiset{p}
  {
    assert multiset(after[k := p]) == multiset(after) - multiset{made} + multiset{p};
  }

  /** A proposed plan can be reviewed and then approved, with no other plan changing. */
  lemma ReviewedThenApproved(s: Settings, events: seq<PlanEvent>, planId: Str, k: nat)
    requires GoodLocale(s.locale) && FirstWith(Run(s, events), planId, k) && Run(s, events)[k].approval == ProposedPlan
    ensures var plans := Run(s, events);
      Run(s, events + [Moves(planId, Reviewed)] + [Moves(planId, Approved)]) == plans[k := plans[k].(approval := Approved)]
  {
    var reviewed := events + [Moves(planId, Reviewed)];
    MoveIsStored(s, events, planId, Reviewed, k);
    assert FirstWith(Run(s, reviewed), planId, k);
    MoveIsStored(s, reviewed, planId, Approved, k);
  }

  /** A plan created while there is room, then reviewed and approved, is stored as approved, and no other plan changes. */
  lemma PlansCanBeApproved(s: Settings, events: seq<PlanEvent>, input: PlanInput)
    requires GoodLocale(s.locale) && CreatePlan(s.format, input).Ok?
    requires |Run(s, events)| < Kept(s.maxPlans) && NoneWith(Run(s, events), input.planId)
    ensures var made := CreatePlan(s.format, input).value;
      multiset(Run(s, events + [Creates(input)] + [Moves(input.planId, Reviewed)] + [Moves(input.planId, Approved)])) ==
        multiset(Run(s, events)) + multiset{made.(approval := Approved)}
  {
    var made := CreatePlan(s.format, input).value;
    var created := events + [Creates(input)];
    CreationIsStored(s, events, input);
    var k := MadeIsFirst(Run(s, events), Run(s, created), made);
    ReviewedThenApproved(s, created, input.planId, k);
    InItsPlace(Run(s, events), Run(s, created), made, k, made.(approval := Approved));
  }

  // ------------------------------------------------------- a new plan can be lost

  lemma {:induction false} FirstOfSorted(locale: Locale, plans: seq<Plan>, made: Plan)
    requires SortPlans(locale, plans + [made])[0] == made && made !in plans
    ensures forall p :: p in plans ==> !NotAfter(locale, p, made)
  {
    if plans != [] {
      assert (plans + [made])[1..] == plans[1..] + [made];
      FirstOfSorted(locale, plans[1..], made);
      assert forall p :: p in plans ==> p == plans[0] || p in plans[1..];
    }
  }

  lemma FirstOccursOnce(plans: seq<Plan>, made: Plan, sorted: seq<Plan>)
    requires multiset(sorted) == multiset(plans + [made]) && made !in plans && sorted != []
    ensures made in sorted[1..] <==> sorted[0] != made
    ensures sorted[0] != made ==> sorted[0] in plans
  {
    SameMembers(plans + [made], sorted);
    assert sorted[0] in plans + [made] && made in plans + [made];
    assert made !in multiset(plans);
    assert sorted == [sorted[0]] + sorted[1..];
    assert multiset(sorted)[made] == 1;
    assert multiset(sorted) == multiset{sorted[0]} + multiset(sorted[1..]);
    assert made in sorted[1..] <==> made in multiset(sorted[1..]);
  }

  lemma FirstIsMadeExactlyWhen(locale: Locale, plans: seq<Plan>, made: Plan)
    requires GoodLocale(locale) && made !in plans
    ensures var sorted := SortPlans(locale, plans + [made]);
      && (sorted[0] == made <==> forall p :: p in plans ==> !NotAfter(locale, p, made))
      && (made in sorted[1..] <==> sorted[0] != made)
  {
    var sorted := SortPlans(locale, plans + [made]);
    SortPlansSorts(locale, plans + [made]);
    FirstOccursOnce(plans, made, sorted);
    if sorted[0] == made {
      FirstOfSorted(locale, plans, made);
    } else {
      var k := WhereIs(sorted[1..], made);
      assert sorted[k + 1] == made;
      assert NotAfter(locale, sorted[0], made);
    }
  }

  /**
   * A plan that was just created is dropped by the very write that should store it exactly when the store is full and
   * every plan in it sorts after the new one.
   */
  lemma NewPlanIsDroppedExactlyWhen(s: Settings, plans: seq<Plan>, input: PlanInput)
    requires GoodLocale(s.locale) && CreatePlan(s.format, input).Ok? && CreatePlan(s.format, input).value !in plans
    requires |plans| <= Kept(s.maxPlans)
    ensures CreatePlan(s.format, input).value !in Effect(s, plans, Creates(input)) <==>
      && |plans| == Kept(s.maxPlans)
      && forall p :: p in plans ==> !s.locale.notAfter(p.planId, input.planId)
  {
    var made := CreatePlan(s.format, input).value;
    var sorted := SortPlans(s.locale, plans + [made]);
    FirstIsMadeExactlyWhen(s.locale, plans, made);
    if |plans| < Kept(s.maxPlans) {
      if sorted[0] != made { assert sorted == [sorted[0]] + sorted[1..]; }
      assert made in sorted;
    }
    assert forall p :: p in plans ==> (NotAfter(s.locale, p, made) <==> s.locale.notAfter(p.planId, input.planId));
  }

  /** Such a run: a store that keeps one plan loses the second one created, if its identity sorts first. */
  lemma CreatedPlanLost(format: NumberFormat, locale: Locale, first: Str, second: Str, now: int) returns (s: Settings, events: seq<PlanEvent>)
    requires GoodLocale(locale) && !locale.notAfter(first, second)
    ensures |events| == 2 && events[1].Creates? && CreatePlan(format, events[1].input).Ok?
    ensures s.format == format && s.locale == locale
    ensures CreatePlan(format, events[1].input).value !in Run(s, events)
  {
    s := Settings(format, locale, Some(1));
    var a, b := SmallInput(first, [], now), SmallInput(second, [], now);
    events := [Creates(a), Creates(b)];
    assert events[..1] == [Creates(a)] && events[..1][..0] == [];
    var made := CreatePlan(format, a).value;
    assert locale.notAfter(first, first);
    assert Run(s, [Creates(a)]) == [made];
    NewPlanIsDroppedExactlyWhen(s, [made], b);
  }
}
