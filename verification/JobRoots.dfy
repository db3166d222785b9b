/** Output roots over whole runs: they are conserved exactly when no step drops a record that still needs its root. */
module JobRoots {
  import opened Wrappers
  import opened Strings
  import opened JsonText
  import opened ResultEnforcement
  import opened OutputArtifact
  import opened JobRecords
  import opened JobEngine
  import opened JobSafety
  import opened JobSteps
  import opened JobDrops
  import opened JobRuns
  import opened JobTheorems

  // ------------------------------------------------------- what a step will orphan, told beforehand

  /** A submission that will be stored: authorized, valid, and no stored job answers for its key. */
  predicate WillBeStored(env: Env, s: Engine, b: Submission)
  {
    b.authorized && RequestValid(env.bytes, b.request) && FindKey(s.store, b.request).None?
  }

  /** The root of the oldest record of a full store, if that record still needs it. */
  ghost function OldestRoot(s: Engine): set<nat>
  {
    if |s.store| == STORE_CAP && LiveRoot(s.store[0]).Some? then {LiveRoot(s.store[0]).value} else {}
  }

  /** Artifact maintenance changes this record. */
  predicate Touched(r: Record, at: int)
  {
    && r.job.Some? && r.job.value.root.Some? && r.job.value.artifact.Some?
    && var a := r.job.value.artifact.value;
       (a.state == Available && a.retainedUntil <= at) || (a.state == Pending && r.job.value.lifecycle.Ended?)
  }

  /** Record maintenance removes this record by age. */
  predicate TooOld(r: Record, at: int, cutoff: int)
  {
    !ActiveState(r.state) && (if Touched(r, at) then at else r.updatedAt) < cutoff
  }

  /** How many of these records are not removed by age. */
  function Survivors(records: seq<Record>, at: int, cutoff: int): nat
  {
    if records == [] then 0
    else
      var n := |records| - 1;
      Survivors(records[..n], at, cutoff) + if TooOld(records[n], at, cutoff) then 0 else 1
  }

  /** `maintainCapabilityRuntime` will drop the `i`th record: it is too old, or `keep` younger ones stay. */
  predicate WillBeDropped(records: seq<Record>, i: nat, at: int, cutoff: int, keep: nat)
    requires i < |records|
  {
    TooOld(records[i], at, cutoff) || Survivors(records[i + 1..], at, cutoff) >= keep
  }

  /** The roots still needed by records that are not among the youngest `keep`, those of lost jobs excepted. */
  ghost function OlderLive(records: seq<Record>, keep: nat): set<nat>
  {
    set i | 0 <= i < |records| && i + keep < |records| && LiveRoot(records[i]).Some? && !Lost(records[i]) :: LiveRoot(records[i]).value
  }

  /** The roots still needed by records that maintenance will drop. */
  ghost function DroppedLive(records: seq<Record>, at: int, cutoff: int, keep: nat): set<nat>
  {
    set i | 0 <= i < |records| && LiveRoot(records[i]).Some? && !Touched(records[i], at)
            && WillBeDropped(records, i, at, cutoff, keep) :: LiveRoot(records[i]).value
  }

  /** The output roots a step will orphan: those of the records it will drop although they keep needing them. */
  ghost function Orphaned(env: Env, s: Engine, e: Timed): set<nat>
  {
    match e.event
    case BrokerRun(b) => if WillBeStored(env, s, b) then OldestRoot(s) else {}
    case SaveExecution(r) => if Find(s.store, r.id).None? then OldestRoot(s) else {}
    case RecoverRuntime(_, _, keep) =>
      OlderLive(s.store, keep)
    case MaintainRuntime(retentionMs, keep) =>
      DroppedLive(s.store, e.at, e.at - retentionMs, keep)
    case _ => {}
  }

  // ------------------------------------------------------- positions in the shortened store

  lemma Regrouped<T>(a: seq<T>, b: seq<T>, c: seq<T>)
    ensures a + (b + c) == (a + b) + c
  {
  }

  lemma LastOfBoth<T>(a: seq<T>, b: seq<T>)
    requires b != []
    ensures (a + b)[..|a + b| - 1] == a + b[..|b| - 1] && (a + b)[|a + b| - 1] == b[|b| - 1]
  {
  }

  lemma RetainedLast(records: seq<Record>, cutoff: int)
    requires records != []
    ensures var n := |records| - 1;
      Retained(records, cutoff) == Retained(records[..n], cutoff) + if Doomed(records[n], cutoff) then [] else [records[n]]
  {
  }

  lemma {:induction false} RetainedAppend(a: seq<Record>, b: seq<Record>, cutoff: int)
    ensures Retained(a + b, cutoff) == Retained(a, cutoff) + Retained(b, cutoff)
  {
    if b == [] {
      assert a + b == a;
    } else {
      var n := |b| - 1;
      RetainedAppend(a, b[..n], cutoff);
      LastOfBoth(a, b);
      RetainedLast(b, cutoff);
      RetainedLast(a + b, cutoff);
      Regrouped(Retained(a, cutoff), Retained(b[..n], cutoff), if Doomed(b[n], cutoff) then [] else [b[n]]);
    }
  }

  lemma RetainedAround(records: seq<Record>, i: nat, cutoff: int)
    requires i < |records| && !Doomed(records[i], cutoff)
    ensures Retained(records, cutoff) == Retained(records[..i], cutoff) + [records[i]] + Retained(records[i + 1..], cutoff)
  {
    assert records == records[..i] + ([records[i]] + records[i + 1..]);
    RetainedAppend(records[..i], [records[i]] + records[i + 1..], cutoff);
    RetainedAppend([records[i]], records[i + 1..], cutoff);
    assert [records[i]][..0] == [];
    assert Retained([records[i]], cutoff) == [records[i]];
  }

  /** An element that occurs once is among the last `keep` exactly when fewer than `keep` follow it. */
  lemma LastMember(before: seq<Record>, r: Record, after: seq<Record>, keep: nat)
    requires r !in before && r !in after
    ensures r in Last(keep, before + [r] + after) <==> |after| < keep
  {
    var all := before + [r] + after;
    LastIsSlice(keep, all);
    var p := |before|;
    assert all[p] == r;
    if |all| > keep {
      if |after| < keep { assert all[|all| - keep..][p - (|all| - keep)] == r; }
      if r in all[|all| - keep..] {
        var q :| 0 <= q < keep && all[|all| - keep..][q] == r;
        assert all[q + |all| - keep] == r;
      }
    }
  }

  lemma OwnIdOnly(records: seq<Record>, i: nat)
    requires UniqueIds(records) && i < |records|
    ensures records[i] !in records[..i] && records[i] !in records[i + 1..]
  {
  }

  /** Which records age removal and the limit leave, by position. */
  lemma KeptPosition(records: seq<Record>, i: nat, cutoff: int, keep: nat)
    requires UniqueIds(records) && i < |records|
    ensures records[i] in Last(keep, Retained(records, cutoff)) <==>
      !Doomed(records[i], cutoff) && |Retained(records[i + 1..], cutoff)| < keep
  {
    RetainedMembership(records, cutoff);
    if Doomed(records[i], cutoff) {
      LastWithin(keep, Retained(records, cutoff));
    } else {
      OwnIdOnly(records, i);
      RetainedAround(records, i, cutoff);
      RetainedMembership(records[..i], cutoff);
      RetainedMembership(records[i + 1..], cutoff);
      LastMember(Retained(records[..i], cutoff), records[i], Retained(records[i + 1..], cutoff), keep);
    }
  }

  lemma LastWithin(keep: nat, records: seq<Record>)
    ensures forall r :: r in Last(keep, records) ==> r in records
  {
    LastIsSlice(keep, records);
  }

  lemma DoomedMeans(r: Record, at: int, cutoff: int)
    ensures Doomed(MaintainedRecord(r, at), cutoff) <==> TooOld(r, at, cutoff)
    ensures LiveRoot(MaintainedRecord(r, at)) == if Touched(r, at) then None else LiveRoot(r)
    ensures MaintainedRecord(r, at).id == r.id
  {
  }

  lemma {:induction false} SurvivorsCounted(records: seq<Record>, at: int, cutoff: int)
    ensures |Retained(Mapped(Maintaining(at), records), cutoff)| == Survivors(records, at, cutoff)
  {
    if records != [] {
      var n := |records| - 1;
      SurvivorsCounted(records[..n], at, cutoff);
      DoomedMeans(records[n], at, cutoff);
      assert Mapped(Maintaining(at), records)[..n] == Mapped(Maintaining(at), records[..n]);
    }
  }

  lemma MappedUnique(f: Record -> Record, records: seq<Record>)
    requires UniqueIds(records) && forall r :: f(r).id == r.id
    ensures UniqueIds(Mapped(f, records))
  {
  }

  lemma MaintainedDrop(records: seq<Record>, i: nat, at: int, cutoff: int, keep: nat)
    requires UniqueIds(records) && i < |records|
    ensures var t := Mapped(Maintaining(at), records);
      t[i] in Last(keep, Retained(t, cutoff)) <==> !WillBeDropped(records, i, at, cutoff, keep)
  {
    var t := Mapped(Maintaining(at), records);
    forall r ensures Maintaining(at)(r).id == r.id { DoomedMeans(r, at, cutoff); }
    MappedUnique(Maintaining(at), records);
    KeptPosition(t, i, cutoff, keep);
    assert t[i + 1..] == Mapped(Maintaining(at), records[i + 1..]);
    SurvivorsCounted(records[i + 1..], at, cutoff);
    DoomedMeans(records[i], at, cutoff);
  }

  // ------------------------------------------------------- what is told beforehand is what happens

  lemma OldestIsEvicted(s: Engine)
    requires |s.store| <= STORE_CAP
    ensures LiveRoots(Evicted(s.store)) == OldestRoot(s)
  {
    if |s.store| == STORE_CAP { assert Evicted(s.store)[0] == s.store[0]; }
  }

  lemma StoredExactlyWhen(env: Env, s: Engine, b: Submission, at: int)
    requires b.root.Some? ==> b.root.value !in s.roots
    ensures RunBroker(env, s, b, at).1.Created? <==> WillBeStored(env, s, b)
  {
    BrokerCases(env, s, b, at);
  }

  lemma RecoveredLive(env: Env, r: Record, p: nat -> bool, c: nat -> bool, at: int)
    requires r.job.Some? ==> (r.job.value.root.Some? <==> r.job.value.artifact.Some?)
    ensures var t := RecoveredRecord(RecoveredJob(env, r, at), p, c, at);
      t.id == r.id && LiveRoot(t) == if Lost(r) then None else LiveRoot(r)
  {
  }

  lemma RecoveredDrops(env: Env, s: Engine, p: nat -> bool, c: nat -> bool, keep: nat)
    requires Inv(env, s)
    ensures LastRoots(Recovered(env, s, p, c), keep) == OlderLive(s.store, keep)
  {
    var t := Recovered(env, s, p, c).store;
    forall i | 0 <= i < |s.store|
      ensures t[i].id == s.store[i].id && LiveRoot(t[i]) == if Lost(s.store[i]) then None else LiveRoot(s.store[i])
    {
      assert RecordOk(env, s, s.store[i]);
      RecoveredLive(env, s.store[i], p, c, s.clock);
    }
    forall i | 0 <= i < |t| ensures t[i] in Last(keep, t) <==> |t| <= i + keep {
      OwnIdOnly(t, i);
      assert t == t[..i] + [t[i]] + t[i + 1..];
      LastMember(t[..i], t[i], t[i + 1..], keep);
    }
    assert |t| == |s.store|;
  }

  lemma TrimmedDrops(s: Engine, t: Engine, at: int, cutoff: int, keep: nat)
    requires UniqueIds(s.store) && t == MaintainAllArtifacts(s, at)
    ensures TrimmedRoots(t, cutoff, keep) == DroppedLive(s.store, at, cutoff, keep)
  {
    MaintainedDrops(s.store, at, cutoff, keep);
  }

  lemma MaintainedDrops(records: seq<Record>, at: int, cutoff: int, keep: nat)
    requires UniqueIds(records)
    ensures var t := Mapped(Maintaining(at), records);
      DroppedRoots(t, Last(keep, Retained(t, cutoff))) == DroppedLive(records, at, cutoff, keep)
  {
    var t := Mapped(Maintaining(at), records);
    var kept := Last(keep, Retained(t, cutoff));
    forall i | 0 <= i < |records|
      ensures t[i] in kept <==> !WillBeDropped(records, i, at, cutoff, keep)
      ensures LiveRoot(t[i]) == if Touched(records[i], at) then None else LiveRoot(records[i])
    {
      MaintainedDrop(records, i, at, cutoff, keep);
      DoomedMeans(records[i], at, cutoff);
    }
    SameDroppedRoots(records, t, kept, at, cutoff, keep);
  }

  lemma SameDroppedRoots(records: seq<Record>, t: seq<Record>, kept: seq<Record>, at: int, cutoff: int, keep: nat)
    requires |t| == |records|
    requires forall i :: 0 <= i < |records| ==>
      && (t[i] in kept <==> !WillBeDropped(records, i, at, cutoff, keep))
      && LiveRoot(t[i]) == if Touched(records[i], at) then None else LiveRoot(records[i])
    ensures DroppedRoots(t, kept) == DroppedLive(records, at, cutoff, keep)
  {
  }

  lemma BrokerDrops(env: Env, s: Engine, b: Submission)
    requires |s.store| <= STORE_CAP && (b.root.Some? ==> b.root.value !in s.roots)
    ensures DroppedBy(env, s, BrokerRun(b)) == Orphaned(env, s, Timed(s.clock, BrokerRun(b)))
  {
    StoredExactlyWhen(env, s, b, s.clock);
    OldestIsEvicted(s);
  }

  lemma SaveDrops(env: Env, s: Engine, r: Record)
    requires |s.store| <= STORE_CAP
    ensures DroppedBy(env, s, SaveExecution(r)) == Orphaned(env, s, Timed(s.clock, SaveExecution(r)))
  {
    OldestIsEvicted(s);
  }

  lemma RecoverDrops(env: Env, s: Engine, p: nat -> bool, c: nat -> bool, keep: nat)
    requires Inv(env, s)
    ensures DroppedBy(env, s, RecoverRuntime(p, c, keep)) == Orphaned(env, s, Timed(s.clock, RecoverRuntime(p, c, keep)))
  {
    RecoveredDrops(env, s, p, c, keep);
  }

  lemma MaintainDrops(env: Env, s: Engine, retentionMs: int, keep: nat)
    requires UniqueIds(s.store)
    ensures DroppedBy(env, s, MaintainRuntime(retentionMs, keep)) == Orphaned(env, s, Timed(s.clock, MaintainRuntime(retentionMs, keep)))
  {
    TrimmedDrops(s, MaintainAllArtifacts(s, s.clock), s.clock, s.clock - retentionMs, keep);
  }

  /** The roots a step orphans are exactly those that could be told beforehand. */
  lemma OrphanedIsDropped(env: Env, s: Engine, event: Event)
    requires Inv(env, s) && Legal(s, Timed(s.clock, event))
    ensures DroppedBy(env, s, event) == Orphaned(env, s, Timed(s.clock, event))
  {
    match event {
      case BrokerRun(b) => BrokerDrops(env, s, b);
      case SaveExecution(r) => SaveDrops(env, s, r);
      case RecoverRuntime(p, c, keep) => RecoverDrops(env, s, p, c, keep);
      case MaintainRuntime(retentionMs, keep) => MaintainDrops(env, s, retentionMs, keep);
      case _ =>
    }
  }

  /** One step adds exactly the roots it was going to orphan to those left behind. */
  lemma StepLeaks(env: Env, s: Engine, e: Timed)
    requires Inv(env, s) && Legal(s, e)
    ensures Leaked(Next(env, s, e)) == Leaked(s) + Orphaned(env, s, e)
  {
    StepKeeps(env, s, e);
    AdvanceClock(env, s, e.at);
    OrphanedIsDropped(env, s.(clock := e.at), e.event);
  }

  // ------------------------------------------------------- conservation

  /** Existing output roots are exactly the ones stored pending or available artifacts name. */
  ghost predicate Conserved(s: Engine)
  {
    s.roots == LiveRoots(s.store)
  }

  lemma RootsExist(env: Env, s: Engine)
    requires Inv(env, s)
    ensures LiveRoots(s.store) <= s.roots
  {
    forall x | x in LiveRoots(s.store) ensures x in s.roots {
      var i :| 0 <= i < |s.store| && LiveRoot(s.store[i]).Some? && LiveRoot(s.store[i]).value == x;
      assert RecordOk(env, s, s.store[i]);
    }
  }

  lemma NothingLeaked(s: Engine)
    requires LiveRoots(s.store) <= s.roots
    ensures Conserved(s) <==> Leaked(s) == {}
  {
    if Leaked(s) == {} {
      forall x | x in s.roots ensures x in LiveRoots(s.store) {
        assert x !in Leaked(s);
      }
    }
  }

  /** A step from a conserved state conserves the roots exactly when it was going to orphan none. */
  lemma RootsConserved(env: Env, past: seq<Timed>, e: Timed)
    requires Legal(Run(env, past), e) && Conserved(Run(env, past))
    ensures Conserved(Next(env, Run(env, past), e)) <==> Orphaned(env, Run(env, past), e) == {}
  {
    var s := Run(env, past);
    Reachable(env, past);
    StepKeeps(env, s, e);
    StepLeaks(env, s, e);
    RootsExist(env, s);
    RootsExist(env, Next(env, s, e));
    NothingLeaked(s);
    NothingLeaked(Next(env, s, e));
  }

  /** The output roots the steps of a run have orphaned. */
  ghost function OrphanedBy(env: Env, events: seq<Timed>): set<nat>
  {
    if events == [] then {}
    else
      var past, e := events[..|events| - 1], events[|events| - 1];
      OrphanedBy(env, past) + if Legal(Run(env, past), e) then Orphaned(env, Run(env, past), e) else {}
  }

  /** The roots no stored artifact needs any more but that still exist are exactly the orphaned ones. */
  lemma {:induction false} LeakedAreOrphaned(env: Env, events: seq<Timed>)
    ensures Leaked(Run(env, events)) == OrphanedBy(env, events)
  {
    if events != [] {
      var past, e := events[..|events| - 1], events[|events| - 1];
      LeakedAreOrphaned(env, past);
      Reachable(env, past);
      if Legal(Run(env, past), e) { StepLeaks(env, Run(env, past), e); }
    }
  }

  /** Over a whole run, roots are conserved exactly when no step of it was going to orphan one. */
  lemma RunConservesRoots(env: Env, events: seq<Timed>)
    ensures Conserved(Run(env, events)) <==> OrphanedBy(env, events) == {}
  {
    LeakedAreOrphaned(env, events);
    Reachable(env, events);
    RootsExist(env, Run(env, events));
    NothingLeaked(Run(env, events));
  }

  /** A run that stays below the cap and does no record maintenance. */
  ghost predicate StaysBelowCap(env: Env, events: seq<Timed>)
  {
    forall n {:trigger events[n]} :: 0 <= n < |events| ==>
      && |Run(env, events[..n]).store| < STORE_CAP
      && (events[n].event.RecoverRuntime? ==> events[n].event.keep >= STORE_CAP)
      && !events[n].event.MaintainRuntime?
  }

  /** Below its cap the store loses no root, whatever is submitted, ended, cancelled, recovered or expired. */
  lemma {:induction false} RunBelowCapConservesRoots(env: Env, events: seq<Timed>)
    requires StaysBelowCap(env, events)
    ensures OrphanedBy(env, events) == {} && Conserved(Run(env, events))
  {
    RunConservesRoots(env, events);
    if events != [] {
      var n := |events| - 1;
      forall k | 0 <= k < n ensures events[..n][..k] == events[..k] && events[..n][k] == events[k] {
      }
      assert StaysBelowCap(env, events[..n]);
      RunBelowCapConservesRoots(env, events[..n]);
      assert |Run(env, events[..n]).store| < STORE_CAP && !events[n].event.MaintainRuntime?;
      if Legal(Run(env, events[..n]), events[n]) {
        assert Orphaned(env, Run(env, events[..n]), events[n]) == {};
      }
    }
  }
}
