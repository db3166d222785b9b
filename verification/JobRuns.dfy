/** The job protocol over whole runs: every interleaving of its events, restarts and maintenance included. */
module JobRuns {
  import opened Wrappers
  import opened Strings
  import opened JsonText
  import opened JsonInjectivity
  import opened ResultEnforcement
  import opened OutputArtifact
  import opened JobRecords
  import opened JobEngine
  import opened JobSafety
  import opened JobSteps
  import opened JobDrops

  // ------------------------------------------------------- one step

  lemma AdvanceClock(env: Env, s: Engine, at: int)
    requires Inv(env, s) && s.clock <= at
    ensures Inv(env, s.(clock := at))
  {
    var t := s.(clock := at);
    forall i | 0 <= i < |t.store| ensures RecordOk(env, t, t.store[i]) {
      assert RecordOk(env, s, s.store[i]);
    }
    forall id | id in t.workers ensures WorkerOk(env, t, id) {
      assert WorkerOk(env, s, id);
    }
  }

  /** Events whose step rewrites records in place. */
  predicate RewritesInPlace(event: Event)
  {
    !event.BrokerRun? && !event.SaveExecution? && !event.RecoverRuntime? && !event.MaintainRuntime?
  }

  lemma EffectInPlace(env: Env, s: Engine, event: Event)
    requires Inv(env, s) && RewritesInPlace(event)
    ensures InPlace(env, s, Effect(env, s, event, s.clock))
  {
    match event {
      case WorkerStarts(id) =>
        if id in s.workers && s.workers[id].stage == Scheduled { StartInPlace(env, s, id, s.clock); }
        else { UnchangedInPlace(env, s); }
      case ReportStep(id, step) => ReportInPlace(env, s, id, step, s.clock);
      case HandlerSettles(id, result) =>
        if id in s.workers && s.workers[id].stage == AwaitingHandler { HandlerSettlesInPlace(env, s, id, result); }
        else { UnchangedInPlace(env, s); }
      case EnforcementSettles(id, verdict) =>
        if id in s.workers && s.workers[id].stage == AwaitingEnforcement && s.workers[id].handler.Some? && id in s.rules {
          EnforcementSettlesInPlace(env, s, id, verdict);
        } else { UnchangedInPlace(env, s); }
      case TimerFires(id) =>
        if id in s.workers && s.workers[id].stage != Scheduled { TimerInPlace(env, s, id); }
        else { UnchangedInPlace(env, s); }
      case WorkerResumes(id, output) =>
        if id in s.workers && s.workers[id].stage != Scheduled && s.workers[id].settled.Some? {
          ResumeInPlace(env, s, id, s.clock, Listed(output));
        } else { UnchangedInPlace(env, s); }
      case WorkerFaults(id, recorded) =>
        if id in s.workers { FaultInPlace(env, s, id, recorded, s.clock); } else { UnchangedInPlace(env, s); }
      case Cancel(id, lookup) => CancelInPlace(env, s, id, lookup, s.clock);
      case Restart => RestartInPlace(env, s);
      case RecoverJobs => RecoverJobsInPlace(env, s, s.clock);
      case MaintainArtifacts => MaintainInPlace(env, s, s.clock);
      case _ =>
    }
  }

  /** The engine just before `recoverCapabilityRuntime` writes its store back shortened. */
  function Recovered(env: Env, s: Engine, p: nat -> bool, c: nat -> bool): Engine
  {
    Rewritten(RecoverAllJobs(env, s, s.clock), Recovering(p, c, s.clock))
  }

  /** The output roots still needed by records that a shortened store drops. */
  ghost function DroppedRoots(records: seq<Record>, kept: seq<Record>): set<nat>
  {
    set i | 0 <= i < |records| && records[i] !in kept && LiveRoot(records[i]).Some? :: LiveRoot(records[i]).value
  }

  ghost function DroppedRecords(records: seq<Record>, kept: seq<Record>): seq<Record>
  {
    if records == [] then []
    else
      var n := |records| - 1;
      DroppedRecords(records[..n], kept) + if records[n] in kept then [] else [records[n]]
  }

  lemma {:induction false} DroppedMembership(records: seq<Record>, kept: seq<Record>, r: Record)
    ensures r in DroppedRecords(records, kept) <==> r in records && r !in kept
  {
    if records != [] {
      var n := |records| - 1;
      DroppedMembership(records[..n], kept, r);
      assert r in records <==> r == records[n] || r in records[..n];
    }
  }

  lemma RootsOfDropped(records: seq<Record>, kept: seq<Record>)
    ensures LiveRoots(DroppedRecords(records, kept)) == DroppedRoots(records, kept)
  {
    var dropped := DroppedRecords(records, kept);
    forall x ensures x in LiveRoots(dropped) <==> x in DroppedRoots(records, kept) {
      LiveRootsMember(dropped, x);
      forall r ensures r in dropped <==> r in records && r !in kept { DroppedMembership(records, kept, r); }
      if x in DroppedRoots(records, kept) {
        var i :| 0 <= i < |records| && records[i] !in kept && LiveRoot(records[i]) == Some(x);
        assert records[i] in dropped;
      }
    }
  }

  ghost function LastRoots(s: Engine, keep: nat): set<nat>
  {
    DroppedRoots(s.store, Last(keep, s.store))
  }

  ghost function TrimmedRoots(s: Engine, cutoff: int, keep: nat): set<nat>
  {
    DroppedRoots(s.store, Trimmed(s, cutoff, keep).store)
  }

  /** Output roots still needed by the records a step drops. */
  ghost function DroppedBy(env: Env, s: Engine, event: Event): set<nat>
  {
    match event
    case BrokerRun(b) => if RunBroker(env, s, b, s.clock).1.Created? then LiveRoots(Evicted(s.store)) else {}
    case SaveExecution(r) => if Find(s.store, r.id).None? then LiveRoots(Evicted(s.store)) else {}
    case RecoverRuntime(p, c, keep) => LastRoots(Recovered(env, s, p, c), keep)
    case MaintainRuntime(retentionMs, keep) =>
      TrimmedRoots(MaintainAllArtifacts(s, s.clock), s.clock - retentionMs, keep)
    case _ => {}
  }

  lemma ShortenKeeps(env: Env, s: Engine, t: Engine, kept: seq<Record>)
    requires Inv(env, t) && Explained(env, s, t) && Pairwise(kept) && |kept| <= STORE_CAP
    requires forall r :: r in kept ==> r in t.store
    ensures Inv(env, t.(store := kept)) && Explained(env, s, t.(store := kept))
  {
    DropInvariant(env, t, kept);
    DropExplained(env, s, t, kept);
  }

  lemma ShortenLeaks(env: Env, t: Engine, kept: seq<Record>)
    requires Inv(env, t) && forall r :: r in kept ==> r in t.store
    ensures Leaked(t.(store := kept)) == Leaked(t) + DroppedRoots(t.store, kept)
  {
    forall r ensures r in DroppedRecords(t.store, kept) <==> r in t.store && r !in kept {
      DroppedMembership(t.store, kept, r);
    }
    DropLeaks(env, t, kept, DroppedRecords(t.store, kept));
    RootsOfDropped(t.store, kept);
  }

  lemma InPlaceKeeps(env: Env, s: Engine, t: Engine)
    requires Inv(env, s) && InPlace(env, s, t)
    ensures Inv(env, t) && Explained(env, s, t) && Leaked(t) == Leaked(s)
  {
    InPlaceInvariant(env, s, t);
    InPlaceExplained(env, s, t);
    InPlaceLeaks(env, s, t);
  }

  lemma RecoverTwice(env: Env, s: Engine, u: Engine, t: Engine, p: nat -> bool, c: nat -> bool)
    requires InPlace(env, s, u) && t == Rewritten(u, Recovering(p, c, s.clock))
    ensures Explained(env, s, t)
  {
    forall r | r in t.store ensures exists q :: q in s.store && Progress(env, s, q, r) {
      var i :| 0 <= i < |t.store| && t.store[i] == r;
      assert Progress(env, s, s.store[i], u.store[i]);
      RecoveredProgress(env, s, s.store[i], u.store[i], p, c);
      assert s.store[i] in s.store;
    }
  }

  lemma RecoveredProgress(env: Env, s: Engine, q: Record, r: Record, p: nat -> bool, c: nat -> bool)
    requires Progress(env, s, q, r)
    ensures Progress(env, s, q, RecoveredRecord(r, p, c, s.clock))
  {
  }

  lemma RecoverKeeps(env: Env, s: Engine, p: nat -> bool, c: nat -> bool, keep: nat)
    requires Inv(env, s)
    ensures var t := Recovered(env, s, p, c);
      Inv(env, t) && Explained(env, s, t) && Leaked(t) == Leaked(s)
  {
    var u := RecoverAllJobs(env, s, s.clock);
    RecoverJobsInPlace(env, s, s.clock);
    InPlaceKeeps(env, s, u);
    RecoverRecordsInPlace(env, u, p, c, s.clock);
    var t := Recovered(env, s, p, c);
    InPlaceKeeps(env, u, t);
    RecoverTwice(env, s, u, t, p, c);
  }

  lemma RecoverRuntimeKeeps(env: Env, s: Engine, p: nat -> bool, c: nat -> bool, keep: nat)
    requires Inv(env, s)
    ensures var event := RecoverRuntime(p, c, keep);
      var t := Effect(env, s, event, s.clock);
      Inv(env, t) && Explained(env, s, t) && Leaked(t) == Leaked(s) + DroppedBy(env, s, event)
  {
    RecoverKeeps(env, s, p, c, keep);
    var t := Recovered(env, s, p, c);
    LastPairwise(t.store, keep);
    ShortenKeeps(env, s, t, Last(keep, t.store));
    ShortenLeaks(env, t, Last(keep, t.store));
  }

  lemma KeptPairwise(records: seq<Record>, cutoff: int, keep: nat)
    requires Pairwise(records)
    ensures var kept := Last(keep, Retained(records, cutoff));
      Pairwise(kept) && |kept| <= |records| && forall r :: r in kept ==> r in records
  {
    RetainedPairwise(records, cutoff);
    RetainedMembership(records, cutoff);
    LastPairwise(Retained(records, cutoff), keep);
  }

  lemma MaintainKeeps(env: Env, s: Engine)
    requires Inv(env, s)
    ensures var t := MaintainAllArtifacts(s, s.clock);
      Inv(env, t) && Explained(env, s, t) && Leaked(t) == Leaked(s)
  {
    MaintainInPlace(env, s, s.clock);
    InPlaceKeeps(env, s, MaintainAllArtifacts(s, s.clock));
  }

  lemma TrimmedSafe(env: Env, s: Engine, t: Engine, cutoff: int, keep: nat)
    requires Inv(env, t) && Explained(env, s, t)
    ensures Inv(env, Trimmed(t, cutoff, keep)) && Explained(env, s, Trimmed(t, cutoff, keep))
  {
    KeptPairwise(t.store, cutoff, keep);
    ShortenKeeps(env, s, t, Last(keep, Retained(t.store, cutoff)));
  }

  lemma TrimmedLeaks(env: Env, t: Engine, cutoff: int, keep: nat)
    requires Inv(env, t)
    ensures Leaked(Trimmed(t, cutoff, keep)) ==
      Leaked(t) + TrimmedRoots(t, cutoff, keep)
  {
    KeptPairwise(t.store, cutoff, keep);
    ShortenLeaks(env, t, Last(keep, Retained(t.store, cutoff)));
  }

  lemma MaintainRuntimeSafe(env: Env, s: Engine, retentionMs: int, keep: nat)
    requires Inv(env, s)
    ensures var t := MaintainAll(s, retentionMs, keep, s.clock); Inv(env, t) && Explained(env, s, t)
  {
    MaintainKeeps(env, s);
    TrimmedSafe(env, s, MaintainAllArtifacts(s, s.clock), s.clock - retentionMs, keep);
  }

  lemma MaintainLeaks(env: Env, s: Engine)
    requires Inv(env, s)
    ensures var t := MaintainAllArtifacts(s, s.clock); Inv(env, t) && Leaked(t) == Leaked(s)
  {
    MaintainKeeps(env, s);
  }

  lemma MaintainRuntimeLeaks(env: Env, s: Engine, retentionMs: int, keep: nat)
    requires Inv(env, s)
    ensures Leaked(MaintainAll(s, retentionMs, keep, s.clock)) ==
      Leaked(s) + DroppedBy(env, s, MaintainRuntime(retentionMs, keep))
  {
    var t := MaintainAllArtifacts(s, s.clock);
    MaintainLeaks(env, s);
    TrimmedLeaks(env, t, s.clock - retentionMs, keep);
    MaintainTrims(env, s, retentionMs, keep, t);
  }

  lemma MaintainTrims(env: Env, s: Engine, retentionMs: int, keep: nat, t: Engine)
    requires t == MaintainAllArtifacts(s, s.clock)
    ensures MaintainAll(s, retentionMs, keep, s.clock) == Trimmed(t, s.clock - retentionMs, keep)
    ensures DroppedBy(env, s, MaintainRuntime(retentionMs, keep)) == TrimmedRoots(t, s.clock - retentionMs, keep)
  {
  }

  lemma BrokerRunKeeps(env: Env, s: Engine, b: Submission)
    requires Inv(env, s) && Legal(s, Timed(s.clock, BrokerRun(b)))
    ensures var t := RunBroker(env, s, b, s.clock).0;
      Inv(env, t) && Explained(env, s, t) && Leaked(t) == Leaked(s) + DroppedBy(env, s, BrokerRun(b))
  {
    BrokerCases(env, s, b, s.clock);
    if RunBroker(env, s, b, s.clock).1.Created? {
      CreatedKeeps(env, s, b, s.clock);
    } else {
      UnchangedInPlace(env, s);
      InPlaceExplained(env, s, s);
    }
  }

  lemma ExplainedAtAnyTime(env: Env, s: Engine, at: int, t: Engine)
    requires Explained(env, s.(clock := at), t)
    ensures Explained(env, s, t)
  {
    forall r | r in t.store ensures Traced(env, s, r) {
      assert Traced(env, s.(clock := at), r);
      if !Fresh(s, r) {
        var q :| q in s.store && Progress(env, s.(clock := at), q, r);
        assert Progress(env, s, q, r);
      }
    }
  }

  /** The step lemma: the invariant, the fate of every record and the fate of every output root. */
  lemma StepKeeps(env: Env, s: Engine, e: Timed)
    requires Inv(env, s)
    ensures Inv(env, Next(env, s, e)) && Explained(env, s, Next(env, s, e))
    ensures Legal(s, e) ==> Leaked(Next(env, s, e)) == Leaked(s) + DroppedBy(env, s.(clock := e.at), e.event)
  {
    if Legal(s, e) {
      AdvanceClock(env, s, e.at);
      EffectKeeps(env, s.(clock := e.at), e.event);
      ExplainedAtAnyTime(env, s, e.at, Next(env, s, e));
    } else {
      UnchangedInPlace(env, s);
      InPlaceExplained(env, s, s);
    }
  }

  lemma EffectKeeps(env: Env, s: Engine, event: Event)
    requires Inv(env, s) && Legal(s, Timed(s.clock, event))
    ensures var t := Effect(env, s, event, s.clock);
      Inv(env, t) && Explained(env, s, t) && Leaked(t) == Leaked(s) + DroppedBy(env, s, event)
  {
    match event {
      case BrokerRun(b) => BrokerRunKeeps(env, s, b);
      case SaveExecution(r) => SaveExecutionKeeps(env, s, r);
      case RecoverRuntime(p, c, keep) => RecoverRuntimeKeeps(env, s, p, c, keep);
      case MaintainRuntime(retentionMs, keep) =>
        MaintainRuntimeSafe(env, s, retentionMs, keep);
        MaintainRuntimeLeaks(env, s, retentionMs, keep);
      case _ =>
        EffectInPlace(env, s, event);
        InPlaceKeeps(env, s, Effect(env, s, event, s.clock));
    }
  }
}
