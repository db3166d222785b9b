/** How a job gets where it is: what each move of its lifecycle is caused by, and how it ends in every case. */
module JobOutcomes {
  import opened Wrappers
  import opened Strings
  import opened JsonText
  import opened ResultEnforcement
  import opened OutputArtifact
  import opened JobRecords
  import opened JobEngine
  import opened JobSafety
  import opened JobSteps
  import opened JobDrops
  import opened JobRuns
  import opened JobTheorems
  import opened JobHistory

  // ------------------------------------------------------- ends and their causes

  /** What the stored artifact of a job that ends with this status may be. */
  predicate ArtifactEnds(status: Status, state: ArtifactState)
  {
    match status
    case Succeeded => state == Available || state == FailedOutput
    case Failed => state == FailedOutput
    case Cancelled => state == CancelledOutput
  }

  /** The record of a job that ended at this time, with this status and failure. */
  predicate EndsAs(r: Record, at: int, status: Status, failure: Option<FailureCode>)
  {
    && r.job.Some? && r.updatedAt == at
    && r.state == (match status case Succeeded => ExecCompleted case Failed => ExecFailed case Cancelled => ExecCancelled)
    && var j := r.job.value;
       && j.lifecycle == Ended(status) && j.terminalAt == Some(at)
       && j.result.Some? && j.result.value.status == status && j.result.value.failure == failure
       && (j.root.Some? && j.artifact.Some? ==> ArtifactEnds(status, j.artifact.value.state))
  }

  /** The worker's race has been settled. */
  predicate Settled(s: Engine, id: nat)
  {
    id in s.workers && s.workers[id].stage != Scheduled && s.workers[id].settled.Some?
  }

  /** How a job ends when its worker resumes: a timeout before a cancellation before the result itself. */
  predicate ResumesTo(w: Worker, r: Record, at: int)
    requires w.settled.Some?
  {
    if w.timedOut then EndsAs(r, at, Failed, Some(JobTimeout))
    else if w.aborted then EndsAs(r, at, Status.Cancelled, Some(JobCancelled))
    else EndsAs(r, at, w.settled.value.status, w.settled.value.failure)
  }

  predicate EndCause(s: Engine, e: Timed, q: Record, r: Record)
    requires q.job.Some?
  {
    match e.event
    case WorkerResumes(id, _) => id == q.id && Settled(s, id) && ResumesTo(s.workers[id], r, e.at)
    case WorkerFaults(id, recorded) => id == q.id && recorded && EndsAs(r, e.at, Failed, Some(JobPersistenceFailed))
    case Cancel(id, _) =>
      && id == q.id && r.job.Some? && r.job.value.cancelRequestedAt == Some(e.at)
      && if q.job.value.lifecycle == Queued then EndsAs(r, e.at, Status.Cancelled, Some(JobCancelled))
         else id !in s.workers && EndsAs(r, e.at, Status.Cancelled, Some(WorkerNotActive))
    case RecoverJobs =>
      q.job.value.lifecycle in {Running, Cancelling} && EndsAs(r, e.at, Failed, Some(WorkerLost))
    case RecoverRuntime(_, _, _) =>
      q.job.value.lifecycle in {Running, Cancelling} && EndsAs(r, e.at, Failed, Some(WorkerLost))
    case _ => false
  }

  /** What moved the job of `q` to where it is in `r`. */
  predicate Cause(s: Engine, e: Timed, q: Record, r: Record)
    requires q.job.Some? && r.job.Some?
  {
    match r.job.value.lifecycle
    case Queued => false
    case Running =>
      e.event == WorkerStarts(q.id) && q.job.value.lifecycle == Queued && r.job.value.startedAt == Some(e.at) && r.state == ExecRunning
    case Validating =>
      && e.event.WorkerResumes? && e.event.id == q.id && q.job.value.lifecycle == Running && r.state == ExecCompleting
      && Settled(s, q.id) && s.workers[q.id].stage == AwaitingHandler && s.workers[q.id].settled.value.status == Succeeded
      && !s.workers[q.id].timedOut && !s.workers[q.id].aborted
    case Cancelling =>
      && e.event.Cancel? && e.event.id == q.id && q.job.value.lifecycle in {Running, Validating} && q.id in s.workers
      && r.job.value.cancelRequestedAt == Some(e.at)
    case Ended(_) => EndCause(s, e, q, r)
  }

  /** The job is the same and where it was, or something moved it. */
  ghost predicate Moved(s: Engine, e: Timed, q: Record, r: Record)
  {
    q.job.Some? && r.job.Some? && (r.job.value.lifecycle == q.job.value.lifecycle || Cause(s, e, q, r))
  }

  /** Rewriting one record changes no other. */
  lemma OneRewritten(s: Engine, x: Record, q: Record, r: Record)
    requires UniqueIds(s.store) && |s.store| <= STORE_CAP && Find(s.store, x.id).Some?
    requires q in s.store && r in Saved(s.store, x) && r.id == q.id
    ensures r == q || (r == x && q == RecordOf(s, x.id))
  {
    SavedReplaces(s.store, x);
    var i := Find(s.store, x.id).value;
    var j :| 0 <= j < |s.store| && s.store[j] == q;
    var k :| 0 <= k < |s.store| && s.store[i := x][k] == r;
    assert s.store[k].id == s.store[j].id;
  }

  lemma EndedEndsAs(env: Env, r: Record, result: HandlerResult, at: int, listed: Listing)
    requires r.job.Some?
    ensures EndsAs(EndedRecord(env, r, result, at, listed), at, result.status, result.failure)
    ensures EndedRecord(env, r, result, at, listed).id == r.id
  {
  }

  /** The artifact of a job that succeeded is available exactly when its output is acceptable, with its totals. */
  predicate KeepsListed(r: Record, output: Node)
  {
    r.job.Some? && r.job.value.lifecycle == Ended(Succeeded) && r.job.value.root.Some? && r.job.value.artifact.Some? ==>
      var a, listed := r.job.value.artifact.value, Listed(output);
      && (a.state == Available <==> listed.Some?)
      && (listed.Some? ==> a.fileCount == listed.value.fileCount && a.byteSize == listed.value.byteSize)
  }

  /** Nothing stands in the way of validating what the handler returned. */
  predicate MovesOn(w: Worker)
  {
    w.stage == AwaitingHandler && !w.timedOut && !w.aborted && w.settled.Some? && w.settled.value.status == Succeeded
  }

  /** What a resuming worker stores for a job that has not ended. */
  lemma ResumedRecord(env: Env, s: Engine, id: nat, output: Node) returns (x: Record)
    requires Settled(s, id) && Unended(s, id)
    ensures x.id == id && x.job.Some?
    ensures var w := s.workers[id];
      var t := ResumeWorker(env, s, id, s.clock, Listed(output));
      && t.store == Saved(s.store, x)
      && if MovesOn(w) then
           && x.job.value.lifecycle == Validating && x.state == ExecCompleting && t.roots == s.roots
           && t.workers == s.workers[id := Worker(AwaitingEnforcement, false, false, None, w.settled)]
         else
           && ResumesTo(w, x, s.clock) && KeepsListed(x, output)
           && t.workers == s.workers - {id} && t.roots == s.roots - Removed(RecordOf(s, id), x)
  {
    var w := s.workers[id];
    var before := RecordOf(s, id);
    if MovesOn(w) {
      x := before.(state := ExecCompleting, updatedAt := s.clock,
                   job := Some(before.job.value.(lifecycle := Validating, step := AtValidating)));
    } else {
      x := EndedRecord(env, before, FinalResult(w), s.clock, Listed(output));
      EndedEndsAs(env, before, FinalResult(w), s.clock, Listed(output));
    }
  }

  lemma ResumeMoves(env: Env, s: Engine, q: Record, r: Record, id: nat, output: Node)
    requires Inv(env, s) && Settled(s, id) && q in s.store && q.job.Some? && r.id == q.id
    requires r in ResumeWorker(env, s, id, s.clock, Listed(output)).store
    ensures Moved(s, Timed(s.clock, WorkerResumes(id, output)), q, r)
  {
    if Unended(s, id) {
      StoredRecordOk(env, s, id);
      var x := ResumedRecord(env, s, id, output);
      OneRewritten(s, x, q, r);
    } else {
      SameIdSameRecord(env, s, q, r);
    }
  }

  lemma CancelCause(s: Engine, at: int, id: nat, lookup: Lookup, q: Record, x: Record)
    requires q.id == id && q.job.Some? && x.job.Some? && x.job.value.cancelRequestedAt == Some(at) && !q.job.value.lifecycle.Ended?
    requires if q.job.value.lifecycle == Queued then EndsAs(x, at, Status.Cancelled, Some(JobCancelled))
      else if id in s.workers then x.job.value.lifecycle == Cancelling
      else EndsAs(x, at, Status.Cancelled, Some(WorkerNotActive))
    ensures Moved(s, Timed(at, Cancel(id, lookup)), q, x)
  {
  }

  lemma CancelMoves(env: Env, s: Engine, q: Record, r: Record, id: nat, lookup: Lookup)
    requires Inv(env, s) && q in s.store && q.job.Some? && r.id == q.id
    requires r in CancelJob(env, s, id, lookup, s.clock).store
    ensures Moved(s, Timed(s.clock, Cancel(id, lookup)), q, r)
  {
    if CancelAccepted(s, id, lookup) {
      StoredRecordOk(env, s, id);
      var x := CancelledRecord(env, s, id, lookup, s.clock);
      CancelEnds(env, s, id, lookup, x);
      OneRewritten(s, x, q, r);
      if r != q { CancelCause(s, s.clock, id, lookup, q, x); }
    } else {
      SameIdSameRecord(env, s, q, r);
    }
  }

  /** The record an accepted cancellation leaves behind has ended with the right code, if it has ended. */
  lemma CancelEnds(env: Env, s: Engine, id: nat, lookup: Lookup, x: Record)
    requires Inv(env, s) && CancelAccepted(s, id, lookup) && x.id == id
    requires CancelJob(env, s, id, lookup, s.clock).store == Saved(s.store, x)
    ensures x.job.Some? && x.job.value.cancelRequestedAt == Some(s.clock)
    ensures if JobOf(s, id).lifecycle == Queued then EndsAs(x, s.clock, Status.Cancelled, Some(JobCancelled))
      else if id in s.workers then x.job.value.lifecycle == Cancelling
      else EndsAs(x, s.clock, Status.Cancelled, Some(WorkerNotActive))
  {
    var q := RecordOf(s, id);
    var i := Find(s.store, id).value;
    SavedReplaces(s.store, x);
    assert Saved(s.store, x)[i] == x;
    var asked := q.(updatedAt := s.clock, job := Some(q.job.value.(cancelRequestedAt := Some(s.clock))));
    if q.job.value.lifecycle == Queued {
      SavedReplaces(s.store, EndedRecord(env, asked, CancelledResult(JobCancelled), s.clock, None).(auditReferences := q.auditReferences));
    } else {
      var cancelling := asked.(job := Some(asked.job.value.(lifecycle := Cancelling, step := AtCancelling)));
      SavedReplaces(s.store, cancelling);
      if id !in s.workers {
        var ended := EndedRecord(env, cancelling, CancelledResult(WorkerNotActive), s.clock, None);
        SavedTwice(s.store, cancelling, ended);
        SavedReplaces(s.store, ended);
      }
    }
  }

  lemma FaultMoves(env: Env, s: Engine, q: Record, r: Record, id: nat, recorded: bool)
    requires Inv(env, s) && q in s.store && q.job.Some? && r.id == q.id
    requires r in FaultWorker(env, s, id, recorded, s.clock).store
    ensures Moved(s, Timed(s.clock, WorkerFaults(id, recorded)), q, r)
  {
    if recorded && Unended(s, id) {
      EndedEndsAs(env, RecordOf(s, id), FailureResult(JobPersistenceFailed), s.clock, None);
      OneRewritten(s, EndedRecord(env, RecordOf(s, id), FailureResult(JobPersistenceFailed), s.clock, None), q, r);
    } else {
      SameIdSameRecord(env, s, q, r);
    }
  }

  lemma StartMoves(env: Env, s: Engine, q: Record, r: Record, id: nat)
    requires Inv(env, s) && id in s.workers && q in s.store && q.job.Some? && r.id == q.id
    requires r in StartWorker(s, id, s.clock).store
    ensures Moved(s, Timed(s.clock, WorkerStarts(id)), q, r)
  {
    if Unended(s, id) && JobOf(s, id).lifecycle == Queued {
      var before := RecordOf(s, id);
      OneRewritten(s, before.(state := ExecRunning, updatedAt := s.clock,
                              job := Some(before.job.value.(lifecycle := Running, startedAt := Some(s.clock), step := AtRunning))), q, r);
    } else {
      SameIdSameRecord(env, s, q, r);
    }
  }

  lemma ReportMoves(env: Env, s: Engine, q: Record, r: Record, id: nat, step: Str)
    requires Inv(env, s) && q in s.store && q.job.Some? && r.id == q.id
    requires r in ReportedStep(s, id, step, s.clock).store
    ensures Moved(s, Timed(s.clock, ReportStep(id, step)), q, r)
  {
    if BoundedString(step) && Unended(s, id) {
      var before := RecordOf(s, id);
      OneRewritten(s, before.(updatedAt := s.clock, job := Some(before.job.value.(step := Reported(step)))), q, r);
    } else {
      SameIdSameRecord(env, s, q, r);
    }
  }

  /** A record-wise rewriting keeps records in place. */
  lemma MappedFrom(f: Record -> Record, records: seq<Record>, q: Record, r: Record)
    requires UniqueIds(records) && q in records && r in Mapped(f, records) && r.id == q.id
    requires forall x :: x in records ==> f(x).id == x.id
    ensures r == f(q)
  {
    var k :| 0 <= k < |records| && Mapped(f, records)[k] == r;
    var j :| 0 <= j < |records| && records[j] == q;
    assert records[k] in records && f(records[k]).id == records[k].id;
  }

  lemma LostEndsAs(env: Env, q: Record, at: int)
    requires q.job.Some?
    ensures var r := RecoveredJob(env, q, at);
      && r.id == q.id && r.job.Some?
      && if q.job.value.lifecycle in {Running, Cancelling} then EndsAs(r, at, Failed, Some(WorkerLost)) else r == q
  {
  }

  lemma RecoverMoves(env: Env, s: Engine, q: Record, r: Record)
    requires Inv(env, s) && q in s.store && q.job.Some? && r.id == q.id
    requires r in RecoverAllJobs(env, s, s.clock).store
    ensures Moved(s, Timed(s.clock, RecoverJobs), q, r)
  {
    MappedFrom(LosingWorkers(env, s.clock), s.store, q, r);
    LostEndsAs(env, q, s.clock);
  }

  lemma RecoverRuntimeMoves(env: Env, s: Engine, q: Record, r: Record, p: nat -> bool, c: nat -> bool, keep: nat)
    requires Inv(env, s) && q in s.store && q.job.Some? && r.id == q.id
    requires r in RecoverAll(env, s, p, c, keep, s.clock).store
    ensures Moved(s, Timed(s.clock, RecoverRuntime(p, c, keep)), q, r)
  {
    var from := RecoveredFrom(env, s, p, c, keep, s.clock, r);
    SameIdSameRecord(env, s, q, from);
    LostMoves(env, s, q, p, c, keep);
  }

  lemma LostMoves(env: Env, s: Engine, q: Record, p: nat -> bool, c: nat -> bool, keep: nat)
    requires q.job.Some?
    ensures Moved(s, Timed(s.clock, RecoverRuntime(p, c, keep)), q, RecoveredJob(env, q, s.clock))
  {
    LostEndsAs(env, q, s.clock);
  }

  lemma MaintainMoves(env: Env, s: Engine, q: Record, r: Record)
    requires Inv(env, s) && q in s.store && q.job.Some? && r.id == q.id
    requires r in MaintainAllArtifacts(s, s.clock).store
    ensures q.job.Some? && r.job.Some? && r.job.value.lifecycle == q.job.value.lifecycle
  {
    MappedFrom(Maintaining(s.clock), s.store, q, r);
  }

  lemma KeptWasThere(records: seq<Record>, cutoff: int, keep: nat, r: Record)
    requires r in Last(keep, Retained(records, cutoff))
    ensures r in records
  {
    LastIsSlice(keep, Retained(records, cutoff));
    RetainedMembership(records, cutoff);
  }

  lemma MaintainRuntimeMoves(env: Env, s: Engine, q: Record, r: Record, retentionMs: int, keep: nat)
    requires Inv(env, s) && q in s.store && q.job.Some? && r.id == q.id
    requires r in MaintainAll(s, retentionMs, keep, s.clock).store
    ensures q.job.Some? && r.job.Some? && r.job.value.lifecycle == q.job.value.lifecycle
  {
    KeptWasThere(MaintainAllArtifacts(s, s.clock).store, s.clock - retentionMs, keep, r);
    MaintainMoves(env, s, q, r);
  }

  lemma SavedMoves(env: Env, s: Engine, q: Record, r: Record, x: Record)
    requires Inv(env, s) && q in s.store && q.job.Some? && r.id == q.id && r in Saved(s.store, x)
    requires x.id != q.id
    ensures r == q
  {
    if Find(s.store, x.id).Some? {
      OneRewritten(s, x, q, r);
    } else {
      assert r in s.store + [x];
      SameIdSameRecord(env, s, q, r);
    }
  }

  lemma BrokerMoves(env: Env, s: Engine, q: Record, r: Record, b: Submission)
    requires Inv(env, s) && q in s.store && q.job.Some? && r.id == q.id && Legal(s, Timed(s.clock, BrokerRun(b)))
    requires r in RunBroker(env, s, b, s.clock).0.store
    ensures r == q
  {
    BrokerCases(env, s, b, s.clock);
    if RunBroker(env, s, b, s.clock).1.Created? {
      SavedMoves(env, s, q, r, NewRecord(env, b, s.clock));
    } else {
      SameIdSameRecord(env, s, q, r);
    }
  }

  lemma EffectMoves(env: Env, s: Engine, event: Event, q: Record, r: Record)
    requires Inv(env, s) && Legal(s, Timed(s.clock, event)) && q in s.store && q.job.Some? && r.id == q.id
    requires r in Effect(env, s, event, s.clock).store
    ensures Moved(s, Timed(s.clock, event), q, r)
  {
    match event {
      case BrokerRun(b) => BrokerMoves(env, s, q, r, b);
      case WorkerStarts(id) =>
        if id in s.workers && s.workers[id].stage == Scheduled { StartMoves(env, s, q, r, id); }
        else { SameIdSameRecord(env, s, q, r); }
      case ReportStep(id, step) => ReportMoves(env, s, q, r, id, step);
      case WorkerResumes(id, output) =>
        if Settled(s, id) { ResumeMoves(env, s, q, r, id, output); } else { SameIdSameRecord(env, s, q, r); }
      case WorkerFaults(id, recorded) =>
        if id in s.workers { FaultMoves(env, s, q, r, id, recorded); } else { SameIdSameRecord(env, s, q, r); }
      case Cancel(id, lookup) => CancelMoves(env, s, q, r, id, lookup);
      case RecoverJobs => RecoverMoves(env, s, q, r);
      case RecoverRuntime(p, c, keep) => RecoverRuntimeMoves(env, s, q, r, p, c, keep);
      case MaintainArtifacts => MaintainMoves(env, s, q, r);
      case MaintainRuntime(retentionMs, keep) => MaintainRuntimeMoves(env, s, q, r, retentionMs, keep);
      case SaveExecution(x) =>
        StoredAt(s, q);
        JobsHaveRules(env, s, q);
        SavedMoves(env, s, q, r, x);
      case _ => SameIdSameRecord(env, s, q, r);
    }
  }

  /** One step leaves the lifecycle of a stored job alone or moves it for one of the causes. */
  lemma StepMoves(env: Env, s: Engine, e: Timed, q: Record, r: Record)
    requires Inv(env, s) && q in s.store && q.job.Some? && r in Next(env, s, e).store && r.id == q.id
    ensures Moved(s, e, q, r)
  {
    if Legal(s, e) {
      AdvanceClock(env, s, e.at);
      EffectMoves(env, s.(clock := e.at), e.event, q, r);
    } else {
      SameIdSameRecord(env, s, q, r);
    }
  }

  // ------------------------------------------------------- over whole runs

  /** In every run a job that has ended did so at some event, for one of the causes, and has been as it ended since. */
  lemma {:induction false} EveryEndHasACause(env: Env, events: seq<Timed>, r: Record) returns (n: nat, q: Record, x: Record)
    requires r in Run(env, events).store && r.job.Some? && r.job.value.lifecycle.Ended?
    ensures n < |events| && q in Run(env, events[..n]).store && x in Run(env, events[..n + 1]).store
    ensures q.id == x.id == r.id && q.job.Some? && !q.job.value.lifecycle.Ended? && x.job.Some?
    ensures EndCause(Run(env, events[..n]), events[n], q, x)
    ensures r.job.value.lifecycle == x.job.value.lifecycle && r.job.value.terminalAt == x.job.value.terminalAt
      && r.job.value.result == x.job.value.result
  {
    var past, e := events[..|events| - 1], events[|events| - 1];
    q := EndsNow(env, past, e, r);
    if q.job.value.lifecycle.Ended? {
      n, q, x := EveryEndHasACause(env, past, q);
      assert past[..n] == events[..n] && past[..n + 1] == events[..n + 1];
    } else {
      n, x := |past|, r;
      assert events[..n + 1] == events && events[..n] == past;
    }
  }

  lemma EndsNow(env: Env, past: seq<Timed>, e: Timed, r: Record) returns (q: Record)
    requires r in Next(env, Run(env, past), e).store && r.job.Some? && r.job.value.lifecycle.Ended?
    ensures q in Run(env, past).store && q.id == r.id && q.job.Some?
    ensures
      if q.job.value.lifecycle.Ended? then
        && q.job.value.lifecycle == r.job.value.lifecycle
        && q.job.value.terminalAt == r.job.value.terminalAt && q.job.value.result == r.job.value.result
      else EndCause(Run(env, past), e, q, r)
  {
    Reachable(env, past);
    q := CameFrom(env, Run(env, past), e, r);
    StepMoves(env, Run(env, past), e, q, r);
  }

  /** A job that has ended was stored one step earlier, in its final form if it had already ended. */
  lemma CameFrom(env: Env, s: Engine, e: Timed, r: Record) returns (q: Record)
    requires Inv(env, s) && r in Next(env, s, e).store && r.job.Some? && r.job.value.lifecycle.Ended?
    ensures q in s.store && q.id == r.id && q.job.Some?
    ensures q.job.value.lifecycle.Ended? ==>
      && q.job.value.lifecycle == r.job.value.lifecycle
      && q.job.value.terminalAt == r.job.value.terminalAt && q.job.value.result == r.job.value.result
  {
    StepKeeps(env, s, e);
    assert Traced(env, s, r);
    q :| q in s.store && Progress(env, s, q, r);
  }

  /**
   * In every run, a worker whose race is settled and whose job has not ended resumes to exactly one thing: a timeout
   * ends the job as failed with that code, or else a cancellation as cancelled with that code, or else a handler
   * success goes on to validation, or else the result ends it as it is.
   */
  lemma ResumeDecides(env: Env, past: seq<Timed>, at: int, id: nat, output: Node) returns (r: Record)
    requires Run(env, past).clock <= at && Settled(Run(env, past), id) && Unended(Run(env, past), id)
    ensures var s := Run(env, past);
      var t := Next(env, s, Timed(at, WorkerResumes(id, output)));
      && r in t.store && r.id == id && r.job.Some?
      && t.store == s.store[Find(s.store, id).value := r]
      && var w := s.workers[id];
         if w.timedOut then EndsAs(r, at, Failed, Some(JobTimeout)) && id !in t.workers
         else if w.aborted then EndsAs(r, at, Status.Cancelled, Some(JobCancelled)) && id !in t.workers
         else if w.settled.value.status != Succeeded then
           EndsAs(r, at, w.settled.value.status, w.settled.value.failure) && id !in t.workers
         else if w.stage == AwaitingHandler then
           && r.job.value.lifecycle == Validating && r.state == ExecCompleting
           && id in t.workers && t.workers[id] == Worker(AwaitingEnforcement, false, false, None, w.settled)
         else EndsAs(r, at, Succeeded, w.settled.value.failure) && KeepsListed(r, output) && id !in t.workers
  {
    var s := Run(env, past);
    Reachable(env, past);
    AdvanceClock(env, s, at);
    r := ResumedRecord(env, s.(clock := at), id, output);
    SavedReplaces(s.store, r);
    var i := Find(s.store, id).value;
    assert s.store[i := r][i] == r;
  }

  /** The timer of this job's worker fires while the worker waits. */
  ghost predicate TimerHits(s: Engine, e: Timed, id: nat)
  {
    Legal(s, e) && e.event == TimerFires(id) && id in s.workers && s.workers[id].stage != Scheduled
  }

  /** A cancellation of this job is accepted while its worker is past the queue. */
  ghost predicate CancelHits(s: Engine, e: Timed, id: nat)
  {
    && Legal(s, e) && e.event.Cancel? && e.event.id == id && id in s.workers
    && CancelAccepted(s, id, e.event.lookup) && JobOf(s, id).lifecycle != Queued
  }

  /** How the flags of a worker that stays compare: raised by the timer, by a cancellation, or as before. */
  predicate FlagsAre(before: Worker, after: Worker, timer: bool, cancel: bool)
  {
    && (after.timedOut <==> before.timedOut || timer)
    && (after.aborted <==> before.aborted || timer || cancel)
    && ((before.timedOut ==> before.settled.Some?) ==> (after.timedOut ==> after.settled.Some? && after.stage != Scheduled))
  }

  lemma StartFlags(env: Env, s: Engine, target: nat, at: int, id: nat)
    requires target in s.workers && s.workers[target].stage == Scheduled && id in StartWorker(s, target, at).workers
    requires forall k :: k in s.workers ==> WorkerOk(env, s, k)
    ensures id in s.workers && FlagsAre(s.workers[id], StartWorker(s, target, at).workers[id], false, false)
  {
    assert WorkerOk(env, s, id);
  }

  lemma ResumeFlags(env: Env, s: Engine, target: nat, at: int, output: Node, id: nat)
    requires Settled(s, target) && id in ResumeWorker(env, s, target, at, Listed(output)).workers
    requires forall k :: k in s.workers ==> WorkerOk(env, s, k)
    ensures id in s.workers && FlagsAre(s.workers[id], ResumeWorker(env, s, target, at, Listed(output)).workers[id], false, false)
  {
    assert id in s.workers && WorkerOk(env, s, id);
  }

  lemma CancelFlags(env: Env, s: Engine, target: nat, lookup: Lookup, at: int, id: nat)
    requires id in CancelJob(env, s, target, lookup, at).workers
    requires forall k :: k in s.workers ==> WorkerOk(env, s, k)
    ensures id in s.workers
    ensures FlagsAre(s.workers[id], CancelJob(env, s, target, lookup, at).workers[id], false,
                     target == id && CancelAccepted(s, id, lookup) && JobOf(s, id).lifecycle != Queued)
  {
    assert WorkerOk(env, s, id);
  }

  lemma BrokerFlags(env: Env, s: Engine, b: Submission, at: int, id: nat)
    requires id in RunBroker(env, s, b, at).0.workers && id in s.workers && b.id !in s.workers
    ensures RunBroker(env, s, b, at).0.workers[id] == s.workers[id]
  {
  }

  lemma EffectFlags(env: Env, s: Engine, event: Event, id: nat)
    requires id in Effect(env, s, event, s.clock).workers && id in s.workers && Legal(s, Timed(s.clock, event))
    requires forall k :: k in s.workers ==> k in s.rules && WorkerOk(env, s, k)
    ensures var e := Timed(s.clock, event);
      FlagsAre(s.workers[id], Effect(env, s, event, s.clock).workers[id], TimerHits(s, e, id), CancelHits(s, e, id))
  {
    assert WorkerOk(env, s, id);
    match event {
      case BrokerRun(b) => BrokerFlags(env, s, b, s.clock, id);
      case WorkerStarts(target) =>
        if target in s.workers && s.workers[target].stage == Scheduled { StartFlags(env, s, target, s.clock, id); }
      case WorkerResumes(target, output) =>
        if Settled(s, target) { ResumeFlags(env, s, target, s.clock, output, id); }
      case Cancel(target, lookup) => CancelFlags(env, s, target, lookup, s.clock, id);
      case _ =>
    }
  }

  /** A worker was there before, or is the new one of a new job. */
  lemma WorkersStay(env: Env, s: Engine, e: Timed, id: nat)
    requires id in Next(env, s, e).workers && id !in s.workers
    ensures e.event.BrokerRun? && id !in s.rules && Next(env, s, e).workers[id] == Worker(Scheduled, false, false, None, None)
  {
  }

  lemma LaterFlags(s: Engine, e: Timed, id: nat, before: Worker, after: Worker)
    requires var u := s.(clock := e.at); FlagsAre(before, after, TimerHits(u, e, id), CancelHits(u, e, id))
    requires Legal(s, e)
    ensures FlagsAre(before, after, TimerHits(s, e, id), CancelHits(s, e, id))
  {
  }

  /** What one step does to the flags of a worker. */
  lemma FlagsStep(env: Env, s: Engine, e: Timed, id: nat)
    requires Inv(env, s) && id in Next(env, s, e).workers && id in s.workers
    ensures FlagsAre(s.workers[id], Next(env, s, e).workers[id], TimerHits(s, e, id), CancelHits(s, e, id))
  {
    var u := s.(clock := e.at);
    forall k | k in s.workers ensures k in s.rules && WorkerOk(env, s, k) && WorkerOk(env, u, k) {
      assert WorkerOk(env, s, k);
    }
    if Legal(s, e) {
      EffectFlags(env, u, e.event, id);
      LaterFlags(s, e, id, s.workers[id], Next(env, s, e).workers[id]);
    }
  }

  /** Something that makes the worker stop waiting: its timer or, where that counts too, an accepted cancellation. */
  ghost predicate HitAt(env: Env, events: seq<Timed>, i: nat, id: nat, cancels: bool)
    requires i < |events|
  {
    var s := Run(env, events[..i]);
    TimerHits(s, events[i], id) || (cancels && CancelHits(s, events[i], id))
  }

  ghost predicate HasBeenHit(env: Env, events: seq<Timed>, id: nat, cancels: bool)
  {
    exists i :: 0 <= i < |events| && HitAt(env, events, i, id, cancels)
  }

  lemma HitsGrow(env: Env, events: seq<Timed>, id: nat, cancels: bool)
    requires events != []
    ensures var n := |events| - 1;
      HasBeenHit(env, events, id, cancels) <==> HasBeenHit(env, events[..n], id, cancels) || HitAt(env, events, n, id, cancels)
  {
    var past := events[..|events| - 1];
    if i :| 0 <= i < |events| && HitAt(env, events, i, id, cancels) {
      if i < |past| { assert past[..i] == events[..i] && HitAt(env, past, i, id, cancels); }
    }
    if i :| 0 <= i < |past| && HitAt(env, past, i, id, cancels) {
      assert past[..i] == events[..i] && HitAt(env, events, i, id, cancels);
    }
  }

  /**
   * In every run a worker is marked as timed out exactly when its timer fired while it waited, and as aborted exactly
   * when that happened or a cancellation of its job was accepted after the queue.
   */
  lemma {:induction false} FlagsExactlyWhen(env: Env, events: seq<Timed>, id: nat)
    requires id in Run(env, events).workers
    ensures var w := Run(env, events).workers[id];
      && (w.timedOut <==> HasBeenHit(env, events, id, false)) && (w.aborted <==> HasBeenHit(env, events, id, true))
      && (w.timedOut ==> w.settled.Some? && w.stage != Scheduled)
  {
    if events != [] {
      var n := |events| - 1;
      var s := Run(env, events[..n]);
      Reachable(env, events[..n]);
      HitsGrow(env, events, id, false);
      HitsGrow(env, events, id, true);
      if id in s.workers {
        FlagsStep(env, s, events[n], id);
        FlagsExactlyWhen(env, events[..n], id);
      } else {
        WorkersStay(env, s, events[n], id);
        NeverHit(env, events[..n], id);
      }
    }
  }

  /** A job that was not submitted yet has had no timer and no cancellation. */
  lemma NeverHit(env: Env, past: seq<Timed>, id: nat)
    requires id !in Run(env, past).rules
    ensures !HasBeenHit(env, past, id, false) && !HasBeenHit(env, past, id, true)
  {
    forall i | 0 <= i < |past| ensures !HitAt(env, past, i, id, false) && !HitAt(env, past, i, id, true) {
      NeverBefore(env, past, i, id);
    }
  }

  /** An identity that has no rules yet has had no worker. */
  lemma NeverBefore(env: Env, past: seq<Timed>, i: nat, id: nat)
    requires i <= |past| && id !in Run(env, past).rules
    ensures id !in Run(env, past[..i]).workers
  {
    Reachable(env, past[..i]);
    if id in Run(env, past[..i]).workers {
      assert WorkerOk(env, Run(env, past[..i]), id);
      RulesKeptBy(env, past, i, id);
    }
  }

  /** A job whose timer fired while its worker waited, and that has not ended when the worker resumes, ends as a timeout. */
  lemma TimeoutsEndAsTimeouts(env: Env, past: seq<Timed>, i: nat, at: int, id: nat, output: Node) returns (r: Record)
    requires i < |past| && TimerHits(Run(env, past[..i]), past[i], id)
    requires id in Run(env, past).workers && Unended(Run(env, past), id) && Run(env, past).clock <= at
    ensures r in Next(env, Run(env, past), Timed(at, WorkerResumes(id, output))).store && r.id == id
    ensures EndsAs(r, at, Failed, Some(JobTimeout))
  {
    assert HitAt(env, past, i, id, false);
    FlagsExactlyWhen(env, past, id);
    r := ResumeDecides(env, past, at, id, output);
  }

  // ------------------------------------------------------- recovery, record by record

  /**
   * Recovery ends a running or cancelling job as lost; any other active record becomes failed when its provider or
   * capability is no longer valid and recovered otherwise; everything else stays as it is.
   */
  lemma RecoveryDecides(env: Env, s: Engine, p: nat -> bool, c: nat -> bool, keep: nat, at: int, r: Record) returns (q: Record)
    requires r in RecoverAll(env, s, p, c, keep, at).store
    ensures q in s.store && q.id == r.id
    ensures
      if q.job.Some? && q.job.value.lifecycle in {Running, Cancelling} then EndsAs(r, at, Failed, Some(WorkerLost))
      else if q.state in {ExecPending, ExecRequested, ExecValidating, ExecDispatching, ExecRunning, ExecExecuting, ExecCompleting} then
        r == q.(state := if p(q.id) && c(q.id) then ExecRecovered else ExecFailed, updatedAt := at)
      else r == q
  {
    q := RecoveredFrom(env, s, p, c, keep, at, r);
    if q.job.Some? { LostEndsAs(env, q, at); }
  }

  // ------------------------------------------------------- what the broker answers

  /** Stored under the idempotency identity of the request. */
  predicate Prior(p: Record, q: JobRequest)
  {
    && p.job.Some? && p.job.value.sourceId == q.sourceId && p.job.value.sessionId == q.sessionId
    && p.job.value.runId == q.runId && p.job.value.idempotencyKey == q.idempotencyKey
  }

  function NamesOf(q: JobRequest): (r: seq<Str>)
    ensures |r| == 8
  {
    [q.capabilityId, q.capabilityVersion, q.sourceId, q.sessionId, q.runId, q.requestId, q.idempotencyKey, q.requestedBy]
  }

  /** Names within 256 units, a timeout within five minutes, and an input within 64 KiB. */
  ghost predicate WithinBounds(bytes: Measure, q: JobRequest)
  {
    && (forall name :: name in NamesOf(q) ==> 1 <= |name| <= 256)
    && (q.timeoutMs == None || 1 <= q.timeoutMs.value <= 300_000)
    && var size := bytes(if q.input == Undefined then Null else q.input); size.Some? && size.value <= 65_536
  }

  lemma BoundsMean(bytes: Measure, q: JobRequest)
    ensures RequestValid(bytes, q) <==> WithinBounds(bytes, q)
  {
    var names := NamesOf(q);
    assert names[0] in names && names[1] in names && names[2] in names && names[3] in names;
    assert names[4] in names && names[5] in names && names[6] in names && names[7] in names;
  }

  /** What the two lookups find for a record stored under the request's identity. */
  lemma LookupsFind(records: seq<Record>, i: nat, q: JobRequest)
    requires UniqueKeys(records) && i < |records| && Prior(records[i], q)
    ensures FindKey(records, q) == Some(i)
    ensures var j := records[i].job.value;
      BrokerPrior(records, q) == if j.capabilityId == q.capabilityId && j.capabilityVersion == q.capabilityVersion then Some(i) else None
  {
    assert SameKey(records[i].job.value, q);
    KeyIndexUnique(records, i, FindKey(records, q).value);
    if BrokerPrior(records, q).Some? { KeyIndexUnique(records, i, BrokerPrior(records, q).value); }
  }

  lemma LookupsMiss(records: seq<Record>, q: JobRequest)
    requires forall i :: 0 <= i < |records| ==> !Prior(records[i], q)
    ensures FindKey(records, q) == None && BrokerPrior(records, q) == None
  {
  }

  lemma TakenAnswers(env: Env, s: Engine, at: int, b: Submission, i: nat)
    requires UniqueKeys(s.store) && i < |s.store| && Prior(s.store[i], b.request) && (b.root.Some? ==> b.root.value !in s.roots)
    ensures var p := s.store[i];
      var same := p.job.value.capabilityId == b.request.capabilityId && p.job.value.capabilityVersion == b.request.capabilityVersion;
      RunBroker(env, s, b, at) ==
        (s, if !b.authorized then Unauthorized
            else if same then Existing(p)
            else if RequestValid(env.bytes, b.request) then Conflict(p)
            else Invalid)
  {
    LookupsFind(s.store, i, b.request);
    BrokerCases(env, s, b, at);
  }

  /**
   * In every reachable store a run of a capability under an idempotency identity that is already taken changes nothing:
   * it gets the job back when capability and version are the same, whatever its input, and otherwise a conflict.
   */
  lemma TakenKeyAnswers(env: Env, past: seq<Timed>, at: int, b: Submission, p: Record)
    requires Legal(Run(env, past), Timed(at, BrokerRun(b))) && p in Run(env, past).store && Prior(p, b.request)
    ensures var s := Run(env, past).(clock := at);
      var same := p.job.value.capabilityId == b.request.capabilityId && p.job.value.capabilityVersion == b.request.capabilityVersion;
      RunBroker(env, s, b, at) ==
        (s, if !b.authorized then Unauthorized
            else if same then Existing(p)
            else if WithinBounds(env.bytes, b.request) then Conflict(p)
            else Invalid)
  {
    Reachable(env, past);
    BoundsMean(env.bytes, b.request);
    var i :| 0 <= i < |Run(env, past).store| && Run(env, past).store[i] == p;
    TakenAnswers(env, Run(env, past).(clock := at), at, b, i);
  }

  /** A job just submitted: queued, pending, with the identity of its request and a pending artifact for its root. */
  predicate QueuedFor(env: Env, r: Record, b: Submission, at: int)
  {
    && r.id == b.id && r.state == ExecPending && r.createdAt == at && r.job.Some?
    && var j, q := r.job.value, b.request;
       && j.lifecycle == Queued && j.result == None && j.terminalAt == None && j.startedAt == None && j.cancelRequestedAt == None
       && j.capabilityId == q.capabilityId && j.capabilityVersion == q.capabilityVersion && j.requestId == q.requestId
       && Prior(r, q) && j.fingerprint == JobFingerprint(env.format, q) && j.root == b.root
       && j.artifact == if b.root.None? then None
                        else Some(Artifact(b.id, Pending, 0, 0, at, at + if b.retentionMs > 1 then b.retentionMs else 1))
  }

  lemma NewIsQueued(env: Env, b: Submission, at: int)
    ensures QueuedFor(env, NewRecord(env, b, at), b, at)
  {
  }

  lemma FreeAnswers(env: Env, s: Engine, at: int, b: Submission)
    requires |s.store| <= STORE_CAP && Find(s.store, b.id).None? && (b.root.Some? ==> b.root.value !in s.roots)
    requires forall i :: 0 <= i < |s.store| ==> !Prior(s.store[i], b.request)
    ensures var (t, outcome) := RunBroker(env, s, b, at);
      if b.authorized && RequestValid(env.bytes, b.request) then
        && outcome == Created(NewRecord(env, b, at))
        && (var all := s.store + [outcome.record]; t.store == if |all| <= 300 then all else all[1..])
        && t.workers == s.workers[b.id := Worker(Scheduled, false, false, None, None)] && t.rules == s.rules[b.id := b.rules]
        && t.roots == s.roots + (if b.root.Some? then {b.root.value} else {})
      else t == s && outcome == if b.authorized then Invalid else Unauthorized
  {
    LookupsMiss(s.store, b.request);
    BrokerCases(env, s, b, at);
    FreeOutcome(env, s, at, b);
    NewIsAppended(s.store, NewRecord(env, b, at));
  }

  lemma NewIsAppended(records: seq<Record>, r: Record)
    requires |records| <= STORE_CAP && Find(records, r.id).None?
    ensures var all := records + [r]; Saved(records, r) == if |all| <= 300 then all else all[1..]
  {
  }

  lemma FreeOutcome(env: Env, s: Engine, at: int, b: Submission)
    requires FindKey(s.store, b.request) == None && BrokerPrior(s.store, b.request) == None
    ensures RunBroker(env, s, b, at).1 ==
      if !b.authorized then Unauthorized else if RequestValid(env.bytes, b.request) then Created(NewRecord(env, b, at)) else Invalid
  {
  }

  /** Under a free identity an authorized run within bounds creates a queued job with its own worker and root, and only then. */
  lemma FreeKeyAnswers(env: Env, past: seq<Timed>, at: int, b: Submission)
    requires Legal(Run(env, past), Timed(at, BrokerRun(b))) && forall p :: p in Run(env, past).store ==> !Prior(p, b.request)
    ensures var s := Run(env, past).(clock := at);
      var (t, outcome) := RunBroker(env, s, b, at);
      if b.authorized && WithinBounds(env.bytes, b.request) then
        && outcome.Created? && QueuedFor(env, outcome.record, b, at)
        && (var all := s.store + [outcome.record]; t.store == if |all| <= 300 then all else all[1..])
        && t.workers == s.workers[b.id := Worker(Scheduled, false, false, None, None)] && t.rules == s.rules[b.id := b.rules]
        && t.roots == s.roots + (if b.root.Some? then {b.root.value} else {})
      else t == s && outcome == if b.authorized then Invalid else Unauthorized
  {
    Reachable(env, past);
    BoundsMean(env.bytes, b.request);
    NewIsQueued(env, b, at);
    FreeAnswers(env, Run(env, past).(clock := at), at, b);
  }
}
