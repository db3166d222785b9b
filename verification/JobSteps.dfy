/** Every step that rewrites records in place keeps the invariant, follows the lifecycle and leaks nothing. */
module JobSteps {
  import opened Wrappers
  import opened Strings
  import opened JsonText
  import opened ResultEnforcement
  import opened OutputArtifact
  import opened JobRecords
  import opened JobEngine
  import opened JobSafety

  lemma StoredRecordOk(env: Env, s: Engine, id: nat)
    requires Inv(env, s) && Find(s.store, id).Some?
    ensures RecordOk(env, s, RecordOf(s, id)) && RecordOf(s, id).id == id
  {
  }

  lemma UnchangedInPlace(env: Env, s: Engine)
    requires Inv(env, s)
    ensures InPlace(env, s, s)
  {
    OneWorker(env, s, s, 0);
  }

  // ------------------------------------------------------- the worker

  /** Ending a job and retiring its worker, with a success only after enforcement. */
  lemma EndAndRetire(env: Env, s: Engine, id: nat, result: HandlerResult, at: int, listed: Listing)
    requires Inv(env, s) && s.clock == at
    requires Unended(s, id) && result.status == Succeeded ==>
      PassedEnforcement(s, id) && s.workers[id].settled == Some(result)
    ensures InPlace(env, s, Retired(EndJob(env, s, id, result, at, listed), id))
  {
    var t := Retired(EndJob(env, s, id, result, at, listed), id);
    if Unended(s, id) {
      StoredRecordOk(env, s, id);
      var r := RecordOf(s, id);
      var ended := EndedRecord(env, r, result, at, listed);
      EndedProgress(env, s, r, result, at, listed);
      EndedOk(env, s, t, r, result, at, listed);
      OneRecord(env, s, t, ended);
    } else {
      OneWorker(env, s, t, id);
    }
  }

  lemma EndedProgress(env: Env, s: Engine, r: Record, result: HandlerResult, at: int, listed: Listing)
    requires r.job.Some? && !r.job.value.lifecycle.Ended? && RecordOk(env, s, r)
    requires result.status == Succeeded ==> PassedEnforcement(s, r.id) && s.workers[r.id].settled == Some(result)
    ensures Progress(env, s, r, EndedRecord(env, r, result, at, listed))
  {
    var j := r.job.value;
    if result.status == Succeeded {
      assert StageFits(s.workers[r.id], j.lifecycle);
    }
  }

  lemma EndedOk(env: Env, s: Engine, t: Engine, r: Record, result: HandlerResult, at: int, listed: Listing)
    requires Inv(env, s) && r in s.store && r.job.Some? && !r.job.value.lifecycle.Ended?
    requires result.status == Succeeded ==>
      PassedEnforcement(s, r.id) && s.workers[r.id].settled == Some(result)
    requires t.clock == s.clock == at && t.rules == s.rules && r.id !in t.workers
    requires t.roots == s.roots - Removed(r, EndedRecord(env, r, result, at, listed))
    ensures RecordOk(env, t, EndedRecord(env, r, result, at, listed))
  {
    assert RecordOk(env, s, r);
    if result.status == Succeeded {
      assert StageFits(s.workers[r.id], r.job.value.lifecycle);
    }
  }

  lemma StartInPlace(env: Env, s: Engine, id: nat, at: int)
    requires Inv(env, s) && s.clock == at && id in s.workers && s.workers[id].stage == Scheduled
    ensures InPlace(env, s, StartWorker(s, id, at))
  {
    var t := StartWorker(s, id, at);
    if !Unended(s, id) || JobOf(s, id).lifecycle != Queued {
      OneWorker(env, s, t, id);
    } else {
      StoredRecordOk(env, s, id);
      assert WorkerOk(env, s, id);
      var r := RecordOf(s, id);
      var started := r.(state := ExecRunning, updatedAt := at,
                        job := Some(r.job.value.(lifecycle := Running, startedAt := Some(at), step := AtRunning)));
      OneRecord(env, s, t, started);
    }
  }

  lemma ReportInPlace(env: Env, s: Engine, id: nat, step: Str, at: int)
    requires Inv(env, s) && s.clock == at
    ensures InPlace(env, s, ReportedStep(s, id, step, at))
  {
    if !BoundedString(step) || !Unended(s, id) {
      UnchangedInPlace(env, s);
    } else {
      StoredRecordOk(env, s, id);
      var r := RecordOf(s, id);
      OneRecord(env, s, ReportedStep(s, id, step, at), r.(updatedAt := at, job := Some(r.job.value.(step := Reported(step)))));
    }
  }

  lemma WorkerInPlace(env: Env, s: Engine, id: nat, w: Worker)
    requires Inv(env, s) && id in s.workers
    requires w.stage == s.workers[id].stage && (s.workers[id].aborted ==> w.aborted)
    requires WorkerOk(env, s.(workers := s.workers[id := w]), id)
    ensures InPlace(env, s, s.(workers := s.workers[id := w]))
  {
    OneWorker(env, s, s.(workers := s.workers[id := w]), id);
  }

  lemma HandlerSettlesInPlace(env: Env, s: Engine, id: nat, result: HandlerResult)
    requires Inv(env, s) && id in s.workers && s.workers[id].stage == AwaitingHandler
    ensures InPlace(env, s, s.(workers := s.workers[id := Settle(s.workers[id], result)]))
  {
    assert WorkerOk(env, s, id);
    WorkerInPlace(env, s, id, Settle(s.workers[id], result));
  }

  lemma EnforcementSettlesInPlace(env: Env, s: Engine, id: nat, verdict: Str -> Verdict)
    requires Inv(env, s) && id in s.workers && s.workers[id].stage == AwaitingEnforcement
    requires s.workers[id].handler.Some? && id in s.rules
    ensures InPlace(env, s, s.(workers := s.workers[id :=
      Settle(s.workers[id], Enforced(s.rules[id], env.bytes, verdict, s.workers[id].handler.value))]))
  {
    assert WorkerOk(env, s, id);
    var r := Enforced(s.rules[id], env.bytes, verdict, s.workers[id].handler.value);
    WorkerInPlace(env, s, id, Settle(s.workers[id], r));
  }

  lemma TimerInPlace(env: Env, s: Engine, id: nat)
    requires Inv(env, s) && id in s.workers && s.workers[id].stage != Scheduled
    ensures InPlace(env, s, s.(workers := s.workers[id := TimedOut(s.workers[id])]))
  {
    assert WorkerOk(env, s, id);
    WorkerInPlace(env, s, id, TimedOut(s.workers[id]));
  }

  lemma ResumeInPlace(env: Env, s: Engine, id: nat, at: int, listed: Listing)
    requires Inv(env, s) && s.clock == at
    requires id in s.workers && s.workers[id].stage != Scheduled && s.workers[id].settled.Some?
    ensures InPlace(env, s, ResumeWorker(env, s, id, at, listed))
  {
    var w := s.workers[id];
    assert WorkerOk(env, s, id);
    if w.stage == AwaitingHandler && !w.timedOut && !w.aborted && w.settled.value.status == Succeeded && Unended(s, id) {
      StoredRecordOk(env, s, id);
      var r := RecordOf(s, id);
      var validating := r.(state := ExecCompleting, updatedAt := at,
                           job := Some(r.job.value.(lifecycle := Validating, step := AtValidating)));
      OneRecord(env, s, ResumeWorker(env, s, id, at, listed), validating);
    } else {
      EndAndRetire(env, s, id, FinalResult(w), at, listed);
    }
  }

  lemma FaultInPlace(env: Env, s: Engine, id: nat, recorded: bool, at: int)
    requires Inv(env, s) && s.clock == at
    ensures InPlace(env, s, FaultWorker(env, s, id, recorded, at))
  {
    if recorded {
      EndAndRetire(env, s, id, FailureResult(JobPersistenceFailed), at, None);
    } else {
      OneWorker(env, s, Retired(s, id), id);
    }
  }

  lemma RestartInPlace(env: Env, s: Engine)
    requires Inv(env, s)
    ensures InPlace(env, s, s.(workers := map[]))
  {
    var t := s.(workers := map[]);
    NothingRemoved(s.store);
    forall i | 0 <= i < |s.store| ensures Progress(env, s, s.store[i], s.store[i]) && RecordOk(env, t, s.store[i]) {
      assert RecordOk(env, s, s.store[i]);
    }
  }

  // ------------------------------------------------------- cancelling

  lemma CancelInPlace(env: Env, s: Engine, id: nat, lookup: Lookup, at: int)
    requires Inv(env, s) && s.clock == at
    ensures InPlace(env, s, CancelJob(env, s, id, lookup, at))
    ensures CancelAccepted(s, id, lookup) ==>
      var t := CancelJob(env, s, id, lookup, at);
      Find(t.store, id).Some? && RecordOf(t, id).job.Some? && JobOf(t, id).cancelRequestedAt == Some(at)
  {
    if !CancelAccepted(s, id, lookup) {
      UnchangedInPlace(env, s);
    } else {
      StoredRecordOk(env, s, id);
      var t := CancelJob(env, s, id, lookup, at);
      var r := CancelledRecord(env, s, id, lookup, at);
      if id in s.workers { assert WorkerOk(env, s, id); }
      OneRecord(env, s, t, r);
      SavedReplaces(s.store, r);
      FindReplaced(s.store, Find(s.store, id).value, r);
    }
  }

  lemma FindReplaced(records: seq<Record>, i: nat, r: Record)
    requires UniqueIds(records) && i < |records| && records[i].id == r.id
    ensures Find(records[i := r], r.id) == Some(i)
  {
    FindUnique(records[i := r], i);
  }

  /** Saving a record twice leaves the second version. */
  lemma SavedTwice(records: seq<Record>, first: Record, second: Record)
    requires UniqueIds(records) && |records| <= STORE_CAP && Find(records, first.id).Some? && second.id == first.id
    ensures var once := Saved(records, first);
      Find(once, first.id) == Find(records, first.id) && once[Find(once, first.id).value] == first
    ensures Saved(Saved(records, first), second) == Saved(records, second)
  {
    var i := Find(records, first.id).value;
    SavedReplaces(records, first);
    FindReplaced(records, i, first);
    SavedReplaces(records[i := first], second);
    SavedReplaces(records, second);
    assert records[i := first][i := second] == records[i := second];
  }

  /** The record an accepted cancellation leaves behind, in each of its three cases. */
  lemma CancelledRecord(env: Env, s: Engine, id: nat, lookup: Lookup, at: int) returns (r: Record)
    requires Inv(env, s) && s.clock == at && CancelAccepted(s, id, lookup)
    ensures var t := CancelJob(env, s, id, lookup, at);
      && r.id == id && t.store == Saved(s.store, r) && t.roots == s.roots - Removed(RecordOf(s, id), r)
      && t.rules == s.rules && t.clock == s.clock && OthersUntouched(s, t, id)
      && Progress(env, s, RecordOf(s, id), r) && RecordOk(env, t, r)
      && (id in t.workers ==> id in s.workers && t.workers[id] == (if JobOf(s, id).lifecycle == Queued then s.workers[id] else Aborted(s.workers[id])))
      && r.job.Some? && r.job.value.cancelRequestedAt == Some(at)
      && r.job.value.lifecycle ==
           (if JobOf(s, id).lifecycle == Queued || id !in s.workers then Ended(Status.Cancelled) else Cancelling)
      && (id in s.workers ==> id in t.workers)
  {
    StoredRecordOk(env, s, id);
    var before := RecordOf(s, id);
    var j := before.job.value;
    var asked := before.(updatedAt := at, job := Some(j.(cancelRequestedAt := Some(at))));
    if id in s.workers { assert WorkerOk(env, s, id); }
    if j.lifecycle == Queued {
      r := EndedRecord(env, asked, CancelledResult(JobCancelled), at, None).(auditReferences := before.auditReferences);
    } else {
      var cancelling := asked.(job := Some(asked.job.value.(lifecycle := Cancelling, step := AtCancelling)));
      if id in s.workers {
        r := cancelling;
      } else {
        r := EndedRecord(env, cancelling, CancelledResult(WorkerNotActive), at, None);
        SavedTwice(s.store, cancelling, r);
      }
    }
  }

  // ------------------------------------------------------- rewriting the whole store

  lemma RewrittenRoots(env: Env, s: Engine, f: Record -> Record, i: nat)
    requires Inv(env, s) && i < |s.store|
    requires forall k :: 0 <= k < |s.store| ==> SameIdentity(s.store[k], f(s.store[k]))
    requires LiveRoot(f(s.store[i])).Some? ==> LiveRoot(s.store[i]).Some?
    ensures LiveRoot(f(s.store[i])).Some? ==> LiveRoot(f(s.store[i])).value in Rewritten(s, f).roots
  {
    var after := Mapped(f, s.store);
    var root := LiveRoot(f(s.store[i]));
    if root.Some? {
      assert RecordOk(env, s, s.store[i]);
      assert SameIdentity(s.store[i], f(s.store[i]));
      forall k | 0 <= k < |s.store| ensures root.value !in Removed(s.store[k], after[k]) {
        if k != i && LiveRoot(s.store[k]).Some? {
          assert LiveRoot(s.store[k]) != LiveRoot(s.store[i]);
        }
      }
      RemovedMembership(s.store, after, root.value);
    }
  }

  /** A record-wise rewriting that suits every single record suits the store. */
  lemma RewriteInPlace(env: Env, s: Engine, f: Record -> Record)
    requires Inv(env, s)
    requires forall k :: 0 <= k < |s.store| ==> Progress(env, s, s.store[k], f(s.store[k]))
    requires forall k :: 0 <= k < |s.store| ==>
      f(s.store[k]).createdAt <= f(s.store[k]).updatedAt <= s.clock
      && (f(s.store[k]).job.Some? ==> JobOk(env, s, f(s.store[k]), f(s.store[k]).job.value))
    ensures InPlace(env, s, Rewritten(s, f))
  {
    var t := Rewritten(s, f);
    forall i | 0 <= i < |s.store| ensures RecordOk(env, t, t.store[i]) {
      RewrittenRoots(env, s, f, i);
      var r := t.store[i];
      if r.job.Some? { assert JobOk(env, s, r, r.job.value); }
    }
    forall id | id in t.workers ensures WorkerOk(env, t, id) {
      assert WorkerOk(env, s, id);
    }
  }

  lemma RecoverJobsInPlace(env: Env, s: Engine, at: int)
    requires Inv(env, s) && s.clock == at
    ensures InPlace(env, s, RecoverAllJobs(env, s, at))
  {
    var f := LosingWorkers(env, at);
    forall k | 0 <= k < |s.store|
      ensures Progress(env, s, s.store[k], f(s.store[k]))
      ensures f(s.store[k]).createdAt <= f(s.store[k]).updatedAt <= s.clock
      ensures f(s.store[k]).job.Some? ==> JobOk(env, s, f(s.store[k]), f(s.store[k]).job.value)
    {
      assert RecordOk(env, s, s.store[k]);
    }
    RewriteInPlace(env, s, f);
  }

  lemma RecoverRecordsInPlace(env: Env, s: Engine, providerValid: nat -> bool, capabilityValid: nat -> bool, at: int)
    requires Inv(env, s) && s.clock == at
    ensures InPlace(env, s, Rewritten(s, Recovering(providerValid, capabilityValid, at)))
  {
    var f := Recovering(providerValid, capabilityValid, at);
    forall k | 0 <= k < |s.store|
      ensures Progress(env, s, s.store[k], f(s.store[k]))
      ensures f(s.store[k]).createdAt <= f(s.store[k]).updatedAt <= s.clock
      ensures f(s.store[k]).job.Some? ==> JobOk(env, s, f(s.store[k]), f(s.store[k]).job.value)
    {
      assert RecordOk(env, s, s.store[k]);
    }
    RewriteInPlace(env, s, f);
  }

  lemma MaintainInPlace(env: Env, s: Engine, at: int)
    requires Inv(env, s) && s.clock == at
    ensures InPlace(env, s, MaintainAllArtifacts(s, at))
  {
    var f := Maintaining(at);
    forall k | 0 <= k < |s.store|
      ensures Progress(env, s, s.store[k], f(s.store[k]))
      ensures f(s.store[k]).createdAt <= f(s.store[k]).updatedAt <= s.clock
      ensures f(s.store[k]).job.Some? ==> JobOk(env, s, f(s.store[k]), f(s.store[k]).job.value)
    {
      assert RecordOk(env, s, s.store[k]);
    }
    RewriteInPlace(env, s, f);
  }
}
