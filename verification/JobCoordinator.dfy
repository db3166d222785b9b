/**
 * The coordinator as the source writes it: a store file, the active workers and the output roots, updated in place.
 * Every method carries out exactly one step of JobEngine, so the run theorems are about these updates.
 */
module JobCoordinator {
  import opened Wrappers
  import opened Strings
  import opened JsonText
  import opened ResultEnforcement
  import opened OutputArtifact
  import opened JobRecords
  import opened JobEngine
  import opened JobSafety
  import opened JobSteps
  import opened JobTheorems

  datatype CancelReply = JobNotFound | IdentityMismatch | StoreCorrupt | Answered(record: Record)

  /** What a cancellation call answers, from the states before and after it. */
  function ReplyToCancel(before: Engine, after: Engine, id: nat, lookup: Lookup): CancelReply
  {
    if Find(before.store, id).None? || RecordOf(before, id).job.None? then JobNotFound
    else if !LookupMatches(JobOf(before, id), lookup) then IdentityMismatch
    else if Find(after.store, id).None? || RecordOf(after, id).job.None? then StoreCorrupt
    else Answered(RecordOf(after, id))
  }

  class Coordinator {
    const env: Env
    var records: seq<Record>
    var workers: map<nat, Worker>
    var roots: set<nat>
    var clock: int
    var rules: map<nat, OutputRules>

    ghost function State(): Engine
      reads this
    {
      Engine(records, workers, roots, clock, rules)
    }

    constructor (env: Env)
      ensures this.env == env && State() == INITIAL
    {
      this.env := env;
      records, workers, roots, clock, rules := [], map[], {}, 0, map[];
    }

    // ------------------------------------------------------- the store file

    method FindIndex(id: nat) returns (r: Option<nat>)
      ensures r == Find(records, id)
    {
      for i := 0 to |records|
        invariant forall k :: 0 <= k < i ==> records[k].id != id
      {
        if records[i].id == id { return Some(i); }
      }
      return None;
    }

    /** `save`. */
    method Save(record: Record)
      modifies this`records
      ensures records == Saved(old(records), record)
    {
      var index := FindIndex(record.id);
      if index.Some? {
        records := records[index.value := record];
      } else {
        records := records + [record];
      }
      if |records| > STORE_CAP { records := records[|records| - STORE_CAP..]; }
    }

    method RemoveRoot(root: nat)
      modifies this`roots
      ensures roots == old(roots) - {root}
    {
      roots := roots - {root};
    }

    /** `saveJobTerminal` for a record just read from the store. */
    method SaveJobTerminal(r: Record, result: HandlerResult, at: int, listed: Listing)
      requires Find(records, r.id).Some? && RecordOf(State(), r.id) == r
      modifies this`records, this`roots
      ensures State() == EndJob(env, old(State()), r.id, result, at, listed)
    {
      if r.job.None? || r.job.value.lifecycle.Ended? { return; }
      var j := r.job.value;
      var artifact := j.artifact;
      if j.artifact.Some? && j.root.Some? {
        artifact := Some(Finalized(j.artifact.value, ArtifactTarget(result.status), listed));
        if Live(j.artifact.value) && !Live(artifact.value) { RemoveRoot(j.root.value); }
      }
      var normalized := TerminalResult(env.bytes, result);
      j := j.(lifecycle := Ended(normalized.status), step := AtEnd(normalized.status), terminalAt := Some(at),
              artifact := artifact, result := Some(normalized));
      var updated := r.(job := Some(j), state := EndState(normalized.status), updatedAt := at, auditReferences := [r.id]);
      assert updated == EndedRecord(env, r, result, at, listed);
      assert roots == old(roots) - Removed(r, updated);
      Save(updated);
    }

    // ------------------------------------------------------- submitting

    method SubmitCapabilityJob(b: Submission, at: int) returns (outcome: Outcome)
      modifies this`records, this`workers, this`rules
      ensures (State(), outcome) == SubmitJob(env, old(State()), b, at)
    {
      if !RequestValid(env.bytes, b.request) { return Invalid; }
      for i := 0 to |records|
        invariant FindKey(records, b.request) ==
          match FindKey(records[i..], b.request) case None => None case Some(k) => Some(i + k)
      {
        assert records[i..][1..] == records[i + 1..];
        if records[i].job.Some? && SameKey(records[i].job.value, b.request) {
          if !SameRequest(env, records[i].job.value, b.request) { return Conflict(records[i]); }
          return Existing(records[i]);
        }
      }
      var record := NewRecord(env, b, at);
      Save(record);
      workers := workers[b.id := Worker(Scheduled, false, false, None, None)];
      rules := rules[b.id := b.rules];
      return Created(record);
    }

    /** `CapabilityBroker.run`. */
    method RunCapability(b: Submission, at: int) returns (outcome: Outcome)
      modifies this`records, this`workers, this`rules, this`roots
      ensures (State(), outcome) == RunBroker(env, old(State()), b, at)
    {
      if b.root.Some? { roots := roots + {b.root.value}; }
      assert roots == old(roots) + OwnedRoots(b);
      assert b.root.None? ==> roots - OwnedRoots(b) == roots;
      if !b.authorized {
        if b.root.Some? { RemoveRoot(b.root.value); }
        return Unauthorized;
      }
      var prior := BrokerPrior(records, b.request);
      if prior.Some? {
        if b.root.Some? { RemoveRoot(b.root.value); }
        return Existing(records[prior.value]);
      }
      outcome := SubmitCapabilityJob(b, at);
      if !outcome.Created? && !outcome.Existing? {
        if b.root.Some? { RemoveRoot(b.root.value); }
      }
    }

    // ------------------------------------------------------- the worker

    /** `runCapabilityJob` up to its first await. */
    method Start(id: nat, at: int)
      requires id in workers
      modifies this`records, this`workers
      ensures State() == StartWorker(old(State()), id, at)
    {
      var index := FindIndex(id);
      if index.None? || records[index.value].job.None? || records[index.value].job.value.lifecycle != Queued {
        workers := workers - {id};
        return;
      }
      var current := records[index.value];
      current := current.(job := Some(current.job.value.(lifecycle := Running, startedAt := Some(at), step := AtRunning)));
      current := current.(state := ExecRunning, updatedAt := at);
      Save(current);
      workers := workers[id := workers[id].(stage := AwaitingHandler)];
    }

    /** The `reportStep` callback. */
    method ReportStep(id: nat, step: Str, at: int)
      modifies this`records
      ensures State() == ReportedStep(old(State()), id, step, at)
    {
      if !BoundedString(step) { return; }
      var index := FindIndex(id);
      if index.None? || records[index.value].job.None? || records[index.value].job.value.lifecycle.Ended? { return; }
      var latest := records[index.value];
      Save(latest.(job := Some(latest.job.value.(step := Reported(step))), updatedAt := at));
    }

    /** The handler's promise settles. */
    method HandlerReturns(id: nat, result: HandlerResult)
      requires id in workers && workers[id].stage == AwaitingHandler
      modifies this`workers
      ensures State() == Effect(env, old(State()), HandlerSettles(id, result), clock)
    {
      if workers[id].settled.None? { workers := workers[id := workers[id].(settled := Some(result))]; }
      assert workers == old(workers)[id := Settle(old(workers)[id], result)];
    }

    /** The enforcement of a returned result settles. */
    method EnforcementReturns(id: nat, verdict: Str -> Verdict)
      requires id in workers && workers[id].stage == AwaitingEnforcement && workers[id].handler.Some? && id in rules
      modifies this`workers
      ensures State() == Effect(env, old(State()), EnforcementSettles(id, verdict), clock)
    {
      var enforced := EnforceCapabilityResult(rules[id], env.bytes, verdict, workers[id].handler.value);
      if workers[id].settled.None? { workers := workers[id := workers[id].(settled := Some(enforced))]; }
      assert workers == old(workers)[id := Settle(old(workers)[id], enforced)];
    }

    method Abort(id: nat)
      requires id in workers
      modifies this`workers
      ensures workers == old(workers)[id := Aborted(old(workers)[id])]
    {
      var w := workers[id];
      if w.aborted { return; }
      w := w.(aborted := true);
      if w.stage != Scheduled && w.settled.None? { w := w.(settled := Some(CancelledResult(JobCancelled))); }
      workers := workers[id := w];
    }

    /** The timeout callback. */
    method FireTimer(id: nat)
      requires id in workers
      modifies this`workers
      ensures workers == old(workers)[id := TimedOut(old(workers)[id])]
    {
      var w := workers[id].(timedOut := true, aborted := true);
      if w.settled.None? { w := w.(settled := Some(FailureResult(JobTimeout))); }
      workers := workers[id := w];
    }

    /** `runCapabilityJob` from the settling of a race to its next await or its end. */
    method Resume(id: nat, at: int, output: Node)
      requires id in workers && workers[id].settled.Some?
      modifies this`records, this`workers, this`roots
      ensures State() == ResumeWorker(env, old(State()), id, at, Listed(output))
    {
      var w := workers[id];
      var result := w.settled.value;
      var index := FindIndex(id);
      if w.stage == AwaitingHandler && !w.timedOut && !w.aborted && result.status == Succeeded {
        if index.Some? && records[index.value].job.Some? && !records[index.value].job.value.lifecycle.Ended? {
          var validating := records[index.value];
          validating := validating.(job := Some(validating.job.value.(lifecycle := Validating, step := AtValidating)));
          validating := validating.(state := ExecCompleting, updatedAt := at);
          Save(validating);
          workers := workers[id := w.(stage := AwaitingEnforcement, settled := None, handler := Some(result))];
          return;
        }
      }
      if w.timedOut {
        result := FailureResult(JobTimeout);
      } else if w.aborted {
        result := CancelledResult(JobCancelled);
      }
      if index.Some? {
        var listed := ListOutputFiles(output);
        SaveJobTerminal(records[index.value], result, at, listed);
      }
      workers := workers - {id};
    }

    // ------------------------------------------------------- cancelling

    /** `cancelCapabilityJob`: the reply names the job as it is afterwards, also when it had ended before. */
    method CancelCapabilityJob(id: nat, lookup: Lookup, at: int) returns (reply: CancelReply)
      modifies this`records, this`workers, this`roots
      ensures State() == CancelJob(env, old(State()), id, lookup, at)
      ensures reply == ReplyToCancel(old(State()), State(), id, lookup)
    {
      var index := FindIndex(id);
      if index.None? || records[index.value].job.None? { return JobNotFound; }
      if !LookupMatches(records[index.value].job.value, lookup) { return IdentityMismatch; }
      if records[index.value].job.value.lifecycle.Ended? { return Answered(records[index.value]); }
      CancelUnended(id, index.value, lookup, at);
      reply := Answer(id);
    }

    method Answer(id: nat) returns (reply: CancelReply)
      ensures reply == if Find(records, id).None? || RecordOf(State(), id).job.None? then StoreCorrupt else Answered(RecordOf(State(), id))
    {
      var index := FindIndex(id);
      if index.None? || records[index.value].job.None? { return StoreCorrupt; }
      return Answered(records[index.value]);
    }

    method CancelUnended(id: nat, i: nat, ghost lookup: Lookup, at: int)
      requires Find(records, id) == Some(i) && CancelAccepted(State(), id, lookup)
      modifies this`records, this`workers, this`roots
      ensures State() == CancelJob(env, old(State()), id, lookup, at)
    {
      if records[i].job.value.lifecycle == Queued {
        CancelQueued(i, at);
      } else {
        MarkCancelling(i, at);
        if id in workers {
          Abort(id);
        } else {
          var index := FindIndex(id);
          if index.Some? { SaveJobTerminal(records[index.value], CancelledResult(WorkerNotActive), at, None); }
        }
      }
    }

    method MarkCancelling(i: nat, at: int)
      requires i < |records| && records[i].job.Some?
      modifies this`records
      ensures records == Saved(old(records), old(records)[i].(updatedAt := at, job := Some(old(records)[i].job.value.(
        cancelRequestedAt := Some(at), lifecycle := Cancelling, step := AtCancelling))))
    {
      var record := records[i];
      var j := record.job.value;
      record := record.(job := Some(j.(lifecycle := Cancelling, step := AtCancelling, cancelRequestedAt := Some(at))), updatedAt := at);
      Save(record);
    }

    method CancelQueued(i: nat, at: int)
      requires i < |records| && records[i].job.Some? && records[i].job.value.lifecycle == Queued
      modifies this`records, this`roots
      ensures var before := old(records)[i];
        var asked := before.(updatedAt := at, job := Some(before.job.value.(cancelRequestedAt := Some(at))));
        var ended := EndedRecord(env, asked, CancelledResult(JobCancelled), at, None).(auditReferences := before.auditReferences);
        records == Saved(old(records), ended) && roots == old(roots) - Removed(before, ended)
    {
      var record := records[i];
      ghost var asked := record.(updatedAt := at, job := Some(record.job.value.(cancelRequestedAt := Some(at))));
      ghost var ended := EndedRecord(env, asked, CancelledResult(JobCancelled), at, None).(auditReferences := record.auditReferences);
      var j := record.job.value;
      var artifact := j.artifact;
      if j.artifact.Some? && j.root.Some? {
        artifact := Some(Finalized(j.artifact.value, CancelledOutput, None));
        if Live(j.artifact.value) { RemoveRoot(j.root.value); }
      }
      var result := TerminalResult(env.bytes, CancelledResult(JobCancelled));
      record := record.(job := Some(j.(lifecycle := Ended(Status.Cancelled), step := AtEnd(Status.Cancelled),
        cancelRequestedAt := Some(at), terminalAt := Some(at), artifact := artifact, result := Some(result))));
      record := record.(state := ExecCancelled, updatedAt := at);
      assert record == ended;
      assert roots == old(roots) - Removed(old(records)[i], ended);
      Save(record);
    }

    // ------------------------------------------------------- recovery and maintenance

    method RecoverJobAt(i: nat, at: int)
      requires i < |records| <= STORE_CAP && Find(records, records[i].id) == Some(i)
      modifies this`records, this`roots
      ensures records == old(records)[i := RecoveredJob(env, old(records)[i], at)]
      ensures roots == old(roots) - Removed(old(records)[i], RecoveredJob(env, old(records)[i], at))
    {
      var record := records[i];
      if Lost(record) {
        SavedReplaces(records, RecoveredJob(env, record, at));
        SaveJobTerminal(record, FailureResult(WorkerLost), at, None);
      }
    }

    /** `recoverCapabilityJobs`: ends every running or cancelling job, saving them one by one. */
    method RecoverCapabilityJobs(at: int) returns (recovered: seq<nat>)
      requires UniqueIds(records) && |records| <= STORE_CAP
      modifies this`records, this`roots
      ensures State() == RecoverAllJobs(env, old(State()), at)
      ensures recovered == IdsWhere(IsLost(), old(records))
    {
      LosingFindable(env, records, at);
      recovered := LoseWorkers(at);
    }

    method LoseWorkers(at: int) returns (recovered: seq<nat>)
      requires |records| <= STORE_CAP && Findable(LosingWorkers(env, at), records)
      modifies this`records, this`roots
      ensures State() == RecoverAllJobs(env, old(State()), at)
      ensures recovered == IdsWhere(IsLost(), old(records))
    {
      ghost var snapshot := records;
      recovered := [];
      ghost var f := LosingWorkers(env, at);
      for i := 0 to |records|
        invariant records == Partly(f, snapshot, i) && roots == old(roots) - GivenUp(f, snapshot, i)
        invariant recovered == IdsWhere(IsLost(), snapshot[..i])
      {
        IdsStep(IsLost(), snapshot, i);
        LoopStep(f, snapshot, i);
        if Lost(records[i]) { recovered := recovered + [records[i].id]; }
        assert FindableAt(f, snapshot, i);
        RecoverJobAt(i, at);
      }
      LoopDone(f, old(State()), State());
    }

    method MaintainArtifactAt(i: nat, at: int) returns (expired: bool)
      requires i < |records|
      modifies this`records, this`roots
      ensures records == old(records)[i := MaintainedRecord(old(records)[i], at)]
      ensures roots == old(roots) - Removed(old(records)[i], MaintainedRecord(old(records)[i], at))
      ensures expired <==> Expiring(old(records)[i], at)
    {
      var record := records[i];
      if record.job.None? || record.job.value.artifact.None? || record.job.value.root.None? { return false; }
      var j := record.job.value;
      var a := j.artifact.value;
      if a.state == Available && a.retainedUntil <= at {
        RemoveRoot(j.root.value);
        records := records[i := record.(updatedAt := at, job := Some(j.(artifact := Some(a.(state := Expired)))))];
        return true;
      } else if a.state == Pending && j.lifecycle.Ended? {
        RemoveRoot(j.root.value);
        var target := if j.lifecycle.status == Status.Cancelled then CancelledOutput else FailedOutput;
        records := records[i := record.(updatedAt := at, job := Some(j.(artifact := Some(Finalized(a, target, None)))))];
      }
      return false;
    }

    /** `maintainCapabilityJobArtifacts`: expires old artifacts and finalizes pending ones of terminal jobs. */
    method MaintainCapabilityJobArtifacts(at: int) returns (expired: seq<nat>)
      modifies this`records, this`roots
      ensures State() == MaintainAllArtifacts(old(State()), at)
      ensures expired == IdsWhere(IsExpiring(at), old(records))
    {
      ghost var snapshot := records;
      expired := [];
      ghost var f := Maintaining(at);
      for i := 0 to |records|
        invariant records == Partly(f, snapshot, i) && roots == old(roots) - GivenUp(f, snapshot, i)
        invariant expired == IdsWhere(IsExpiring(at), snapshot[..i])
      {
        IdsStep(IsExpiring(at), snapshot, i);
        LoopStep(f, snapshot, i);
        var record := records[i];
        var expiring := MaintainArtifactAt(i, at);
        if expiring { expired := expired + [record.id]; }
      }
      LoopDone(f, old(State()), State());
    }

    method RecoverExecutionAt(i: nat, valid: bool, at: int)
      requires i < |records|
      modifies this`records
      ensures records == old(records)[i := RecoveredRecord(old(records)[i], _ => valid, _ => valid, at)]
    {
      var record := records[i];
      if ActiveState(record.state) {
        records := records[i := record.(state := if valid then ExecRecovered else ExecFailed, updatedAt := at)];
      }
    }

    /** The loop of `recoverCapabilityRuntime` over execution records that are still active. */
    method RecoverExecutions(providerValid: nat -> bool, capabilityValid: nat -> bool, at: int)
      returns (recovered: seq<nat>, failed: seq<nat>, expired: seq<nat>)
      modifies this`records
      ensures State() == Rewritten(old(State()), Recovering(providerValid, capabilityValid, at))
      ensures recovered == IdsWhere(Resumable(providerValid, capabilityValid), old(records))
      ensures failed == IdsWhere(Invalidated(providerValid, capabilityValid), old(records))
      ensures expired == IdsWhere(LeaseExpired(providerValid, capabilityValid, at), old(records))
    {
      ghost var snapshot := records;
      recovered, failed, expired := [], [], [];
      ghost var f := Recovering(providerValid, capabilityValid, at);
      for i := 0 to |records|
        invariant records == Partly(f, snapshot, i)
        invariant recovered == IdsWhere(Resumable(providerValid, capabilityValid), snapshot[..i])
        invariant failed == IdsWhere(Invalidated(providerValid, capabilityValid), snapshot[..i])
        invariant expired == IdsWhere(LeaseExpired(providerValid, capabilityValid, at), snapshot[..i])
      {
        IdsStep(Resumable(providerValid, capabilityValid), snapshot, i);
        IdsStep(Invalidated(providerValid, capabilityValid), snapshot, i);
        IdsStep(LeaseExpired(providerValid, capabilityValid, at), snapshot, i);
        LoopStep(f, snapshot, i);
        var record := records[i];
        var valid := providerValid(record.id) && capabilityValid(record.id);
        if ActiveState(record.state) {
          if !valid {
            failed := failed + [record.id];
          } else {
            recovered := recovered + [record.id];
            if record.leaseExpiresAt.Some? && record.leaseExpiresAt.value <= at { expired := expired + [record.id]; }
          }
        }
        RecoverExecutionAt(i, valid, at);
      }
      NothingGivenUp(providerValid, capabilityValid, snapshot, |snapshot|, at);
      LoopDone(f, old(State()), State());
    }

    /** `store.records.flatMap(record => record.auditReferences)`. */
    method CollectReferences() returns (references: seq<nat>)
      ensures references == References(records)
    {
      references := [];
      for i := 0 to |records|
        invariant references == References(records[..i])
      {
        assert records[..i + 1][..i] == records[..i];
        references := references + records[i].auditReferences;
      }
      assert records[..|records|] == records;
    }

    /** `recoverCapabilityRuntime`. */
    method RecoverCapabilityRuntime(providerValid: nat -> bool, capabilityValid: nat -> bool, keep: nat, at: int)
      returns (recovered: seq<nat>, failed: seq<nat>, expired: seq<nat>, preserved: seq<nat>)
      requires UniqueIds(records) && |records| <= STORE_CAP
      modifies this`records, this`roots
      ensures State() == RecoverAll(env, old(State()), providerValid, capabilityValid, keep, at)
      ensures var u := RecoverAllJobs(env, old(State()), at);
        && recovered == IdsWhere(IsLost(), old(records)) + IdsWhere(Resumable(providerValid, capabilityValid), u.store)
        && failed == IdsWhere(Invalidated(providerValid, capabilityValid), u.store)
        && expired == IdsWhere(LeaseExpired(providerValid, capabilityValid, at), u.store)
        && preserved == References(Rewritten(u, Recovering(providerValid, capabilityValid, at)).store)
    {
      recovered := RecoverCapabilityJobs(at);
      var resumed;
      resumed, failed, expired := RecoverExecutions(providerValid, capabilityValid, at);
      recovered := recovered + resumed;
      preserved := CollectReferences();
      KeepLast(keep);
    }

    /** The bounded write. */
    method KeepLast(keep: nat)
      modifies this`records
      ensures records == Last(keep, old(records))
    {
      LastIsSlice(keep, records);
      if |records| > keep { records := records[|records| - keep..]; }
    }

    method RetainRecords(cutoff: int) returns (removed: seq<nat>, preserved: seq<nat>)
      modifies this`records
      ensures records == Retained(old(records), cutoff)
      ensures removed == IdsWhere(IsDoomed(cutoff), old(records)) && preserved == References(old(records))
    {
      var all := records;
      records, removed, preserved := [], [], [];
      for i := 0 to |all|
        invariant records == Retained(all[..i], cutoff)
        invariant removed == IdsWhere(IsDoomed(cutoff), all[..i]) && preserved == References(all[..i])
      {
        RetainedStep(all, i, cutoff);
        IdsStep(IsDoomed(cutoff), all, i);
        preserved := preserved + all[i].auditReferences;
        if Doomed(all[i], cutoff) { removed := removed + [all[i].id]; } else { records := records + [all[i]]; }
      }
      assert all[..|all|] == all;
    }

    method TrimRecords(cutoff: int, keep: nat) returns (removed: seq<nat>, preserved: seq<nat>)
      modifies this`records
      ensures State() == Trimmed(old(State()), cutoff, keep)
      ensures removed == IdsWhere(IsDoomed(cutoff), old(records)) && preserved == References(old(records))
    {
      removed, preserved := RetainRecords(cutoff);
      KeepLast(keep);
    }

    /** `maintainCapabilityRuntime`: artifact maintenance, then removal of old terminal records. */
    method MaintainCapabilityRuntime(retentionMs: int, keep: nat, at: int)
      returns (expired: seq<nat>, removed: seq<nat>, preserved: seq<nat>)
      modifies this`records, this`roots
      ensures State() == MaintainAll(old(State()), retentionMs, keep, at)
      ensures expired == IdsWhere(IsExpiring(at), old(records))
      ensures var t := MaintainAllArtifacts(old(State()), at).store;
        removed == IdsWhere(IsDoomed(at - retentionMs), t) && preserved == References(t)
    {
      expired := MaintainCapabilityJobArtifacts(at);
      removed, preserved := TrimRecords(at - retentionMs, keep);
    }
  }

  /** In a reachable store a cancellation always finds its job again, and leaves an ended one as it was. */
  lemma CancelAnswers(env: Env, past: seq<Timed>, at: int, id: nat, lookup: Lookup)
    requires Run(env, past).clock <= at
    ensures var s := Run(env, past).(clock := at);
      var reply := ReplyToCancel(s, CancelJob(env, s, id, lookup, at), id, lookup);
      && reply != StoreCorrupt
      && (reply.Answered? <==> Find(s.store, id).Some? && RecordOf(s, id).job.Some? && LookupMatches(JobOf(s, id), lookup))
      && (reply.Answered? && JobOf(s, id).lifecycle.Ended? ==> reply == Answered(RecordOf(s, id)))
  {
    CancelOutcome(env, past, at, id, lookup);
  }

  lemma RetainedStep(all: seq<Record>, i: nat, cutoff: int)
    requires i < |all|
    ensures Retained(all[..i + 1], cutoff) == Retained(all[..i], cutoff) + if Doomed(all[i], cutoff) then [] else [all[i]]
    ensures References(all[..i + 1]) == References(all[..i]) + all[i].auditReferences
  {
    assert all[..i + 1][..i] == all[..i];
  }

  // ------------------------------------------------------- what the maintenance loops report

  function IsLost(): Record -> bool { (r: Record) => Lost(r) }

  function IsExpiring(at: int): Record -> bool { (r: Record) => Expiring(r, at) }

  function Resumable(providerValid: nat -> bool, capabilityValid: nat -> bool): Record -> bool
  {
    (r: Record) => ActiveState(r.state) && providerValid(r.id) && capabilityValid(r.id)
  }

  function Invalidated(providerValid: nat -> bool, capabilityValid: nat -> bool): Record -> bool
  {
    (r: Record) => ActiveState(r.state) && !(providerValid(r.id) && capabilityValid(r.id))
  }

  function LeaseExpired(providerValid: nat -> bool, capabilityValid: nat -> bool, at: int): Record -> bool
  {
    (r: Record) => Resumable(providerValid, capabilityValid)(r) && r.leaseExpiresAt.Some? && r.leaseExpiresAt.value <= at
  }

  function IsDoomed(cutoff: int): Record -> bool { (r: Record) => Doomed(r, cutoff) }

  function References(records: seq<Record>): seq<nat>
  {
    if records == [] then []
    else
      var n := |records| - 1;
      References(records[..n]) + records[n].auditReferences
  }

  predicate Expiring(r: Record, at: int)
  {
    && r.job.Some? && r.job.value.artifact.Some? && r.job.value.root.Some?
    && r.job.value.artifact.value.state == Available && r.job.value.artifact.value.retainedUntil <= at
  }

  /** Identities of the records a loop reports, in store order. */
  function IdsWhere(p: Record -> bool, records: seq<Record>): seq<nat>
  {
    if records == [] then []
    else
      var n := |records| - 1;
      IdsWhere(p, records[..n]) + if p(records[n]) then [records[n].id] else []
  }

  lemma IdsStep(p: Record -> bool, records: seq<Record>, i: nat)
    requires i < |records|
    ensures IdsWhere(p, records[..i + 1]) ==
      IdsWhere(p, records[..i]) + if p(records[i]) then [records[i].id] else []
  {
    assert records[..i + 1][..i] == records[..i];
  }

  /** The store of a loop that has rewritten the first `i` records of its snapshot. */
  ghost function Partly(f: Record -> Record, snapshot: seq<Record>, i: nat): (r: seq<Record>)
    requires i <= |snapshot|
    ensures |r| == |snapshot|
  {
    if i == 0 then snapshot else Partly(f, snapshot, i - 1)[i - 1 := f(snapshot[i - 1])]
  }

  lemma {:induction false} PartlyAt(f: Record -> Record, snapshot: seq<Record>, i: nat, k: nat)
    requires i <= |snapshot| && k < |snapshot|
    ensures Partly(f, snapshot, i)[k] == if k < i then f(snapshot[k]) else snapshot[k]
  {
    if i > 0 { PartlyAt(f, snapshot, i - 1, k); }
  }

  /** The output roots such a loop has removed. */
  ghost function GivenUp(f: Record -> Record, snapshot: seq<Record>, i: nat): set<nat>
    requires i <= |snapshot|
  {
    if i == 0 then {} else GivenUp(f, snapshot, i - 1) + Removed(snapshot[i - 1], f(snapshot[i - 1]))
  }

  lemma {:induction false} GivenUpSoFar(f: Record -> Record, snapshot: seq<Record>, i: nat)
    requires i <= |snapshot|
    ensures GivenUp(f, snapshot, i) == RemovedRoots(snapshot[..i], Mapped(f, snapshot[..i]))
  {
    if i > 0 {
      GivenUpSoFar(f, snapshot, i - 1);
      var before, after := snapshot[..i], Mapped(f, snapshot[..i]);
      assert before[..i - 1] == snapshot[..i - 1];
      assert after[..i - 1] == Mapped(f, snapshot[..i - 1]);
    }
  }

  lemma LoopStep(f: Record -> Record, snapshot: seq<Record>, i: nat)
    requires i < |snapshot|
    ensures Partly(f, snapshot, i)[i] == snapshot[i]
    ensures Partly(f, snapshot, i + 1) == Partly(f, snapshot, i)[i := f(snapshot[i])]
    ensures GivenUp(f, snapshot, i + 1) == GivenUp(f, snapshot, i) + Removed(snapshot[i], f(snapshot[i]))
  {
    PartlyAt(f, snapshot, i, i);
  }

  lemma LoopDone(f: Record -> Record, s: Engine, t: Engine)
    requires t == s.(store := Partly(f, s.store, |s.store|), roots := s.roots - GivenUp(f, s.store, |s.store|))
    ensures t == Rewritten(s, f)
    ensures s.store[..|s.store|] == s.store
  {
    GivenUpSoFar(f, s.store, |s.store|);
    assert s.store[..|s.store|] == s.store;
    forall k | 0 <= k < |s.store| ensures t.store[k] == f(s.store[k]) { PartlyAt(f, s.store, |s.store|, k); }
    assert t.store == Mapped(f, s.store);
  }

  /** Each record is found at its own place when the loop comes to it. */
  ghost predicate Findable(f: Record -> Record, snapshot: seq<Record>)
  {
    forall i :: 0 <= i < |snapshot| ==> FindableAt(f, snapshot, i)
  }

  ghost predicate FindableAt(f: Record -> Record, snapshot: seq<Record>, i: nat)
    requires i < |snapshot|
  {
    Find(Partly(f, snapshot, i), snapshot[i].id) == Some(i)
  }

  lemma LosingFindable(env: Env, snapshot: seq<Record>, at: int)
    requires UniqueIds(snapshot)
    ensures Findable(LosingWorkers(env, at), snapshot)
  {
    forall i | 0 <= i < |snapshot| ensures FindableAt(LosingWorkers(env, at), snapshot, i) {
      PartlyLosing(env, snapshot, i, at);
    }
  }

  lemma PartlyLosing(env: Env, snapshot: seq<Record>, i: nat, at: int)
    requires UniqueIds(snapshot) && i < |snapshot|
    ensures Find(Partly(LosingWorkers(env, at), snapshot, i), snapshot[i].id) == Some(i)
  {
    var f := LosingWorkers(env, at);
    var records := Partly(f, snapshot, i);
    forall k | 0 <= k < |snapshot| ensures records[k].id == snapshot[k].id { PartlyAt(f, snapshot, i, k); }
    FindUnique(records, i);
  }

  lemma {:induction false} NothingGivenUp(providerValid: nat -> bool, capabilityValid: nat -> bool, snapshot: seq<Record>, i: nat, at: int)
    requires i <= |snapshot|
    ensures GivenUp(Recovering(providerValid, capabilityValid, at), snapshot, i) == {}
  {
    if i > 0 { NothingGivenUp(providerValid, capabilityValid, snapshot, i - 1, at); }
  }

  lemma {:induction false} IdsMembership(p: Record -> bool, records: seq<Record>, x: nat)
    ensures x in IdsWhere(p, records) <==> exists r :: r in records && p(r) && r.id == x
  {
    if records != [] {
      var n := |records| - 1;
      IdsMembership(p, records[..n], x);
      assert forall r :: r in records <==> r == records[n] || r in records[..n];
    }
  }

  /** The identities runtime recovery reports are exactly the recovered and the failed ones. */
  lemma ReportIsExact(env: Env, s: Engine, providerValid: nat -> bool, capabilityValid: nat -> bool, at: int, x: nat)
    ensures x in IdsWhere(IsLost(), s.store) + IdsWhere(Resumable(providerValid, capabilityValid), RecoverAllJobs(env, s, at).store)
      <==> x in RecoveredIds(env, s, providerValid, capabilityValid)
    ensures x in IdsWhere(Invalidated(providerValid, capabilityValid), RecoverAllJobs(env, s, at).store)
      <==> x in FailedIds(env, s, providerValid, capabilityValid)
  {
    var u := RecoverAllJobs(env, s, at);
    IdsMembership(IsLost(), s.store, x);
    IdsMembership(Resumable(providerValid, capabilityValid), u.store, x);
    IdsMembership(Invalidated(providerValid, capabilityValid), u.store, x);
    StillActive(env, s, at);
  }

  /** The records still active after job recovery are those that were active and not lost. */
  lemma StillActive(env: Env, s: Engine, at: int)
    ensures forall r :: r in RecoverAllJobs(env, s, at).store && ActiveState(r.state) <==> r in s.store && !Lost(r) && ActiveState(r.state)
  {
    var u := RecoverAllJobs(env, s, at).store;
    forall r | r in u && ActiveState(r.state) ensures r in s.store && !Lost(r) {
      var i :| 0 <= i < |u| && u[i] == r;
      assert u[i] == RecoveredJob(env, s.store[i], at) && s.store[i] in s.store;
    }
    forall r | r in s.store && !Lost(r) ensures r in u {
      var i :| 0 <= i < |s.store| && s.store[i] == r;
      assert u[i] == RecoveredJob(env, s.store[i], at);
    }
  }

  lemma {:induction false} ReferencesMembership(records: seq<Record>, x: nat)
    ensures x in References(records) <==> exists r :: r in records && x in r.auditReferences
  {
    if records != [] {
      var n := |records| - 1;
      ReferencesMembership(records[..n], x);
      assert forall r :: r in records <==> r == records[n] || r in records[..n];
    }
  }

  /** Maintenance reports the audit references of every record it found, of those it removes as well. */
  lemma NoReferenceIsLost(s: Engine, at: int, r: Record, x: nat)
    requires r in s.store && x in r.auditReferences
    ensures x in References(MaintainAllArtifacts(s, at).store)
  {
    var t := MaintainAllArtifacts(s, at).store;
    var i :| 0 <= i < |s.store| && s.store[i] == r;
    assert t[i] == MaintainedRecord(r, at) && t[i] in t && t[i].auditReferences == r.auditReferences;
    ReferencesMembership(t, x);
  }
}
