/** Safety of the capability-job protocol over every run. */
module JobTheorems {
  import opened Wrappers
  import opened Strings
  import opened JsonText
  import opened JsonInjectivity
  import opened SchemaValidation
  import opened Redaction
  import opened ResultEnforcement
  import opened OutputArtifact
  import opened JobRecords
  import opened JobEngine
  import opened JobSafety
  import opened JobSteps
  import opened JobDrops
  import opened JobRuns

  lemma {:induction false} RunKeepsInvariant(env: Env, s: Engine, events: seq<Timed>)
    requires Inv(env, s)
    ensures Inv(env, RunFrom(env, s, events))
  {
    if events != [] {
      RunKeepsInvariant(env, s, events[..|events| - 1]);
      StepKeeps(env, RunFrom(env, s, events[..|events| - 1]), events[|events| - 1]);
    }
  }

  /** Every reachable engine satisfies the invariant. */
  lemma Reachable(env: Env, events: seq<Timed>)
    ensures Inv(env, Run(env, events))
  {
    assert Inv(env, INITIAL);
    RunKeepsInvariant(env, INITIAL, events);
  }

  // ------------------------------------------------------- one job over time

  predicate JobLater(j: Job, k: Job)
  {
    && (j.lifecycle.Ended? ==> k.lifecycle == j.lifecycle && k.terminalAt == j.terminalAt && k.result == j.result)
    && (j.cancelRequestedAt.Some? ==> k.cancelRequestedAt.Some?)
  }

  /** `after` is the same job as `before`, at the same time or later. */
  predicate Later(before: Record, after: Record)
  {
    SameIdentity(before, after) && (before.job.Some? ==> JobLater(before.job.value, after.job.value))
  }

  /** A known identity is never stored again once it is gone, and what is stored descends from what was. */
  lemma {:induction false} Descends(env: Env, s: Engine, events: seq<Timed>, r: Record)
    requires Inv(env, s)
    requires r in RunFrom(env, s, events).store && r.id in s.rules
    ensures exists q :: q in s.store && Later(q, r)
    ensures s.rules.Keys <= RunFrom(env, s, events).rules.Keys
  {
    if events == [] {
      assert Later(r, r);
    } else {
      var past := events[..|events| - 1];
      var t := RunFrom(env, s, past);
      RunKeepsInvariant(env, s, past);
      StepKeeps(env, t, events[|events| - 1]);
      RulesGrow(env, s, past);
      assert Traced(env, t, r);
      var p :| p in t.store && Progress(env, t, p, r);
      Descends(env, s, past, p);
      var q :| q in s.store && Later(q, p);
      assert Later(q, r);
    }
  }

  lemma {:induction false} RulesGrow(env: Env, s: Engine, events: seq<Timed>)
    requires Inv(env, s)
    ensures s.rules.Keys <= RunFrom(env, s, events).rules.Keys
  {
    if events != [] {
      var past := events[..|events| - 1];
      RulesGrow(env, s, past);
      RunKeepsInvariant(env, s, past);
      StepKeeps(env, RunFrom(env, s, past), events[|events| - 1]);
    }
  }

  lemma JobsHaveRules(env: Env, s: Engine, r: Record)
    requires Inv(env, s) && r in s.store && r.job.Some?
    ensures r.id in s.rules && JobOk(env, s, r, r.job.value)
  {
    var i :| 0 <= i < |s.store| && s.store[i] == r;
    assert RecordOk(env, s, s.store[i]);
  }

  /** Two stored records with one identity are one record. */
  lemma SameIdSameRecord(env: Env, s: Engine, q: Record, r: Record)
    requires Inv(env, s) && q in s.store && r in s.store && q.id == r.id
    ensures q == r
  {
  }

  /** A terminal job's lifecycle, end time and result never change again. */
  lemma TerminalIsFrozen(env: Env, past: seq<Timed>, future: seq<Timed>, q: Record, r: Record)
    requires q in Run(env, past).store && q.job.Some? && q.job.value.lifecycle.Ended?
    requires r in RunFrom(env, Run(env, past), future).store && r.id == q.id
    ensures r.job.Some? && r.job.value.lifecycle == q.job.value.lifecycle
    ensures r.job.value.terminalAt == q.job.value.terminalAt && r.job.value.result == q.job.value.result
  {
    var s := Run(env, past);
    Reachable(env, past);
    JobsHaveRules(env, s, q);
    Descends(env, s, future, r);
    var p :| p in s.store && Later(p, r);
    SameIdSameRecord(env, s, p, q);
  }

  /** A job whose cancellation was accepted before it was terminal never ends `succeeded`. */
  lemma CancelledNeverSucceeds(env: Env, past: seq<Timed>, at: int, id: nat, lookup: Lookup, future: seq<Timed>, r: Record)
    requires Legal(Run(env, past), Timed(at, Cancel(id, lookup))) && CancelAccepted(Run(env, past), id, lookup)
    requires r in RunFrom(env, Next(env, Run(env, past), Timed(at, Cancel(id, lookup))), future).store && r.id == id
    ensures r.job.Some? && r.job.value.lifecycle != Ended(Succeeded)
  {
    var s := Run(env, past);
    var t := Next(env, s, Timed(at, Cancel(id, lookup)));
    Reachable(env, past);
    AdvanceClock(env, s, at);
    CancelInPlace(env, s.(clock := at), id, lookup, at);
    StepKeeps(env, s, Timed(at, Cancel(id, lookup)));
    AskedNeverSucceeds(env, t, RecordOf(t, id), future, r);
  }

  /** A job that has been asked to cancel is never seen to succeed afterwards. */
  lemma AskedNeverSucceeds(env: Env, t: Engine, c: Record, future: seq<Timed>, r: Record)
    requires Inv(env, t) && c in t.store && c.job.Some? && c.job.value.cancelRequestedAt.Some?
    requires r in RunFrom(env, t, future).store && r.id == c.id
    ensures r.job.Some? && r.job.value.lifecycle != Ended(Succeeded)
  {
    JobsHaveRules(env, t, c);
    Descends(env, t, future, r);
    var q :| q in t.store && Later(q, r);
    SameIdSameRecord(env, t, q, c);
    RunKeepsInvariant(env, t, future);
    JobsHaveRules(env, RunFrom(env, t, future), r);
  }

  /**
   * Cancelling is accepted exactly for a stored, matching job that has not ended. A queued job, or one without a worker,
   * is then cancelled at once; otherwise the job is cancelling and its worker aborted. A refused call changes nothing.
   */
  lemma CancelOutcome(env: Env, past: seq<Timed>, at: int, id: nat, lookup: Lookup)
    requires Run(env, past).clock <= at
    ensures var s := Run(env, past).(clock := at);
      CancelAccepted(s, id, lookup) <==> exists r :: r in s.store && r.id == id && Cancellable(r, lookup)
    ensures var s := Run(env, past).(clock := at);
      var t := CancelJob(env, s, id, lookup, at);
      if !CancelAccepted(s, id, lookup) then t == s
      else
        && Find(t.store, id).Some? && RecordOf(t, id).job.Some?
        && if JobOf(s, id).lifecycle == Queued || id !in s.workers then JobOf(t, id).lifecycle == Ended(Status.Cancelled)
           else JobOf(t, id).lifecycle == Cancelling && id in t.workers && t.workers[id].aborted
  {
    var s := Run(env, past).(clock := at);
    Reachable(env, past);
    AdvanceClock(env, Run(env, past), at);
    forall r | r in s.store && r.id == id && Cancellable(r, lookup) ensures CancelAccepted(s, id, lookup) {
      StoredAt(s, r);
    }
    if CancelAccepted(s, id, lookup) {
      assert RecordOf(s, id) in s.store && Cancellable(RecordOf(s, id), lookup);
      var r := CancelledRecord(env, s, id, lookup, at);
      SavedReplaces(s.store, r);
      FindReplaced(s.store, Find(s.store, id).value, r);
    }
  }

  predicate Cancellable(r: Record, lookup: Lookup)
  {
    && r.job.Some? && r.job.value.lifecycle in {Queued, Running, Validating, Cancelling}
    && r.job.value.sourceId == lookup.sourceId && r.job.value.sessionId == lookup.sessionId
    && r.job.value.runId == lookup.runId && r.job.value.requestId == lookup.requestId
  }

  lemma StoredAt(s: Engine, q: Record)
    requires UniqueIds(s.store) && q in s.store
    ensures Find(s.store, q.id).Some? && RecordOf(s, q.id) == q
  {
    var i :| 0 <= i < |s.store| && s.store[i] == q;
    FindUnique(s.store, i);
  }

  // ------------------------------------------------------- idempotency

  lemma FingerprintKeysDistinct()
    ensures Distinct(FingerprintKeys())
  {
    var k := FingerprintKeys();
    assert |k[0]| == 12 && |k[1]| == 17 && |k[2]| == 8 && |k[3]| == 9;
    assert |k[4]| == 5 && |k[5]| == 14 && |k[6]| == 11 && |k[7]| == 5;
    assert k[4][0] == 114 && k[7][0] == 105;
  }

  /** Everything a fingerprint covers. */
  ghost predicate SameContent(q: JobRequest, r: JobRequest)
  {
    && q.capabilityId == r.capabilityId && q.capabilityVersion == r.capabilityVersion
    && q.sourceId == r.sourceId && q.sessionId == r.sessionId && q.runId == r.runId
    && q.idempotencyKey == r.idempotencyKey && q.requestedBy == r.requestedBy
    && Same(q.input, r.input)
  }

  lemma ValuesDecide(q: JobRequest, r: JobRequest)
    ensures SameContent(q, r) <==>
      forall i :: 0 <= i < 8 ==> Same(FingerprintValues(q)[i], FingerprintValues(r)[i])
  {
    var u, v := FingerprintValues(q), FingerprintValues(r);
    if forall i :: 0 <= i < 8 ==> Same(u[i], v[i]) {
      assert Same(u[0], v[0]) && Same(u[1], v[1]) && Same(u[2], v[2]) && Same(u[3], v[3]);
      assert Same(u[4], v[4]) && Same(u[5], v[5]) && Same(u[6], v[6]) && Same(u[7], v[7]);
    }
  }

  /** Two requests have the same fingerprint exactly when they agree on everything it covers. */
  lemma FingerprintDecides(format: NumberFormat, q: JobRequest, r: JobRequest)
    requires GoodFormat(format) && WellFormed(q.input) && WellFormed(r.input)
    ensures JobFingerprint(format, q) == JobFingerprint(format, r) <==> SameContent(q, r)
  {
    FingerprintKeysDistinct();
    PrintCanonical(format, FingerprintObject(q), FingerprintObject(r));
    ZipSame(FingerprintKeys(), FingerprintValues(q), FingerprintValues(r));
    ValuesDecide(q, r);
  }

  lemma KeyIndexUnique(records: seq<Record>, i: nat, j: nat)
    requires UniqueKeys(records) && i < |records| && j < |records|
    requires records[i].job.Some? && records[j].job.Some? && SharedKey(records[i].job.value, records[j].job.value)
    ensures i == j
  {
    assert SharedKey(records[j].job.value, records[i].job.value);
  }

  /** At most one retained job answers for an idempotency identity, and the store stays within its cap. */
  lemma OneJobPerKey(env: Env, events: seq<Timed>, q: Record, r: Record)
    requires q in Run(env, events).store && r in Run(env, events).store
    requires q.job.Some? && r.job.Some? && SharedKey(q.job.value, r.job.value)
    ensures q == r && |Run(env, events).store| <= 300
  {
    Reachable(env, events);
    var s := Run(env, events);
    var i :| 0 <= i < |s.store| && s.store[i] == q;
    var j :| 0 <= j < |s.store| && s.store[j] == r;
    KeyIndexUnique(s.store, i, j);
  }

  /**
   * A request submitted while the job created for `b` is still retained, under the same idempotency identity:
   * the same request gets that job back unchanged, any other request a conflict, and nothing is stored.
   */
  lemma ResubmissionIsIdempotent(env: Env, past: seq<Timed>, at: int, b: Submission, future: seq<Timed>, r: Record, c: Submission, now: int)
    requires GoodFormat(env.format) && WellFormed(b.request.input) && WellFormed(c.request.input)
    requires var s := Run(env, past);
      Legal(s, Timed(at, BrokerRun(b))) && RunBroker(env, s.(clock := at), b, at).1.Created?
    requires r in RunFrom(env, Next(env, Run(env, past), Timed(at, BrokerRun(b))), future).store && r.id == b.id
    requires RequestValid(env.bytes, c.request) && r.job.Some? && SameKey(r.job.value, c.request)
    ensures var t := RunFrom(env, Next(env, Run(env, past), Timed(at, BrokerRun(b))), future);
      SubmitJob(env, t, c, now) == if SameContent(b.request, c.request) then (t, Existing(r)) else (t, Conflict(r))
  {
    var s := Run(env, past);
    Reachable(env, past);
    var created := Next(env, s, Timed(at, BrokerRun(b)));
    StepKeeps(env, s, Timed(at, BrokerRun(b)));
    KeepsFingerprint(env, s.(clock := at), b, at, created, future, r);
    RunKeepsInvariant(env, created, future);
    FingerprintDecides(env.format, b.request, c.request);
    Answers(env, RunFrom(env, created, future), b.request, r, c, now);
  }

  /** A submitted job keeps its capability and fingerprint for as long as it is stored. */
  lemma KeepsFingerprint(env: Env, s: Engine, b: Submission, at: int, created: Engine, future: seq<Timed>, r: Record)
    requires Legal(s, Timed(at, BrokerRun(b))) && RunBroker(env, s, b, at).1.Created?
    requires created == RunBroker(env, s, b, at).0 && Inv(env, created)
    requires r in RunFrom(env, created, future).store && r.id == b.id
    ensures SameRequest(env, NewRecord(env, b, at).job.value, b.request) && r.job.Some?
    ensures r.job.value.capabilityId == b.request.capabilityId && r.job.value.capabilityVersion == b.request.capabilityVersion
    ensures r.job.value.fingerprint == JobFingerprint(env.format, b.request)
  {
    BrokerCases(env, s, b, at);
    Descends(env, created, future, r);
    var q :| q in created.store && Later(q, r);
    CreatedRecord(env, s, b, at, q);
  }

  /** How a store that holds this job answers a request under its key. */
  lemma Answers(env: Env, t: Engine, first: JobRequest, r: Record, c: Submission, now: int)
    requires Inv(env, t) && r in t.store && RequestValid(env.bytes, c.request) && r.job.Some? && SameKey(r.job.value, c.request)
    requires r.job.value.capabilityId == first.capabilityId && r.job.value.capabilityVersion == first.capabilityVersion
    requires r.job.value.fingerprint == JobFingerprint(env.format, first)
    requires JobFingerprint(env.format, first) == JobFingerprint(env.format, c.request) <==> SameContent(first, c.request)
    ensures SubmitJob(env, t, c, now) == if SameContent(first, c.request) then (t, Existing(r)) else (t, Conflict(r))
  {
    KeyFound(env, t, r, c.request);
  }

  /** The record a submission creates is the only one with its identity. */
  lemma CreatedRecord(env: Env, s: Engine, b: Submission, at: int, q: Record)
    requires Legal(s, Timed(at, BrokerRun(b))) && RunBroker(env, s, b, at).1.Created?
    requires q in RunBroker(env, s, b, at).0.store && q.id == b.id
    ensures q == NewRecord(env, b, at)
  {
    BrokerCases(env, s, b, at);
    var r := NewRecord(env, b, at);
    assert q in s.store + [r];
  }

  lemma KeyFound(env: Env, s: Engine, r: Record, q: JobRequest)
    requires Inv(env, s) && r in s.store && r.job.Some? && SameKey(r.job.value, q)
    ensures FindKey(s.store, q).Some? && s.store[FindKey(s.store, q).value] == r
  {
    var i :| 0 <= i < |s.store| && s.store[i] == r;
    var j := FindKey(s.store, q).value;
    KeyIndexUnique(s.store, i, j);
  }

  // ------------------------------------------------------- recovery

  /** What recovery acts on: an active execution, or a job that was running or being cancelled. */
  predicate Interrupted(r: Record)
  {
    ActiveState(r.state) || Lost(r)
  }

  function RecoveredIds(env: Env, s: Engine, p: nat -> bool, c: nat -> bool): set<nat>
  {
    set r | r in s.store && (Lost(r) || (ActiveState(r.state) && p(r.id) && c(r.id))) :: r.id
  }

  function FailedIds(env: Env, s: Engine, p: nat -> bool, c: nat -> bool): set<nat>
  {
    set r | r in s.store && !Lost(r) && ActiveState(r.state) && !(p(r.id) && c(r.id)) :: r.id
  }

  /** Every record recovery leaves comes from one it found. */
  lemma RecoveredFrom(env: Env, s: Engine, p: nat -> bool, c: nat -> bool, keep: nat, at: int, r: Record) returns (q: Record)
    requires r in RecoverAll(env, s, p, c, keep, at).store
    ensures q in s.store && r == RecoveredRecord(RecoveredJob(env, q, at), p, c, at)
  {
    var u := RecoverAllJobs(env, s, at);
    var t := Rewritten(u, Recovering(p, c, at)).store;
    LastIsSlice(keep, t);
    assert r in t;
    var i :| 0 <= i < |t| && t[i] == r;
    q := s.store[i];
  }

  /** After recovery nothing is interrupted and whatever was not interrupted is untouched. */
  lemma RecoverySettles(env: Env, s: Engine, p: nat -> bool, c: nat -> bool, keep: nat, at: int, r: Record)
    requires r in RecoverAll(env, s, p, c, keep, at).store
    ensures !Interrupted(r) && r.state in {ExecCompleted, ExecFailed, ExecCancelled, ExecExpired, ExecRecovered}
    ensures exists q :: q in s.store && q.id == r.id && (!Interrupted(q) <==> q == r)
  {
    var q := RecoveredFrom(env, s, p, c, keep, at, r);
    RecoverySettlesOne(env, q, p, c, at);
  }

  lemma RecoverySettlesOne(env: Env, q: Record, p: nat -> bool, c: nat -> bool, at: int)
    ensures var r := RecoveredRecord(RecoveredJob(env, q, at), p, c, at);
      && !Interrupted(r) && r.state in {ExecCompleted, ExecFailed, ExecCancelled, ExecExpired, ExecRecovered}
      && q.id == r.id && (!Interrupted(q) <==> q == r)
  {
  }

  /**
   * Recovery ends every running or cancelling job as failed because its worker was lost, and leaves every other job as
   * it was, queued and validating ones included.
   */
  lemma RecoveryEndsLostJobs(env: Env, s: Engine, p: nat -> bool, c: nat -> bool, keep: nat, at: int, r: Record)
    returns (q: Record)
    requires r in RecoverAll(env, s, p, c, keep, at).store && r.job.Some?
    ensures q in s.store && q.id == r.id && q.job.Some?
    ensures q.job.value.lifecycle == Running || q.job.value.lifecycle == Cancelling ==>
      && r.job.value.lifecycle == Ended(Status.Failed) && r.job.value.terminalAt == Some(at) && r.state == ExecFailed
      && r.job.value.result.Some? && r.job.value.result.value.failure == Some(WorkerLost)
    ensures q.job.value.lifecycle != Running && q.job.value.lifecycle != Cancelling ==> r.job == q.job
  {
    q := RecoveredFrom(env, s, p, c, keep, at, r);
  }

  /** What maintenance leaves of one record: no expired artifact counts as available, none of an ended job as pending. */
  lemma MaintenanceSettles(r: Record, at: int)
    ensures var m := MaintainedRecord(r, at);
      && SameIdentity(r, m) && m.state == r.state
      && (m.job.Some? ==> m.job.value.lifecycle == r.job.value.lifecycle && m.job.value.result == r.job.value.result)
      && (m.job.Some? && m.job.value.artifact.Some? && m.job.value.root.Some? ==>
            && !(m.job.value.artifact.value.state == Available && m.job.value.artifact.value.retainedUntil <= at)
            && !(m.job.value.artifact.value.state == Pending && m.job.value.lifecycle.Ended?))
      && (LiveRoot(m).Some? ==> m == r)
    ensures r.job.Some? && r.job.value.artifact.Some? && r.job.value.root.Some? ==>
      var a, m := r.job.value.artifact.value, MaintainedRecord(r, at);
      && m.job.Some? && m.job.value.artifact.Some?
      && m.job.value.artifact.value.state ==
           (if a.state == Available && a.retainedUntil <= at then Expired
            else if a.state != Pending || !r.job.value.lifecycle.Ended? then a.state
            else if r.job.value.lifecycle == Ended(Status.Cancelled) then CancelledOutput
            else FailedOutput)
  {
  }

  /** An artifact is pending until its job ends, and available only for a job that succeeded, with its files within the limits. */
  lemma ArtifactFollowsJob(env: Env, events: seq<Timed>, r: Record)
    requires r in Run(env, events).store && r.job.Some? && r.job.value.artifact.Some?
    ensures r.job.value.artifact.value.state == Pending <==>
      r.job.value.lifecycle in {Queued, Running, Validating, Cancelling}
    ensures r.job.value.artifact.value.state == Available ==>
      && r.job.value.lifecycle == Ended(Succeeded)
      && r.job.value.artifact.value.fileCount <= 100 && r.job.value.artifact.value.byteSize <= 16_777_216
  {
    Reachable(env, events);
    JobsHaveRules(env, Run(env, events), r);
  }

  /** The reported identities partition the interrupted ones. */
  lemma RecoveryPartitions(env: Env, events: seq<Timed>, p: nat -> bool, c: nat -> bool)
    ensures var s := Run(env, events);
      && RecoveredIds(env, s, p, c) !! FailedIds(env, s, p, c)
      && RecoveredIds(env, s, p, c) + FailedIds(env, s, p, c) == set r | r in s.store && Interrupted(r) :: r.id
  {
    Reachable(env, events);
    var s := Run(env, events);
    forall x ensures !(x in RecoveredIds(env, s, p, c) && x in FailedIds(env, s, p, c)) {
      if x in RecoveredIds(env, s, p, c) && x in FailedIds(env, s, p, c) {
        var q :| q in s.store && (Lost(q) || (ActiveState(q.state) && p(q.id) && c(q.id))) && q.id == x;
        var r :| r in s.store && !Lost(r) && ActiveState(r.state) && !(p(r.id) && c(r.id)) && r.id == x;
        SameIdSameRecord(env, s, q, r);
      }
    }
  }

  /** A second recovery has nothing to report. */
  lemma RecoveryIsIdempotent(env: Env, s: Engine, p: nat -> bool, c: nat -> bool, keep: nat, at: int)
    ensures var t := RecoverAll(env, s, p, c, keep, at);
      RecoveredIds(env, t, p, c) == {} && FailedIds(env, t, p, c) == {}
  {
    var t := RecoverAll(env, s, p, c, keep, at);
    forall r | r in t.store ensures !Interrupted(r) {
      RecoverySettles(env, s, p, c, keep, at, r);
    }
  }

  // ------------------------------------------------------- retention

  lemma {:induction false} RetainedMember(records: seq<Record>, cutoff: int, i: nat)
    requires i < |records| && !Doomed(records[i], cutoff)
    ensures records[i] in Retained(records, cutoff)
  {
    if i < |records| - 1 { RetainedMember(records[..|records| - 1], cutoff, i); }
  }

  /** A record with an available artifact that maintenance leaves available is not old enough to be removed. */
  lemma AvailableIsRecent(env: Env, s: Engine, retentionMs: int, at: int, r: Record)
    requires Inv(env, s) && s.clock <= at && r in s.store && r.job.Some? && r.job.value.artifact.Some?
    requires r.job.value.artifact.value.retainedUntil - r.job.value.artifact.value.createdAt <= retentionMs
    requires MaintainedRecord(r, at).job.value.artifact.value.state == Available
    ensures MaintainedRecord(r, at) == r && !Doomed(r, at - retentionMs)
  {
    var i :| 0 <= i < |s.store| && s.store[i] == r;
    assert RecordOk(env, s, s.store[i]);
  }

  lemma StaysRetained(s: Engine, at: int, cutoff: int, r: Record)
    requires r in s.store && MaintainedRecord(r, at) == r && !Doomed(r, cutoff)
    ensures r in Retained(MaintainAllArtifacts(s, at).store, cutoff)
  {
    var i := MaintainedAt(s, at, r);
    RetainedMember(MaintainAllArtifacts(s, at).store, cutoff, i);
  }

  lemma MaintainedAt(s: Engine, at: int, r: Record) returns (i: nat)
    requires r in s.store && MaintainedRecord(r, at) == r
    ensures i < |MaintainAllArtifacts(s, at).store| && MaintainAllArtifacts(s, at).store[i] == r
  {
    i :| 0 <= i < |s.store| && s.store[i] == r;
  }

  lemma AvailableStays(env: Env, s: Engine, retentionMs: int, at: int, r: Record)
    requires Inv(env, s) && s.clock <= at && r in s.store && r.job.Some? && r.job.value.artifact.Some?
    requires r.job.value.artifact.value.retainedUntil - r.job.value.artifact.value.createdAt <= retentionMs
    requires MaintainedRecord(r, at).job.value.artifact.value.state == Available
    ensures MaintainedRecord(r, at) == r
    ensures r in Retained(MaintainAllArtifacts(s, at).store, at - retentionMs)
  {
    AvailableIsRecent(env, s, retentionMs, at, r);
    StaysRetained(s, at, at - retentionMs, r);
  }

  /** Maintenance never removes by age a job whose artifact is still available, if artifacts expire no later than records. */
  lemma AvailableArtifactsAreRetained(env: Env, events: seq<Timed>, retentionMs: int, at: int, r: Record)
    requires Run(env, events).clock <= at && r in Run(env, events).store && r.job.Some? && r.job.value.artifact.Some?
    requires r.job.value.artifact.value.retainedUntil - r.job.value.artifact.value.createdAt <= retentionMs
    requires MaintainedRecord(r, at).job.value.artifact.value.state == Available
    ensures MaintainedRecord(r, at) == r
    ensures r in Retained(MaintainAllArtifacts(Run(env, events), at).store, at - retentionMs)
  {
    Reachable(env, events);
    AvailableStays(env, Run(env, events), retentionMs, at, r);
  }
}
