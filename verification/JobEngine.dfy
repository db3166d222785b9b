/**
 * The durable capability-job protocol: every synchronous stretch between two awaits is one atomic step over the
 * store, the in-memory workers and the broker-owned output roots. This module defines the steps; JobSafety proves
 * what every run of them keeps, and JobCoordinator carries them out in place.
 */
module JobEngine {
  import opened Wrappers
  import opened Strings
  import opened JsonText
  import opened ResultEnforcement
  import opened OutputArtifact
  import opened JobRecords

  /** Number formatting and serialized sizes, which the model leaves abstract. */
  datatype Env = Env(format: NumberFormat, bytes: Measure)

  datatype Stage = Scheduled | AwaitingHandler | AwaitingEnforcement

  /** One activation of `runCapabilityJob` together with its abort controller. */
  datatype Worker = Worker(
    stage: Stage,
    aborted: bool,
    timedOut: bool,
    settled: Option<HandlerResult>,    // outcome of the pending Promise.race, once it has one
    handler: Option<HandlerResult>)    // the handler result under enforcement

  /** `rules` remembers the output rules each job was submitted with. */
  datatype Engine = Engine(
    store: seq<Record>,
    workers: map<nat, Worker>,
    roots: set<nat>,
    clock: int,
    rules: map<nat, OutputRules>)

  datatype Lookup = Lookup(sourceId: Str, sessionId: Str, runId: Str, requestId: Str)

  datatype Submission = Submission(
    id: nat,                   // a fresh job identity
    root: Option<nat>,         // a fresh output root, for isolated capabilities
    authorized: bool,          // the verdict of the execution guard
    request: JobRequest,
    rules: OutputRules,
    retentionMs: int)

  datatype Event =
    | BrokerRun(submission: Submission)
    | WorkerStarts(id: nat)
    | ReportStep(id: nat, step: Str)
    | HandlerSettles(id: nat, result: HandlerResult)
    | EnforcementSettles(id: nat, verdict: Str -> Verdict)
    | TimerFires(id: nat)
    | WorkerResumes(id: nat, output: Node)    // with what its output root then holds
    | WorkerFaults(id: nat, recorded: bool)
    | Cancel(id: nat, lookup: Lookup)
    | Restart
    | RecoverJobs
    | RecoverRuntime(providerValid: nat -> bool, capabilityValid: nat -> bool, keep: nat)
    | MaintainArtifacts
    | MaintainRuntime(retentionMs: int, keep: nat)
    | SaveExecution(record: Record)    // an ordinary execution record, which shares the store

  datatype Timed = Timed(at: int, event: Event)

  // ------------------------------------------------------- ending a job

  function CancelledResult(code: FailureCode): HandlerResult
  {
    HandlerResult(Status.Cancelled, Json.Undefined, None, None, Some(code))
  }

  function FailureResult(code: FailureCode): HandlerResult
  {
    HandlerResult(Status.Failed, Undefined, None, None, Some(code))
  }

  function ArtifactTarget(status: Status): ArtifactState
  {
    match status
    case Succeeded => Available
    case Failed => FailedOutput
    case Cancelled => CancelledOutput
  }

  function EndState(status: Status): ExecutionState
  {
    match status
    case Succeeded => ExecCompleted
    case Failed => ExecFailed
    case Cancelled => ExecCancelled
  }

  /** The record `saveJobTerminal` writes for a job that is not terminal yet. */
  function EndedRecord(env: Env, r: Record, result: HandlerResult, at: int, listed: Listing): Record
    requires r.job.Some?
  {
    var j := r.job.value;
    var artifact :=
      if j.artifact.Some? && j.root.Some?
      then Some(Finalized(j.artifact.value, ArtifactTarget(result.status), listed))
      else j.artifact;
    r.(state := EndState(result.status), updatedAt := at, auditReferences := [r.id],
       job := Some(j.(lifecycle := Ended(result.status), step := AtEnd(result.status), terminalAt := Some(at),
                      artifact := artifact, result := Some(TerminalResult(env.bytes, result)))))
  }

  /** The output root of a record, while its artifact still needs it. */
  function LiveRoot(r: Record): Option<nat>
  {
    if r.job.Some? && r.job.value.root.Some? && r.job.value.artifact.Some? && Live(r.job.value.artifact.value)
    then r.job.value.root
    else None
  }

  /** The output root removed when a record is rewritten from `before` to `after`. */
  function Removed(before: Record, after: Record): set<nat>
  {
    if LiveRoot(before).Some? && LiveRoot(after).None? then {LiveRoot(before).value} else {}
  }

  predicate Unended(s: Engine, id: nat)
  {
    var i := Find(s.store, id);
    i.Some? && s.store[i.value].job.Some? && !s.store[i.value].job.value.lifecycle.Ended?
  }

  function RecordOf(s: Engine, id: nat): Record
    requires Find(s.store, id).Some?
  {
    s.store[Find(s.store, id).value]
  }

  function JobOf(s: Engine, id: nat): Job
    requires Find(s.store, id).Some? && RecordOf(s, id).job.Some?
  {
    RecordOf(s, id).job.value
  }

  /** `saveJobTerminal` on the stored record; a missing or terminal record is left alone. */
  function EndJob(env: Env, s: Engine, id: nat, result: HandlerResult, at: int, listed: Listing): Engine
  {
    if !Unended(s, id) then s
    else
      var r := RecordOf(s, id);
      var ended := EndedRecord(env, r, result, at, listed);
      s.(store := Saved(s.store, ended), roots := s.roots - Removed(r, ended))
  }

  // ------------------------------------------------------- submitting

  datatype Outcome = Unauthorized | Invalid | Conflict(prior: Record) | Existing(prior: Record) | Created(record: Record)

  function NewRecord(env: Env, b: Submission, at: int): Record
  {
    var q := b.request;
    var artifact := if b.root.Some? then Some(PendingArtifact(b.id, at, b.retentionMs)) else None;
    Record(b.id, ExecPending, at, at, None, [b.id],
           Some(Job(q.capabilityId, q.capabilityVersion, q.sourceId, q.sessionId, q.runId, q.requestId,
                    q.idempotencyKey, JobFingerprint(env.format, q), Queued, AtQueued, None, None, None,
                    b.root, artifact, None)))
  }

  predicate SameRequest(env: Env, j: Job, q: JobRequest)
  {
    && j.capabilityId == q.capabilityId && j.capabilityVersion == q.capabilityVersion
    && j.fingerprint == JobFingerprint(env.format, q)
  }

  /** `submitCapabilityJob`. */
  function SubmitJob(env: Env, s: Engine, b: Submission, at: int): (Engine, Outcome)
  {
    var prior := FindKey(s.store, b.request);
    if !RequestValid(env.bytes, b.request) then (s, Invalid)
    else if prior.Some? && !SameRequest(env, s.store[prior.value].job.value, b.request) then
      (s, Conflict(s.store[prior.value]))
    else if prior.Some? then (s, Existing(s.store[prior.value]))
    else
      var r := NewRecord(env, b, at);
      (s.(store := Saved(s.store, r),
          workers := s.workers[b.id := Worker(Scheduled, false, false, None, None)],
          rules := s.rules[b.id := b.rules]), Created(r))
  }

  /** The broker's own lookup, which compares capability and version but not the fingerprint. */
  function BrokerPrior(records: seq<Record>, q: JobRequest): (r: Option<nat>)
    ensures r.Some? ==> r.value < |records| && records[r.value].job.Some? && SameKey(records[r.value].job.value, q)
    ensures r.Some? ==>
      records[r.value].job.value.capabilityId == q.capabilityId && records[r.value].job.value.capabilityVersion == q.capabilityVersion
    ensures r.None? ==> forall k :: 0 <= k < |records| && records[k].job.Some? && SameKey(records[k].job.value, q) ==>
      records[k].job.value.capabilityId != q.capabilityId || records[k].job.value.capabilityVersion != q.capabilityVersion
  {
    if records == [] then None
    else if records[0].job.Some? && SameKey(records[0].job.value, q)
            && records[0].job.value.capabilityId == q.capabilityId
            && records[0].job.value.capabilityVersion == q.capabilityVersion then Some(0)
    else match BrokerPrior(records[1..], q) case None => None case Some(i) => Some(i + 1)
  }

  function OwnedRoots(b: Submission): set<nat>
  {
    if b.root.Some? then {b.root.value} else {}
  }

  /** `CapabilityBroker.run`: the output root it creates is removed again unless a job now owns it. */
  function RunBroker(env: Env, s: Engine, b: Submission, at: int): (Engine, Outcome)
  {
    var holding := s.(roots := s.roots + OwnedRoots(b));
    var closed := s.(roots := holding.roots - OwnedRoots(b));
    var prior := BrokerPrior(s.store, b.request);
    if !b.authorized then (closed, Unauthorized)
    else if prior.Some? then (closed, Existing(s.store[prior.value]))
    else
      var (submitted, outcome) := SubmitJob(env, holding, b, at);
      if outcome.Created? || outcome.Existing? then (submitted, outcome)
      else (submitted.(roots := submitted.roots - OwnedRoots(b)), outcome)
  }

  // ------------------------------------------------------- the worker

  function Retired(s: Engine, id: nat): Engine
  {
    s.(workers := s.workers - {id})
  }

  function StartWorker(s: Engine, id: nat, at: int): Engine
    requires id in s.workers
  {
    if !Unended(s, id) || JobOf(s, id).lifecycle != Queued then Retired(s, id)
    else
      var r := RecordOf(s, id);
      var started := r.(state := ExecRunning, updatedAt := at,
                        job := Some(r.job.value.(lifecycle := Running, startedAt := Some(at), step := AtRunning)));
      s.(store := Saved(s.store, started), workers := s.workers[id := s.workers[id].(stage := AwaitingHandler)])
  }

  function ReportedStep(s: Engine, id: nat, step: Str, at: int): Engine
  {
    if !BoundedString(step) || !Unended(s, id) then s
    else
      var r := RecordOf(s, id);
      s.(store := Saved(s.store, r.(updatedAt := at, job := Some(r.job.value.(step := Reported(step))))))
  }

  /** The first promise of a race to settle decides it. */
  function Settle(w: Worker, result: HandlerResult): Worker
  {
    if w.settled.None? then w.(settled := Some(result)) else w
  }

  /** `controller.abort()`: the listener settles the race with a cancellation unless the timer fired first. */
  function Aborted(w: Worker): Worker
  {
    if w.aborted then w
    else if w.stage == Scheduled then w.(aborted := true)
    else Settle(w, CancelledResult(JobCancelled)).(aborted := true)
  }

  function TimedOut(w: Worker): Worker
  {
    Settle(w, FailureResult(JobTimeout)).(aborted := true, timedOut := true)
  }

  function FinalResult(w: Worker): HandlerResult
    requires w.settled.Some?
  {
    if w.timedOut then FailureResult(JobTimeout)
    else if w.aborted then CancelledResult(JobCancelled)
    else w.settled.value
  }

  /** The worker continues after its race settled: it enters validation or stores its final result. */
  function ResumeWorker(env: Env, s: Engine, id: nat, at: int, listed: Listing): Engine
    requires id in s.workers && s.workers[id].settled.Some?
  {
    var w := s.workers[id];
    if w.stage == AwaitingHandler && !w.timedOut && !w.aborted && w.settled.value.status == Succeeded && Unended(s, id) then
      var r := RecordOf(s, id);
      var validating := r.(state := ExecCompleting, updatedAt := at,
                           job := Some(r.job.value.(lifecycle := Validating, step := AtValidating)));
      s.(store := Saved(s.store, validating),
         workers := s.workers[id := w.(stage := AwaitingEnforcement, settled := None, handler := w.settled)])
    else
      Retired(EndJob(env, s, id, FinalResult(w), at, listed), id)
  }

  function FaultWorker(env: Env, s: Engine, id: nat, recorded: bool, at: int): Engine
  {
    Retired(if recorded then EndJob(env, s, id, FailureResult(JobPersistenceFailed), at, None) else s, id)
  }

  // ------------------------------------------------------- cancelling

  predicate LookupMatches(j: Job, lookup: Lookup)
  {
    && j.sourceId == lookup.sourceId && j.sessionId == lookup.sessionId
    && j.runId == lookup.runId && j.requestId == lookup.requestId
  }

  /** The call is accepted and the job is not terminal. */
  predicate CancelAccepted(s: Engine, id: nat, lookup: Lookup)
  {
    Unended(s, id) && LookupMatches(JobOf(s, id), lookup)
  }

  function CancelJob(env: Env, s: Engine, id: nat, lookup: Lookup, at: int): Engine
  {
    if !CancelAccepted(s, id, lookup) then s
    else
      var r := RecordOf(s, id);
      var asked := r.(updatedAt := at, job := Some(r.job.value.(cancelRequestedAt := Some(at))));
      if r.job.value.lifecycle == Queued then
        var ended := EndedRecord(env, asked, CancelledResult(JobCancelled), at, None).(auditReferences := r.auditReferences);
        s.(store := Saved(s.store, ended), roots := s.roots - Removed(r, ended))
      else
        var cancelling := asked.(job := Some(asked.job.value.(lifecycle := Cancelling, step := AtCancelling)));
        var t := s.(store := Saved(s.store, cancelling));
        if id in s.workers then t.(workers := s.workers[id := Aborted(s.workers[id])])
        else EndJob(env, t, id, CancelledResult(WorkerNotActive), at, None)
  }

  // ------------------------------------------------------- recovery

  predicate Lost(r: Record)
  {
    r.job.Some? && (r.job.value.lifecycle == Running || r.job.value.lifecycle == Cancelling)
  }

  function RecoveredJob(env: Env, r: Record, at: int): Record
  {
    if Lost(r) then EndedRecord(env, r, FailureResult(WorkerLost), at, None) else r
  }

  function Mapped(f: Record -> Record, records: seq<Record>): (r: seq<Record>)
    ensures |r| == |records|
    ensures forall i :: 0 <= i < |r| ==> r[i] == f(records[i])
  {
    seq(|records|, i requires 0 <= i < |records| => f(records[i]))
  }

  /** Output roots removed by rewriting the records of the store. */
  function RemovedRoots(before: seq<Record>, after: seq<Record>): set<nat>
    requires |before| == |after|
  {
    if before == [] then {}
    else
      var n := |before| - 1;
      RemovedRoots(before[..n], after[..n]) + Removed(before[n], after[n])
  }

  lemma {:induction false} RemovedMembership(before: seq<Record>, after: seq<Record>, x: nat)
    requires |before| == |after|
    ensures x in RemovedRoots(before, after) <==> exists i :: 0 <= i < |before| && x in Removed(before[i], after[i])
  {
    if before != [] {
      var n := |before| - 1;
      RemovedMembership(before[..n], after[..n], x);
      forall i | 0 <= i < |before| && x in Removed(before[i], after[i]) ensures x in RemovedRoots(before, after) {
        if i < n { assert x in Removed(before[..n][i], after[..n][i]); }
      }
      if x in RemovedRoots(before[..n], after[..n]) {
        var i :| 0 <= i < n && x in Removed(before[..n][i], after[..n][i]);
        assert x in Removed(before[i], after[i]);
      }
    }
  }

  function Rewritten(s: Engine, f: Record -> Record): Engine
  {
    var records := Mapped(f, s.store);
    s.(store := records, roots := s.roots - RemovedRoots(s.store, records))
  }

  /** The rewriting `recoverCapabilityJobs` applies to each record. */
  function LosingWorkers(env: Env, at: int): Record -> Record
  {
    (r: Record) => RecoveredJob(env, r, at)
  }

  /** `recoverCapabilityJobs`. */
  function RecoverAllJobs(env: Env, s: Engine, at: int): Engine
  {
    Rewritten(s, LosingWorkers(env, at))
  }

  function RecoveredRecord(r: Record, providerValid: nat -> bool, capabilityValid: nat -> bool, at: int): Record
  {
    if !ActiveState(r.state) then r
    else if !providerValid(r.id) || !capabilityValid(r.id) then r.(state := ExecFailed, updatedAt := at)
    else r.(state := ExecRecovered, updatedAt := at)
  }

  /** The rewriting the rest of `recoverCapabilityRuntime` applies to each record. */
  function Recovering(providerValid: nat -> bool, capabilityValid: nat -> bool, at: int): Record -> Record
  {
    (r: Record) => RecoveredRecord(r, providerValid, capabilityValid, at)
  }

  /** `recoverCapabilityRuntime`. */
  function RecoverAll(env: Env, s: Engine, providerValid: nat -> bool, capabilityValid: nat -> bool, keep: nat, at: int): Engine
  {
    var t := Rewritten(RecoverAllJobs(env, s, at), Recovering(providerValid, capabilityValid, at));
    t.(store := Last(keep, t.store))
  }

  // ------------------------------------------------------- maintenance

  function MaintainedRecord(r: Record, at: int): Record
  {
    if r.job.None? || r.job.value.artifact.None? || r.job.value.root.None? then r
    else
      var j := r.job.value;
      var a := j.artifact.value;
      if a.state == Available && a.retainedUntil <= at then
        r.(updatedAt := at, job := Some(j.(artifact := Some(a.(state := Expired)))))
      else if a.state == Pending && j.lifecycle.Ended? then
        var target := if j.lifecycle.status == Status.Cancelled then CancelledOutput else FailedOutput;
        r.(updatedAt := at, job := Some(j.(artifact := Some(Finalized(a, target, None)))))
      else r
  }

  /** The rewriting `maintainCapabilityJobArtifacts` applies to each record. */
  function Maintaining(at: int): Record -> Record
  {
    (r: Record) => MaintainedRecord(r, at)
  }

  /** `maintainCapabilityJobArtifacts`. */
  function MaintainAllArtifacts(s: Engine, at: int): Engine
  {
    Rewritten(s, Maintaining(at))
  }

  predicate Doomed(r: Record, cutoff: int)
  {
    !ActiveState(r.state) && r.updatedAt < cutoff
  }

  function Retained(records: seq<Record>, cutoff: int): (r: seq<Record>)
    ensures |r| <= |records|
  {
    if records == [] then []
    else
      var n := |records| - 1;
      Retained(records[..n], cutoff) + if Doomed(records[n], cutoff) then [] else [records[n]]
  }

  lemma {:induction false} RetainedMembership(records: seq<Record>, cutoff: int)
    ensures forall x :: x in Retained(records, cutoff) <==> x in records && !Doomed(x, cutoff)
  {
    if records != [] {
      var n := |records| - 1;
      RetainedMembership(records[..n], cutoff);
      assert forall x :: x in records <==> x == records[n] || x in records[..n];
    }
  }

  /** Removal of the old terminal records, and of the oldest ones above the limit. */
  function Trimmed(s: Engine, cutoff: int, keep: nat): Engine
  {
    s.(store := Last(keep, Retained(s.store, cutoff)))
  }

  /** `maintainCapabilityRuntime`. */
  function MaintainAll(s: Engine, retentionMs: int, keep: nat, at: int): Engine
  {
    Trimmed(MaintainAllArtifacts(s, at), at - retentionMs, keep)
  }

  // ------------------------------------------------------- runs

  /** Fresh identities and a clock that does not run backwards. */
  ghost predicate Legal(s: Engine, e: Timed)
  {
    && s.clock <= e.at
    && match e.event
       case BrokerRun(b) =>
         && b.id !in s.rules && Find(s.store, b.id).None?
         && (b.root.Some? ==>
               && b.root.value !in s.roots
               && forall r :: r in s.store && r.job.Some? ==> r.job.value.root != b.root)
       case RecoverRuntime(_, _, keep) => keep >= 1
       case MaintainRuntime(_, keep) => keep >= 1
       case SaveExecution(r) => r.job.None? && r.id !in s.rules && r.createdAt <= r.updatedAt <= e.at
       case _ => true
  }

  function Effect(env: Env, s: Engine, event: Event, at: int): Engine
  {
    match event
    case BrokerRun(b) => RunBroker(env, s, b, at).0
    case WorkerStarts(id) =>
      if id in s.workers && s.workers[id].stage == Scheduled then StartWorker(s, id, at) else s
    case ReportStep(id, step) => ReportedStep(s, id, step, at)
    case HandlerSettles(id, result) =>
      if id in s.workers && s.workers[id].stage == AwaitingHandler
      then s.(workers := s.workers[id := Settle(s.workers[id], result)]) else s
    case EnforcementSettles(id, verdict) =>
      if id in s.workers && s.workers[id].stage == AwaitingEnforcement && s.workers[id].handler.Some? && id in s.rules
      then s.(workers := s.workers[id :=
        Settle(s.workers[id], Enforced(s.rules[id], env.bytes, verdict, s.workers[id].handler.value))])
      else s
    case TimerFires(id) =>
      if id in s.workers && s.workers[id].stage != Scheduled
      then s.(workers := s.workers[id := TimedOut(s.workers[id])]) else s
    case WorkerResumes(id, output) =>
      if id in s.workers && s.workers[id].stage != Scheduled && s.workers[id].settled.Some?
      then ResumeWorker(env, s, id, at, Listed(output)) else s
    case WorkerFaults(id, recorded) =>
      if id in s.workers then FaultWorker(env, s, id, recorded, at) else s
    case Cancel(id, lookup) => CancelJob(env, s, id, lookup, at)
    case Restart => s.(workers := map[])
    case RecoverJobs => RecoverAllJobs(env, s, at)
    case RecoverRuntime(p, c, keep) => RecoverAll(env, s, p, c, keep, at)
    case MaintainArtifacts => MaintainAllArtifacts(s, at)
    case MaintainRuntime(retentionMs, keep) => MaintainAll(s, retentionMs, keep, at)
    case SaveExecution(r) => s.(store := Saved(s.store, r))
  }

  /** One step; an event that cannot happen changes nothing. */
  ghost function Next(env: Env, s: Engine, e: Timed): Engine
  {
    if Legal(s, e) then Effect(env, s.(clock := e.at), e.event, e.at) else s
  }

  const INITIAL := Engine([], map[], {}, 0, map[])

  ghost function RunFrom(env: Env, s: Engine, events: seq<Timed>): Engine
  {
    if events == [] then s
    else Next(env, RunFrom(env, s, events[..|events| - 1]), events[|events| - 1])
  }

  ghost function Run(env: Env, events: seq<Timed>): Engine
  {
    RunFrom(env, INITIAL, events)
  }
}
